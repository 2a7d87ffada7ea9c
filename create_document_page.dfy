/**
 * The editor (frontend/src/app/components/CreateDocumentPage.tsx), used both
 * to create a document and to edit an existing one. Saving is split at its
 * `await` into StartSave and SettleSave.
 */
module CreateDocumentPage {
  import opened Wrappers
  import opened Text

  /** The `existingDocument` prop: present when the page edits a document. */
  datatype ExistingDocument = ExistingDocument(id: int, title: string, content: string)

  /** The backend call a save makes: `createDocument` or `updateDocument`. */
  datatype SaveCall =
    | CreateCall(title: string, content: string)
    | UpdateCall(id: int, title: string, content: string)

  /**
   * The call `handleSave` makes for the given fields: none when either
   * field is whitespace only, an update of the existing document when
   * there is one, and a create otherwise.
   */
  function SaveRequest(existing: Option<ExistingDocument>, title: string, content: string)
    : (r: Option<SaveCall>)
    ensures r.None? <==> AllTrimmable(title) || AllTrimmable(content)
    ensures r.Some? && existing.Some? ==> r.value == UpdateCall(existing.value.id, title, content)
    ensures r.Some? && existing.None? ==> r.value == CreateCall(title, content)
  {
    BlankIffAllTrimmable(title);
    BlankIffAllTrimmable(content);
    if IsBlank(title) || IsBlank(content) then None
    else if existing.Some? then Some(UpdateCall(existing.value.id, title, content))
    else Some(CreateCall(title, content))
  }

  /**
   * Both save buttons: disabled while either trimmed field is empty, and,
   * through the Button component, while a save is in progress.
   */
  function SaveDisabled(title: string, content: string, isSaving: bool): (r: bool)
    ensures !r <==> !AllTrimmable(title) && !AllTrimmable(content) && !isSaving
  {
    BlankIffAllTrimmable(title);
    BlankIffAllTrimmable(content);
    IsBlank(title) || IsBlank(content) || isSaving
  }

  /**
   * The button and the handler agree: a click on an enabled button always
   * reaches a backend call, and whenever the handler's guard would stop a
   * save the buttons are already disabled.
   */
  lemma EnabledButtonSaves(existing: Option<ExistingDocument>, title: string, content: string, isSaving: bool)
    ensures !SaveDisabled(title, content, isSaving) ==> SaveRequest(existing, title, content).Some?
    ensures SaveRequest(existing, title, content).None? ==> SaveDisabled(title, content, isSaving)
  {
  }

  class EditorForm {
    const existing: Option<ExistingDocument>
    var title: string
    var content: string
    var isSaving: bool

    /** Opening the page: the fields start from the document being edited, or empty. */
    constructor (existing: Option<ExistingDocument>)
      ensures this.existing == existing
      ensures title == (if existing.Some? then existing.value.title else "")
      ensures content == (if existing.Some? then existing.value.content else "")
      ensures !isSaving
    {
      this.existing := existing;
      title := if existing.Some? then existing.value.title else "";
      content := if existing.Some? then existing.value.content else "";
      isSaving := false;
    }

    /** The change handlers of the two fields. */
    method SetFields(newTitle: string, newContent: string)
      modifies this
      ensures title == newTitle && content == newContent && isSaving == old(isSaving)
    {
      title, content := newTitle, newContent;
    }

    /** Whether the save buttons are disabled right now. */
    predicate SaveButtonDisabled()
      reads this
    {
      SaveDisabled(title, content, isSaving)
    }

    /**
     * `handleSave` up to the `await`: a blank field stops it with nothing
     * changed; otherwise the page enters the saving state and makes
     * exactly one call, an update when editing and a create otherwise.
     * The guard does not look at `isSaving`: only the disabled buttons
     * keep a second save from starting.
     */
    method StartSave() returns (call: Option<SaveCall>)
      modifies this
      ensures call == SaveRequest(existing, title, content)
      ensures call.None? ==> isSaving == old(isSaving)
      ensures call.Some? ==> isSaving
      ensures title == old(title) && content == old(content)
    {
      BlankIffAllTrimmable(title);
      BlankIffAllTrimmable(content);
      if IsBlank(title) || IsBlank(content) {
        return None;
      }
      isSaving := true;
      if existing.Some? {
        call := Some(UpdateCall(existing.value.id, title, content));
      } else {
        call := Some(CreateCall(title, content));
      }
    }

    /**
     * `handleSave` from the `await` on: `onBack` runs only when the call
     * resolved; the saving state ends either way (the `finally` block),
     * and a rejection propagates without navigating.
     */
    method SettleSave(reply: Settled<()>) returns (back: bool)
      modifies this
      ensures back <==> reply.Resolved?
      ensures !isSaving
      ensures title == old(title) && content == old(content)
    {
      back := reply.Resolved?;
      isSaving := false;
    }

    /** A whole save: no call, or one call followed by the end of the saving state. */
    method Save(reply: Settled<()>) returns (call: Option<SaveCall>, back: bool)
      modifies this
      ensures call == SaveRequest(existing, old(title), old(content))
      ensures call.None? ==> !back && isSaving == old(isSaving)
      ensures call.Some? ==> !isSaving && (back <==> reply.Resolved?)
      ensures title == old(title) && content == old(content)
    {
      back := false;
      call := StartSave();
      if call.Some? {
        back := SettleSave(reply);
      }
    }
  }
}
