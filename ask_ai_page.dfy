/**
 * The question page (frontend/src/app/components/AskAIPage.tsx): one
 * question about one document, the answer card and the suggestion list.
 * Asking is split at its `await` into StartAsk and SettleAsk.
 */
module AskAIPage {
  import opened Wrappers
  import opened Text

  /** The canned questions shown while there is no answer. */
  const Suggestions: seq<string> := [
    "Summarize the main points",
    "What are the key takeaways?",
    "Explain this in simpler terms",
    "What questions does this raise?"
  ]

  /** The request `askAI(documentId, question)` sends. */
  datatype AskCall = AskCall(documentId: int, question: string)

  /** The body of a successful ask response. */
  datatype AskReply = AskReply(answer: string)

  /** What the answer card shows: placeholder bars while loading, else the answer. */
  datatype CardBody = Skeleton | AnswerText(text: string)

  /** The lower part of the page: the answer card or the suggestions, never both. */
  datatype Panel = ResponseCard(body: CardBody) | SuggestionList(items: seq<string>)

  /**
   * The visibility rules: the answer card shows exactly when there is an
   * answer or a call is pending, the suggestions exactly when neither holds.
   */
  function PanelFor(response: string, isLoading: bool): (p: Panel)
    ensures p.ResponseCard? <==> response != "" || isLoading
    ensures p.SuggestionList? <==> response == "" && !isLoading
    ensures p.ResponseCard? ==> (p.body.Skeleton? <==> isLoading)
    ensures p.ResponseCard? && !isLoading ==> p.body == AnswerText(response)
    ensures p.SuggestionList? ==> p.items == Suggestions
  {
    if response != "" || isLoading then
      ResponseCard(if isLoading then Skeleton else AnswerText(response))
    else
      SuggestionList(Suggestions)
  }

  /**
   * The Ask button: disabled while the trimmed question is empty and, through
   * the Button component, while a call is pending.
   */
  function AskDisabled(question: string, isLoading: bool): (r: bool)
    ensures AllTrimmable(question) ==> r
    ensures !r <==> !AllTrimmable(question) && !isLoading
  {
    BlankIffAllTrimmable(question);
    IsBlank(question) || isLoading
  }

  class AskForm {
    const documentId: int
    var question: string
    var response: string
    var isLoading: bool

    /** Opening the page for a document: no question, no answer, idle. */
    constructor (documentId: int)
      ensures this.documentId == documentId
      ensures question == "" && response == "" && !isLoading
    {
      this.documentId := documentId;
      question, response, isLoading := "", "", false;
    }

    /** The question field's change handler. */
    method SetQuestion(value: string)
      modifies this
      ensures question == value && response == old(response) && isLoading == old(isLoading)
    {
      question := value;
    }

    /** Clicking suggestion `i`: the question becomes exactly that text; nothing else changes. */
    method ChooseSuggestion(i: nat)
      requires i < |Suggestions|
      modifies this
      ensures question == Suggestions[i]
      ensures response == old(response) && isLoading == old(isLoading)
    {
      question := Suggestions[i];
    }

    /** The lower panel as currently rendered. */
    function Panel(): Panel
      reads this
    {
      PanelFor(response, isLoading)
    }

    /**
     * `handleAsk` up to the `await`: a whitespace-only question stops it
     * with nothing changed; otherwise loading starts, the previous answer
     * is cleared and the question is sent, untrimmed, with the document id.
     */
    method StartAsk() returns (call: Option<AskCall>)
      modifies this
      ensures call.None? <==> AllTrimmable(question)
      ensures call.None? ==> response == old(response) && isLoading == old(isLoading)
      ensures call.Some? ==> call.value == AskCall(documentId, question) && isLoading && response == ""
      ensures question == old(question)
    {
      BlankIffAllTrimmable(question);
      if IsBlank(question) {
        return None;
      }
      isLoading := true;
      response := "";
      call := Some(AskCall(documentId, question));
    }

    /**
     * `handleAsk` from the `await` on: a resolved call shows its answer;
     * a rejected one leaves the answer as it was and records no error;
     * loading ends either way.
     */
    method SettleAsk(reply: Settled<AskReply>)
      modifies this
      ensures !isLoading
      ensures response == if reply.Resolved? then reply.value.answer else old(response)
      ensures question == old(question)
    {
      if reply.Resolved? {
        response := reply.value.answer;
      }
      isLoading := false;
    }

    /**
     * A whole ask: after a call the page shows the answer, or, on failure,
     * the suggestions again, as if nothing had been asked.
     */
    method Ask(reply: Settled<AskReply>) returns (call: Option<AskCall>)
      modifies this
      ensures call.None? <==> AllTrimmable(old(question))
      ensures call.None? ==> response == old(response) && isLoading == old(isLoading)
      ensures call.Some? ==> call.value == AskCall(documentId, old(question)) && !isLoading
                             && response == (if reply.Resolved? then reply.value.answer else "")
      ensures call.Some? && reply.Rejected? ==> Panel() == SuggestionList(Suggestions)
      ensures question == old(question)
    {
      call := StartAsk();
      if call.Some? {
        SettleAsk(reply);
      }
    }
  }
}
