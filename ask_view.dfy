/**
 * The question endpoint (backend/ai_engine/views.py, `AskAPIView.post`):
 * validate the two fields, look the document up among the requester's own,
 * and answer with the QA graph. The graph is an arbitrary function of the
 * document's content and the question.
 */
module AskView {
  import opened Wrappers
  import opened DocumentViews

  const FieldsRequired: string := "document_id and question are required"
  const DocumentNotFound: string := "Document not found"

  /** The two fields of the request body; `None` when absent or `null`. */
  datatype AskData = AskData(documentId: Option<int>, question: Option<string>)

  datatype Body = ErrorBody(error: string) | AnswerBody(answer: string)

  datatype Response = Response(status: int, body: Body)

  /** Python truthiness of an integer field: present and not 0. */
  predicate TruthyId(v: Option<int>) {
    v.Some? && v.value != 0
  }

  /** `Document.objects.get(id=id, owner=user)`: the row with that key and owner, if any. */
  function Lookup(table: seq<Record>, id: int, user: string): (r: Option<Record>)
    ensures r.Some? ==> r.value in table && r.value.id == id && r.value.owner == user
    ensures r.None? <==> forall i :: 0 <= i < |table| ==> table[i].id != id || table[i].owner != user
  {
    if table == [] then None
    else if table[0].id == id && table[0].owner == user then Some(table[0])
    else Lookup(table[1..], id, user)
  }

  /** Looking a document up by id and owner finds the same row in the owner's queryset. */
  lemma {:induction false} LookupWithinQueryset(table: seq<Record>, id: int, user: string)
    ensures Lookup(table, id, user) == Lookup(Queryset(table, user), id, user)
  {
    if table != [] {
      LookupWithinQueryset(table[1..], id, user);
      if table[0].owner == user {
        assert Queryset(table, user) == [table[0]] + Queryset(table[1..], user);
        assert ([table[0]] + Queryset(table[1..], user))[1..] == Queryset(table[1..], user);
      } else {
        assert Queryset(table, user) == Queryset(table[1..], user);
      }
    }
  }

  /** `post(request)` for a request from `user`, over the documents `table`. */
  function Post(data: AskData, user: string, table: seq<Record>, qa: (string, string) -> string)
    : (r: Response)
    ensures r.status == 400 || r.status == 404 || r.status == 200
    ensures r.status == 400 <==> !TruthyId(data.documentId) || !TruthyString(data.question)
    ensures r.status == 400 ==> r.body == ErrorBody(FieldsRequired)
    ensures r.status == 404 <==> r.status != 400 && forall i :: 0 <= i < |table| ==>
                                  table[i].id != data.documentId.value || table[i].owner != user
    ensures r.status == 404 ==> r.body == ErrorBody(DocumentNotFound)
    ensures r.status == 200 ==> exists i :: 0 <= i < |table| && table[i].id == data.documentId.value
                                  && table[i].owner == user
                                  && r.body == AnswerBody(qa(table[i].content, data.question.value))
  {
    if !TruthyId(data.documentId) || !TruthyString(data.question) then
      Response(400, ErrorBody(FieldsRequired))
    else
      match Lookup(table, data.documentId.value, user)
      case None => Response(404, ErrorBody(DocumentNotFound))
      case Some(doc) => Response(200, AnswerBody(qa(doc.content, data.question.value)))
  }

  /**
   * The answer depends only on the requester's own documents: two tables
   * that give the requester the same queryset give the same response,
   * whatever other users' documents they hold.
   */
  lemma AnswerSeesOnlyOwnDocuments(data: AskData, user: string, t1: seq<Record>, t2: seq<Record>,
                                   qa: (string, string) -> string)
    requires Queryset(t1, user) == Queryset(t2, user)
    ensures Post(data, user, t1, qa) == Post(data, user, t2, qa)
  {
    if TruthyId(data.documentId) && TruthyString(data.question) {
      LookupWithinQueryset(t1, data.documentId.value, user);
      LookupWithinQueryset(t2, data.documentId.value, user);
    }
  }

  /** The field check comes first: a request missing a field gets 400 whatever the table and graph. */
  lemma BadRequestIgnoresTable(data: AskData, user: string, t1: seq<Record>, t2: seq<Record>,
                               qa1: (string, string) -> string, qa2: (string, string) -> string)
    requires !TruthyId(data.documentId) || !TruthyString(data.question)
    ensures Post(data, user, t1, qa1) == Post(data, user, t2, qa2) == Response(400, ErrorBody(FieldsRequired))
  {
  }

  /** Another user's document is never found: asking about it gives 404, even though it exists. */
  lemma ForeignDocumentNotFound(data: AskData, user: string, table: seq<Record>, qa: (string, string) -> string)
    requires TruthyId(data.documentId) && TruthyString(data.question)
    requires forall i :: 0 <= i < |table| && table[i].id == data.documentId.value ==> table[i].owner != user
    ensures Post(data, user, table, qa) == Response(404, ErrorBody(DocumentNotFound))
  {
  }
}
