/** The document shape the client holds, and lookup of a document by id. */
module Docs {
  import opened Wrappers

  /** A document as the list endpoint returns it. */
  datatype Document = Document(id: int, title: string, content: string, createdAt: string)

  /** `docs.find((doc) => doc.id === id)`: the first entry carrying `id`, if any. */
  function FirstWithId(docs: seq<Document>, id: int): (r: Option<Document>)
    ensures r.None? <==> forall i :: 0 <= i < |docs| ==> docs[i].id != id
    ensures r.Some? ==> exists i :: 0 <= i < |docs| && docs[i] == r.value && r.value.id == id
                          && forall j :: 0 <= j < i ==> docs[j].id != id
  {
    if docs == [] then None
    else if docs[0].id == id then Some(docs[0])
    else
      var r := FirstWithId(docs[1..], id);
      assert r.Some? ==> exists i :: 1 <= i < |docs| && docs[i] == r.value && r.value.id == id
                            && forall j :: 0 <= j < i ==> docs[j].id != id by {
        if r.Some? {
          var k :| 0 <= k < |docs[1..]| && docs[1..][k] == r.value && r.value.id == id
                   && forall j :: 0 <= j < k ==> docs[1..][j].id != id;
          assert docs[k + 1] == r.value;
        }
      }
      r
  }
}
