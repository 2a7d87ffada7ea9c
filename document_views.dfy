/**
 * The documents endpoint (backend/documents/views.py): every query is
 * restricted to the requester's documents and every new document is
 * stamped with the requester as its owner. The database table is a
 * sequence of rows; users are identified by username.
 */
module DocumentViews {

  /** One row of the documents table. */
  datatype Record = Record(id: int, owner: string, title: string, content: string)

  /** `Document.objects.filter(owner=user)`: the requester's rows, in table order. */
  function Queryset(table: seq<Record>, user: string): (r: seq<Record>)
    ensures |r| <= |table|
    ensures forall i :: 0 <= i < |r| ==> r[i] in table && r[i].owner == user
    ensures forall i :: 0 <= i < |table| && table[i].owner == user ==> table[i] in r
  {
    if table == [] then []
    else (if table[0].owner == user then [table[0]] else []) + Queryset(table[1..], user)
  }

  /** Filtering distributes over a table split in two. */
  lemma {:induction false} QuerysetAppend(a: seq<Record>, b: seq<Record>, user: string)
    ensures Queryset(a + b, user) == Queryset(a, user) + Queryset(b, user)
  {
    if a != [] {
      assert (a + b)[1..] == a[1..] + b;
      QuerysetAppend(a[1..], b, user);
    } else {
      assert a + b == b;
    }
  }

  /** Rows carry primary keys: positive and strictly increasing in insertion order. */
  ghost predicate KeysIncreasing(rows: seq<Record>) {
    (forall i :: 0 <= i < |rows| ==> 1 <= rows[i].id)
    && (forall i, j :: 0 <= i < j < |rows| ==> rows[i].id < rows[j].id)
  }

  /** The documents table, with the next primary key the database will assign. */
  class DocumentTable {
    var rows: seq<Record>
    var nextId: int

    ghost predicate Valid()
      reads this
    {
      KeysIncreasing(rows) && 1 <= nextId
      && forall i :: 0 <= i < |rows| ==> rows[i].id < nextId
    }

    /** An empty table whose first key will be 1. */
    constructor ()
      ensures Valid() && rows == [] && nextId == 1
    {
      rows, nextId := [], 1;
    }

    /**
     * `perform_create`: saves exactly one new row, owned by the requester,
     * under a fresh key; every existing row is kept as it was.
     */
    method PerformCreate(user: string, title: string, content: string) returns (created: Record)
      requires Valid()
      modifies this
      ensures Valid()
      ensures created == Record(old(nextId), user, title, content)
      ensures rows == old(rows) + [created]
      ensures forall i :: 0 <= i < |old(rows)| ==> old(rows)[i].id != created.id
      ensures Queryset(rows, user) == Queryset(old(rows), user) + [created]
      ensures forall other :: other != user ==> Queryset(rows, other) == Queryset(old(rows), other)
    {
      created := Record(nextId, user, title, content);
      QuerysetAppend(rows, [created], user);
      forall other | other != user
        ensures Queryset(rows + [created], other) == Queryset(rows, other)
      {
        QuerysetAppend(rows, [created], other);
      }
      rows := rows + [created];
      nextId := nextId + 1;
    }
  }
}
