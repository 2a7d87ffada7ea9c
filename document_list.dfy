/**
 * The document list as it travels from the server to the client: the list
 * endpoint returns the requester's queryset, and the root component selects
 * an entry by its id (frontend/src/app/App.tsx, `selectedDocument`). The
 * server's keys are positive and distinct, so the client's truthiness test
 * and its first-match lookup never lose or confuse a listed document.
 */
module DocumentList {
  import opened Wrappers
  import opened Docs
  import opened DocumentViews
  import App

  /** The client's list mirrors the rows it was serialised from, in order. */
  ghost predicate ListedFrom(docs: seq<Document>, rows: seq<Record>) {
    |docs| == |rows|
    && forall i :: 0 <= i < |rows| ==>
         docs[i].id == rows[i].id && docs[i].title == rows[i].title && docs[i].content == rows[i].content
  }

  /** A row with a smaller positive key than every row of an increasing table extends it. */
  lemma PrependKeepsKeysIncreasing(first: Record, rest: seq<Record>)
    requires KeysIncreasing(rest) && 1 <= first.id
    requires forall k :: 0 <= k < |rest| ==> first.id < rest[k].id
    ensures KeysIncreasing([first] + rest)
  {
    var q := [first] + rest;
    forall i, j | 0 <= i < j < |q|
      ensures q[i].id < q[j].id
    {
      assert q[j] == rest[j - 1];
    }
  }

  /** Filtering by owner, read in table order, keeps the keys positive and increasing. */
  lemma {:induction false} QuerysetKeysIncreasing(rows: seq<Record>, user: string)
    requires KeysIncreasing(rows)
    ensures KeysIncreasing(Queryset(rows, user))
  {
    if rows != [] {
      var rest := rows[1..];
      var tail := Queryset(rest, user);
      assert KeysIncreasing(rest);
      QuerysetKeysIncreasing(rest, user);
      if rows[0].owner == user {
        forall k | 0 <= k < |tail|
          ensures rows[0].id < tail[k].id
        {
          assert tail[k] in rest;
          var m :| 0 <= m < |rest| && rest[m] == tail[k];
          assert rows[m + 1] == tail[k];
        }
        PrependKeepsKeysIncreasing(rows[0], tail);
        assert Queryset(rows, user) == [rows[0]] + tail;
      } else {
        assert Queryset(rows, user) == tail;
      }
    }
  }

  /** No two rows share a key. */
  ghost predicate KeysDistinct(rows: seq<Record>) {
    forall i, j :: 0 <= i < |rows| && 0 <= j < |rows| && i != j ==> rows[i].id != rows[j].id
  }

  /** Strictly increasing keys are distinct. */
  lemma IncreasingKeysDistinct(rows: seq<Record>)
    requires KeysIncreasing(rows)
    ensures KeysDistinct(rows)
  {
    forall i, j | 0 <= i < |rows| && 0 <= j < |rows| && i != j
      ensures rows[i].id != rows[j].id
    {
      if i < j {
        assert rows[i].id < rows[j].id;
      } else {
        assert rows[j].id < rows[i].id;
      }
    }
  }

  /** Removing one row keeps the remaining keys distinct. */
  lemma RemovalKeepsKeysDistinct(p: seq<Record>, m: nat)
    requires m < |p| && KeysDistinct(p)
    ensures KeysDistinct(p[..m] + p[m + 1..])
  {
    var rest := p[..m] + p[m + 1..];
    forall i, j | 0 <= i < |rest| && 0 <= j < |rest| && i != j
      ensures rest[i].id != rest[j].id
    {
      var i' := if i < m then i else i + 1;
      var j' := if j < m then j else j + 1;
      assert rest[i] == p[i'] && rest[j] == p[j'];
    }
  }

  /** Taking row `m` out of a table takes exactly one copy of it out of the table's multiset. */
  lemma RemovalMultiset(p: seq<Record>, m: nat)
    requires m < |p|
    ensures multiset(p[..m] + p[m + 1..]) + multiset{p[m]} == multiset(p)
  {
    assert p == p[..m] + [p[m]] + p[m + 1..];
  }

  /** With distinct keys, no row left after removing row `m` shares its key. */
  lemma RemovedKeyAbsent(p: seq<Record>, m: nat, y: Record)
    requires m < |p| && KeysDistinct(p)
    requires y in multiset(p[..m] + p[m + 1..])
    ensures y.id != p[m].id
  {
    var rest := p[..m] + p[m + 1..];
    var n :| 0 <= n < |rest| && rest[n] == y;
    var n' := if n < m then n else n + 1;
    assert p[n'] == y && n' != m;
  }

  /** Taking the same row out of two equal multisets leaves equal multisets. */
  lemma MultisetCancel(a: multiset<Record>, b: multiset<Record>, x: Record)
    requires a + multiset{x} == b + multiset{x}
    ensures a == b
  {
    forall y
      ensures a[y] == b[y]
    {
      assert (a + multiset{x})[y] == (b + multiset{x})[y];
    }
  }

  /** A first row whose key no later row has extends a table with distinct keys. */
  lemma ConsKeysDistinct(q: seq<Record>)
    requires q != [] && KeysDistinct(q[1..])
    requires forall k :: 1 <= k < |q| ==> q[k].id != q[0].id
    ensures KeysDistinct(q)
  {
    forall i, j | 0 <= i < |q| && 0 <= j < |q| && i != j
      ensures q[i].id != q[j].id
    {
      if i != 0 && j != 0 {
        assert q[i] == q[1..][i - 1] && q[j] == q[1..][j - 1];
      }
    }
  }

  /** Reordering the rows, in whatever order the database returns them, keeps their keys distinct. */
  lemma {:induction false} PermutationKeepsKeysDistinct(p: seq<Record>, q: seq<Record>)
    requires multiset(p) == multiset(q) && KeysDistinct(p)
    ensures KeysDistinct(q)
    decreases |q|
  {
    if q != [] {
      var x := q[0];
      assert x in multiset(q);
      var m :| 0 <= m < |p| && p[m] == x;
      var rest := p[..m] + p[m + 1..];
      var tail := q[1..];
      RemovalMultiset(p, m);
      assert q == [x] + tail;
      MultisetCancel(multiset(rest), multiset(tail), x);
      RemovalKeepsKeysDistinct(p, m);
      PermutationKeepsKeysDistinct(rest, tail);
      forall k | 1 <= k < |q|
        ensures q[k].id != x.id
      {
        assert q[k] == tail[k - 1];
        assert q[k] in multiset(tail);
        RemovedKeyAbsent(p, m, q[k]);
      }
      ConsKeysDistinct(q);
    }
  }

  /** A listed document whose id is non-zero and shared by no other entry is selected by that id. */
  lemma UniqueIdSelects(docs: seq<Document>, i: nat)
    requires i < |docs| && docs[i].id != 0
    requires forall j :: 0 <= j < |docs| && j != i ==> docs[j].id != docs[i].id
    ensures App.SelectedDocument(docs, Some(docs[i].id)) == Some(docs[i])
  {
    var r := App.SelectedDocument(docs, Some(docs[i].id));
    assert r.Some?;
    var f :| 0 <= f < |docs| && docs[f] == r.value && forall j :: 0 <= j < f ==> docs[j].id != r.value.id;
    assert f == i;
  }

  /**
   * Every document the client lists for `user` can be selected by its id:
   * selecting that id resolves to exactly that document, never to nothing
   * and never to another entry. `rows` is the requester's queryset in
   * whatever order the database returns it.
   */
  lemma EveryListedDocumentSelectable(table: DocumentTable, user: string, rows: seq<Record>, docs: seq<Document>)
    requires table.Valid()
    requires multiset(rows) == multiset(Queryset(table.rows, user))
    requires ListedFrom(docs, rows)
    ensures forall i :: 0 <= i < |docs| ==> App.SelectedDocument(docs, Some(docs[i].id)) == Some(docs[i])
  {
    var q := Queryset(table.rows, user);
    QuerysetKeysIncreasing(table.rows, user);
    IncreasingKeysDistinct(q);
    PermutationKeepsKeysDistinct(q, rows);
    forall i | 0 <= i < |docs|
      ensures App.SelectedDocument(docs, Some(docs[i].id)) == Some(docs[i])
    {
      assert rows[i] in multiset(rows);
      var k :| 0 <= k < |q| && q[k] == rows[i];
      assert 1 <= q[k].id;
      forall j | 0 <= j < |docs| && j != i
        ensures docs[j].id != docs[i].id
      {
        assert rows[j].id != rows[i].id;
      }
      UniqueIdSelects(docs, i);
    }
  }
}
