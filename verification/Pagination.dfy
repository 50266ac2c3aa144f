// The in-memory table that stands in for the database: queries filter, sort
// and page, and every read is charged to the call's budget.

module Pagination {
  import opened Options
  import Timing

  type Row = map<string, string>

  const READ_BUDGET := 40
  const PAGE := 2
  const DEFAULT_LIMIT := 200
  const CALL_BUDGET := 5 * Timing.SECOND

  // ----- the order of text -----

  predicate TextLe(a: string, b: string) {
    a == [] || (b != [] && (a[0] < b[0] || (a[0] == b[0] && TextLe(a[1..], b[1..]))))
  }

  lemma {:induction false} TextLeTotal(a: string, b: string)
    ensures TextLe(a, b) || TextLe(b, a)
    ensures TextLe(a, b) && TextLe(b, a) ==> a == b
  {
    if a != [] && b != [] {
      TextLeTotal(a[1..], b[1..]);
      assert a == [a[0]] + a[1..] && b == [b[0]] + b[1..];
    }
  }

  lemma {:induction false} TextLeTransitive(a: string, b: string, c: string)
    requires TextLe(a, b) && TextLe(b, c)
    ensures TextLe(a, c)
  {
    if a != [] && b != [] && c != [] && a[0] == b[0] && b[0] == c[0] {
      TextLeTransitive(a[1..], b[1..], c[1..]);
    }
  }

  // ----- what a query selects -----

  datatype Query = Query(
    field: string,
    value: string,
    sort: string,
    forward: bool,
    limit: Option<nat>,
    countOnly: bool)

  // Every row has the table's sort key.
  predicate Keyed(rows: seq<Row>, sort: string) {
    forall i :: 0 <= i < |rows| ==> sort in rows[i]
  }

  predicate Matches(r: Row, q: Query) {
    q.field in r && r[q.field] == q.value
  }

  function Selected(rows: seq<Row>, q: Query): seq<Row> {
    if rows == [] then []
    else Selected(rows[..|rows| - 1], q) + if Matches(rows[|rows| - 1], q) then [rows[|rows| - 1]] else []
  }

  predicate Before(a: string, b: string, forward: bool) {
    if forward then TextLe(a, b) else TextLe(b, a)
  }

  // A row goes after all those it does not precede: the sort is stable.
  function Inserted(sorted: seq<Row>, r: Row, q: Query): seq<Row>
    requires Keyed(sorted, q.sort) && q.sort in r
  {
    if sorted == [] then [r]
    else
      var last := sorted[|sorted| - 1];
      if Before(last[q.sort], r[q.sort], q.forward) then sorted + [r]
      else Inserted(sorted[..|sorted| - 1], r, q) + [last]
  }

  lemma Appended<T>(s: seq<T>, x: T)
    ensures multiset(s + [x]) == multiset(s) + multiset{x}
  {
  }

  lemma LastStays<T>(inner: seq<T>, shorter: seq<T>, last: T, r: T)
    requires multiset(inner) == multiset(shorter) + multiset{r}
    ensures multiset(inner + [last]) == multiset(shorter + [last]) + multiset{r}
  {
    Appended(inner, last);
    Appended(shorter, last);
  }

  lemma {:induction false} InsertedKeyed(sorted: seq<Row>, r: Row, q: Query)
    requires Keyed(sorted, q.sort) && q.sort in r
    ensures Keyed(Inserted(sorted, r, q), q.sort)
  {
    if sorted != [] {
      InsertedKeyed(sorted[..|sorted| - 1], r, q);
    }
  }

  lemma InsertedUnfolds(sorted: seq<Row>, r: Row, q: Query)
    requires Keyed(sorted, q.sort) && q.sort in r
    ensures Inserted(sorted, r, q) == sorted + [r]
         || (sorted != [] && Inserted(sorted, r, q)
                             == Inserted(sorted[..|sorted| - 1], r, q) + [sorted[|sorted| - 1]])
  {
    assert sorted == [] ==> sorted + [r] == [r];
  }

  lemma {:induction false} InsertedContents(sorted: seq<Row>, r: Row, q: Query)
    requires Keyed(sorted, q.sort) && q.sort in r
    ensures multiset(Inserted(sorted, r, q)) == multiset(sorted) + multiset{r}
  {
    InsertedUnfolds(sorted, r, q);
    if Inserted(sorted, r, q) == sorted + [r] {
      Appended(sorted, r);
    } else {
      var shorter, last := sorted[..|sorted| - 1], sorted[|sorted| - 1];
      InsertedContents(shorter, r, q);
      LastStays(Inserted(shorter, r, q), shorter, last, r);
      assert shorter + [last] == sorted;
    }
  }

  ghost predicate InOrder(rows: seq<Row>, q: Query)
    requires Keyed(rows, q.sort)
  {
    forall i, j :: 0 <= i < j < |rows| ==> Before(rows[i][q.sort], rows[j][q.sort], q.forward)
  }

  lemma BeforeTransitive(a: string, b: string, c: string, forward: bool)
    requires Before(a, b, forward) && Before(b, c, forward)
    ensures Before(a, c, forward)
  {
    if forward {
      TextLeTransitive(a, b, c);
    } else {
      TextLeTransitive(c, b, a);
    }
  }

  // All rows come before x, or are followed by it.
  ghost predicate AllBefore(rows: seq<Row>, x: string, q: Query)
    requires Keyed(rows, q.sort)
  {
    forall i :: 0 <= i < |rows| ==> Before(rows[i][q.sort], x, q.forward)
  }

  // What comes after all the rows and after r comes after the result.
  lemma {:induction false} InsertedBefore(sorted: seq<Row>, r: Row, q: Query, x: string)
    requires Keyed(sorted, q.sort) && q.sort in r && AllBefore(sorted, x, q) && Before(r[q.sort], x, q.forward)
    ensures Keyed(Inserted(sorted, r, q), q.sort) && AllBefore(Inserted(sorted, r, q), x, q)
  {
    InsertedKeyed(sorted, r, q);
    if sorted != [] {
      InsertedBefore(sorted[..|sorted| - 1], r, q, x);
    }
  }

  lemma {:induction false} InsertedInOrder(sorted: seq<Row>, r: Row, q: Query)
    requires Keyed(sorted, q.sort) && q.sort in r && InOrder(sorted, q)
    ensures Keyed(Inserted(sorted, r, q), q.sort) && InOrder(Inserted(sorted, r, q), q)
  {
    InsertedKeyed(sorted, r, q);
    if sorted != [] {
      var n := |sorted| - 1;
      var last := sorted[n];
      TextLeTotal(last[q.sort], r[q.sort]);
      if Before(last[q.sort], r[q.sort], q.forward) {
        forall i | 0 <= i < n
          ensures Before(sorted[i][q.sort], r[q.sort], q.forward)
        {
          BeforeTransitive(sorted[i][q.sort], last[q.sort], r[q.sort], q.forward);
        }
      } else {
        InsertedInOrder(sorted[..n], r, q);
        InsertedBefore(sorted[..n], r, q, last[q.sort]);
      }
    }
  }

  // The selected rows in the requested order.
  function Arranged(rows: seq<Row>, q: Query): (r: seq<Row>)
    requires Keyed(rows, q.sort)
    ensures Keyed(r, q.sort)
  {
    if rows == [] then []
    else
      var n := |rows| - 1;
      var before := Arranged(rows[..n], q);
      if Matches(rows[n], q) then
        InsertedKeyed(before, rows[n], q);
        Inserted(before, rows[n], q)
      else before
  }

  // Exactly the selected rows, each as often as it was there, in order.
  lemma {:induction false} ArrangedIsSelectedInOrder(rows: seq<Row>, q: Query)
    requires Keyed(rows, q.sort)
    ensures multiset(Arranged(rows, q)) == multiset(Selected(rows, q))
    ensures InOrder(Arranged(rows, q), q)
  {
    if rows != [] {
      var n := |rows| - 1;
      ArrangedIsSelectedInOrder(rows[..n], q);
      if Matches(rows[n], q) {
        InsertedContents(Arranged(rows[..n], q), rows[n], q);
        InsertedInOrder(Arranged(rows[..n], q), rows[n], q);
      }
    }
  }

  // ----- what selection and order mean -----

  // Where the rows of a table that match stand, in the table's own order.
  ghost predicate Positions(at: seq<nat>, rows: seq<Row>, field: string, value: string) {
    && (forall i :: 0 <= i < |at| ==> at[i] < |rows| && field in rows[at[i]] && rows[at[i]][field] == value)
    && (forall i, j :: 0 <= i < j < |at| ==> at[i] < at[j])
    && (forall k: nat :: k < |rows| && field in rows[k] && rows[k][field] == value ==> k in at)
  }

  lemma PositionsMore(at: seq<nat>, rows: seq<Row>, last: Row, field: string, value: string)
    requires Positions(at, rows, field, value)
    ensures Positions(if field in last && last[field] == value then at + [|rows|] else at,
                      rows + [last], field, value)
  {
    var more := at + [|rows|];
    assert forall k :: k in more <==> k in at || k == |rows|;
    assert forall i :: 0 <= i < |at| ==> at[i] < |rows|;
  }

  ghost predicate Picks(at: seq<nat>, rows: seq<Row>, picked: seq<Row>) {
    |picked| == |at| && forall i :: 0 <= i < |at| ==> at[i] < |rows| && picked[i] == rows[at[i]]
  }

  lemma PicksMore(at: seq<nat>, rows: seq<Row>, picked: seq<Row>, last: Row)
    requires Picks(at, rows, picked)
    ensures Picks(at, rows + [last], picked) && Picks(at + [|rows|], rows + [last], picked + [last])
  {
  }

  // Exactly the rows whose field has the value are selected, in their order.
  lemma {:induction false} SelectedExactly(rows: seq<Row>, q: Query) returns (at: seq<nat>)
    ensures Positions(at, rows, q.field, q.value) && Picks(at, rows, Selected(rows, q))
  {
    at := [];
    if rows != [] {
      var init, last := rows[..|rows| - 1], rows[|rows| - 1];
      at := SelectedExactly(init, q);
      assert init + [last] == rows;
      PositionsMore(at, init, last, q.field, q.value);
      PicksMore(at, init, Selected(init, q), last);
      if q.field in last && last[q.field] == q.value {
        at := at + [|init|];
      } else {
        assert Selected(rows, q) == Selected(init, q);
      }
    }
  }

  // The first character in which two texts differ, or the end of one, decides
  // their order.
  ghost predicate FirstDifference(a: string, b: string, i: nat) {
    && i <= |a| && i <= |b| && a[..i] == b[..i]
    && (i < |a| && i < |b| ==> a[i] != b[i])
  }

  lemma {:induction false} TextOrderExactly(a: string, b: string) returns (i: nat)
    ensures FirstDifference(a, b, i) && (i == |a| || i == |b| || a[i] != b[i])
    ensures TextLe(a, b) <==> i == |a| || (i < |b| && a[i] < b[i])
  {
    i := 0;
    if a != [] && b != [] && a[0] == b[0] {
      i := TextOrderExactly(a[1..], b[1..]);
      i := i + 1;
      assert a[..i] == [a[0]] + a[1..][..i - 1] && b[..i] == [b[0]] + b[1..][..i - 1];
    }
  }

  // Of two rows with different sort keys the one with the smaller comes first,
  // or the one with the greater when going backwards.
  lemma ArrangedByKey(rows: seq<Row>, q: Query, i: nat, j: nat)
    requires Keyed(rows, q.sort) && i < j < |Arranged(rows, q)|
    ensures var a, b := Arranged(rows, q)[i][q.sort], Arranged(rows, q)[j][q.sort];
            a != b ==> if q.forward then TextLe(a, b) && !TextLe(b, a) else TextLe(b, a) && !TextLe(a, b)
  {
    ArrangedIsSelectedInOrder(rows, q);
    TextLeTotal(Arranged(rows, q)[i][q.sort], Arranged(rows, q)[j][q.sort]);
  }

  // The rows with this sort key, in their order.
  function WithKey(rows: seq<Row>, sort: string, key: string): seq<Row>
    requires Keyed(rows, sort)
  {
    if rows == [] then []
    else
      var n := |rows| - 1;
      WithKey(rows[..n], sort, key) + if rows[n][sort] == key then [rows[n]] else []
  }

  lemma {:induction false} InsertedLast(sorted: seq<Row>, r: Row, q: Query, key: string)
    requires Keyed(sorted, q.sort) && q.sort in r
    ensures Keyed(Inserted(sorted, r, q), q.sort)
    ensures WithKey(Inserted(sorted, r, q), q.sort, key)
         == WithKey(sorted, q.sort, key) + if r[q.sort] == key then [r] else []
  {
    InsertedKeyed(sorted, r, q);
    if sorted == [] {
      assert Inserted(sorted, r, q)[..0] == [];
    } else {
      var n := |sorted| - 1;
      var last := sorted[n];
      TextLeTotal(last[q.sort], r[q.sort]);
      if Before(last[q.sort], r[q.sort], q.forward) {
        assert (sorted + [r])[..n + 1] == sorted;
      } else {
        InsertedLast(sorted[..n], r, q, key);
        InsertedKeyed(sorted[..n], r, q);
        var inner := Inserted(sorted[..n], r, q);
        assert (inner + [last])[..|inner|] == inner;
      }
    }
  }

  lemma {:induction false} SelectedKeyed(rows: seq<Row>, q: Query)
    requires Keyed(rows, q.sort)
    ensures Keyed(Selected(rows, q), q.sort)
  {
    if rows != [] {
      SelectedKeyed(rows[..|rows| - 1], q);
    }
  }

  // And rows with the same sort key stay in the order of the table, whichever
  // way the others are arranged.
  lemma {:induction false} ArrangementIsStable(rows: seq<Row>, q: Query, key: string)
    requires Keyed(rows, q.sort)
    ensures Keyed(Selected(rows, q), q.sort)
    ensures WithKey(Arranged(rows, q), q.sort, key) == WithKey(Selected(rows, q), q.sort, key)
  {
    SelectedKeyed(rows, q);
    if rows != [] {
      var n := |rows| - 1;
      ArrangementIsStable(rows[..n], q, key);
      if Matches(rows[n], q) {
        InsertedLast(Arranged(rows[..n], q), rows[n], q, key);
        var before := Selected(rows[..n], q);
        assert (before + [rows[n]])[..|before|] == before;
      } else {
        assert Selected(rows, q) == Selected(rows[..n], q);
      }
    }
  }

  // ----- one page -----

  datatype Response = Response(count: nat, items: Option<seq<Row>>, last: Option<string>)

  datatype Error = BudgetExceeded | ProviderFailed | NoSuchStart | NoLastRow

  function Min(a: nat, b: nat): nat {
    if a < b then a else b
  }

  // How many rows a page holds at most.
  function PageSize(q: Query): nat {
    Min(if q.limit.Some? then q.limit.value else DEFAULT_LIMIT, PAGE)
  }

  // The first position whose key this is, or the length.
  function Position(rows: seq<Row>, sort: string, key: string): (i: nat)
    requires Keyed(rows, sort)
    ensures i <= |rows| && (i < |rows| ==> rows[i][sort] == key)
    ensures forall j :: 0 <= j < i ==> rows[j][sort] != key
  {
    if rows == [] || rows[0][sort] == key then 0 else Position(rows[1..], sort, key) + 1
  }

  // Where the page after this start key begins.
  function Offset(rows: seq<Row>, q: Query, start: Option<string>): Result<nat, Error>
    requires Keyed(rows, q.sort)
  {
    if start.None? then Success(0)
    else
      var i := Position(rows, q.sort, start.value);
      if i < |rows| then Success(i + 1) else Failure(NoSuchStart)
  }

  function PageFrom(rows: seq<Row>, q: Query, offset: nat): Result<Response, Error>
    requires Keyed(rows, q.sort) && offset <= |rows|
  {
    var end := Min(offset + PageSize(q), |rows|);
    var page := rows[offset..end];
    if end < |rows| && page == [] then Failure(NoLastRow)
    else Success(Response(|page|, if q.countOnly then None else Some(page),
                          if end < |rows| then Some(page[|page| - 1][q.sort]) else None))
  }

  ghost predicate DistinctKeys(rows: seq<Row>, sort: string)
    requires Keyed(rows, sort)
  {
    forall i, j :: 0 <= i < j < |rows| ==> rows[i][sort] != rows[j][sort]
  }

  // The resume key after the first n rows.
  function ResumeKey(rows: seq<Row>, sort: string, n: nat): Option<string>
    requires Keyed(rows, sort) && n <= |rows|
  {
    if n == 0 then None else Some(rows[n - 1][sort])
  }

  // It resumes right after them, with as many rows as fit on a page.
  lemma NextPage(rows: seq<Row>, q: Query, n: nat)
    requires Keyed(rows, q.sort) && DistinctKeys(rows, q.sort) && 0 < PageSize(q)
    requires n < |rows| || n == 0
    ensures Offset(rows, q, ResumeKey(rows, q.sort, n)) == Success(n)
    ensures var end := Min(n + PageSize(q), |rows|);
            && n <= end
            && PageFrom(rows, q, n) == Success(Response(end - n, if q.countOnly then None else Some(rows[n..end]),
                                                        if end < |rows| then ResumeKey(rows, q.sort, end) else None))
  {
    if n > 0 {
      var i := Position(rows, q.sort, rows[n - 1][q.sort]);
      assert i <= n - 1;
    }
  }

  // What is handed over of the first n rows.
  function HandedOver(rows: seq<Row>, q: Query, n: nat): seq<Row>
    requires n <= |rows|
  {
    if q.countOnly then [] else rows[..n]
  }

  lemma HandedOverMore(rows: seq<Row>, q: Query, n: nat, end: nat)
    requires n <= end <= |rows|
    ensures HandedOver(rows, q, end) == if q.countOnly then HandedOver(rows, q, n)
                                        else HandedOver(rows, q, n) + rows[n..end]
    ensures HandedOver(rows, q, |rows|) == if q.countOnly then [] else rows
  {
    assert rows[..n] + rows[n..end] == rows[..end];
    assert rows[..|rows|] == rows;
  }

  // The table's owner, who counts the reads of one call and watches its time.
  class Owner {
    var rows: seq<Row>
    var readCount: nat
    var readStart: nat
    var clock: int
    var deadline: Option<int>   // none before the first call
    var failReads: bool
    var queries: seq<(string, string)>

    constructor (rows: seq<Row>)
      ensures this.rows == rows && readCount == 0 && readStart == 0 && !failReads && queries == []
      ensures clock == 0 && deadline.None?
    {
      this.rows := rows;
      readCount, readStart, clock, deadline, failReads, queries := 0, 0, 0, None, false, [];
    }

    predicate Late()
      reads this`clock, this`deadline
    {
      deadline.Some? && clock > deadline.value
    }

    method ReadClock()
      modifies this`clock
      ensures old(clock) <= clock
    {
      var now: int :| clock <= now;
      clock := now;
    }

    // A new call: a fresh budget and a fresh deadline.
    method StartCall()
      modifies this`readStart, this`clock, this`deadline
      ensures readStart == readCount && deadline == Some(clock + CALL_BUDGET) && old(clock) <= clock && !Late()
    {
      readStart := readCount;
      ReadClock();
      deadline := Some(clock + CALL_BUDGET);
    }

    method Read() returns (error: Option<Error>)
      modifies this`readCount, this`clock
      ensures readCount == old(readCount) + 1 && old(clock) <= clock
      ensures error == if readCount - readStart > READ_BUDGET || Late() then Some(BudgetExceeded)
                       else if failReads then Some(ProviderFailed) else None
    {
      readCount := readCount + 1;
      ReadClock();
      if readCount - readStart > READ_BUDGET || Late() {
        return Some(BudgetExceeded);
      }
      return if failReads then Some(ProviderFailed) else None;
    }

    method RunQuery(q: Query, start: Option<string>) returns (r: Result<Response, Error>)
      requires Keyed(rows, q.sort)
      modifies this`readCount, this`clock, this`queries
      ensures readCount == old(readCount) + 1 && old(clock) <= clock
      ensures (readCount - readStart > READ_BUDGET || Late()) ==>
                r == Failure(BudgetExceeded) && queries == old(queries)
      ensures !(readCount - readStart > READ_BUDGET || Late()) && failReads ==>
                r == Failure(ProviderFailed) && queries == old(queries)
      ensures !(readCount - readStart > READ_BUDGET || Late()) && !failReads ==>
                && queries == old(queries) + [(q.field, q.value)]
                && r == match Offset(Arranged(rows, q), q, start)
                        case Failure(error) => Failure(error)
                        case Success(offset) => PageFrom(Arranged(rows, q), q, offset)
    {
      var error := Read();
      if error.Some? {
        return Failure(error.value);
      }
      queries := queries + [(q.field, q.value)];
      var arranged := Arranged(rows, q);
      var offset := Offset(arranged, q, start);
      if offset.Failure? {
        return Failure(offset.error);
      }
      return PageFrom(arranged, q, offset.value);
    }

    // The page after the first n selected rows, if the budget allows the read.
    method FetchPage(q: Query, start: Option<string>, ghost all: seq<Row>, ghost n: nat)
      returns (r: Result<Response, Error>)
      requires Keyed(rows, q.sort) && 0 < PageSize(q) && all == Arranged(rows, q) && DistinctKeys(all, q.sort)
      requires n < |all| || (n == 0 && all == [])
      requires start == ResumeKey(all, q.sort, n)
      modifies this`readCount, this`clock, this`queries
      ensures readCount == old(readCount) + 1 && old(clock) <= clock
      ensures r.Success? <==> readCount - readStart <= READ_BUDGET && !Late() && !failReads
      ensures r.Failure? ==> r.error == BudgetExceeded || r.error == ProviderFailed
      ensures r.Success? ==>
                var end := Min(n + PageSize(q), |all|);
                n <= end && r.value == Response(end - n, if q.countOnly then None else Some(all[n..end]),
                                                if end < |all| then ResumeKey(all, q.sort, end) else None)
    {
      NextPage(all, q, n);
      r := RunQuery(q, start);
    }

    // Follow the resume key until there is none: the counts add up to the number
    // of selected rows, and unless only these were asked for, every selected row
    // comes back once, in order. In time and with a provider that does not fail,
    // that happens exactly if the pages do not outnumber what is left of the
    // budget.
    method FetchAll(q: Query) returns (r: Result<seq<Row>, Error>, total: nat)
      requires Keyed(rows, q.sort) && 0 < PageSize(q)
      requires DistinctKeys(Arranged(rows, q), q.sort)
      requires readStart <= readCount
      modifies this`readCount, this`clock, this`queries
      ensures r.Success? ==> total == |Arranged(rows, q)| && r.value == if q.countOnly then [] else Arranged(rows, q)
      ensures r.Success? ==> !Late() && !failReads
      ensures r.Failure? ==> r.error == BudgetExceeded || r.error == ProviderFailed
      ensures r.Failure? ==> total <= |Arranged(rows, q)|
      ensures !Late() && !failReads ==>
                (r.Success? <==> old(readCount) + Pages(|Arranged(rows, q)|, PageSize(q)) <= readStart + READ_BUDGET)
    {
      ghost var all := Arranged(rows, q);
      var got, start := [], None;
      total := 0;
      ghost var pages := 0;
      while true
        invariant total <= |all| && got == HandedOver(all, q, total) && start == ResumeKey(all, q.sort, total)
        invariant total < |all| || (total == 0 && all == [])
        invariant Pages(|all| - total, PageSize(q)) + pages == Pages(|all|, PageSize(q))
        invariant readCount == old(readCount) + pages
        invariant pages > 0 ==> !Late() && readCount <= readStart + READ_BUDGET
        decreases |all| - total
      {
        var response := FetchPage(q, start, all, total);
        if response.Failure? {
          return Failure(response.error), total;
        }
        ghost var end := total + response.value.count;
        HandedOverMore(all, q, total, end);
        if response.value.items.Some? {
          got := got + response.value.items.value;
        }
        total := total + response.value.count;
        pages := pages + 1;
        if response.value.last.None? {
          return Success(got), total;
        }
        start := response.value.last;
      }
    }
  }

  // Reads it takes to page through n rows.
  function Pages(n: nat, size: nat): nat
    requires 0 < size
  {
    if n <= size then 1 else Pages(n - size, size) + 1
  }
}
