/** Search: filtering, sorting by column, clustering of correlated rows, paging. */
module Queries {
  import opened Text
  import opened Records
  import opened StableSort
  import Timeline

  // ---- filtering ----

  /** The active filters: recordMatches as a predicate, the direction filter, and the resolved directions. */
  datatype Filters = Filters(matches: Record -> bool, direction: string, directionOf: Record -> string)

  predicate EqualFold(a: string, b: string) {
    ToLower(a) == ToLower(b)
  }

  /** Passes everything but the direction filter. */
  predicate Matched(p: Filters, r: Record) {
    !r.subsumed && p.matches(r)
  }

  predicate Selected(p: Filters, r: Record) {
    Matched(p, r) && (p.direction == "" || EqualFold(p.directionOf(r), p.direction))
  }

  /** The positions of the records that satisfy a condition, in order. */
  function Select(records: seq<Record>, keep: Record -> bool): seq<nat> {
    if records == [] then []
    else
      var n := |records| - 1;
      Select(records[..n], keep) + (if keep(records[n]) then [n] else [])
  }

  function Tally(records: seq<Record>, keep: Record -> bool): nat {
    |Select(records, keep)|
  }

  // ---- sorting by column ----

  datatype SortKey = Number(n: int) | Word(s: string)

  function CompareKeys(a: SortKey, b: SortKey): int {
    match (a, b)
    case (Number(m), Number(n)) => if m < n then -1 else if m > n then 1 else 0
    case (Word(s), Word(t)) => Compare(s, t)
    case (Number(_), Word(_)) => -1
    case (Word(_), Number(_)) => 1
  }

  /** What a column sorts by; columns that are not sortable leave every pair tied. */
  function ColumnKey(p: Filters, r: Record, col: int): SortKey {
    match col
    case 0 => Number(r.time)
    case 1 => Word(r.qid)
    case 2 => Word(ToLower(r.from))
    case 3 => Word(ToLower(r.to))
    case 4 => Number(r.size)
    case 5 => Word(DispositionOrStatus(r))
    case 7 => Word(r.relay)
    case 8 => Word(ToLower(r.client))
    case 10 => Word(ToLower(r.subject))
    case 12 => Word(ToLower(r.origin))
    case 16 => Word(p.directionOf(r))
    case _ => Number(0)
  }

  datatype Query = Query(filters: Filters, col: int, descending: bool, group: bool, start: nat, length: nat)

  function KeyAt(q: Query, records: seq<Record>, i: nat): SortKey {
    if i < |records| then ColumnKey(q.filters, records[i], q.col) else Number(0)
  }

  /** i need not come after j: the sort's less(j, i) is false. */
  predicate InOrder(q: Query, records: seq<Record>, i: nat, j: nat) {
    var cmp := CompareKeys(KeyAt(q, records, j), KeyAt(q, records, i));
    if q.descending then cmp <= 0 else cmp >= 0
  }

  lemma CompareKeysOrders(a: SortKey, b: SortKey, c: SortKey)
    ensures CompareKeys(a, b) <= 0 || CompareKeys(b, a) <= 0
    ensures (CompareKeys(a, b) <= 0) == (CompareKeys(b, a) >= 0)
    ensures CompareKeys(a, b) <= 0 && CompareKeys(b, c) <= 0 ==> CompareKeys(a, c) <= 0
  {
    if a.Word? && b.Word? {
      CompareAntisymmetric(a.s, b.s);
      if c.Word? && Compare(a.s, b.s) <= 0 && Compare(b.s, c.s) <= 0 {
        CompareTransitive(a.s, b.s, c.s);
      }
    }
  }

  /** Every column, in either direction, gives a consistent order, so the stable sort is well defined. */
  lemma ColumnsOrder(q: Query, records: seq<Record>)
    ensures TotalPreorder((i: nat, j: nat) => InOrder(q, records, i, j))
  {
    forall i: nat, j: nat
      ensures InOrder(q, records, i, j) || InOrder(q, records, j, i)
    {
      CompareKeysOrders(KeyAt(q, records, i), KeyAt(q, records, j), KeyAt(q, records, j));
    }
    forall i: nat, j: nat, k: nat | InOrder(q, records, i, j) && InOrder(q, records, j, k)
      ensures InOrder(q, records, i, k)
    {
      var a, b, c := KeyAt(q, records, i), KeyAt(q, records, j), KeyAt(q, records, k);
      CompareKeysOrders(a, b, c);
      CompareKeysOrders(c, b, a);
      CompareKeysOrders(a, c, b);
      CompareKeysOrders(b, c, a);
    }
  }

  function ColumnSorted(q: Query, records: seq<Record>): seq<nat> {
    Sort(Select(records, r => Selected(q.filters, r)), (i: nat, j: nat) => InOrder(q, records, i, j))
  }

  // ---- clustering ----

  /** Rows of one message belong together; a row without a Message-ID stands alone. */
  datatype GroupKey = Message(messageID: string) | Single(key: Key)

  function GroupAt(records: seq<Record>, i: nat): GroupKey {
    if i < |records| then
      if records[i].messageID != "" then Message(records[i].messageID) else Single(KeyOf(records[i]))
    else Single(Key("", ""))
  }

  /** The position of a group's best-ranked row; past the end when it has none. */
  function BestRank(records: seq<Record>, sorted: seq<nat>, g: GroupKey): nat {
    if sorted == [] then 0
    else if GroupAt(records, sorted[0]) == g then 0
    else 1 + BestRank(records, sorted[1..], g)
  }

  predicate RankedBefore(records: seq<Record>, sorted: seq<nat>, i: nat, j: nat) {
    BestRank(records, sorted, GroupAt(records, i)) <= BestRank(records, sorted, GroupAt(records, j))
  }

  function Clustered(records: seq<Record>, sorted: seq<nat>): seq<nat> {
    Sort(sorted, (i: nat, j: nat) => RankedBefore(records, sorted, i, j))
  }

  function Result(q: Query, records: seq<Record>): seq<nat> {
    if q.group then Clustered(records, ColumnSorted(q, records)) else ColumnSorted(q, records)
  }

  lemma {:induction false} BestRankFirst(records: seq<Record>, sorted: seq<nat>, g: GroupKey)
    ensures BestRank(records, sorted, g) <= |sorted|
    ensures forall k | 0 <= k < BestRank(records, sorted, g) :: GroupAt(records, sorted[k]) != g
    ensures BestRank(records, sorted, g) < |sorted| ==> GroupAt(records, sorted[BestRank(records, sorted, g)]) == g
  {
    if sorted != [] && GroupAt(records, sorted[0]) != g {
      BestRankFirst(records, sorted[1..], g);
      forall k | 0 <= k < BestRank(records, sorted, g)
        ensures GroupAt(records, sorted[k]) != g
      {
        assert k > 0 ==> sorted[k] == sorted[1..][k - 1];
      }
    }
  }

  /** The rows of one group, in the order a list has them. */
  function GroupRows(records: seq<Record>, list: seq<nat>, g: GroupKey): seq<nat> {
    Filter(list, (i: nat) => GroupAt(records, i) == g)
  }

  /**
   Grouped search: the same rows as the column sort; each group contiguous and in its
   column-sorted order; groups in the order of their best-ranked rows.
   */
  lemma GroupedSearch(records: seq<Record>, sorted: seq<nat>)
    ensures var out := Clustered(records, sorted);
      && multiset(out) == multiset(sorted)
      && (forall g :: GroupRows(records, out, g) == GroupRows(records, sorted, g))
      && (forall i, j | 0 <= i < j < |out| :: RankedBefore(records, sorted, out[i], out[j]))
      && (forall i, j, k | 0 <= i < j < k < |out| && GroupAt(records, out[i]) == GroupAt(records, out[k]) ::
            GroupAt(records, out[j]) == GroupAt(records, out[i]))
  {
    var out := Clustered(records, sorted);
    var le := (i: nat, j: nat) => RankedBefore(records, sorted, i, j);
    SortCorrect(sorted, le);
    forall g
      ensures GroupRows(records, out, g) == GroupRows(records, sorted, g)
    {
      assert Tied((i: nat) => GroupAt(records, i) == g, le);
    }
    forall i, j | 0 <= i < j < |out|
      ensures RankedBefore(records, sorted, out[i], out[j])
    {
      assert le(out[i], out[j]);
    }
    forall i, j, k | 0 <= i < j < k < |out| && GroupAt(records, out[i]) == GroupAt(records, out[k])
      ensures GroupAt(records, out[j]) == GroupAt(records, out[i])
    {
      assert le(out[i], out[j]) && le(out[j], out[k]);
      assert out[i] in multiset(out) && out[j] in multiset(out);
      SameRankSameGroup(records, sorted, out[i], out[j]);
    }
  }

  lemma SameRankSameGroup(records: seq<Record>, sorted: seq<nat>, i: nat, j: nat)
    requires i in sorted && j in sorted
    requires BestRank(records, sorted, GroupAt(records, i)) == BestRank(records, sorted, GroupAt(records, j))
    ensures GroupAt(records, i) == GroupAt(records, j)
  {
    BestRankFirst(records, sorted, GroupAt(records, i));
    BestRankFirst(records, sorted, GroupAt(records, j));
  }

  /** Without grouping: the selected rows, in column order, ties in record order. */
  lemma ColumnSearch(q: Query, records: seq<Record>)
    ensures var out, le := ColumnSorted(q, records), (i: nat, j: nat) => InOrder(q, records, i, j);
      var chosen := Select(records, r => Selected(q.filters, r));
      && multiset(out) == multiset(chosen) && Sorted(out, le)
      && forall keep: nat -> bool | Tied(keep, le) :: Filter(out, keep) == Filter(chosen, keep)
  {
    ColumnsOrder(q, records);
    SortCorrect(Select(records, r => Selected(q.filters, r)), (i: nat, j: nat) => InOrder(q, records, i, j));
  }

  ghost predicate StableArrangement(out: seq<nat>, rows: seq<nat>, le: (nat, nat) -> bool) {
    Sorted(out, le) && forall keep: nat -> bool | Tied(keep, le) :: Filter(out, keep) == Filter(rows, keep)
  }

  /** The result does not depend on the sort: any two stable sorts in a row, by column and by group rank, give it. */
  lemma OneResult(q: Query, records: seq<Record>, sorted: seq<nat>, grouped: seq<nat>)
    requires StableArrangement(
      sorted, Select(records, r => Selected(q.filters, r)), (i: nat, j: nat) => InOrder(q, records, i, j))
    requires StableArrangement(grouped, sorted, (i: nat, j: nat) => RankedBefore(records, sorted, i, j))
    ensures (if q.group then grouped else sorted) == Result(q, records)
  {
    ColumnsOrder(q, records);
    AnyStableSort(
      Select(records, r => Selected(q.filters, r)), sorted, (i: nat, j: nat) => InOrder(q, records, i, j));
    AnyStableSort(sorted, grouped, (i: nat, j: nat) => RankedBefore(records, sorted, i, j));
  }

  // ---- what a search lists, and in which order, on the records' fields ----

  lemma {:induction false} Selects(records: seq<Record>, keep: Record -> bool)
    ensures forall i: nat :: i in Select(records, keep) <==> i < |records| && keep(records[i])
    ensures Ascending(Select(records, keep))
  {
    if records == [] {
    } else {
      var n := |records| - 1;
      Selects(records[..n], keep);
      assert forall a | 0 <= a < |Select(records[..n], keep)| :: Select(records[..n], keep)[a] in Select(records[..n], keep);
    }
  }

  ghost predicate Ascending(rows: seq<nat>) {
    forall a, b | 0 <= a < b < |rows| :: rows[a] < rows[b]
  }

  /** A search lists, once each, the records that are not merged into another row, match, and go the asked way. */
  lemma SearchFinds(q: Query, records: seq<Record>)
    ensures forall i: nat :: i in Result(q, records) <==>
      && i < |records| && !records[i].subsumed && q.filters.matches(records[i])
      && (q.filters.direction != "" ==> ToLower(q.filters.directionOf(records[i])) == ToLower(q.filters.direction))
    ensures forall a, b | 0 <= a < b < |Result(q, records)| :: Result(q, records)[a] != Result(q, records)[b]
  {
    var chosen := Select(records, r => Selected(q.filters, r));
    Selects(records, r => Selected(q.filters, r));
    ColumnSearch(q, records);
    GroupedSearch(records, ColumnSorted(q, records));
    SameRows(chosen, Result(q, records));
  }

  lemma SameRows(rows: seq<nat>, out: seq<nat>)
    requires multiset(rows) == multiset(out) && Ascending(rows)
    ensures forall i: nat :: i in rows <==> i in out
    ensures forall a, b | 0 <= a < b < |out| :: out[a] != out[b]
  {
    Timeline.SameMembers(rows, out);
    Timeline.DistinctByMultiset(rows, out);
  }

  /** Lexicographic order: at the first character in which two strings differ, or by length. */
  ghost predicate LexAtMost(a: string, b: string) {
    a <= b || exists k: nat :: LexBelowAt(a, b, k)
  }

  ghost predicate LexBelowAt(a: string, b: string, k: nat) {
    k < |a| && k < |b| && a[..k] == b[..k] && a[k] < b[k]
  }

  lemma {:induction false} CompareIsLexicographic(a: string, b: string)
    ensures Compare(a, b) <= 0 <==> LexAtMost(a, b)
  {
    if a != "" && b != "" && a[0] == b[0] {
      CompareIsLexicographic(a[1..], b[1..]);
      assert a == [a[0]] + a[1..] && b == [b[0]] + b[1..];
      if LexAtMost(a[1..], b[1..]) && !(a[1..] <= b[1..]) {
        var k: nat :| LexBelowAt(a[1..], b[1..], k);
        assert a[..k + 1] == [a[0]] + a[1..][..k] && b[..k + 1] == [b[0]] + b[1..][..k];
        assert LexBelowAt(a, b, k + 1);
      }
      if k: nat :| LexBelowAt(a, b, k) {
        assert a[1..][..k - 1] == a[..k][1..] && b[1..][..k - 1] == b[..k][1..];
        assert LexBelowAt(a[1..], b[1..], k - 1);
      }
    } else if a != "" && b != "" && a[0] < b[0] {
      assert LexBelowAt(a, b, 0);
    }
  }

  /** A row is at most another in a column: by time, size or text, names and addresses in lower case. */
  ghost predicate AtMost(p: Filters, col: int, a: Record, b: Record) {
    match col
    case 0 => a.time <= b.time
    case 1 => LexAtMost(a.qid, b.qid)
    case 2 => LexAtMost(ToLower(a.from), ToLower(b.from))
    case 3 => LexAtMost(ToLower(a.to), ToLower(b.to))
    case 4 => a.size <= b.size
    case 5 => LexAtMost(DispositionOrStatus(a), DispositionOrStatus(b))
    case 7 => LexAtMost(a.relay, b.relay)
    case 8 => LexAtMost(ToLower(a.client), ToLower(b.client))
    case 10 => LexAtMost(ToLower(a.subject), ToLower(b.subject))
    case 12 => LexAtMost(ToLower(a.origin), ToLower(b.origin))
    case 16 => LexAtMost(p.directionOf(a), p.directionOf(b))
    case _ => true
  }

  lemma KeysAtMost(p: Filters, col: int, a: Record, b: Record)
    ensures CompareKeys(ColumnKey(p, a, col), ColumnKey(p, b, col)) <= 0 <==> AtMost(p, col, a, b)
  {
    var k, l := ColumnKey(p, a, col), ColumnKey(p, b, col);
    if k.Word? && l.Word? {
      CompareIsLexicographic(k.s, l.s);
    }
  }

  lemma InOrderIff(q: Query, records: seq<Record>, i: nat, j: nat)
    requires i < |records| && j < |records|
    ensures InOrder(q, records, i, j) <==>
      if q.descending then AtMost(q.filters, q.col, records[j], records[i])
      else AtMost(q.filters, q.col, records[i], records[j])
  {
    KeysAtMost(q.filters, q.col, records[i], records[j]);
    KeysAtMost(q.filters, q.col, records[j], records[i]);
    CompareKeysOrders(KeyAt(q, records, i), KeyAt(q, records, j), KeyAt(q, records, j));
  }

  lemma {:induction false} FilterAscends(rows: seq<nat>, keep: nat -> bool)
    requires Ascending(rows)
    ensures Ascending(Filter(rows, keep))
  {
    if rows == [] {
    } else {
      FilterAscends(rows[1..], keep);
      FilterMembers(rows[1..], keep);
      assert forall x | x in rows[1..] :: rows[0] < x;
      var rest := Filter(rows[1..], keep);
      assert forall k | 0 <= k < |rest| :: rest[k] in rest;
    }
  }

  /**
   Without grouping, of any two rows the earlier one is at most the later one in the chosen
   column, or at least it when descending; rows equal there, and all rows when the column
   does not sort, come in the order of the records.
   */
  lemma SearchOrder(q: Query, records: seq<Record>, i: nat, j: nat)
    requires !q.group && i < j < |Result(q, records)|
    ensures var out := Result(q, records);
      && out[i] < |records| && out[j] < |records|
      && var low, high := if q.descending then records[out[j]] else records[out[i]],
                          if q.descending then records[out[i]] else records[out[j]];
         && AtMost(q.filters, q.col, low, high)
         && (AtMost(q.filters, q.col, high, low) ==> out[i] < out[j])
  {
    var out := Result(q, records);
    SearchFinds(q, records);
    assert out[i] in out && out[j] in out;
    ColumnSearch(q, records);
    var le := (x: nat, y: nat) => InOrder(q, records, x, y);
    assert le(out[i], out[j]);
    InOrderIff(q, records, out[i], out[j]);
    InOrderIff(q, records, out[j], out[i]);
    if InOrder(q, records, out[j], out[i]) {
      TiesAscend(q, records, i, j);
    }
  }

  lemma TiesAscend(q: Query, records: seq<Record>, i: nat, j: nat)
    requires i < j < |ColumnSorted(q, records)|
    requires var out := ColumnSorted(q, records); InOrder(q, records, out[i], out[j]) && InOrder(q, records, out[j], out[i])
    ensures ColumnSorted(q, records)[i] < ColumnSorted(q, records)[j]
  {
    var out, chosen := ColumnSorted(q, records), Select(records, r => Selected(q.filters, r));
    var le := (x: nat, y: nat) => InOrder(q, records, x, y);
    var keep := (x: nat) => InOrder(q, records, x, out[i]) && InOrder(q, records, out[i], x);
    ColumnSearch(q, records);
    ColumnsOrder(q, records);
    assert Tied(keep, le) by {
      forall x, y | keep(x) && keep(y)
        ensures le(x, y)
      {
        assert le(x, out[i]) && le(out[i], y);
      }
    }
    assert le(out[i], out[i]);
    var a, b := FilterKeepsOrder(out, keep, i, j);
    Selects(records, r => Selected(q.filters, r));
    FilterAscends(chosen, keep);
    assert Filter(out, keep) == Filter(chosen, keep);
  }

  /** Rows of one message: the same Message-ID, or for a row without one the row itself. */
  predicate SameMessage(a: Record, b: Record) {
    a.messageID == b.messageID && (a.messageID == "" ==> a.origin == b.origin && a.qid == b.qid)
  }

  lemma GroupIsMessage(records: seq<Record>, i: nat, j: nat)
    requires i < |records| && j < |records|
    ensures GroupAt(records, i) == GroupAt(records, j) <==> SameMessage(records[i], records[j])
  {
  }

  ghost predicate Listed(records: seq<Record>, rows: seq<nat>) {
    forall k | 0 <= k < |rows| :: rows[k] < |records|
  }

  /** The column sort does not look at the grouping. */
  lemma SameColumnSort(q: Query, records: seq<Record>)
    ensures ColumnSorted(q.(group := false), records) == ColumnSorted(q, records)
  {
    var plain := q.(group := false);
    var f, g := (i: nat, j: nat) => InOrder(plain, records, i, j), (i: nat, j: nat) => InOrder(q, records, i, j);
    forall i: nat, j: nat
      ensures f(i, j) == g(i, j)
    {
    }
    SortReads(Select(records, r => Selected(q.filters, r)), f, g);
  }

  lemma ListsRecords(q: Query, records: seq<Record>)
    ensures Listed(records, ColumnSorted(q, records)) && Listed(records, Result(q, records))
  {
    var rows := Result(q, records);
    SearchFinds(q, records);
    SearchFinds(q.(group := false), records);
    SameColumnSort(q, records);
    assert forall k | 0 <= k < |rows| :: rows[k] in rows;
    assert forall k | 0 <= k < |ColumnSorted(q, records)| :: ColumnSorted(q, records)[k] in ColumnSorted(q, records);
  }

  /** The first row of a message in the column order. */
  ghost predicate LeadsAt(records: seq<Record>, sorted: seq<nat>, r: Record, a: nat)
    requires Listed(records, sorted)
  {
    && a < |sorted| && SameMessage(records[sorted[a]], r)
    && forall b | 0 <= b < a :: !SameMessage(records[sorted[b]], r)
  }

  lemma BestRankLeads(records: seq<Record>, sorted: seq<nat>, i: nat)
    requires Listed(records, sorted) && i in sorted && i < |records|
    ensures LeadsAt(records, sorted, records[i], BestRank(records, sorted, GroupAt(records, i)))
  {
    var a := BestRank(records, sorted, GroupAt(records, i));
    BestRankFirst(records, sorted, GroupAt(records, i));
    var k :| 0 <= k < |sorted| && sorted[k] == i;
    assert a <= k;
    forall b | 0 <= b < |sorted|
      ensures GroupAt(records, sorted[b]) == GroupAt(records, i) <==> SameMessage(records[sorted[b]], records[i])
    {
      GroupIsMessage(records, sorted[b], i);
    }
  }

  /** Of the messages of two rows in grouped order, the earlier one's first row in column order is not behind the later one's. */
  lemma GroupedOrder(q: Query, records: seq<Record>, i: nat, j: nat)
    requires q.group && i < j < |Result(q, records)|
    ensures var out, sorted := Result(q, records), ColumnSorted(q, records);
      && Listed(records, out) && Listed(records, sorted)
      && exists a: nat, b: nat :: a <= b && LeadsAt(records, sorted, records[out[i]], a) && LeadsAt(records, sorted, records[out[j]], b)
  {
    var out, sorted := Result(q, records), ColumnSorted(q, records);
    ListsRecords(q, records);
    GroupedSearch(records, sorted);
    Timeline.SameMembers(sorted, out);
    assert out[i] in out && out[j] in out;
    BestRankLeads(records, sorted, out[i]);
    BestRankLeads(records, sorted, out[j]);
    assert RankedBefore(records, sorted, out[i], out[j]);
  }

  /** Rows of one message are next to each other, in the order the column gives them. */
  lemma MessageIsTogether(q: Query, records: seq<Record>, i: nat, k: nat)
    requires q.group && i < k < |Result(q, records)|
    ensures var out, sorted := Result(q, records), ColumnSorted(q, records);
      && Listed(records, out)
      && (SameMessage(records[out[i]], records[out[k]]) ==>
            && (forall j | i < j < k :: SameMessage(records[out[i]], records[out[j]]))
            && exists a, b :: 0 <= a < b < |sorted| && sorted[a] == out[i] && sorted[b] == out[k])
  {
    var out, sorted := Result(q, records), ColumnSorted(q, records);
    ListsRecords(q, records);
    GroupedSearch(records, sorted);
    forall j | i <= j <= k
      ensures GroupAt(records, out[i]) == GroupAt(records, out[j]) <==> SameMessage(records[out[i]], records[out[j]])
    {
      GroupIsMessage(records, out[i], out[j]);
    }
    if SameMessage(records[out[i]], records[out[k]]) {
      var g := GroupAt(records, out[i]);
      var ofGroup := (x: nat) => GroupAt(records, x) == g;
      var a, b := FilterKeepsOrder(out, ofGroup, i, k);
      assert GroupRows(records, out, g) == GroupRows(records, sorted, g);
      var a', b' := FilterComesFrom(sorted, ofGroup, a, b);
    }
  }

  // ---- paging ----

  function Min(a: nat, b: nat): nat {
    if a < b then a else b
  }

  function Page(rows: seq<nat>, start: nat, length: nat): seq<nat> {
    rows[Min(start, |rows|)..Min(start + length, |rows|)]
  }

  predicate ContinuesAbove(q: Query, records: seq<Record>, rows: seq<nat>) {
    && q.group && 0 < q.start < Min(q.start + q.length, |rows|)
    && GroupAt(records, rows[q.start - 1]) == GroupAt(records, rows[q.start])
  }

  predicate ContinuesBelow(q: Query, records: seq<Record>, rows: seq<nat>) {
    var end := Min(q.start + q.length, |rows|);
    && q.group && q.start < end < |rows|
    && GroupAt(records, rows[end]) == GroupAt(records, rows[end - 1])
  }

  /** All pages of one length, laid end to end from a given row on. */
  function PagesFrom(rows: seq<nat>, start: nat, length: nat): seq<nat>
    requires length > 0
    decreases |rows| - start
  {
    if start >= |rows| then [] else Page(rows, start, length) + PagesFrom(rows, start + length, length)
  }

  lemma {:induction false} PagesTile(rows: seq<nat>, start: nat, length: nat)
    requires length > 0
    ensures PagesFrom(rows, start, length) == rows[Min(start, |rows|)..]
    decreases |rows| - start
  {
    if start < |rows| {
      PagesTile(rows, start + length, length);
    }
  }

  /** A page runs on below exactly when the next page runs on above. */
  lemma EdgesAgree(q: Query, records: seq<Record>, rows: seq<nat>)
    requires q.length > 0
    ensures ContinuesBelow(q, records, rows) == ContinuesAbove(q.(start := q.start + q.length), records, rows)
  {
  }

  /** The marks of a grouped page: its first row's message also has the row before, its last row's the row after. */
  lemma EdgesMean(q: Query, records: seq<Record>, rows: seq<nat>)
    requires Listed(records, rows)
    ensures var page := Page(rows, q.start, q.length);
      && (ContinuesAbove(q, records, rows) <==>
            q.group && page != [] && q.start > 0 && SameMessage(records[rows[q.start - 1]], records[page[0]]))
      && (ContinuesBelow(q, records, rows) <==>
            && q.group && page != [] && q.start + |page| < |rows|
            && SameMessage(records[page[|page| - 1]], records[rows[q.start + |page|]]))
  {
    var end := Min(q.start + q.length, |rows|);
    if 0 < q.start < end {
      GroupIsMessage(records, rows[q.start - 1], rows[q.start]);
    }
    if q.start < end < |rows| {
      GroupIsMessage(records, rows[end - 1], rows[end]);
    }
  }

  datatype SearchResult = SearchResult(
    recordsTotal: nat, recordsFiltered: nat, data: seq<nat>, continuesAbove: bool, continuesBelow: bool)

  /** Sorting and clustering lose no row and add none. */
  lemma ResultLength(q: Query, records: seq<Record>)
    ensures |Result(q, records)| == Tally(records, r => Selected(q.filters, r))
  {
    ColumnSearch(q, records);
    SameLength(ColumnSorted(q, records), Select(records, r => Selected(q.filters, r)));
    GroupedSearch(records, ColumnSorted(q, records));
    SameLength(Clustered(records, ColumnSorted(q, records)), ColumnSorted(q, records));
  }

  method FilterRows(p: Filters, records: seq<Record>) returns (filtered: seq<nat>, visibleTotal: nat)
    ensures filtered == Select(records, r => Selected(p, r))
    ensures visibleTotal == Tally(records, (r: Record) => !r.subsumed)
  {
    filtered, visibleTotal := [], 0;
    for i := 0 to |records|
      invariant visibleTotal == Tally(records[..i], (r: Record) => !r.subsumed)
      invariant filtered == Select(records[..i], r => Selected(p, r))
    {
      var r := records[i];
      assert records[..i + 1][..i] == records[..i];
      if !r.subsumed {
        visibleTotal := visibleTotal + 1;
        if p.matches(r) && (p.direction == "" || EqualFold(p.directionOf(r), p.direction)) {
          filtered := filtered + [i];
        }
      }
    }
    assert records[..|records|] == records;
  }

  method Search(q: Query, records: seq<Record>) returns (result: SearchResult)
    ensures var rows := Result(q, records);
      && result.recordsTotal == Tally(records, (r: Record) => !r.subsumed)
      && result.recordsFiltered == Tally(records, r => Selected(q.filters, r)) == |rows|
      && result.data == Page(rows, q.start, q.length)
      && result.continuesAbove == ContinuesAbove(q, records, rows)
      && result.continuesBelow == ContinuesBelow(q, records, rows)
  {
    var filtered, visibleTotal := FilterRows(q.filters, records);
    var rows := Sort(filtered, (i: nat, j: nat) => InOrder(q, records, i, j));
    if q.group {
      rows := Cluster(records, rows);
    }
    assert rows == Result(q, records);
    ResultLength(q, records);
    var data, above, below := CutPage(q, records, rows);
    result := SearchResult(visibleTotal, |rows|, data, above, below);
  }

  method CutPage(q: Query, records: seq<Record>, rows: seq<nat>) returns (data: seq<nat>, above: bool, below: bool)
    ensures data == Page(rows, q.start, q.length)
    ensures above == ContinuesAbove(q, records, rows) && below == ContinuesBelow(q, records, rows)
  {
    var total := |rows|;
    var start, end := q.start, q.start + q.length;
    if start > total {
      start := total;
    }
    if end > total {
      end := total;
    }
    above, below := false, false;
    if q.group && end > start {
      above := start > 0 && GroupAt(records, rows[start - 1]) == GroupAt(records, rows[start]);
      below := end < total && GroupAt(records, rows[end]) == GroupAt(records, rows[end - 1]);
    }
    data := rows[start..end];
  }

  lemma SameLength(a: seq<nat>, b: seq<nat>)
    requires multiset(a) == multiset(b)
    ensures |a| == |b|
  {
    assert |multiset(a)| == |a| && |multiset(b)| == |b|;
  }

  /** Ranks every group by its first row, then sorts stably by rank. */
  method Cluster(records: seq<Record>, sorted: seq<nat>) returns (rows: seq<nat>)
    ensures rows == Clustered(records, sorted)
  {
    var rank: map<GroupKey, nat> := map[];
    for pos := 0 to |sorted|
      invariant forall g :: g in rank <==> BestRank(records, sorted, g) < pos
      invariant forall g | g in rank :: rank[g] == BestRank(records, sorted, g)
    {
      var g := GroupAt(records, sorted[pos]);
      BestRankFirst(records, sorted, g);
      forall h | h != g
        ensures BestRank(records, sorted, h) != pos
      {
        BestRankFirst(records, sorted, h);
      }
      if g !in rank {
        rank := rank[g := pos];
      }
    }
    var byRank := (i: nat, j: nat) =>
      (if GroupAt(records, i) in rank then rank[GroupAt(records, i)] else |sorted|)
      <= (if GroupAt(records, j) in rank then rank[GroupAt(records, j)] else |sorted|);
    forall i: nat, j: nat
      ensures byRank(i, j) == RankedBefore(records, sorted, i, j)
    {
      BestRankFirst(records, sorted, GroupAt(records, i));
      BestRankFirst(records, sorted, GroupAt(records, j));
    }
    SortReads(sorted, byRank, (i: nat, j: nat) => RankedBefore(records, sorted, i, j));
    rows := Sort(sorted, byRank);
  }

  lemma {:induction false} InsertReads(x: nat, s: seq<nat>, f: (nat, nat) -> bool, g: (nat, nat) -> bool)
    requires forall i, j :: f(i, j) == g(i, j)
    ensures Insert(x, s, f) == Insert(x, s, g)
  {
    if s == [] {
    } else {
      InsertReads(x, s[1..], f, g);
    }
  }

  lemma {:induction false} SortReads(s: seq<nat>, f: (nat, nat) -> bool, g: (nat, nat) -> bool)
    requires forall i, j :: f(i, j) == g(i, j)
    ensures Sort(s, f) == Sort(s, g)
  {
    if s == [] {
    } else {
      SortReads(s[1..], f, g);
      InsertReads(s[0], Sort(s[1..], f), f, g);
    }
  }
}
