/**
 When reloading keeps the listed records and the links, for rows that come back in a given
 order up to ties, as the database returns them newest first, or in no order at all.
 */
module Reload {
  import opened Text
  import opened Records
  import opened StableSort
  import opened Timeline
  import opened StoreSpec
  import opened Coherence
  import opened Links
  import opened Restart
  import I = Ingest

  /** The order of the database's listing: descending time, and rows without one first. */
  predicate NewestFirst(a: Record, b: Record) {
    a.time == ZERO_TIME || (b.time != ZERO_TIME && a.time >= b.time)
  }

  predicate AnyOrder(a: Record, b: Record) {
    true
  }

  lemma NewestFirstOrders()
    ensures TotalPreorder(NewestFirst) && TotalPreorder(AnyOrder)
  {
  }

  // ---- what loading gives when no row names a later one's id ----

  ghost predicate NamesId(r: Record, d: Key) {
    !r.subsumed && r.delivery != "" && DeliveryKey(r) == d
  }

  ghost predicate NamesNoLater(rows: seq<Record>) {
    forall p, q | 0 <= p < q < |rows| && !rows[q].subsumed :: !NamesId(rows[p], KeyOf(rows[q]))
  }

  /** The last listed row that names an onward id. */
  function LastNaming(rows: seq<Record>, d: Key): Option<Record> {
    if rows == [] then None
    else
      var last := rows[|rows| - 1];
      if !last.subsumed && last.delivery != "" && DeliveryKey(last) == d then Some(last)
      else LastNaming(rows[..|rows| - 1], d)
  }

  ghost predicate FromRow(rows: seq<Record>, k: Key) {
    exists s :: s in rows && !s.subsumed && (k == KeyOf(s) || (s.delivery != "" && k == DeliveryKey(s)))
  }

  /** The loaded store lists the unsubsumed rows, and links each onward id to the last of them that names it. */
  ghost predicate HoldsRows(l: Core, rows: seq<Record>) {
    && (forall r | r in rows && !r.subsumed :: Owns(l, KeyOf(r)) && l.records[l.byQueueID[KeyOf(r)]] == r)
    && (forall r | r in l.records :: r in rows && !r.subsumed)
    && (forall k | k in l.byQueueID :: FromRow(rows, k))
    && (forall d :: Primary(l, d) == LastNaming(rows, d))
    && (forall d | d in l.byDelivery :: l.byDelivery[d] < |l.records|)
  }

  lemma HoldsSkipped(l: Core, rows: seq<Record>, r: Record, origin: string)
    requires HoldsRows(l, rows) && r.subsumed
    ensures HoldsRows(NoteOrigin(l, origin), rows + [r])
  {
    var l' := NoteOrigin(l, origin);
    assert (rows + [r])[..|rows|] == rows;
    forall k | k in l'.byQueueID
      ensures FromRow(rows + [r], k)
    {
      assert FromRow(rows, k);
    }
    forall d
      ensures Primary(l', d) == LastNaming(rows + [r], d)
    {
      assert Primary(l, d) == LastNaming(rows, d);
    }
  }

  lemma NewKeyUnused(l: Core, rows: seq<Record>, r: Record)
    requires HoldsRows(l, rows) && !r.subsumed && NamesNoLater(rows + [r]) && forall s | s in rows :: KeyOf(s) != KeyOf(r)
    ensures KeyOf(r) !in l.byQueueID
  {
    var all := rows + [r];
    forall s | s in rows
      ensures !NamesId(s, KeyOf(r))
    {
      var p :| 0 <= p < |rows| && rows[p] == s;
      assert all[p] == s && all[|rows|] == r;
    }
    assert !FromRow(rows, KeyOf(r));
  }

  lemma AppendedRows(l: Core, rows: seq<Record>, r: Record)
    requires HoldsRows(l, rows) && !r.subsumed && KeyOf(r) !in l.byQueueID && forall s | s in rows :: KeyOf(s) != KeyOf(r)
    ensures var l' := RestoreLink(Append(l, r), |l.records|);
      && (forall s | s in rows + [r] && !s.subsumed :: Owns(l', KeyOf(s)) && l'.records[l'.byQueueID[KeyOf(s)]] == s)
      && (forall s | s in l'.records :: s in rows + [r] && !s.subsumed)
      && (forall d | d in l'.byDelivery :: l'.byDelivery[d] < |l'.records|)
  {
    var l' := RestoreLink(Append(l, r), |l.records|);
    assert l'.records == l.records + [r];
    AppendedOwns(l, r);
    forall s | s in rows + [r] && !s.subsumed
      ensures Owns(l', KeyOf(s)) && l'.records[l'.byQueueID[KeyOf(s)]] == s
    {
      if s in rows {
        OwnerStays(l, r, KeyOf(s));
      }
    }
  }

  lemma AppendedOwns(l: Core, r: Record)
    requires !r.subsumed
    ensures var l' := RestoreLink(Append(l, r), |l.records|);
      Owns(l', KeyOf(r)) && l'.records[l'.byQueueID[KeyOf(r)]] == r
  {
  }

  lemma OwnerStays(l: Core, r: Record, k: Key)
    requires Owns(l, k) && KeyOf(r) !in l.byQueueID
    ensures var l' := RestoreLink(Append(l, r), |l.records|);
      Owns(l', k) && l'.records[l'.byQueueID[k]] == l.records[l.byQueueID[k]]
  {
  }

  lemma AppendedKeys(l: Core, rows: seq<Record>, r: Record)
    requires HoldsRows(l, rows) && !r.subsumed
    ensures var l' := RestoreLink(Append(l, r), |l.records|); forall k | k in l'.byQueueID :: FromRow(rows + [r], k)
  {
    var l' := RestoreLink(Append(l, r), |l.records|);
    assert r in rows + [r];
    forall k | k in l'.byQueueID
      ensures FromRow(rows + [r], k)
    {
      if k in l.byQueueID {
        assert FromRow(rows, k);
        assert forall s | s in rows :: s in rows + [r];
      }
    }
  }

  lemma HoldsAppended(l: Core, rows: seq<Record>, r: Record)
    requires HoldsRows(l, rows) && !r.subsumed && KeyOf(r) !in l.byQueueID && forall s | s in rows :: KeyOf(s) != KeyOf(r)
    ensures HoldsRows(RestoreLink(Append(l, r), |l.records|), rows + [r])
  {
    AppendedRows(l, rows, r);
    AppendedKeys(l, rows, r);
    assert (rows + [r])[..|rows|] == rows;
    forall d
      ensures Primary(RestoreLink(Append(l, r), |l.records|), d) == LastNaming(rows + [r], d)
    {
      AppendedPrimary(l, r, d);
      assert Primary(l, d) == LastNaming(rows, d);
    }
  }

  lemma AppendedPrimary(l: Core, r: Record, d: Key)
    requires !r.subsumed && (d in l.byDelivery ==> l.byDelivery[d] < |l.records|)
    ensures Primary(RestoreLink(Append(l, r), |l.records|), d)
      == if r.delivery != "" && d == DeliveryKey(r) then Some(r) else Primary(l, d)
  {
  }

  lemma {:induction false} LoadHolds(rows: seq<Record>)
    requires Distinct(RowKeys(rows)) && NamesNoLater(rows)
    ensures HoldsRows(Load(EMPTY, rows), rows)
  {
    if rows == [] {
    } else {
      var front, r := rows[..|rows| - 1], rows[|rows| - 1];
      assert rows == front + [r];
      LastKeyIsNew(front, r);
      DistinctFront(front, r);
      LoadHolds(front);
      LoadOneHolds(Load(EMPTY, front), front, r);
    }
  }

  lemma DistinctFront(front: seq<Record>, r: Record)
    requires Distinct(RowKeys(front + [r])) && NamesNoLater(front + [r])
    ensures Distinct(RowKeys(front)) && NamesNoLater(front)
  {
    var all := front + [r];
    assert RowKeys(front) == RowKeys(all)[..|front|];
    forall p, q | 0 <= p < q < |front| && !front[q].subsumed
      ensures !NamesId(front[p], KeyOf(front[q]))
    {
      assert all[p] == front[p] && all[q] == front[q];
    }
  }

  lemma LoadOneHolds(l: Core, front: seq<Record>, r: Record)
    requires HoldsRows(l, front) && NamesNoLater(front + [r]) && (forall s | s in front :: KeyOf(s) != KeyOf(r))
    ensures HoldsRows(LoadOne(l, r), front + [r])
  {
    var noted := NoteOrigin(l, r.origin);
    if r.subsumed {
      HoldsSkipped(l, front, r, r.origin);
    } else {
      NewKeyUnused(l, front, r);
      HoldsNoted(l, front, r.origin);
      HoldsAppended(noted, front, r);
    }
  }

  lemma HoldsNoted(l: Core, rows: seq<Record>, origin: string)
    requires HoldsRows(l, rows)
    ensures HoldsRows(NoteOrigin(l, origin), rows)
  {
    forall d
      ensures Primary(NoteOrigin(l, origin), d) == LastNaming(rows, d)
    {
      assert Primary(l, d) == LastNaming(rows, d);
    }
    assert forall k | k in l.byQueueID :: FromRow(rows, k);
  }

  // ---- links that are true for an order ----

  /** The onward id leads to a listed row that no order lets come before row i, or to row i itself. */
  ghost predicate HeldLast(c: Core, i: nat, le: (Record, Record) -> bool)
    requires i < |c.records|
  {
    var d := DeliveryKey(c.records[i]);
    && d in c.byDelivery && c.byDelivery[d] < |c.records| && !c.records[c.byDelivery[d]].subsumed
    && (c.byDelivery[d] == i || !le(c.records[c.byDelivery[d]], c.records[i]))
  }

  /**
   Every link to a listed row is its own; every listed row that names an onward id is the
   linked one, or comes strictly before it; and none names another listed row's id.
   */
  ghost predicate LinksTrueIn(c: Core, le: (Record, Record) -> bool) {
    && (forall k | k in c.byDelivery && c.byDelivery[k] < |c.records| && !c.records[c.byDelivery[k]].subsumed :: LinkOk(c, k))
    && (forall i | 0 <= i < |c.records| && !c.records[i].subsumed && c.records[i].delivery != "" :: HeldLast(c, i, le))
    && (forall i, j | 0 <= i < |c.records| && 0 <= j < |c.records| && i != j :: NotNamedBy(c, i, j))
  }

  ghost predicate NotNamedBy(c: Core, i: nat, j: nat)
    requires i < |c.records| && j < |c.records|
  {
    !c.records[i].subsumed && !c.records[j].subsumed && c.records[i].delivery != "" ==>
      DeliveryKey(c.records[i]) != KeyOf(c.records[j])
  }

  // ---- enough ----

  lemma {:induction false} LastNamingAt(rows: seq<Record>, d: Key)
    ensures match LastNaming(rows, d)
      case Some(z) => exists p :: 0 <= p < |rows| && rows[p] == z && NamesId(z, d) && forall q | p < q < |rows| :: !NamesId(rows[q], d)
      case None => forall q | 0 <= q < |rows| :: !NamesId(rows[q], d)
  {
    if rows == [] {
    } else {
      var n := |rows| - 1;
      LastNamingAt(rows[..n], d);
      if NamesId(rows[n], d) {
        assert rows[n] == LastNaming(rows, d).value;
      } else if LastNaming(rows, d).Some? {
        var z := LastNaming(rows, d).value;
        var p :| 0 <= p < n && rows[..n][p] == z && NamesId(z, d) && forall q | p < q < n :: !NamesId(rows[..n][q], d);
        assert rows[p] == z;
        assert forall q | p < q < n :: rows[q] == rows[..n][q];
      } else {
        assert forall q | 0 <= q < n :: rows[q] == rows[..n][q];
      }
    }
  }

  lemma LastNamingIsPrimary(c: Core, db: map<Key, Record>, rows: seq<Record>, le: (Record, Record) -> bool, d: Key)
    requires Mirrors(c, db) && Lists(rows, db) && Sorted(rows, le) && LinksTrueIn(c, le)
    ensures LastNaming(rows, d) == Primary(c, d)
  {
    LastNamingAt(rows, d);
    if Primary(c, d).Some? {
      assert LinkOk(c, d);
      RowListed(c, db, rows, c.byDelivery[d]);
      assert NamesId(Primary(c, d).value, d);
    }
    if LastNaming(rows, d).Some? {
      var p :| 0 <= p < |rows| && rows[p] == LastNaming(rows, d).value && NamesId(rows[p], d)
               && forall q | p < q < |rows| :: !NamesId(rows[q], d);
      LastIsPrimary(c, db, rows, le, d, p);
    }
  }

  lemma LastIsPrimary(c: Core, db: map<Key, Record>, rows: seq<Record>, le: (Record, Record) -> bool, d: Key, p: nat)
    requires Mirrors(c, db) && Lists(rows, db) && Sorted(rows, le) && LinksTrueIn(c, le)
    requires p < |rows| && NamesId(rows[p], d) && forall q | p < q < |rows| :: !NamesId(rows[q], d)
    ensures Primary(c, d) == Some(rows[p])
  {
    var a := RowIndex(c, db, rows[p]);
    assert HeldLast(c, a, le);
    assert LinkOk(c, d);
    RowListed(c, db, rows, c.byDelivery[d]);
    var q :| 0 <= q < |rows| && rows[q] == c.records[c.byDelivery[d]];
    assert NamesId(rows[q], d);
    assert q < p ==> le(rows[q], rows[p]);
  }

  lemma RowsNameNoLater(c: Core, db: map<Key, Record>, rows: seq<Record>, le: (Record, Record) -> bool)
    requires Mirrors(c, db) && Lists(rows, db) && LinksTrueIn(c, le)
    ensures NamesNoLater(rows)
  {
    forall p, q | 0 <= p < q < |rows| && !rows[q].subsumed
      ensures !NamesId(rows[p], KeyOf(rows[q]))
    {
      var a := RowIndex(c, db, rows[p]);
      var b := RowIndex(c, db, rows[q]);
      assert RowKeys(rows)[p] != RowKeys(rows)[q];
      assert NotNamedBy(c, a, b);
    }
  }

  lemma TrueInReloads(c: Core, db: map<Key, Record>, rows: seq<Record>, le: (Record, Record) -> bool)
    requires Coherent(c) && Mirrors(c, db) && Lists(rows, db) && Sorted(rows, le) && LinksTrueIn(c, le)
    ensures ReloadsSame(c, rows)
  {
    RowsNameNoLater(c, db, rows, le);
    LoadHolds(rows);
    HeldRowsView(c, db, rows, Load(EMPTY, rows));
    forall d
      ensures Primary(Load(EMPTY, rows), d) == Primary(c, d)
    {
      LastNamingIsPrimary(c, db, rows, le, d);
      assert Primary(Load(EMPTY, rows), d) == LastNaming(rows, d);
    }
  }

  lemma HeldIsShown(c: Core, db: map<Key, Record>, rows: seq<Record>, l: Core, k: Key)
    requires Coherent(c) && Mirrors(c, db) && Lists(rows, db) && HoldsRows(l, rows) && k in View(l)
    ensures k in View(c) && View(c)[k] == View(l)[k]
  {
    var r := View(l)[k];
    assert r in l.records && KeyOf(r) == k;
    StoredShown(c, db, rows, r);
  }

  lemma ShownIsHeld(c: Core, db: map<Key, Record>, rows: seq<Record>, l: Core, k: Key)
    requires Mirrors(c, db) && Lists(rows, db) && HoldsRows(l, rows) && k in View(c)
    ensures k in View(l)
  {
    RowListed(c, db, rows, c.byQueueID[k]);
    assert Owns(l, KeyOf(View(c)[k]));
  }

  lemma HeldRowsView(c: Core, db: map<Key, Record>, rows: seq<Record>, l: Core)
    requires Coherent(c) && Mirrors(c, db) && Lists(rows, db) && HoldsRows(l, rows)
    ensures View(l) == View(c)
  {
    forall k | k in View(l)
      ensures k in View(c) && View(c)[k] == View(l)[k]
    {
      HeldIsShown(c, db, rows, l, k);
    }
    forall k | k in View(c)
      ensures k in View(l)
    {
      ShownIsHeld(c, db, rows, l, k);
    }
    SameRecords(View(l), View(c));
  }

  // ---- and needed ----

  /** A row placed as late as the order allows. */
  lemma PlaceLate(rest: seq<Record>, x: Record, le: (Record, Record) -> bool) returns (n: nat)
    requires TotalPreorder(le) && Sorted(rest, le)
    ensures n <= |rest| && Sorted(rest[..n] + [x] + rest[n..], le)
    ensures forall y | y in rest[n..] :: !le(y, x)
  {
    n := 0;
    while n < |rest| && le(rest[n], x)
      invariant n <= |rest| && forall p | 0 <= p < n :: le(rest[p], x)
    {
      n := n + 1;
    }
    forall y | y in rest[n..]
      ensures !le(y, x)
    {
      var q :| 0 <= q < |rest[n..]| && rest[n..][q] == y;
      assert le(rest[n], rest[n + q]) || q == 0;
    }
  }

  lemma PermutationLists(c: Core, db: map<Key, Record>, rows: seq<Record>)
    requires Keyed(c) && Mirrors(c, db) && multiset(rows) == multiset(c.records)
    ensures Lists(rows, db)
  {
    forall i, j | 0 <= i < j < |c.records|
      ensures c.records[i] != c.records[j]
    {
      assert Keys(c)[i] != Keys(c)[j];
    }
    DistinctByMultiset(c.records, rows);
    SameMembers(c.records, rows);
    forall i, j | 0 <= i < j < |rows|
      ensures RowKeys(rows)[i] != RowKeys(rows)[j]
    {
      var a := IndexOf(c, rows[i]);
      var b := IndexOf(c, rows[j]);
      assert Keys(c)[a] != Keys(c)[b];
    }
    forall r | r in rows
      ensures Shows(db, r)
    {
      var a := IndexOf(c, r);
      assert Shows(db, c.records[a]);
    }
    forall k | k in db
      ensures k in RowKeys(rows)
    {
      var a :| 0 <= a < |c.records| && Keys(c)[a] == k;
      assert c.records[a] in rows;
      var j :| 0 <= j < |rows| && rows[j] == c.records[a];
      assert RowKeys(rows)[j] == k;
    }
  }

  lemma IndexOf(c: Core, r: Record) returns (a: nat)
    requires r in c.records
    ensures a < |c.records| && c.records[a] == r
  {
    a :| 0 <= a < |c.records| && c.records[a] == r;
  }

  lemma SplitMultiset(a: seq<Record>, x: Record, b: seq<Record>, before: seq<Record>, after: seq<Record>)
    requires multiset(before + after) == multiset(a + b)
    ensures multiset(before + [x] + after) == multiset(a + [x] + b)
  {
    assert multiset(before + [x] + after) == multiset(before + after) + multiset{x};
    assert multiset(a + [x] + b) == multiset(a + b) + multiset{x};
  }

  lemma OrderLate(records: seq<Record>, le: (Record, Record) -> bool, i: nat) returns (before: seq<Record>, after: seq<Record>)
    requires TotalPreorder(le) && i < |records|
    ensures var rows := before + [records[i]] + after; multiset(rows) == multiset(records) && Sorted(rows, le)
    ensures forall y | y in after :: !le(y, records[i])
  {
    var a, x, b := records[..i], records[i], records[i + 1..];
    SortCorrect(a + b, le);
    var rest := Sort(a + b, le);
    var n := PlaceLate(rest, x, le);
    before, after := rest[..n], rest[n..];
    assert rest == before + after;
    SplitMultiset(a, x, b, before, after);
    assert records == a + [x] + b;
  }

  /** The rows in an allowed order, row i as late in it as can be. */
  lemma RowLate(c: Core, db: map<Key, Record>, le: (Record, Record) -> bool, i: nat) returns (before: seq<Record>, after: seq<Record>)
    requires TotalPreorder(le) && Keyed(c) && Mirrors(c, db) && i < |c.records|
    ensures var rows := before + [c.records[i]] + after; Lists(rows, db) && Sorted(rows, le)
    ensures forall y | y in after :: !le(y, c.records[i])
  {
    before, after := OrderLate(c.records, le, i);
    PermutationLists(c, db, before + [c.records[i]] + after);
  }

  lemma {:induction false} LoadConcat(c: Core, a: seq<Record>, b: seq<Record>)
    ensures Load(c, a + b) == Load(Load(c, a), b)
  {
    if b == [] {
      assert a + b == a;
    } else {
      LoadConcat(c, a, b[..|b| - 1]);
      assert (a + b)[..|a + b| - 1] == a + b[..|b| - 1];
    }
  }

  lemma LoadThree(before: seq<Record>, x: Record, after: seq<Record>)
    ensures Load(EMPTY, before + [x] + after) == Load(LoadOne(Load(EMPTY, before), x), after)
  {
    LoadConcat(EMPTY, before + [x], after);
    assert (before + [x])[..|before|] == before;
  }

  /** Once an onward id leads to a row, it leads to that or to a later one. */
  lemma {:induction false} LinkStays(l: Core, rows: seq<Record>, d: Key)
    requires d in l.byQueueID && Primary(l, d).Some?
    ensures var l' := Load(l, rows);
      d in l'.byQueueID && Primary(l', d).Some? && (Primary(l', d) == Primary(l, d) || Primary(l', d).value in rows)
  {
    if rows == [] {
    } else {
      var front, r := rows[..|rows| - 1], rows[|rows| - 1];
      LinkStays(l, front, d);
      LinkStaysOne(Load(l, front), r, d);
      assert rows == front + [r];
    }
  }

  lemma LinkStaysOne(l: Core, r: Record, d: Key)
    requires d in l.byQueueID && Primary(l, d).Some?
    ensures var l' := LoadOne(l, r);
      d in l'.byQueueID && Primary(l', d).Some? && (Primary(l', d) == Primary(l, d) || Primary(l', d).value == r)
  {
  }

  /** An id that resolves while no row has it as its own never gets one. */
  ghost predicate Hidden(l: Core, k: Key) {
    k in l.byQueueID && forall r | r in l.records :: KeyOf(r) != k
  }

  lemma {:induction false} HiddenStays(l: Core, rows: seq<Record>, k: Key)
    requires Hidden(l, k)
    ensures Hidden(Load(l, rows), k) && k !in View(Load(l, rows))
  {
    if rows == [] {
    } else {
      HiddenStays(l, rows[..|rows| - 1], k);
      HiddenStaysOne(Load(l, rows[..|rows| - 1]), rows[|rows| - 1], k);
    }
    assert Hidden(Load(l, rows), k);
  }

  lemma HiddenStaysOne(l: Core, r: Record, k: Key)
    requires Hidden(l, k)
    ensures Hidden(LoadOne(l, r), k)
  {
  }

  /** A row whose id resolves already when it comes is not listed. */
  lemma LateIsHidden(front: seq<Record>, y: Record, rest: seq<Record>)
    requires Distinct(RowKeys(front + [y])) && KeyOf(y) in Load(EMPTY, front).byQueueID
    ensures KeyOf(y) !in View(Load(EMPTY, front + [y] + rest))
  {
    LastKeyIsNew(front, y);
    LoadTargets(front);
    LoadThree(front, y, rest);
    HiddenStaysOne(Load(EMPTY, front), y, KeyOf(y));
    HiddenStays(LoadOne(Load(EMPTY, front), y), rest, KeyOf(y));
  }

  /** A row that ends up listed was loaded in its place, and linked. */
  lemma ListedIsLoaded(before: seq<Record>, x: Record, after: seq<Record>)
    requires Distinct(RowKeys(before + [x])) && !x.subsumed && x.delivery != ""
    requires KeyOf(x) in View(Load(EMPTY, before + [x] + after))
    ensures var l := LoadOne(Load(EMPTY, before), x); DeliveryKey(x) in l.byQueueID && Primary(l, DeliveryKey(x)) == Some(x)
  {
    if KeyOf(x) in Load(EMPTY, before).byQueueID {
      LateIsHidden(before, x, after);
    }
  }

  lemma PrefixDistinct(a: seq<Record>, b: seq<Record>)
    requires Distinct(RowKeys(a + b))
    ensures Distinct(RowKeys(a))
  {
    assert RowKeys(a) == RowKeys(a + b)[..|a|];
  }

  /** A row whose id is named by one loaded before it is not listed. */
  lemma NamedIsHidden(before: seq<Record>, x: Record, after: seq<Record>, q: nat)
    requires Distinct(RowKeys(before + [x] + after)) && q < |after| && DeliveryKey(x) == KeyOf(after[q])
    requires var l := LoadOne(Load(EMPTY, before), x); DeliveryKey(x) in l.byQueueID && Primary(l, DeliveryKey(x)).Some?
    ensures KeyOf(after[q]) !in View(Load(EMPTY, before + [x] + after))
  {
    var front, y, rest := before + [x] + after[..q], after[q], after[q + 1..];
    assert before + [x] + after == front + [y] + rest;
    PrefixDistinct(front + [y], rest);
    LoadThree(before, x, after[..q]);
    LinkStays(LoadOne(Load(EMPTY, before), x), after[..q], KeyOf(y));
    LateIsHidden(front, y, rest);
  }

  /** Where a listed row's onward id leads after a reload with that row as late as can be. */
  lemma ReloadedLink(c: Core, before: seq<Record>, after: seq<Record>, i: nat)
    requires Coherent(c) && i < |c.records| && !c.records[i].subsumed && c.records[i].delivery != ""
    requires var rows := before + [c.records[i]] + after; Distinct(RowKeys(rows)) && ReloadsSame(c, rows)
    ensures var x := c.records[i];
      var l := LoadOne(Load(EMPTY, before), x);
      && DeliveryKey(x) in l.byQueueID && Primary(l, DeliveryKey(x)) == Some(x)
      && Primary(c, DeliveryKey(x)).Some? && (Primary(c, DeliveryKey(x)) == Some(x) || Primary(c, DeliveryKey(x)).value in after)
  {
    var x := c.records[i];
    ListedShows(c, i);
    PrefixDistinct(before + [x], after);
    ListedIsLoaded(before, x, after);
    LoadThree(before, x, after);
    LinkStays(LoadOne(Load(EMPTY, before), x), after, DeliveryKey(x));
    assert Primary(Load(EMPTY, before + [x] + after), DeliveryKey(x)) == Primary(c, DeliveryKey(x));
  }

  lemma ReloadedAt(c: Core, le: (Record, Record) -> bool, i: nat, before: seq<Record>, after: seq<Record>)
    requires Coherent(c) && Keyed(c) && i < |c.records| && !c.records[i].subsumed && c.records[i].delivery != ""
    requires var rows := before + [c.records[i]] + after; Distinct(RowKeys(rows)) && ReloadsSame(c, rows)
    requires forall y | y in after :: !le(y, c.records[i])
    ensures HeldLast(c, i, le) && forall j | 0 <= j < |c.records| && j != i :: NotNamedBy(c, i, j)
  {
    ReloadedLink(c, before, after, i);
    HeldFromLink(c, le, i, after);
    forall j | 0 <= j < |c.records| && j != i
      ensures NotNamedBy(c, i, j)
    {
      ReloadedNotNamed(c, before, after, i, j);
    }
  }

  lemma LateReloads(c: Core, db: map<Key, Record>, le: (Record, Record) -> bool, i: nat)
      returns (before: seq<Record>, after: seq<Record>)
    requires TotalPreorder(le) && Keyed(c) && Mirrors(c, db) && i < |c.records|
    requires forall rows | Lists(rows, db) && Sorted(rows, le) :: ReloadsSame(c, rows)
    ensures var rows := before + [c.records[i]] + after; Distinct(RowKeys(rows)) && ReloadsSame(c, rows)
    ensures forall y | y in after :: !le(y, c.records[i])
  {
    before, after := RowLate(c, db, le, i);
    var rows := before + [c.records[i]] + after;
    assert Lists(rows, db) && Sorted(rows, le);
  }

  lemma HeldFromLink(c: Core, le: (Record, Record) -> bool, i: nat, after: seq<Record>)
    requires Keyed(c) && i < |c.records| && forall y | y in after :: !le(y, c.records[i])
    requires var p := Primary(c, DeliveryKey(c.records[i])); p.Some? && (p == Some(c.records[i]) || p.value in after)
    ensures HeldLast(c, i, le)
  {
    assert Keys(c)[i] == KeyOf(c.records[i]);
    assert Keys(c)[c.byDelivery[DeliveryKey(c.records[i])]] == KeyOf(Primary(c, DeliveryKey(c.records[i])).value);
  }

  lemma ReloadedNotNamed(c: Core, before: seq<Record>, after: seq<Record>, i: nat, j: nat)
    requires Coherent(c) && Keyed(c) && i < |c.records| && j < |c.records| && i != j
    requires !c.records[i].subsumed && c.records[i].delivery != ""
    requires var rows := before + [c.records[i]] + after; Distinct(RowKeys(rows)) && ReloadsSame(c, rows)
    ensures NotNamedBy(c, i, j)
  {
    var x, y := c.records[i], c.records[j];
    if !y.subsumed && DeliveryKey(x) == KeyOf(y) {
      ReloadedLink(c, before, after, i);
      ListedShows(c, j);
      assert Listed(c, j) && Keys(c)[i] != Keys(c)[j];
      assert y in after;
      var q :| 0 <= q < |after| && after[q] == y;
      NamedIsHidden(before, x, after, q);
    }
  }

  lemma ReloadedTrueIn(c: Core, db: map<Key, Record>, le: (Record, Record) -> bool)
    requires TotalPreorder(le) && Coherent(c) && Keyed(c) && Mirrors(c, db)
    requires forall rows | Lists(rows, db) && Sorted(rows, le) :: ReloadsSame(c, rows)
    ensures LinksTrueIn(c, le)
  {
    forall i | 0 <= i < |c.records| && !c.records[i].subsumed && c.records[i].delivery != ""
      ensures HeldLast(c, i, le) && forall j | 0 <= j < |c.records| && j != i :: NotNamedBy(c, i, j)
    {
      var before, after := LateReloads(c, db, le, i);
      ReloadedAt(c, le, i, before, after);
    }
    forall k | k in c.byDelivery && c.byDelivery[k] < |c.records| && !c.records[c.byDelivery[k]].subsumed
      ensures LinkOk(c, k)
    {
      ReloadedLinkOk(c, db, le, k);
    }
  }

  lemma ReloadedLinkOk(c: Core, db: map<Key, Record>, le: (Record, Record) -> bool, k: Key)
    requires TotalPreorder(le) && Keyed(c) && Mirrors(c, db) && Primary(c, k).Some?
    requires forall rows | Lists(rows, db) && Sorted(rows, le) :: ReloadsSame(c, rows)
    ensures LinkOk(c, k)
  {
    var i := c.byDelivery[k];
    var before, after := LateReloads(c, db, le, i);
    ReloadedLinkIsOk(c, before + [c.records[i]] + after, k);
  }

  /**
   A mirrored store is reloaded with the same records and links, for all rows in a given
   order up to ties, exactly when its links are true in that order.
   */
  lemma ReloadsSameInOrderIff(c: Core, db: map<Key, Record>, le: (Record, Record) -> bool)
    requires TotalPreorder(le) && Coherent(c) && Keyed(c) && Mirrors(c, db)
    ensures (forall rows | Lists(rows, db) && Sorted(rows, le) :: ReloadsSame(c, rows)) <==> LinksTrueIn(c, le)
  {
    if LinksTrueIn(c, le) {
      forall rows | Lists(rows, db) && Sorted(rows, le)
        ensures ReloadsSame(c, rows)
      {
        TrueInReloads(c, db, rows, le);
      }
    }
    if forall rows | Lists(rows, db) && Sorted(rows, le) :: ReloadsSame(c, rows) {
      ReloadedTrueIn(c, db, le);
    }
  }

  /** The database lists newest first: exact for the order the store is loaded in. */
  lemma ReloadsSameNewestFirstIff(c: Core, db: map<Key, Record>)
    requires Coherent(c) && Keyed(c) && Mirrors(c, db)
    ensures (forall rows | Lists(rows, db) && Sorted(rows, NewestFirst) :: ReloadsSame(c, rows)) <==> LinksTrueIn(c, NewestFirst)
  {
    NewestFirstOrders();
    ReloadsSameInOrderIff(c, db, NewestFirst);
  }

  /** Links true in every order are those of the rows themselves. */
  lemma TrueInAnyOrder(c: Core)
    requires Coherent(c)
    ensures LinksTrueIn(c, AnyOrder) <==> LinksTrue(c)
  {
    if LinksTrue(c) {
      forall i, j | 0 <= i < |c.records| && 0 <= j < |c.records| && i != j
        ensures NotNamedBy(c, i, j)
      {
        assert c.records[j].subsumed || Listed(c, j);
        assert c.records[i].subsumed || LinkHeld(c, i);
      }
    }
    if LinksTrueIn(c, AnyOrder) {
      forall i | 0 <= i < |c.records| && !c.records[i].subsumed
        ensures LinkHeld(c, i)
      {
        assert c.records[i].delivery != "" ==> HeldLast(c, i, AnyOrder);
      }
    }
  }

  /** In whatever order the rows come back: exactly when every listed row holds its link, and every link to one is its own. */
  lemma ReloadsSameIff(c: Core, db: map<Key, Record>)
    requires Coherent(c) && Keyed(c) && Mirrors(c, db)
    ensures (forall rows | Lists(rows, db) :: ReloadsSame(c, rows)) <==> LinksTrue(c)
  {
    NewestFirstOrders();
    TrueInAnyOrder(c);
    ReloadsSameInOrderIff(c, db, AnyOrder);
    assert forall rows: seq<Record> :: Sorted(rows, AnyOrder);
  }

  // ---- a receiver and its database ----

  datatype Batch = Batch(origin: string, snaps: seq<Record>)

  /** A receiver that took in these batches, and what its database holds. */
  function Taken(batches: seq<Batch>): Core {
    if batches == [] then EMPTY
    else Ingest(Taken(batches[..|batches| - 1]), batches[|batches| - 1].origin, batches[|batches| - 1].snaps)
  }

  function TakenRows(batches: seq<Batch>): map<Key, Record> {
    if batches == [] then map[]
    else
      Upsert(TakenRows(batches[..|batches| - 1]), StampAll(batches[|batches| - 1].origin, batches[|batches| - 1].snaps))
  }

  ghost predicate KeyedRows(db: map<Key, Record>) {
    forall k | k in db :: KeyOf(db[k]) == k
  }

  /** What is listed has a row; an unsubsumed row is listed as it is. */
  ghost predicate ListsOver(view: map<Key, Record>, db: map<Key, Record>) {
    (forall k | k in view :: k in db) && (forall k | k in db && !db[k].subsumed :: k in view && view[k] == db[k])
  }

  lemma {:induction false} BatchListsOver(origin: string, snaps: seq<Record>)
    ensures ListsOver(I.Latest(origin, snaps), Upsert(map[], StampAll(origin, snaps)))
    ensures KeyedRows(Upsert(map[], StampAll(origin, snaps)))
  {
    if snaps == [] {
    } else {
      var n := |snaps| - 1;
      BatchListsOver(origin, snaps[..n]);
      var all := StampAll(origin, snaps);
      assert all[..|all| - 1] == StampAll(origin, snaps[..n]) && all[|all| - 1] == Stamp(origin, snaps[n]);
    }
  }

  lemma UnionListsOver(view: map<Key, Record>, db: map<Key, Record>, more: map<Key, Record>, rows: map<Key, Record>)
    requires ListsOver(view, db) && ListsOver(more, rows)
    ensures ListsOver(view + more, db + rows)
  {
  }

  lemma {:induction false} TakenListsOver(batches: seq<Batch>)
    ensures ListsOver(View(Taken(batches)), TakenRows(batches)) && KeyedRows(TakenRows(batches))
  {
    if batches == [] {
    } else {
      var front, b := batches[..|batches| - 1], batches[|batches| - 1];
      TakenListsOver(front);
      I.IngestView(Taken(front), b.origin, b.snaps);
      I.UpsertAsUnion(TakenRows(front), StampAll(b.origin, b.snaps));
      BatchListsOver(b.origin, b.snaps);
      UnionListsOver(View(Taken(front)), TakenRows(front), I.Latest(b.origin, b.snaps),
                     Upsert(map[], StampAll(b.origin, b.snaps)));
    }
  }

  /** Some listing of a database, for every map is one of finitely many rows. */
  lemma {:induction false} SomeListing(db: map<Key, Record>) returns (rows: seq<Record>)
    requires KeyedRows(db)
    ensures Lists(rows, db)
    decreases |db|
  {
    if db == map[] {
      rows := [];
    } else {
      var k :| k in db;
      var rest := SomeListing(db - {k});
      rows := rest + [db[k]];
      OneMoreListed(rest, db, k);
    }
  }

  lemma OneMoreListed(rest: seq<Record>, db: map<Key, Record>, k: Key)
    requires KeyedRows(db) && k in db && Lists(rest, db - {k})
    ensures Lists(rest + [db[k]], db)
  {
    var rows := rest + [db[k]];
    assert RowKeys(rows) == RowKeys(rest) + [k];
    forall r | r in rest
      ensures KeyOf(r) != k
    {
      assert Shows(db - {k}, r);
    }
    forall q | 0 <= q < |rest|
      ensures RowKeys(rest)[q] != k
    {
      assert rest[q] in rest;
    }
  }

  /** No row names the id of one that may come after it. */
  ghost predicate NamesNoneAfter(db: map<Key, Record>, le: (Record, Record) -> bool) {
    forall j, k | j in db && k in db && j != k && !db[k].subsumed && NamesId(db[j], k) :: !le(db[j], db[k])
  }

  lemma ListingNamesNoLater(rows: seq<Record>, db: map<Key, Record>, le: (Record, Record) -> bool)
    requires Lists(rows, db) && Sorted(rows, le) && NamesNoneAfter(db, le)
    ensures NamesNoLater(rows)
  {
    forall p, q | 0 <= p < q < |rows| && !rows[q].subsumed
      ensures !NamesId(rows[p], KeyOf(rows[q]))
    {
      assert Shows(db, rows[p]) && Shows(db, rows[q]);
      assert RowKeys(rows)[p] != RowKeys(rows)[q] && le(rows[p], rows[q]);
    }
  }

  lemma HeldInView(rows: seq<Record>, db: map<Key, Record>, view: map<Key, Record>, l: Core, k: Key)
    requires Lists(rows, db) && HoldsRows(l, rows) && ListsOver(view, db) && k in View(l)
    ensures k in view && view[k] == View(l)[k]
  {
    var r := View(l)[k];
    assert r in l.records && KeyOf(r) == k;
    assert Shows(db, r);
  }

  lemma ViewIsHeld(rows: seq<Record>, db: map<Key, Record>, view: map<Key, Record>, l: Core, k: Key)
    requires Lists(rows, db) && HoldsRows(l, rows) && ListsOver(view, db) && k in view && !db[k].subsumed
    ensures k in View(l)
  {
    var q :| 0 <= q < |rows| && RowKeys(rows)[q] == k;
    assert Shows(db, rows[q]) && rows[q] in rows;
    assert Owns(l, KeyOf(rows[q]));
  }

  lemma HeldRowsAreView(rows: seq<Record>, db: map<Key, Record>, view: map<Key, Record>, l: Core)
    requires Lists(rows, db) && HoldsRows(l, rows)
    requires ListsOver(view, db) && forall k | k in view :: !db[k].subsumed
    ensures View(l) == view
  {
    forall k | k in View(l)
      ensures k in view && view[k] == View(l)[k]
    {
      HeldInView(rows, db, view, l, k);
    }
    forall k | k in view
      ensures k in View(l)
    {
      ViewIsHeld(rows, db, view, l, k);
    }
    SameRecords(View(l), view);
  }

  /** A listed record whose database row is subsumed is gone after a restart. */
  lemma SubsumedRowIsGone(rows: seq<Record>, db: map<Key, Record>, k: Key)
    requires Lists(rows, db) && k in db && db[k].subsumed
    ensures k !in View(Load(EMPTY, rows))
  {
    var l := Load(EMPTY, rows);
    LoadTargets(rows);
    forall r | r in l.records
      ensures KeyOf(r) != k
    {
      assert Shows(db, r);
    }
  }

  /** Of two rows, one naming the other's id, the later one is not listed if the earlier is. */
  lemma {:induction false} NamedRowIsGone(rows: seq<Record>, p: nat, q: nat)
    requires Distinct(RowKeys(rows)) && p < q < |rows| && NamesId(rows[p], KeyOf(rows[q]))
    requires KeyOf(rows[p]) in View(Load(EMPTY, rows))
    ensures KeyOf(rows[q]) !in View(Load(EMPTY, rows))
  {
    var before, x, after := rows[..p], rows[p], rows[p + 1..];
    assert rows == before + [x] + after;
    PrefixDistinct(before + [x], after);
    ListedIsLoaded(before, x, after);
    assert after[q - p - 1] == rows[q];
    NamedIsHidden(before, x, after, q - p - 1);
  }

  /** A listing in which the row naming the other's id comes first. */
  lemma NamerFirst(db: map<Key, Record>, le: (Record, Record) -> bool, j: Key, k: Key)
      returns (rows: seq<Record>, p: nat, q: nat)
    requires TotalPreorder(le) && KeyedRows(db) && j in db && k in db && j != k && le(db[j], db[k])
    ensures Lists(rows, db) && Sorted(rows, le) && p < q < |rows| && rows[p] == db[j] && rows[q] == db[k]
  {
    var any := SomeListing(db);
    var i := ListedAt(any, db, k);
    var before, after := OrderLate(any, le, i);
    rows := before + [db[k]] + after;
    ListingPermuted(any, rows, db);
    p := ListedAt(rows, db, j);
    q := |before|;
    assert rows[q] == db[k] && db[j] !in after;
    assert forall a | q < a < |rows| :: rows[a] in after;
  }

  lemma ListedAt(rows: seq<Record>, db: map<Key, Record>, k: Key) returns (i: nat)
    requires Lists(rows, db) && k in db
    ensures i < |rows| && rows[i] == db[k]
  {
    i :| 0 <= i < |rows| && RowKeys(rows)[i] == k;
    assert Shows(db, rows[i]);
  }

  lemma {:induction false} LateRowIsGone(db: map<Key, Record>, le: (Record, Record) -> bool, j: Key, k: Key) returns (rows: seq<Record>)
    requires TotalPreorder(le) && KeyedRows(db) && j in db && k in db && j != k && NamesId(db[j], k) && le(db[j], db[k])
    ensures Lists(rows, db) && Sorted(rows, le)
    ensures j in View(Load(EMPTY, rows)) ==> k !in View(Load(EMPTY, rows))
  {
    var p: nat, q: nat;
    rows, p, q := NamerFirst(db, le, j, k);
    if j in View(Load(EMPTY, rows)) {
      NamedRowIsGone(rows, p, q);
    }
  }

  lemma ListingPermuted(any: seq<Record>, rows: seq<Record>, db: map<Key, Record>)
    requires Lists(any, db) && multiset(rows) == multiset(any)
    ensures Lists(rows, db)
  {
    SameMembers(any, rows);
    forall i, j | 0 <= i < j < |any|
      ensures any[i] != any[j]
    {
      assert RowKeys(any)[i] != RowKeys(any)[j];
    }
    DistinctByMultiset(any, rows);
    forall i, j | 0 <= i < j < |rows|
      ensures RowKeys(rows)[i] != RowKeys(rows)[j]
    {
      assert rows[i] != rows[j] && Shows(db, rows[i]) && Shows(db, rows[j]);
    }
    forall k | k in db
      ensures k in RowKeys(rows)
    {
      var a :| 0 <= a < |any| && RowKeys(any)[a] == k;
      assert any[a] in rows;
      var b :| 0 <= b < |rows| && rows[b] == any[a];
      assert RowKeys(rows)[b] == k;
    }
  }

  /**
   A receiver's restart: it lists the same records in every allowed order of the rows exactly
   when no listed record's last snapshot is subsumed, and no row names the id of one that may
   come after it.
   */
  lemma ReceiverRestartIff(batches: seq<Batch>, le: (Record, Record) -> bool)
    requires TotalPreorder(le)
    ensures var view, db := View(Taken(batches)), TakenRows(batches);
      && (forall k | k in view :: k in db)
      && ((forall rows | Lists(rows, db) && Sorted(rows, le) :: View(Load(EMPTY, rows)) == view)
          <==> (forall k | k in view :: !db[k].subsumed) && NamesNoneAfter(db, le))
  {
    var view, db := View(Taken(batches)), TakenRows(batches);
    TakenListsOver(batches);
    if (forall k | k in view :: !db[k].subsumed) && NamesNoneAfter(db, le) {
      forall rows | Lists(rows, db) && Sorted(rows, le)
        ensures View(Load(EMPTY, rows)) == view
      {
        ListingNamesNoLater(rows, db, le);
        LoadHolds(rows);
        HeldRowsAreView(rows, db, view, Load(EMPTY, rows));
      }
    }
    if forall rows | Lists(rows, db) && Sorted(rows, le) :: View(Load(EMPTY, rows)) == view {
      ReceiverKeepsAll(view, db, le);
    }
  }

  lemma ReceiverKeepsAll(view: map<Key, Record>, db: map<Key, Record>, le: (Record, Record) -> bool)
    requires TotalPreorder(le) && ListsOver(view, db) && KeyedRows(db)
    requires forall rows | Lists(rows, db) && Sorted(rows, le) :: View(Load(EMPTY, rows)) == view
    ensures (forall k | k in view :: !db[k].subsumed) && NamesNoneAfter(db, le)
  {
    var any := SomeListing(db);
    SortCorrect(any, le);
    ListingPermuted(any, Sort(any, le), db);
    forall k | k in view
      ensures !db[k].subsumed
    {
      if db[k].subsumed {
        SubsumedRowIsGone(Sort(any, le), db, k);
      }
    }
    forall j, k | j in db && k in db && j != k && !db[k].subsumed && NamesId(db[j], k)
      ensures !le(db[j], db[k])
    {
      if le(db[j], db[k]) {
        var rows := LateRowIsGone(db, le, j, k);
      }
    }
  }

  /** A leg taken in as a listed row, and then subsumed, is listed until the restart and gone after it. */
  lemma LegGoneAfterRestart(leg: Record, primary: Record)
    requires leg == BLANK.(qid := "D") && primary == BLANK.(qid := "A", delivery := "D")
    ensures var snaps := [leg, leg.(subsumed := true), primary];
      var db := TakenRows([Batch("s", snaps)]);
      && Key("s", "D") in View(Taken([Batch("s", snaps)]))
      && (forall rows | Lists(rows, db) :: Key("s", "D") !in View(Load(EMPTY, rows)))
  {
    var snaps := [leg, leg.(subsumed := true), primary];
    var batches := [Batch("s", snaps)];
    OneBatch(batches[0]);
    I.IngestView(EMPTY, "s", snaps);
    I.LatestIsLast("s", snaps, 0);
    LegRowSubsumed(leg, primary);
    forall rows | Lists(rows, TakenRows(batches))
      ensures Key("s", "D") !in View(Load(EMPTY, rows))
    {
      SubsumedRowIsGone(rows, TakenRows(batches), Key("s", "D"));
    }
  }

  lemma OneBatch(b: Batch)
    ensures Taken([b]) == Ingest(EMPTY, b.origin, b.snaps) && TakenRows([b]) == Upsert(map[], StampAll(b.origin, b.snaps))
  {
    var batches := [b];
    assert batches[..|batches| - 1] == [];
    assert Taken(batches[..|batches| - 1]) == EMPTY && TakenRows(batches[..|batches| - 1]) == map[];
  }

  lemma LegRowSubsumed(leg: Record, primary: Record)
    requires leg == BLANK.(qid := "D") && primary == BLANK.(qid := "A", delivery := "D")
    ensures var db := Upsert(map[], StampAll("s", [leg, leg.(subsumed := true), primary]));
      Key("s", "D") in db && db[Key("s", "D")].subsumed
  {
    ThreeStamped(leg, leg.(subsumed := true), primary);
    ThreeUpserted(Stamp("s", leg), Stamp("s", leg.(subsumed := true)), Stamp("s", primary));
  }

  lemma ThreeStamped(a: Record, b: Record, c: Record)
    ensures StampAll("s", [a, b, c]) == [Stamp("s", a), Stamp("s", b), Stamp("s", c)]
  {
    assert [a, b, c][..2] == [a, b] && [a, b][..1] == [a] && [a][..0] == [];
    assert StampAll("s", [a]) == [Stamp("s", a)];
    assert StampAll("s", [a, b]) == [Stamp("s", a), Stamp("s", b)];
  }

  lemma ThreeUpserted(a: Record, b: Record, c: Record)
    ensures Upsert(map[], [a, b, c]) == map[][KeyOf(a) := a][KeyOf(b) := b][KeyOf(c) := c]
  {
    assert [a, b, c][..2] == [a, b] && [a, b][..1] == [a];
    UpsertOne(map[], a);
    assert Upsert(map[], [a, b]) == map[][KeyOf(a) := a][KeyOf(b) := b];
  }
}
