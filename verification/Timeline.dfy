/**
 Merging raw lines and records: the chronological timeline of a record, the fold of
 an outbound leg into its primary, and the incremental merge of a queue id seen again.
 */
module Timeline {
  import opened Text
  import opened Records
  import opened StableSort

  // ---- sortRawByTime ----

  ghost predicate Distinct<T>(s: seq<T>) {
    forall i, j | 0 <= i < j < |s| :: s[i] != s[j]
  }

  /** Keeps the first occurrence of every element. */
  function Dedupe<T(==)>(s: seq<T>): seq<T> {
    if s == [] then []
    else
      var front := Dedupe(s[..|s| - 1]);
      if s[|s| - 1] in front then front else front + [s[|s| - 1]]
  }

  predicate NoLater(a: Line, b: Line) {
    a.time <= b.time
  }

  function SortRawByTime(lines: seq<Line>): seq<Line> {
    Sort(Dedupe(lines), NoLater)
  }

  lemma {:induction false} DedupeFacts<T>(s: seq<T>)
    ensures Distinct(Dedupe(s))
    ensures forall x :: x in Dedupe(s) <==> x in s
    ensures |Dedupe(s)| <= |s|
  {
    if s == [] {
    } else {
      DedupeFacts(s[..|s| - 1]);
      assert s == s[..|s| - 1] + [s[|s| - 1]];
    }
  }

  lemma {:induction false} DedupeAbsorbs<T>(s: seq<T>, t: seq<T>)
    requires Distinct(s)
    requires forall x | x in t :: x in s
    ensures Dedupe(s + t) == s
    decreases |s| + |t|
  {
    if t != [] {
      assert t == t[..|t| - 1] + [t[|t| - 1]];
      DedupeAbsorbs(s, t[..|t| - 1]);
      assert (s + t)[..|s + t| - 1] == s + t[..|t| - 1];
    } else if s != [] {
      var front := s[..|s| - 1];
      DedupeAbsorbs(front, []);
      assert front + [] == front && s + t == s;
      assert s == front + [s[|s| - 1]];
    }
  }

  lemma DistinctByMultiset<T>(s: seq<T>, t: seq<T>)
    requires multiset(s) == multiset(t) && Distinct(s)
    ensures Distinct(t)
  {
    if i, j :| 0 <= i < j < |t| && t[i] == t[j] {
      assert t == t[..i] + [t[i]] + t[i + 1..j] + [t[j]] + t[j + 1..];
      assert multiset(t)[t[i]] >= 2;
      OneOccurrence(s, t[i]);
    }
  }

  lemma {:induction false} OneOccurrence<T>(s: seq<T>, x: T)
    requires Distinct(s)
    ensures multiset(s)[x] <= 1
  {
    if s == [] {
    } else {
      OneOccurrence(s[1..], x);
      assert s == [s[0]] + s[1..];
      assert s[0] !in s[1..];
    }
  }

  /** The lines of one time stamp, in order. */
  function Ties(lines: seq<Line>, t: Time): seq<Line> {
    Filter(lines, (l: Line) => l.time == t)
  }

  ghost predicate InTimeOrder(lines: seq<Line>) {
    forall i, j | 0 <= i < j < |lines| :: lines[i].time <= lines[j].time
  }

  lemma InOrder(lines: seq<Line>)
    ensures Sorted(lines, NoLater) <==> InTimeOrder(lines)
  {
    if Sorted(lines, NoLater) {
      assert forall i, j | 0 <= i < j < |lines| :: NoLater(lines[i], lines[j]);
    }
  }

  lemma TiesKept(lines: seq<Line>, t: Time)
    ensures Ties(SortRawByTime(lines), t) == Ties(Dedupe(lines), t)
  {
    SortCorrect(Dedupe(lines), NoLater);
    assert Tied((l: Line) => l.time == t, NoLater);
  }

  /**
   The timeline holds each line once, in time order, lines of one time stamp in the
   order they came, and sorting it again changes nothing.
   */
  lemma TimelineIsStable(lines: seq<Line>)
    ensures Distinct(SortRawByTime(lines))
    ensures forall x :: x in SortRawByTime(lines) <==> x in lines
    ensures InTimeOrder(SortRawByTime(lines))
    ensures forall t: Time :: Ties(SortRawByTime(lines), t) == Ties(Dedupe(lines), t)
    ensures SortRawByTime(SortRawByTime(lines)) == SortRawByTime(lines)
  {
    var uniq := Dedupe(lines);
    var sorted := SortRawByTime(lines);
    DedupeFacts(lines);
    SortCorrect(uniq, NoLater);
    InOrder(sorted);
    DistinctByMultiset(uniq, sorted);
    SameMembers(uniq, sorted);
    forall t: Time
      ensures Ties(sorted, t) == Ties(uniq, t)
    {
      TiesKept(lines, t);
    }
    DedupeAbsorbs(sorted, []);
    assert sorted + [] == sorted;
    SortOfSorted(sorted, NoLater);
  }

  lemma SameMembers<T>(s: seq<T>, t: seq<T>)
    requires multiset(s) == multiset(t)
    ensures forall x :: x in s <==> x in t
  {
    forall x
      ensures x in s <==> x in t
    {
      assert x in s <==> x in multiset(s);
      assert x in t <==> x in multiset(t);
    }
  }

  /** A line is seen before another one is. */
  ghost predicate SeenBefore(s: seq<Line>, x: Line, y: Line) {
    exists k :: 0 <= k < |s| && s[k] == x && y !in s[..k + 1]
  }

  lemma SeenStays(front: seq<Line>, last: Line, x: Line, y: Line)
    requires SeenBefore(front, x, y)
    ensures SeenBefore(front + [last], x, y)
  {
    var k :| 0 <= k < |front| && front[k] == x && y !in front[..k + 1];
    assert (front + [last])[..k + 1] == front[..k + 1];
  }

  lemma SeenFirst(front: seq<Line>, last: Line, x: Line)
    requires x in front && last !in front
    ensures SeenBefore(front + [last], x, last)
  {
    var k :| 0 <= k < |front| && front[k] == x;
    assert (front + [last])[..k + 1] == front[..k + 1];
  }

  lemma {:induction false} DedupeKeepsFirst(s: seq<Line>, i: nat, j: nat)
    requires i < j < |Dedupe(s)|
    ensures SeenBefore(s, Dedupe(s)[i], Dedupe(s)[j])
  {
    var front, last := s[..|s| - 1], s[|s| - 1];
    assert s == front + [last];
    var d := Dedupe(front);
    DedupeFacts(front);
    if j < |d| {
      DedupeKeepsFirst(front, i, j);
      SeenStays(front, last, d[i], d[j]);
    } else {
      assert d[i] in d;
      SeenFirst(front, last, d[i]);
    }
  }

  /** Of two lines of a timeline the first is older, or as old and seen first. */
  lemma TimelineOrder(lines: seq<Line>, i: nat, j: nat)
    requires i < j < |SortRawByTime(lines)|
    ensures var t := SortRawByTime(lines);
      t[i].time < t[j].time || (t[i].time == t[j].time && SeenBefore(lines, t[i], t[j]))
  {
    var t, uniq := SortRawByTime(lines), Dedupe(lines);
    TimelineIsStable(lines);
    if t[i].time == t[j].time {
      var time := t[i].time;
      var tied := (l: Line) => l.time == time;
      assert Ties(t, time) == Ties(uniq, time);
      var a, b := FilterKeepsOrder(t, tied, i, j);
      var x, y := FilterComesFrom(uniq, tied, a, b);
      DedupeKeepsFirst(lines, x, y);
    }
  }

  /** Adding lines a timeline already shows leaves it as it is. */
  lemma TimelineAbsorbs(lines: seq<Line>, more: seq<Line>)
    requires forall x | x in more :: x in lines
    ensures SortRawByTime(SortRawByTime(lines) + more) == SortRawByTime(lines)
  {
    TimelineIsStable(lines);
    InOrder(SortRawByTime(lines));
    DedupeAbsorbs(SortRawByTime(lines), more);
    SortOfSorted(SortRawByTime(lines), NoLater);
  }

  /** The timeline does not depend on the sort: any sorted, tie-keeping arrangement of the lines is it. */
  lemma OneTimeline(lines: seq<Line>, out: seq<Line>)
    requires InTimeOrder(out)
    requires forall keep: Line -> bool | Tied(keep, NoLater) :: Filter(out, keep) == Filter(Dedupe(lines), keep)
    ensures out == SortRawByTime(lines)
  {
    InOrder(out);
    AnyStableSort(Dedupe(lines), out, NoLater);
  }

  /** The de-duplicating loop, then the library's stable sort. */
  method SortRaw(lines: seq<Line>) returns (out: seq<Line>)
    ensures out == SortRawByTime(lines)
  {
    var seen: set<Line> := {};
    var uniq: seq<Line> := [];
    for i := 0 to |lines|
      invariant uniq == Dedupe(lines[..i])
      invariant forall l :: l in seen <==> l in uniq
    {
      assert lines[..i + 1][..i] == lines[..i];
      if lines[i] !in seen {
        seen := seen + {lines[i]};
        uniq := uniq + [lines[i]];
      }
    }
    assert lines[..|lines|] == lines;
    out := Sort(uniq, NoLater);
  }

  // ---- mergeDeliveryLeg ----

  /** Folds an outbound (post-filter) leg into its inbound primary. */
  function MergeDeliveryLeg(p: Record, leg: Record): (r: Record)
    ensures KeyOf(r) == KeyOf(p) && r.subsumed == p.subsumed && r.delivery == leg.qid
  {
    var r := p.(
      delivery := leg.qid,
      relay := if leg.relay != "" then leg.relay else p.relay,
      messageID := Or(p.messageID, leg.messageID),
      subject := Or(p.subject, leg.subject),
      from := Or(p.from, leg.from),
      to := Or(p.to, leg.to),
      raw := if leg.raw == [] then p.raw else SortRawByTime(p.raw + leg.raw));
    if leg.status != ""
    then r.(status := leg.status, detail := leg.detail, disposition := DeriveDisposition(leg))
    else r
  }

  /**
   What the merged item is: the primary's own metadata and scanner verdict stay, with blanks
   filled from the leg; the real destination and the final outcome come from the leg, when
   it has them; and the timeline shows both once.
   */
  lemma LegMergeKeepsAndGains(p: Record, leg: Record)
    ensures var r := MergeDeliveryLeg(p, leg);
      && r.(delivery := "", relay := "", status := "", detail := "", disposition := "", raw := [],
            messageID := "", subject := "", from := "", to := "")
         == p.(delivery := "", relay := "", status := "", detail := "", disposition := "", raw := [],
               messageID := "", subject := "", from := "", to := "")
      && r.delivery == leg.qid
      && r.subject == (if p.subject != "" then p.subject else leg.subject)
      && r.messageID == (if p.messageID != "" then p.messageID else leg.messageID)
      && r.from == (if p.from != "" then p.from else leg.from)
      && r.to == (if p.to != "" then p.to else leg.to)
      && r.relay == (if leg.relay != "" then leg.relay else p.relay)
      && (leg.status != "" ==> r.status == leg.status && r.detail == leg.detail && r.disposition == DeriveDisposition(leg))
      && (leg.status == "" ==> r.status == p.status && r.detail == p.detail && r.disposition == p.disposition)
      && (forall l :: l in r.raw <==> l in p.raw || l in leg.raw)
      && (leg.raw != [] ==> Distinct(r.raw) && InTimeOrder(r.raw)) && (leg.raw == [] ==> r.raw == p.raw)
  {
    if leg.raw != [] {
      TimelineIsStable(p.raw + leg.raw);
    }
  }

  /** Folding the same leg in again changes nothing. */
  lemma MergeDeliveryLegIdempotent(p: Record, leg: Record)
    ensures MergeDeliveryLeg(MergeDeliveryLeg(p, leg), leg) == MergeDeliveryLeg(p, leg)
  {
    if leg.raw != [] {
      TimelineAbsorbs(p.raw + leg.raw, leg.raw);
    }
  }

  // ---- mergeRecord ----

  /** The lines of src that dst does not show yet; src's own repeats are all kept. */
  function Fresh(dst: seq<Line>, src: seq<Line>): seq<Line> {
    Filter(src, l => l !in dst)
  }

  /** dst with every blank field taken from src and src's new lines appended. */
  function FillBlanks(dst: Record, src: Record): Record {
    dst.(
      time := if dst.time == ZERO_TIME then src.time else dst.time,
      from := Or(dst.from, src.from),
      to := Or(dst.to, src.to),
      subject := Or(dst.subject, src.subject),
      size := if dst.size == 0 then src.size else dst.size,
      messageID := Or(dst.messageID, src.messageID),
      relay := Or(dst.relay, src.relay),
      client := Or(dst.client, src.client),
      tls := Or(dst.tls, src.tls),
      filter := Or(dst.filter, src.filter),
      filterAction := Or(dst.filterAction, src.filterAction),
      spamScore := Or(dst.spamScore, src.spamScore),
      filterRule := Or(dst.filterRule, src.filterRule),
      filterID := Or(dst.filterID, src.filterID),
      delivery := Or(dst.delivery, src.delivery),
      raw := dst.raw + Fresh(dst.raw, src.raw))
  }

  /** The latest status of the merged lines wins; without one a blank status is filled. */
  function RestateStatus(m: Record, src: Record): Record {
    match LastStatus(m.raw)
    case Some(h) => if h.code != "" then m.(status := h.code, detail := h.detail) else FillStatus(m, src)
    case None => FillStatus(m, src)
  }

  function FillStatus(m: Record, src: Record): Record {
    if m.status == "" then m.(status := src.status, detail := src.detail) else m
  }

  /** Reclassifies unless a scanner verdict set the disposition. DeriveDisposition is never blank. */
  function Reclassify(m: Record): Record {
    if m.disposition == "" || IsStatusDisposition(m.disposition)
    then m.(disposition := DeriveDisposition(m))
    else m
  }

  function MergeRecord(dst: Record, src: Record): (r: Record)
    ensures KeyOf(r) == KeyOf(dst) && r.subsumed == dst.subsumed && r.delivery == Or(dst.delivery, src.delivery)
  {
    Reclassify(RestateStatus(FillBlanks(dst, src), src))
  }

  lemma {:induction false} FreshOfAppended(dst: seq<Line>, src: seq<Line>, done: seq<Line>)
    requires forall l | l in src :: l in dst || l in done
    ensures Fresh(dst + done, src) == []
  {
    if src == [] {
    } else {
      assert src[0] in dst + done;
      FreshOfAppended(dst, src[1..], done);
    }
  }

  lemma RefillChangesNothing(dst: Record, src: Record, m: Record)
    requires Fresh(dst.raw + Fresh(dst.raw, src.raw), src.raw) == []
    requires m == FillBlanks(dst, src).(status := m.status, detail := m.detail, disposition := m.disposition)
    ensures FillBlanks(m, src) == m
  {
    assert m.raw + [] == m.raw;
  }

  lemma RestateTwice(m: Record, src: Record, d: string)
    ensures RestateStatus(RestateStatus(m, src).(disposition := d), src) == RestateStatus(m, src).(disposition := d)
    ensures RestateStatus(m, src) == m.(status := RestateStatus(m, src).status, detail := RestateStatus(m, src).detail)
  {
  }

  lemma ReclassifyTwice(m: Record)
    ensures Reclassify(Reclassify(m)) == Reclassify(m) == m.(disposition := Reclassify(m).disposition)
  {
  }

  /** Merging the same source again changes nothing. */
  lemma MergeRecordIdempotent(dst: Record, src: Record)
    ensures MergeRecord(MergeRecord(dst, src), src) == MergeRecord(dst, src)
  {
    FilterMembers(src.raw, l => l !in dst.raw);
    FreshOfAppended(dst.raw, src.raw, Fresh(dst.raw, src.raw));
    var filled := FillBlanks(dst, src);
    var restated := RestateStatus(filled, src);
    var once := Reclassify(restated);
    ReclassifyTwice(restated);
    RestateTwice(filled, src, once.disposition);
    RefillChangesNothing(dst, src, once);
  }

  /** Every field is the stored one, or where that is blank the incoming one of the same name. */
  ghost predicate KeepsOrFills(r: Record, dst: Record, src: Record) {
    && r.origin == dst.origin && r.qid == dst.qid && r.subsumed == dst.subsumed
    && r.time == (if dst.time != ZERO_TIME then dst.time else src.time)
    && r.from == (if dst.from != "" then dst.from else src.from)
    && r.to == (if dst.to != "" then dst.to else src.to)
    && r.subject == (if dst.subject != "" then dst.subject else src.subject)
    && r.size == (if dst.size != 0 then dst.size else src.size)
    && r.messageID == (if dst.messageID != "" then dst.messageID else src.messageID)
    && r.relay == (if dst.relay != "" then dst.relay else src.relay)
    && r.client == (if dst.client != "" then dst.client else src.client)
    && r.tls == (if dst.tls != "" then dst.tls else src.tls)
    && r.filter == (if dst.filter != "" then dst.filter else src.filter)
    && r.filterAction == (if dst.filterAction != "" then dst.filterAction else src.filterAction)
    && r.spamScore == (if dst.spamScore != "" then dst.spamScore else src.spamScore)
    && r.filterRule == (if dst.filterRule != "" then dst.filterRule else src.filterRule)
    && r.filterID == (if dst.filterID != "" then dst.filterID else src.filterID)
    && r.delivery == (if dst.delivery != "" then dst.delivery else src.delivery)
  }

  lemma FilledKeepsOrFills(dst: Record, src: Record)
    ensures KeepsOrFills(FillBlanks(dst, src), dst, src)
  {
  }

  lemma OnlyOutcomeChanges(dst: Record, src: Record)
    ensures var r := MergeRecord(dst, src);
      r == FillBlanks(dst, src).(status := r.status, detail := r.detail, disposition := r.disposition)
  {
    RestateTwice(FillBlanks(dst, src), src, "");
    ReclassifyTwice(RestateStatus(FillBlanks(dst, src), src));
  }

  lemma RestatedStatus(m: Record, src: Record)
    ensures var r := RestateStatus(m, src); match LastStatus(m.raw)
      case Some(h) => h == StatusMatch(r.status, r.detail)
      case None => if m.status != "" then r.status == m.status && r.detail == m.detail
                   else r.status == src.status && r.detail == src.detail
  {
  }

  /**
   What a merge shows: each field kept or filled; the stored lines and then the incoming
   ones not among them; the last status stated on these lines, or else the first one stored.
   */
  lemma MergeKeepsOrFills(dst: Record, src: Record)
    ensures KeepsOrFills(MergeRecord(dst, src), dst, src)
    ensures var r := MergeRecord(dst, src);
      && r.raw == dst.raw + Filter(src.raw, l => l !in dst.raw)
      && match LastStatus(r.raw)
         case Some(h) => h == StatusMatch(r.status, r.detail)
         case None => if dst.status != "" then r.status == dst.status && r.detail == dst.detail
                      else r.status == src.status && r.detail == src.detail
  {
    var filled := FillBlanks(dst, src);
    FilledKeepsOrFills(dst, src);
    OnlyOutcomeChanges(dst, src);
    RestatedStatus(filled, src);
    ReclassifyTwice(RestateStatus(filled, src));
    assert filled.raw == dst.raw + Filter(src.raw, l => l !in dst.raw);
  }

  /** The outcome is told anew exactly when the stored one was blank or one that a Postfix status tells. */
  lemma MergeReclassifies(dst: Record, src: Record)
    ensures var r := MergeRecord(dst, src);
      r.disposition ==
        if dst.disposition in {"", "sent", "delivered", "deferred", "bounced", "rejected", "received", "incomplete"}
        then DeriveDisposition(r) else dst.disposition
  {
    var restated := RestateStatus(FillBlanks(dst, src), src);
    RestateTwice(FillBlanks(dst, src), src, "");
    assert DeriveDisposition(restated.(disposition := DeriveDisposition(restated))) == DeriveDisposition(restated);
  }

  /** A scanner verdict already on the record survives every merge. */
  lemma ScannerVerdictSurvives(dst: Record, src: Record)
    requires dst.disposition != "" && !IsStatusDisposition(dst.disposition)
    ensures MergeRecord(dst, src).disposition == dst.disposition
  {
    RestateTwice(FillBlanks(dst, src), src, dst.disposition);
  }

  /** One that arrives with the source of a merge is ignored, whatever the record already says. */
  lemma IncomingVerdictIgnored(dst: Record, src: Record, verdict: string)
    ensures MergeRecord(dst, src.(disposition := verdict)) == MergeRecord(dst, src)
  {
    assert FillBlanks(dst, src.(disposition := verdict)) == FillBlanks(dst, src);
  }

  /** The field-by-field part of the merge, with the loop that appends new lines. */
  method FillInto(dst: Record, src: Record) returns (r: Record)
    ensures r == FillBlanks(dst, src)
  {
    var raw := dst.raw;
    for i := 0 to |src.raw|
      invariant raw == dst.raw + Fresh(dst.raw, src.raw[..i])
    {
      assert src.raw[..i + 1] == src.raw[..i] + [src.raw[i]];
      FilterConcat(src.raw[..i], [src.raw[i]], l => l !in dst.raw);
      if src.raw[i] !in dst.raw {
        raw := raw + [src.raw[i]];
      }
    }
    assert src.raw[..|src.raw|] == src.raw;
    r := dst.(
      time := if dst.time == ZERO_TIME && src.time != ZERO_TIME then src.time else dst.time,
      from := Or(dst.from, src.from), to := Or(dst.to, src.to), subject := Or(dst.subject, src.subject));
    r := r.(
      size := if dst.size == 0 then src.size else dst.size,
      messageID := Or(dst.messageID, src.messageID), relay := Or(dst.relay, src.relay));
    r := r.(client := Or(dst.client, src.client), tls := Or(dst.tls, src.tls));
    r := r.(
      filter := Or(dst.filter, src.filter), filterAction := Or(dst.filterAction, src.filterAction),
      spamScore := Or(dst.spamScore, src.spamScore), filterRule := Or(dst.filterRule, src.filterRule));
    r := r.(filterID := Or(dst.filterID, src.filterID), delivery := Or(dst.delivery, src.delivery), raw := raw);
  }

  /** The merge as the store performs it on the record it points at. */
  method MergeInto(dst: Record, src: Record) returns (r: Record)
    ensures r == MergeRecord(dst, src)
  {
    r := FillInto(dst, src);
    var hit := LastStatus(r.raw);
    if hit.Some? && hit.value.code != "" {
      r := r.(status := hit.value.code, detail := hit.value.detail);
    } else if r.status == "" {
      r := r.(status := src.status, detail := src.detail);
    }
    if r.disposition == "" || IsStatusDisposition(r.disposition) {
      r := r.(disposition := DeriveDisposition(r));
    }
  }
}
