/**
 A scanner verdict and a second record of the same message: what the order in which the
 two reach the stored record changes, field by field, and when it changes nothing.
 */
module VerdictMerge {
  import opened Text
  import opened Records
  import opened StableSort
  import opened Timeline
  import opened Rspamd
  import opened StoreSpec
  import opened Outcomes
  import S = SplitMerge

  /** The merged record before it is reclassified. */
  function Outcome(dst: Record, src: Record): Record {
    RestateStatus(FillBlanks(dst, src), src)
  }

  // ---- the outcome, read off the two records ----

  /** The status of a merge: the last one stated on the lines, or else the first one stored. */
  function MergedStatus(dst: Record, src: Record): string {
    match LastStatus(dst.raw + Fresh(dst.raw, src.raw))
    case Some(h) => h.code
    case None => Or(dst.status, src.status)
  }

  function MergedDetail(dst: Record, src: Record): string {
    match LastStatus(dst.raw + Fresh(dst.raw, src.raw))
    case Some(h) => h.detail
    case None => if dst.status == "" then src.detail else dst.detail
  }

  lemma OutcomeOnInputs(dst: Record, src: Record)
    ensures var o := Outcome(dst, src);
      && o.status == MergedStatus(dst, src) && o.detail == MergedDetail(dst, src)
      && o.relay == Or(dst.relay, src.relay) && o.size == if dst.size == 0 then src.size else dst.size
  {
  }

  /** A stored disposition survives a merge exactly when no Postfix status tells it, or the merged status does. */
  lemma DispositionSurvives(dst: Record, src: Record)
    ensures MergeRecord(dst, src).disposition == dst.disposition
      <==> if dst.disposition != "" && !IsStatusDisposition(dst.disposition) then true
           else Says(dst.disposition, MergedStatus(dst, src), MergedDetail(dst, src), Or(dst.relay, src.relay),
                     if dst.size == 0 then src.size else dst.size)
  {
    RestateTwice(FillBlanks(dst, src), src, dst.disposition);
    OutcomeOnInputs(dst, src);
    if IsStatusDisposition(dst.disposition) {
      DerivedSays(Outcome(dst, src), dst.disposition);
    }
  }

  /** What a verdict says survives a merge exactly when it is a reject, or when the merged status is a deferral. */
  lemma VerdictSurvives(r: Record, v: RspamdVerdict, s: Record)
    requires RspamdDisposition(v.action) != ""
    ensures MergeRecord(Enrich(r, v), s).disposition == RspamdDisposition(v.action)
      <==> v.action == "reject" || HasPrefix(ToLower(MergedStatus(Enrich(r, v), s)), "deferred")
  {
    DispositionSurvives(Enrich(r, v), s);
  }

  // ---- the scanner's line ----

  /** The scanner's line states no Postfix status. */
  predicate QuietLine(v: RspamdVerdict) {
    v.line.Some? ==> v.line.value.hits.status.None?
  }

  function Without(lines: seq<Line>, l: Line): seq<Line> {
    Filter(lines, x => x != l)
  }

  lemma {:induction false} StatusWithout(lines: seq<Line>, l: Line)
    requires l.hits.status.None?
    ensures LastStatus(Without(lines, l)) == LastStatus(lines)
  {
    if lines == [] {
    } else {
      var n := |lines| - 1;
      StatusWithout(lines[..n], l);
      assert lines == lines[..n] + [lines[n]];
      FilterConcat(lines[..n], [lines[n]], x => x != l);
      assert [lines[n]][1..] == [];
      S.StatusConcat(Without(lines[..n], l), Without([lines[n]], l));
      S.StatusConcat(lines[..n], [lines[n]]);
      OneStatus(lines[n]);
    }
  }

  lemma OneStatus(l: Line)
    ensures LastStatus([l]) == l.hits.status
  {
    assert [l][..0] == [];
  }

  /** Lines new to a record that shows l already: the new ones without l. */
  lemma {:induction false} FreshWithout(dst: seq<Line>, l: Line, src: seq<Line>)
    ensures Fresh(dst + [l], src) == Without(Fresh(dst, src), l)
  {
    if src == [] {
    } else {
      FreshWithout(dst, l, src[1..]);
      assert src[0] in dst + [l] <==> src[0] in dst || src[0] == l;
    }
  }

  lemma {:induction false} WithoutAbsent(lines: seq<Line>, l: Line)
    ensures l !in lines <==> Without(lines, l) == lines
    ensures l !in Without(lines, l)
  {
    if lines == [] {
    } else {
      WithoutAbsent(lines[1..], l);
      assert lines == [lines[0]] + lines[1..];
      if lines[0] == l {
        assert l !in Without(lines[1..], l);
      }
    }
  }

  /** The status of the merged lines, with and without a line that states none. */
  lemma QuietStatus(dst: seq<Line>, l: Line, src: seq<Line>)
    requires l.hits.status.None?
    ensures LastStatus(dst + [l] + Fresh(dst + [l], src)) == LastStatus(dst + Fresh(dst, src))
  {
    var added := Fresh(dst, src);
    FreshWithout(dst, l, src);
    StatusWithout(added, l);
    OneStatus(l);
    S.StatusConcat(dst, [l]);
    S.StatusConcat(dst + [l], Without(added, l));
    S.StatusConcat(dst, added);
  }

  /** A quiet line does not change the merged status. */
  lemma QuietStatusCommutes(r: Record, v: RspamdVerdict, s: Record)
    requires QuietLine(v)
    ensures StatusCommutes(r, v, s)
  {
    if v.line.Some? {
      QuietStatus(r.raw, v.line.value, s.raw);
    }
  }

  // ---- the exact conditions ----

  /** The line's place: it must be shown already, or nothing else may be new, or it must be the first of the new lines. */
  predicate LineCommutes(r: Record, v: RspamdVerdict, s: Record) {
    var added := Fresh(r.raw, s.raw);
    v.line.None? || v.line.value in r.raw || added == [] || (added[0] == v.line.value && v.line.value !in added[1..])
  }

  /** The rest: one message id, an action not filled in from the record, and an outcome that says the same. */
  predicate FieldsCommute(r: Record, v: RspamdVerdict, s: Record) {
    && (r.messageID != "" || v.messageID in {"", s.messageID} || s.messageID == "")
    && (v.action != "" || s.filterAction == "")
  }

  /** The status: the same with and without the scanner's line, as it is when that line states none. */
  predicate StatusCommutes(r: Record, v: RspamdVerdict, s: Record) {
    MergedStatus(Enrich(r, v), s) == MergedStatus(r, s) && MergedDetail(Enrich(r, v), s) == MergedDetail(r, s)
  }

  /** The disposition: a reject stays in either order, a delay only if the merged status is a deferral too. */
  predicate DispositionCommutes(r: Record, v: RspamdVerdict, s: Record) {
    RspamdDisposition(v.action) == "deferred" ==> HasPrefix(ToLower(MergedStatus(r, s)), "deferred")
  }

  /** The scanner's line ends up in the same place exactly when it commutes. */
  lemma RawCommutesIff(r: Record, v: RspamdVerdict, s: Record)
    ensures MergeRecord(Enrich(r, v), s).raw == Enrich(MergeRecord(r, s), v).raw <==> LineCommutes(r, v, s)
  {
    MergedRaw(r, s);
    MergedRaw(Enrich(r, v), s);
    if v.line.Some? && v.line.value !in r.raw {
      LinePlace(r.raw, v.line.value, s.raw);
    }
  }

  lemma LinePlace(dst: seq<Line>, l: Line, src: seq<Line>)
    requires l !in dst
    ensures var added := Fresh(dst, src);
      dst + [l] + Fresh(dst + [l], src) == (if l in dst + added then dst + added else dst + added + [l])
      <==> added == [] || (added[0] == l && l !in added[1..])
  {
    var added := Fresh(dst, src);
    var rest := Without(added, l);
    FreshWithout(dst, l, src);
    WithoutAbsent(added, l);
    assert dst + [l] + rest == dst + ([l] + rest);
    if l in added {
      SamePrefix(dst, [l] + rest, added);
      FirstAndOnly(added, l);
    } else {
      assert dst + added + [l] == dst + (added + [l]);
      SamePrefix(dst, [l] + rest, added + [l]);
      assert added != [] ==> ([l] + rest)[0] != (added + [l])[0];
      assert added == [] ==> [l] + rest == added + [l];
    }
  }

  lemma MergedRaw(dst: Record, src: Record)
    ensures MergeRecord(dst, src).raw == dst.raw + Fresh(dst.raw, src.raw)
  {
    RestateTwice(FillBlanks(dst, src), src, "");
    ReclassifyTwice(Outcome(dst, src));
  }

  lemma SamePrefix(p: seq<Line>, a: seq<Line>, b: seq<Line>)
    ensures p + a == p + b <==> a == b
  {
    assert (p + a)[|p|..] == a && (p + b)[|p|..] == b;
  }

  lemma FirstAndOnly(added: seq<Line>, l: Line)
    requires l in added
    ensures [l] + Without(added, l) == added <==> added[0] == l && l !in added[1..]
  {
    WithoutAbsent(added[1..], l);
    assert added == [added[0]] + added[1..];
    if added[0] == l {
      assert Without(added, l) == Without(added[1..], l);
      assert ([l] + Without(added, l))[1..] == Without(added, l) && added[1..] == ([l] + added[1..])[1..];
    }
  }

  /** The disposition of a merge, by what was stored and what the merged status tells. */
  lemma MergedDisposition(dst: Record, src: Record)
    ensures MergeRecord(dst, src).disposition
      == if dst.disposition == "" || IsStatusDisposition(dst.disposition) then DeriveDisposition(Outcome(dst, src))
         else dst.disposition
  {
    RestateTwice(FillBlanks(dst, src), src, dst.disposition);
  }

  lemma SameOutcomes(r: Record, v: RspamdVerdict, s: Record)
    requires StatusCommutes(r, v, s)
    ensures DeriveDisposition(Outcome(Enrich(r, v), s)) == DeriveDisposition(Outcome(r, s))
  {
    OutcomeOnInputs(r, s);
    OutcomeOnInputs(Enrich(r, v), s);
    S.DispositionReads(Outcome(Enrich(r, v), s), Outcome(r, s));
  }

  lemma DeferredSays(dst: Record, src: Record)
    ensures DeriveDisposition(Outcome(dst, src)) == "deferred" <==> HasPrefix(ToLower(MergedStatus(dst, src)), "deferred")
  {
    OutcomeOnInputs(dst, src);
    DerivedSays(Outcome(dst, src), "deferred");
  }

  /** A disposition is the same in both orders exactly when the verdict does not delay, or the merged status is a deferral. */
  lemma DispositionCommutesIff(r: Record, v: RspamdVerdict, s: Record)
    requires StatusCommutes(r, v, s)
    ensures MergeRecord(Enrich(r, v), s).disposition == Enrich(MergeRecord(r, s), v).disposition <==> DispositionCommutes(r, v, s)
  {
    MergedDisposition(r, s);
    MergedDisposition(Enrich(r, v), s);
    SameOutcomes(r, v, s);
    DeferredSays(r, s);
  }

  lemma MergedIsOutcome(dst: Record, src: Record)
    ensures MergeRecord(dst, src).status == MergedStatus(dst, src) && MergeRecord(dst, src).detail == MergedDetail(dst, src)
  {
    OutcomeOnInputs(dst, src);
    ReclassifyTwice(Outcome(dst, src));
  }

  /** Verdict first or record first: the same record exactly under these conditions. */
  lemma VerdictCommutes(r: Record, v: RspamdVerdict, s: Record)
    ensures MergeRecord(Enrich(r, v), s) == Enrich(MergeRecord(r, s), v)
      <==> LineCommutes(r, v, s) && FieldsCommute(r, v, s) && StatusCommutes(r, v, s) && DispositionCommutes(r, v, s)
  {
    RawCommutesIff(r, v, s);
    MergedIsOutcome(r, s);
    MergedIsOutcome(Enrich(r, v), s);
    if StatusCommutes(r, v, s) {
      DispositionCommutesIff(r, v, s);
      OutcomeOnInputs(r, s);
      OutcomeOnInputs(Enrich(r, v), s);
      OtherFieldsCommute(r, v, s);
    }
  }

  lemma OtherFieldsCommute(r: Record, v: RspamdVerdict, s: Record)
    requires var one, other := Outcome(Enrich(r, v), s), Outcome(r, s); one.status == other.status && one.detail == other.detail
    ensures var one, other := MergeRecord(Enrich(r, v), s), Enrich(MergeRecord(r, s), v);
      && one == other.(raw := one.raw, disposition := one.disposition, messageID := one.messageID, filterAction := one.filterAction)
      && (one.messageID == other.messageID && one.filterAction == other.filterAction <==> FieldsCommute(r, v, s))
  {
    RestateTwice(FillBlanks(r, s), s, "");
    RestateTwice(FillBlanks(Enrich(r, v), s), s, "");
    ReclassifyTwice(Outcome(r, s));
    ReclassifyTwice(Outcome(Enrich(r, v), s));
  }

  // ---- in the store ----

  /**
   In the store: a verdict before or after a second, unlinked record of a listed message
   leads to the same state exactly when the two commute on the row.
   */
  lemma SecondRecordOrder(c: Core, s: Record, v: RspamdVerdict)
    requires InRange(c) && VerdictMatches(c, s.qid) && s.origin == "" && s.delivery == "" && KeyOf(s) !in c.byDelivery
    requires c.records[c.byQueueID[KeyOf(s)]].qid !in c.pending
    ensures var r := c.records[c.byQueueID[KeyOf(s)]];
      AddOne(ApplyVerdict(c, s.qid, v).core, s).core == ApplyVerdict(AddOne(c, s).core, s.qid, v).core
      <==> LineCommutes(r, v, s) && FieldsCommute(r, v, s) && StatusCommutes(r, v, s) && DispositionCommutes(r, v, s)
  {
    var i := c.byQueueID[KeyOf(s)];
    var r := c.records[i];
    VerdictCommutes(r, v, s);
    VerdictThenRecord(c, s, v, i);
    RecordThenVerdict(c, s, v, i);
    assert c.records[i := MergeRecord(Enrich(r, v), s)][i] == MergeRecord(Enrich(r, v), s);
    assert c.records[i := Enrich(MergeRecord(r, s), v)][i] == Enrich(MergeRecord(r, s), v);
  }

  /** Adding a record of a listed, unlinked message for which nothing waits. */
  lemma PlainMerge(c: Core, s: Record, i: nat)
    requires InRange(c) && KeyOf(s) in c.byQueueID && c.byQueueID[KeyOf(s)] == i && !c.records[i].subsumed
    requires s.origin == "" && s.delivery == "" && KeyOf(s) !in c.byDelivery && c.records[i].qid !in c.pending
    ensures AddOne(c, s).core == Put(c, i, MergeRecord(c.records[i], s))
  {
    var noted := NoteOrigin(c, s.origin);
    assert noted == c;
  }

  lemma VerdictThenRecord(c: Core, s: Record, v: RspamdVerdict, i: nat)
    requires InRange(c) && KeyOf(s) in c.byQueueID && c.byQueueID[KeyOf(s)] == i && !c.records[i].subsumed
    requires s.origin == "" && s.delivery == "" && KeyOf(s) !in c.byDelivery && c.records[i].qid !in c.pending
    ensures AddOne(ApplyVerdict(c, s.qid, v).core, s).core
      == c.(records := c.records[i := MergeRecord(Enrich(c.records[i], v), s)])
  {
    var judged := Put(c, i, Enrich(c.records[i], v));
    assert ApplyVerdict(c, s.qid, v).core == judged;
    PlainMerge(judged, s, i);
  }

  lemma RecordThenVerdict(c: Core, s: Record, v: RspamdVerdict, i: nat)
    requires InRange(c) && KeyOf(s) in c.byQueueID && c.byQueueID[KeyOf(s)] == i && !c.records[i].subsumed
    requires s.origin == "" && s.delivery == "" && KeyOf(s) !in c.byDelivery && c.records[i].qid !in c.pending
    ensures ApplyVerdict(AddOne(c, s).core, s.qid, v).core
      == c.(records := c.records[i := Enrich(MergeRecord(c.records[i], s), v)])
  {
    PlainMerge(c, s, i);
  }
}
