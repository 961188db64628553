/** Statistics: the counters of outcomes and directions, and what they have to do with a search. */
module Statistics {
  import opened Text
  import opened Records
  import opened Direction
  import opened Queries

  datatype Bucket = Delivered | Spam | Blocked | Rejected | Bounced | Deferred | Blank | Other

  function BucketOf(r: Record): Bucket {
    var d := DispositionOrStatus(r);
    if d == "sent" || d == "delivered" then Delivered
    else if d == "spam" then Spam
    else if d == "blocked" || d == "virus" then Blocked
    else if d == "rejected" || d == "reject" then Rejected
    else if d == "bounced" then Bounced
    else if d == "deferred" then Deferred
    else if d == "" then Blank
    else Other
  }

  predicate IsNDR(r: Record) {
    DispositionOrStatus(r) !in {"spam", "virus", "blocked", "rejected", "reject"} && exists l | l in r.raw :: l.hits.nullSender
  }

  datatype Counts = Counts(
    total: nat, sent: nat, spam: nat, blocked: nat, rejected: nat, bounced: nat, deferred: nat, other: nat, ndr: nat,
    inbound: nat, outbound: nat, internal: nat, relayed: nat)

  function InBucket(p: Filters, records: seq<Record>, b: Bucket): nat {
    Tally(records, r => Selected(p, r) && BucketOf(r) == b)
  }

  function InDirection(p: Filters, records: seq<Record>, d: string): nat {
    Tally(records, r => Matched(p, r) && p.directionOf(r) == d)
  }

  /** Each counter counts what its name says; direction counters ignore the direction filter. */
  function Counted(p: Filters, records: seq<Record>): Counts {
    Counts(
      Tally(records, r => Selected(p, r)),
      InBucket(p, records, Delivered), InBucket(p, records, Spam), InBucket(p, records, Blocked),
      InBucket(p, records, Rejected), InBucket(p, records, Bounced), InBucket(p, records, Deferred),
      InBucket(p, records, Other), Tally(records, r => Selected(p, r) && IsNDR(r)),
      InDirection(p, records, "inbound"), InDirection(p, records, "outbound"),
      InDirection(p, records, "internal"), InDirection(p, records, "relayed"))
  }

  function CountDirection(c: Counts, d: string): Counts {
    match d
    case "inbound" => c.(inbound := c.inbound + 1)
    case "outbound" => c.(outbound := c.outbound + 1)
    case "internal" => c.(internal := c.internal + 1)
    case "relayed" => c.(relayed := c.relayed + 1)
    case _ => c
  }

  function CountOutcome(c: Counts, b: Bucket, ndr: bool): Counts {
    var t := c.(total := c.total + 1, ndr := if ndr then c.ndr + 1 else c.ndr);
    match b
    case Delivered => t.(sent := t.sent + 1)
    case Spam => t.(spam := t.spam + 1)
    case Blocked => t.(blocked := t.blocked + 1)
    case Rejected => t.(rejected := t.rejected + 1)
    case Bounced => t.(bounced := t.bounced + 1)
    case Deferred => t.(deferred := t.deferred + 1)
    case Blank => t
    case Other => t.(other := t.other + 1)
  }

  method Stats(p: Filters, records: seq<Record>) returns (c: Counts)
    ensures c == Counted(p, records)
  {
    c := Counts(0, 0, 0, 0, 0, 0, 0, 0, 0, 0, 0, 0, 0);
    for i := 0 to |records|
      invariant c == Counted(p, records[..i])
    {
      var r := records[i];
      assert records[..i + 1] == records[..i] + [r];
      CountedSnoc(p, records[..i], r);
      if !r.subsumed && p.matches(r) {
        c := CountDirection(c, p.directionOf(r));
        if p.direction == "" || EqualFold(p.directionOf(r), p.direction) {
          c := CountOutcome(c, BucketOf(r), IsNDR(r));
        }
      }
    }
    assert records[..|records|] == records;
  }

  function One(b: bool): nat {
    if b then 1 else 0
  }

  /** The counters after one more record with the given classification. */
  function Moved(c: Counts, matched: bool, selected: bool, b: Bucket, ndr: bool, d: string): Counts {
    Counts(
      c.total + One(selected),
      c.sent + One(selected && b == Delivered), c.spam + One(selected && b == Spam),
      c.blocked + One(selected && b == Blocked), c.rejected + One(selected && b == Rejected),
      c.bounced + One(selected && b == Bounced), c.deferred + One(selected && b == Deferred),
      c.other + One(selected && b == Other), c.ndr + One(selected && ndr),
      c.inbound + One(matched && d == "inbound"), c.outbound + One(matched && d == "outbound"),
      c.internal + One(matched && d == "internal"), c.relayed + One(matched && d == "relayed"))
  }

  lemma CountsMove(c: Counts, matched: bool, selected: bool, b: Bucket, ndr: bool, d: string)
    requires selected ==> matched
    ensures var m := if matched then CountDirection(c, d) else c;
      Moved(c, matched, selected, b, ndr, d) == if selected then CountOutcome(m, b, ndr) else m
  {
  }

  lemma TalliesMove(p: Filters, front: seq<Record>, r: Record)
    ensures Counted(p, front + [r]) == Moved(Counted(p, front), Matched(p, r), Selected(p, r), BucketOf(r), IsNDR(r), p.directionOf(r))
  {
    assert (front + [r])[..|front|] == front;
  }

  /** One more record moves exactly the counters it belongs to. */
  lemma CountedSnoc(p: Filters, front: seq<Record>, r: Record)
    ensures var c := Counted(p, front);
      var m := if Matched(p, r) then CountDirection(c, p.directionOf(r)) else c;
      Counted(p, front + [r]) == if Selected(p, r) then CountOutcome(m, BucketOf(r), IsNDR(r)) else m
  {
    TalliesMove(p, front, r);
    CountsMove(Counted(p, front), Matched(p, r), Selected(p, r), BucketOf(r), IsNDR(r), p.directionOf(r));
  }

  // ---- what each counter counts, on the records' fields ----

  ghost function Positions(records: seq<Record>, has: Record -> bool): set<nat> {
    set i: nat | i < |records| && has(records[i])
  }

  /** How many of the records satisfy a condition. */
  ghost function NumberOf(records: seq<Record>, has: Record -> bool): nat {
    |Positions(records, has)|
  }

  lemma PositionsSnoc(front: seq<Record>, r: Record, has: Record -> bool)
    ensures Positions(front + [r], has) == Positions(front, has) + if has(r) then {|front|} else {}
    ensures |front| !in Positions(front, has)
  {
  }

  lemma NumberSnoc(front: seq<Record>, r: Record, has: Record -> bool)
    ensures NumberOf(front + [r], has) == NumberOf(front, has) + if has(r) then 1 else 0
  {
    PositionsSnoc(front, r, has);
  }

  lemma {:induction false} TallyIsNumber(records: seq<Record>, keep: Record -> bool, has: Record -> bool)
    requires forall r :: keep(r) == has(r)
    ensures Tally(records, keep) == NumberOf(records, has)
  {
    if records == [] {
      assert Positions(records, has) == {};
    } else {
      var front, r := records[..|records| - 1], records[|records| - 1];
      TallyIsNumber(front, keep, has);
      NumberSnoc(front, r, has);
      assert records == front + [r];
    }
  }

  /** Passes all filters. */
  predicate Passes(p: Filters, r: Record) {
    && !r.subsumed && p.matches(r) && (p.direction != "" ==> ToLower(p.directionOf(r)) == ToLower(p.direction))
  }

  predicate Ends(p: Filters, r: Record, outcomes: set<string>) {
    Passes(p, r) && DispositionOrStatus(r) in outcomes
  }

  /** How many of them pass all filters and show one of some outcomes. */
  ghost function NumberEnding(p: Filters, records: seq<Record>, outcomes: set<string>): nat {
    NumberOf(records, r => Ends(p, r, outcomes))
  }

  /** The outcomes that each counter takes. */
  function WordsOf(b: Bucket): set<string> {
    match b
    case Delivered => {"sent", "delivered"}
    case Spam => {"spam"}
    case Blocked => {"blocked", "virus"}
    case Rejected => {"rejected", "reject"}
    case Bounced => {"bounced"}
    case Deferred => {"deferred"}
    case Blank => {""}
    case Other => {}
  }

  const NAMED: set<string> :=
    {"", "sent", "delivered", "spam", "blocked", "virus", "rejected", "reject", "bounced", "deferred"}

  lemma BucketTakes(r: Record, b: Bucket)
    requires b != Other
    ensures BucketOf(r) == b <==> DispositionOrStatus(r) in WordsOf(b)
  {
  }

  lemma BucketMeans(p: Filters, records: seq<Record>, b: Bucket)
    requires b != Other
    ensures InBucket(p, records, b) == NumberEnding(p, records, WordsOf(b))
  {
    forall r
      ensures Selected(p, r) && BucketOf(r) == b <==> Ends(p, r, WordsOf(b))
    {
      BucketTakes(r, b);
    }
    TallyIsNumber(records, r => Selected(p, r) && BucketOf(r) == b, r => Ends(p, r, WordsOf(b)));
  }

  lemma OthersMean(p: Filters, records: seq<Record>)
    ensures InBucket(p, records, Other) == NumberOf(records, r => Passes(p, r) && DispositionOrStatus(r) !in NAMED)
  {
    forall r
      ensures BucketOf(r) == Other <==> DispositionOrStatus(r) !in NAMED
    {
    }
    TallyIsNumber(records, r => Selected(p, r) && BucketOf(r) == Other, r => Passes(p, r) && DispositionOrStatus(r) !in NAMED);
  }

  lemma CountersMean(p: Filters, records: seq<Record>)
    ensures var c := Counted(p, records);
      && c.sent == NumberEnding(p, records, WordsOf(Delivered)) && c.spam == NumberEnding(p, records, WordsOf(Spam))
      && c.blocked == NumberEnding(p, records, WordsOf(Blocked)) && c.rejected == NumberEnding(p, records, WordsOf(Rejected))
      && c.bounced == NumberEnding(p, records, WordsOf(Bounced)) && c.deferred == NumberEnding(p, records, WordsOf(Deferred))
  {
    BucketMeans(p, records, Delivered);
    BucketMeans(p, records, Spam);
    BucketMeans(p, records, Blocked);
    BucketMeans(p, records, Rejected);
    BucketMeans(p, records, Bounced);
    BucketMeans(p, records, Deferred);
  }

  /** Outcomes: what a row shows decides the counter. */
  lemma OutcomesMean(p: Filters, records: seq<Record>)
    ensures var c := Counted(p, records);
      && c.sent == NumberEnding(p, records, {"sent", "delivered"}) && c.spam == NumberEnding(p, records, {"spam"})
      && c.blocked == NumberEnding(p, records, {"blocked", "virus"})
      && c.rejected == NumberEnding(p, records, {"rejected", "reject"})
      && c.bounced == NumberEnding(p, records, {"bounced"}) && c.deferred == NumberEnding(p, records, {"deferred"})
  {
    CountersMean(p, records);
  }

  /** The total has all that pass the filters; blank outcomes count nowhere else, and any other word as other. */
  lemma TotalMeans(p: Filters, records: seq<Record>)
    ensures Counted(p, records).total == NumberOf(records, r => Passes(p, r))
    ensures Counted(p, records).other == NumberOf(records, r => Passes(p, r) && DispositionOrStatus(r) !in NAMED)
  {
    TallyIsNumber(records, r => Selected(p, r), r => Passes(p, r));
    OthersMean(p, records);
  }

  predicate Bounce(p: Filters, r: Record) {
    && Passes(p, r) && DispositionOrStatus(r) !in {"spam", "virus", "blocked", "rejected", "reject"}
    && exists l | l in r.raw :: l.hits.nullSender
  }

  /** A record that passes all filters but the one for its direction. */
  predicate Goes(p: Filters, r: Record, direction: string) {
    !r.subsumed && p.matches(r) && p.directionOf(r) == direction
  }

  lemma InDirectionMeans(p: Filters, records: seq<Record>, direction: string)
    ensures InDirection(p, records, direction) == NumberOf(records, r => Goes(p, r, direction))
  {
    forall r
      ensures Matched(p, r) && p.directionOf(r) == direction <==> Goes(p, r, direction)
    {
    }
    TallyIsNumber(records, r => Matched(p, r) && p.directionOf(r) == direction, r => Goes(p, r, direction));
  }

  /** Bounce messages, and directions, which are counted whatever direction is asked for. */
  lemma DirectionsMean(p: Filters, records: seq<Record>)
    ensures var c := Counted(p, records);
      && c.ndr == NumberOf(records, r => Bounce(p, r))
      && c.inbound == NumberOf(records, r => Goes(p, r, "inbound"))
      && c.outbound == NumberOf(records, r => Goes(p, r, "outbound"))
      && c.internal == NumberOf(records, r => Goes(p, r, "internal"))
      && c.relayed == NumberOf(records, r => Goes(p, r, "relayed"))
  {
    TallyIsNumber(records, r => Selected(p, r) && IsNDR(r), r => Bounce(p, r));
    InDirectionMeans(p, records, "inbound");
    InDirectionMeans(p, records, "outbound");
    InDirectionMeans(p, records, "internal");
    InDirectionMeans(p, records, "relayed");
  }

  lemma {:induction false} DirectionsCover(p: Filters, records: seq<Record>)
    requires forall r :: p.directionOf(r) in {"inbound", "outbound", "internal", "relayed"}
    ensures InDirection(p, records, "inbound") + InDirection(p, records, "outbound")
      + InDirection(p, records, "internal") + InDirection(p, records, "relayed") == Tally(records, r => Matched(p, r))
  {
    if records == [] {
    } else {
      var front, r := records[..|records| - 1], records[|records| - 1];
      DirectionsCover(p, front);
      assert p.directionOf(r) in {"inbound", "outbound", "internal", "relayed"};
    }
  }

  lemma {:induction false} BucketsCover(p: Filters, records: seq<Record>)
    ensures InBucket(p, records, Delivered) + InBucket(p, records, Spam) + InBucket(p, records, Blocked)
      + InBucket(p, records, Rejected) + InBucket(p, records, Bounced) + InBucket(p, records, Deferred)
      + InBucket(p, records, Other) + InBucket(p, records, Blank) == Tally(records, r => Selected(p, r))
  {
    if records == [] {
    } else {
      BucketsCover(p, records[..|records| - 1]);
    }
  }

  /**
   Statistics conserve: with the resolved directions, the direction counters cover the
   matches, and the disposition buckets with the blank rows cover the total.
   */
  lemma StatsConserve(f: Facts, p: Filters, records: seq<Record>)
    requires forall r :: p.directionOf(r) == DirectionIn(f, records, r)
    ensures var c := Counted(p, records);
      && c.inbound + c.outbound + c.internal + c.relayed == Tally(records, r => Matched(p, r))
      && c.sent + c.spam + c.blocked + c.rejected + c.bounced + c.deferred + c.other + InBucket(p, records, Blank) == c.total
  {
    DirectionsCover(p, records);
    BucketsCover(p, records);
  }

  /** The statistics total is the number of rows a search with the same filters finds. */
  lemma StatsAgreeWithSearch(q: Query, records: seq<Record>)
    ensures Counted(q.filters, records).total == |Result(q, records)|
  {
    ResultLength(q, records);
  }
}
