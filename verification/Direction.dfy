/**
 Mail direction, computed three ways: from an index over all records, in one pass for
 one message, and from a list of legs. All three read the same six signals per leg.
 */
module Direction {
  import opened Text
  import opened Records
  import opened Outcomes

  /** What a server's Postfix configuration tells about addresses. */
  datatype Conf = Conf(networks: string -> bool, localDomains: string -> bool)

  /** The store's configurations and the classification of addresses as private. */
  datatype Facts = Facts(privateIP: string -> bool, local: Option<Conf>, byOrigin: map<string, Conf>)

  datatype Signal = In | Out | Local | Relayed | FromLocal | ToLocal

  function ConfFor(f: Facts, origin: string): Option<Conf> {
    if origin != "" && origin in f.byOrigin then Some(f.byOrigin[origin]) else f.local
  }

  predicate InMyNetworks(pc: Option<Conf>, ip: string) {
    pc.Some? && ip != "" && pc.value.networks(ip)
  }

  predicate IsLocalDomain(pc: Option<Conf>, address: string) {
    pc.Some? && address != "" && pc.value.localDomains(address)
  }

  function UpTo(s: string, c: char): Option<string> {
    if s == "" then None
    else if s[0] == c then Some("")
    else match UpTo(s[1..], c)
      case Some(rest) => Some([s[0]] + rest)
      case None => None
  }

  /** The first non-empty bracketed part of a host[ip] token. */
  function IpOf(token: string): string {
    if token == "" then ""
    else
      var inside := if token[0] == '[' then UpTo(token[1..], ']') else None;
      if inside.Some? && inside.value != "" then inside.value else IpOf(token[1..])
  }

  predicate PublicIP(f: Facts, ip: string) {
    ip != "" && !f.privateIP(ip)
  }

  /** Accepted from a public client, outside our networks, without authentication. */
  predicate ReceivedPublicUnauth(f: Facts, pc: Option<Conf>, r: Record) {
    var ip := IpOf(r.client);
    PublicIP(f, ip) && !InMyNetworks(pc, ip) && forall l | l in r.raw :: !l.hits.sasl
  }

  predicate SendsPublic(f: Facts, pc: Option<Conf>, r: Record) {
    var ip := IpOf(r.relay);
    PublicIP(f, ip) && !DeliversLocal(r) && !InMyNetworks(pc, ip)
  }

  predicate IsRelayLeg(f: Facts, pc: Option<Conf>, r: Record) {
    ReceivedPublicUnauth(f, pc, r) && SendsPublic(f, pc, r) && r.delivery == "" && forall l | l in r.raw :: !l.hits.reinjected
  }

  /** Whether a leg gives a signal, under a given configuration. */
  predicate Gives(f: Facts, pc: Option<Conf>, r: Record, s: Signal) {
    match s
    case In => ReceivedPublicUnauth(f, pc, r)
    case Out => SendsPublic(f, pc, r)
    case Local => DeliversLocal(r)
    case Relayed => IsRelayLeg(f, pc, r)
    case FromLocal => IsLocalDomain(pc, r.from)
    case ToLocal => IsLocalDomain(pc, r.to)
  }

  function Classify(has: Signal -> bool): string {
    if has(Relayed) && !has(Local) then "relayed"
    else if has(In) then "inbound"
    else if has(Out) then "outbound"
    else if has(ToLocal) && !has(FromLocal) then "inbound"
    else if has(FromLocal) && !has(ToLocal) then "outbound"
    else "internal"
  }

  // ---- what direction means ----

  predicate LegOf(r: Record, messageID: string) {
    !r.subsumed && r.messageID == messageID
  }

  /** Some visible leg of the message, on any server, gives the signal. */
  predicate MessageGives(f: Facts, records: seq<Record>, messageID: string, s: Signal) {
    exists r | r in records :: LegOf(r, messageID) && Gives(f, ConfFor(f, r.origin), r, s)
  }

  predicate SignalOf(f: Facts, records: seq<Record>, r: Record, s: Signal) {
    if r.messageID == "" then Gives(f, ConfFor(f, r.origin), r, s) else MessageGives(f, records, r.messageID, s)
  }

  /** A record's direction: its message's if it has a Message-ID, else its own. */
  function DirectionIn(f: Facts, records: seq<Record>, r: Record): string {
    Classify(s => SignalOf(f, records, r, s))
  }

  lemma ClassifyReads(h: Signal -> bool, k: Signal -> bool)
    requires forall s :: h(s) == k(s)
    ensures Classify(h) == Classify(k)
  {
  }

  /** All legs of one message agree, and the order of the records does not matter. */
  lemma DirectionIsOfTheMessage(f: Facts, records: seq<Record>, others: seq<Record>, r: Record, q: Record)
    requires r.messageID == q.messageID != ""
    requires forall x :: x in records <==> x in others
    ensures DirectionIn(f, records, r) == DirectionIn(f, others, q)
  {
    forall s
      ensures SignalOf(f, records, r, s) == SignalOf(f, others, q, s)
    {
      var mid := r.messageID;
      if MessageGives(f, records, mid, s) {
        var x :| x in records && LegOf(x, mid) && Gives(f, ConfFor(f, x.origin), x, s);
        assert x in others;
      }
      if MessageGives(f, others, mid, s) {
        var x :| x in others && LegOf(x, mid) && Gives(f, ConfFor(f, x.origin), x, s);
        assert x in records;
      }
    }
    ClassifyReads(s => SignalOf(f, records, r, s), s => SignalOf(f, others, q, s));
  }

  // ---- the answers, on what the legs show ----

  ghost predicate BracketAt(token: string, ip: string, i: nat) {
    && ip != "" && ']' !in ip && i + |ip| + 1 < |token|
    && token[i] == '[' && token[i + 1..i + 1 + |ip|] == ip && token[i + |ip| + 1] == ']'
  }

  /** The first bracketed, non-empty address of a host[ip] token. */
  ghost predicate Bracketed(token: string, ip: string) {
    exists i: nat :: BracketAt(token, ip, i) && forall k: nat, other | k < i :: !BracketAt(token, other, k)
  }

  lemma {:induction false} UpToIff(s: string, c: char, x: string)
    ensures UpTo(s, c) == Some(x) <==> c !in x && |x| < |s| && s[..|x|] == x && s[|x|] == c
  {
    if s != "" && s[0] != c && x != "" {
      UpToIff(s[1..], c, x[1..]);
      assert x == [x[0]] + x[1..];
      if |x| <= |s| {
        assert s[..|x|] == [s[0]] + s[1..][..|x| - 1];
      }
    }
  }

  lemma BracketFirst(token: string, ip: string)
    requires token != ""
    ensures BracketAt(token, ip, 0) <==> token[0] == '[' && ip != "" && UpTo(token[1..], ']') == Some(ip)
  {
    UpToIff(token[1..], ']', ip);
    if |ip| < |token| - 1 {
      assert token[1..][..|ip|] == token[1..1 + |ip|];
    }
  }

  lemma BracketLater(token: string, ip: string, i: nat)
    requires token != ""
    ensures BracketAt(token, ip, i + 1) <==> BracketAt(token[1..], ip, i)
  {
    if i + |ip| + 1 < |token| - 1 {
      assert token[1..][i + 1..i + 1 + |ip|] == token[i + 2..i + 2 + |ip|];
    }
  }

  /** The address the expression finds, or none when no bracket holds one. */
  lemma {:induction false} IpIsBracketed(token: string)
    ensures if IpOf(token) != "" then Bracketed(token, IpOf(token)) else forall ip, i: nat :: !BracketAt(token, ip, i)
  {
    if token != "" {
      forall ip
        ensures BracketAt(token, ip, 0) <==> token[0] == '[' && ip != "" && UpTo(token[1..], ']') == Some(ip)
      {
        BracketFirst(token, ip);
      }
      if exists ip :: BracketAt(token, ip, 0) {
        assert BracketAt(token, IpOf(token), 0);
      } else {
        IpIsBracketed(token[1..]);
        LaterBrackets(token);
        assert IpOf(token) == IpOf(token[1..]) by {
          if token[0] == '[' && UpTo(token[1..], ']').Some? {
            assert !BracketAt(token, UpTo(token[1..], ']').value, 0);
          }
        }
      }
    }
  }

  /** Without an address in front, the token has the addresses of its rest. */
  lemma LaterBrackets(token: string)
    requires token != "" && forall ip :: !BracketAt(token, ip, 0)
    ensures forall ip | Bracketed(token[1..], ip) :: Bracketed(token, ip)
    ensures forall ip, i: nat | BracketAt(token, ip, i) :: i > 0 && BracketAt(token[1..], ip, i - 1)
  {
    forall ip, i: nat | BracketAt(token, ip, i)
      ensures i > 0 && BracketAt(token[1..], ip, i - 1)
    {
      if i > 0 {
        BracketLater(token, ip, i - 1);
      }
    }
    forall ip | Bracketed(token[1..], ip)
      ensures Bracketed(token, ip)
    {
      var i: nat :| BracketAt(token[1..], ip, i) && forall k: nat, other | k < i :: !BracketAt(token[1..], other, k);
      BracketLater(token, ip, i);
      forall k: nat, other | k < i + 1
        ensures !BracketAt(token, other, k)
      {
        if k > 0 {
          BracketLater(token, other, k - 1);
        }
      }
    }
  }

  lemma OneAddress(token: string, a: string, b: string)
    requires Bracketed(token, a) && Bracketed(token, b)
    ensures a == b
  {
    var i: nat :| BracketAt(token, a, i) && forall k: nat, other | k < i :: !BracketAt(token, other, k);
    var j: nat :| BracketAt(token, b, j) && forall k: nat, other | k < j :: !BracketAt(token, other, k);
    assert i == j;
    BracketEnds(token, a, i);
    BracketEnds(token, b, i);
  }

  lemma BracketEnds(token: string, ip: string, i: nat)
    requires BracketAt(token, ip, i)
    ensures UpTo(token[i + 1..], ']') == Some(ip)
  {
    UpToIff(token[i + 1..], ']', ip);
    assert token[i + 1..][..|ip|] == ip;
  }

  /** The server's own configuration is used where it has sent one, the local one elsewhere. */
  ghost predicate InNetworks(f: Facts, r: Record, ip: string) {
    if r.origin != "" && r.origin in f.byOrigin then f.byOrigin[r.origin].networks(ip)
    else f.local.Some? && f.local.value.networks(ip)
  }

  ghost predicate OfLocalDomain(f: Facts, r: Record, address: string) {
    && address != ""
    && if r.origin != "" && r.origin in f.byOrigin then f.byOrigin[r.origin].localDomains(address)
       else f.local.Some? && f.local.value.localDomains(address)
  }

  /** A public address that is not one of the server's own networks. */
  ghost predicate Foreign(f: Facts, r: Record, token: string) {
    exists ip :: Bracketed(token, ip) && !f.privateIP(ip) && !InNetworks(f, r, ip)
  }

  ghost predicate DeliveredHere(r: Record) {
    NamesLocalTransport(ToLower(r.relay)) || SaysSaved(ToLower(r.detail))
  }

  ghost predicate FromInternet(f: Facts, r: Record) {
    Foreign(f, r, r.client) && !exists l :: l in r.raw && l.hits.sasl
  }

  ghost predicate ToInternet(f: Facts, r: Record) {
    Foreign(f, r, r.relay) && !DeliveredHere(r)
  }

  ghost predicate PassesThrough(f: Facts, r: Record) {
    FromInternet(f, r) && ToInternet(f, r) && r.delivery == "" && !exists l :: l in r.raw && l.hits.reinjected
  }

  lemma ForeignIff(f: Facts, r: Record, token: string)
    ensures Foreign(f, r, token) <==> PublicIP(f, IpOf(token)) && !InMyNetworks(ConfFor(f, r.origin), IpOf(token))
  {
    IpIsBracketed(token);
    forall ip | Bracketed(token, ip)
      ensures ip == IpOf(token) != ""
    {
      OneAddress(token, ip, IpOf(token));
    }
  }

  /** What each signal says of a leg under its own server's configuration. */
  lemma GivesMeans(f: Facts, r: Record, s: Signal)
    ensures Gives(f, ConfFor(f, r.origin), r, s) <==> match s
      case In => FromInternet(f, r)
      case Out => ToInternet(f, r)
      case Local => DeliveredHere(r)
      case Relayed => PassesThrough(f, r)
      case FromLocal => OfLocalDomain(f, r, r.from)
      case ToLocal => OfLocalDomain(f, r, r.to)
  {
    ForeignIff(f, r, r.client);
    ForeignIff(f, r, r.relay);
    DeliversLocalIff(r);
  }

  /** The legs that tell a record's direction: the listed ones of its message, or itself when it names none. */
  ghost predicate Tells(records: seq<Record>, r: Record, x: Record) {
    if r.messageID == "" then x == r else x in records && x.messageID == r.messageID && !x.subsumed
  }

  ghost predicate SomeLeg(records: seq<Record>, r: Record, has: Record -> bool) {
    exists x :: Tells(records, r, x) && has(x)
  }

  lemma SignalIsOfSomeLeg(f: Facts, records: seq<Record>, r: Record, s: Signal, has: Record -> bool)
    requires forall x: Record :: Gives(f, ConfFor(f, x.origin), x, s) == has(x)
    ensures SignalOf(f, records, r, s) <==> SomeLeg(records, r, has)
  {
    if r.messageID == "" {
      assert Tells(records, r, r);
    } else {
      if SomeLeg(records, r, has) {
        var x :| Tells(records, r, x) && has(x);
        assert x in records && LegOf(x, r.messageID) && Gives(f, ConfFor(f, x.origin), x, s);
      }
      if SignalOf(f, records, r, s) {
        var x :| x in records && LegOf(x, r.messageID) && Gives(f, ConfFor(f, x.origin), x, s);
        assert Tells(records, r, x);
      }
    }
  }

  /**
   The four answers: relayed when some leg passes the message through and none delivers it
   here; else inbound when some leg took it from the internet, outbound when none did and
   some leg sent it there; when neither, the local domains decide, and it is internal when
   both sides are local or neither.
   */
  lemma DirectionMeans(f: Facts, records: seq<Record>, r: Record)
    ensures var relayed := SomeLeg(records, r, x => PassesThrough(f, x)) && !SomeLeg(records, r, DeliveredHere);
      var came, left := SomeLeg(records, r, x => FromInternet(f, x)), SomeLeg(records, r, x => ToInternet(f, x));
      var ours := SomeLeg(records, r, (x: Record) => OfLocalDomain(f, x, x.from));
      var toUs := SomeLeg(records, r, (x: Record) => OfLocalDomain(f, x, x.to));
      var d := DirectionIn(f, records, r);
      && (d == "relayed" <==> relayed)
      && (d == "inbound" <==> !relayed && (came || (!left && toUs && !ours)))
      && (d == "outbound" <==> !relayed && !came && (left || (ours && !toUs)))
      && (d == "internal" <==> !relayed && !came && !left && (ours <==> toUs))
  {
    forall x: Record, s
      ensures Gives(f, ConfFor(f, x.origin), x, s) <==> match s
        case In => FromInternet(f, x)
        case Out => ToInternet(f, x)
        case Local => DeliveredHere(x)
        case Relayed => PassesThrough(f, x)
        case FromLocal => OfLocalDomain(f, x, x.from)
        case ToLocal => OfLocalDomain(f, x, x.to)
    {
      GivesMeans(f, x, s);
    }
    SignalIsOfSomeLeg(f, records, r, Relayed, x => PassesThrough(f, x));
    SignalIsOfSomeLeg(f, records, r, Local, DeliveredHere);
    SignalIsOfSomeLeg(f, records, r, In, x => FromInternet(f, x));
    SignalIsOfSomeLeg(f, records, r, Out, x => ToInternet(f, x));
    SignalIsOfSomeLeg(f, records, r, FromLocal, (x: Record) => OfLocalDomain(f, x, x.from));
    SignalIsOfSomeLeg(f, records, r, ToLocal, (x: Record) => OfLocalDomain(f, x, x.to));
    ClassifiedAs(s => SignalOf(f, records, r, s));
  }

  lemma ClassifiedAs(has: Signal -> bool)
    ensures var relayed, d := has(Relayed) && !has(Local), Classify(has);
      && (d == "relayed" <==> relayed)
      && (d == "inbound" <==> !relayed && (has(In) || (!has(Out) && has(ToLocal) && !has(FromLocal))))
      && (d == "outbound" <==> !relayed && !has(In) && (has(Out) || (has(FromLocal) && !has(ToLocal))))
      && (d == "internal" <==> !relayed && !has(In) && !has(Out) && (has(FromLocal) <==> has(ToLocal)))
  {
    assert "relayed"[0] == 'r' && "inbound"[0] == 'i' && "outbound"[0] == 'o' && "internal"[0] == 'i';
    assert "inbound"[2] == 'b' && "internal"[2] == 't';
  }

  // ---- the three computations ----

  /** The index of Message-IDs that have a signal, one map per signal. */
  datatype MidIndex = MidIndex(
    midIn: map<string, bool>, midOut: map<string, bool>, midLocal: map<string, bool>,
    midRelay: map<string, bool>, midFromLocal: map<string, bool>, midToLocal: map<string, bool>)

  function MapFor(x: MidIndex, s: Signal): map<string, bool> {
    match s
    case In => x.midIn
    case Out => x.midOut
    case Local => x.midLocal
    case Relayed => x.midRelay
    case FromLocal => x.midFromLocal
    case ToLocal => x.midToLocal
  }

  predicate At(m: map<string, bool>, key: string) {
    key in m && m[key]
  }

  function Mark(m: map<string, bool>, key: string, give: bool): map<string, bool> {
    if give then m[key := true] else m
  }

  function MarkLeg(f: Facts, x: MidIndex, r: Record): MidIndex {
    var pc, mid := ConfFor(f, r.origin), r.messageID;
    MidIndex(
      Mark(x.midIn, mid, Gives(f, pc, r, In)), Mark(x.midOut, mid, Gives(f, pc, r, Out)),
      Mark(x.midLocal, mid, Gives(f, pc, r, Local)), Mark(x.midRelay, mid, Gives(f, pc, r, Relayed)),
      Mark(x.midFromLocal, mid, Gives(f, pc, r, FromLocal)), Mark(x.midToLocal, mid, Gives(f, pc, r, ToLocal)))
  }

  ghost predicate Indexes(f: Facts, x: MidIndex, records: seq<Record>) {
    forall s: Signal, mid: string | mid != "" :: At(MapFor(x, s), mid) <==> MessageGives(f, records, mid, s)
  }

  lemma GivesSnoc(f: Facts, front: seq<Record>, r: Record, mid: string, s: Signal)
    ensures MessageGives(f, front + [r], mid, s)
      <==> MessageGives(f, front, mid, s) || (LegOf(r, mid) && Gives(f, ConfFor(f, r.origin), r, s))
  {
    var all := front + [r];
    assert r in all;
    if MessageGives(f, front, mid, s) {
      var x :| x in front && LegOf(x, mid) && Gives(f, ConfFor(f, x.origin), x, s);
      assert x in all;
    }
  }

  lemma MarkedAt(f: Facts, x: MidIndex, r: Record, mid: string, s: Signal)
    ensures At(MapFor(MarkLeg(f, x, r), s), mid)
      <==> At(MapFor(x, s), mid) || (mid == r.messageID && Gives(f, ConfFor(f, r.origin), r, s))
  {
  }

  /** Built once over all records; gives any record's direction. */
  method DirectionResolver(f: Facts, records: seq<Record>) returns (index: MidIndex)
    ensures Indexes(f, index, records)
  {
    index := MidIndex(map[], map[], map[], map[], map[], map[]);
    for i := 0 to |records|
      invariant Indexes(f, index, records[..i])
    {
      var r := records[i];
      assert records[..i + 1] == records[..i] + [r];
      ghost var before := index;
      if !r.subsumed && r.messageID != "" {
        index := MarkLeg(f, index, r);
      }
      forall s: Signal, mid: string | mid != ""
        ensures At(MapFor(index, s), mid) <==> MessageGives(f, records[..i + 1], mid, s)
      {
        GivesSnoc(f, records[..i], r, mid, s);
        MarkedAt(f, before, r, mid, s);
      }
    }
    assert records[..|records|] == records;
  }

  /** The resolver's closure. */
  method Resolve(f: Facts, index: MidIndex, r: Record, ghost records: seq<Record>) returns (direction: string)
    requires Indexes(f, index, records)
    ensures direction == DirectionIn(f, records, r)
  {
    if r.messageID != "" {
      direction := Classify(s => At(MapFor(index, s), r.messageID));
      ClassifyReads(s => At(MapFor(index, s), r.messageID), s => SignalOf(f, records, r, s));
    } else {
      var pc := ConfFor(f, r.origin);
      direction := Classify(s => Gives(f, pc, r, s));
      ClassifyReads(s => Gives(f, pc, r, s), s => SignalOf(f, records, r, s));
    }
  }

  /** Six signals gathered leg by leg. */
  datatype Signals = Signals(inn: bool, out: bool, local: bool, relay: bool, fromLocal: bool, toLocal: bool)

  predicate Has(x: Signals, s: Signal) {
    match s
    case In => x.inn
    case Out => x.out
    case Local => x.local
    case Relayed => x.relay
    case FromLocal => x.fromLocal
    case ToLocal => x.toLocal
  }

  const NO_SIGNALS := Signals(false, false, false, false, false, false)

  function AddLeg(f: Facts, x: Signals, pc: Option<Conf>, r: Record): Signals {
    Signals(
      x.inn || Gives(f, pc, r, In), x.out || Gives(f, pc, r, Out), x.local || Gives(f, pc, r, Local),
      x.relay || Gives(f, pc, r, Relayed), x.fromLocal || Gives(f, pc, r, FromLocal), x.toLocal || Gives(f, pc, r, ToLocal))
  }

  lemma AddLegHas(f: Facts, x: Signals, pc: Option<Conf>, r: Record, s: Signal)
    ensures Has(AddLeg(f, x, pc, r), s) <==> Has(x, s) || Gives(f, pc, r, s)
  {
  }

  /** The detail view's single pass over the records for the message of one of them. */
  method DetailDirection(f: Facts, records: seq<Record>, r: Record) returns (direction: string)
    ensures direction == DirectionIn(f, records, r)
  {
    var x := AddLeg(f, NO_SIGNALS, ConfFor(f, r.origin), r);
    forall s ensures Has(x, s) == Gives(f, ConfFor(f, r.origin), r, s) {
      AddLegHas(f, NO_SIGNALS, ConfFor(f, r.origin), r, s);
    }
    if r.messageID != "" {
      x := NO_SIGNALS;
      for i := 0 to |records|
        invariant forall s :: Has(x, s) == MessageGives(f, records[..i], r.messageID, s)
      {
        var o := records[i];
        assert records[..i + 1] == records[..i] + [o];
        ghost var before := x;
        if !o.subsumed && o.messageID == r.messageID {
          x := AddLeg(f, x, ConfFor(f, o.origin), o);
        }
        forall s ensures Has(x, s) == MessageGives(f, records[..i + 1], r.messageID, s) {
          GivesSnoc(f, records[..i], o, r.messageID, s);
          AddLegHas(f, before, ConfFor(f, o.origin), o, s);
        }
      }
      assert records[..|records|] == records;
    }
    direction := Classify(s => Has(x, s));
    ClassifyReads(s => Has(x, s), s => SignalOf(f, records, r, s));
  }

  predicate SomeGives(f: Facts, legs: seq<Record>, pc: Option<Conf>, s: Signal) {
    exists r | r in legs :: Gives(f, pc, r, s)
  }

  /** Direction of a list of legs under one configuration. */
  method DirectionOf(f: Facts, legs: seq<Record>, pc: Option<Conf>) returns (direction: string)
    ensures direction == Classify(s => SomeGives(f, legs, pc, s))
  {
    var x := NO_SIGNALS;
    for i := 0 to |legs|
      invariant forall s :: Has(x, s) == SomeGives(f, legs[..i], pc, s)
    {
      var r := legs[i];
      assert legs[..i + 1] == legs[..i] + [r];
      ghost var before := x;
      x := AddLeg(f, x, pc, r);
      forall s ensures Has(x, s) == SomeGives(f, legs[..i + 1], pc, s) {
        AddLegHas(f, before, pc, r, s);
        SomeGivesSnoc(f, legs[..i], r, pc, s);
      }
    }
    assert legs[..|legs|] == legs;
    direction := Classify(s => Has(x, s));
    ClassifyReads(s => Has(x, s), s => SomeGives(f, legs, pc, s));
  }

  lemma SomeGivesSnoc(f: Facts, front: seq<Record>, r: Record, pc: Option<Conf>, s: Signal)
    ensures SomeGives(f, front + [r], pc, s) <==> SomeGives(f, front, pc, s) || Gives(f, pc, r, s)
  {
    var all := front + [r];
    assert r in all;
    if SomeGives(f, front, pc, s) {
      var x :| x in front && Gives(f, pc, x, s);
      assert x in all;
    }
  }

  /** Over a message's visible legs, in any order and under their common configuration, it is the message's direction. */
  lemma LegsGiveDirection(f: Facts, records: seq<Record>, r: Record, legs: seq<Record>, pc: Option<Conf>)
    requires r.messageID != ""
    requires forall x :: x in legs <==> x in records && LegOf(x, r.messageID)
    requires forall x | x in legs :: ConfFor(f, x.origin) == pc
    ensures Classify(s => SomeGives(f, legs, pc, s)) == DirectionIn(f, records, r)
  {
    forall s
      ensures SomeGives(f, legs, pc, s) == SignalOf(f, records, r, s)
    {
      if SomeGives(f, legs, pc, s) {
        var x :| x in legs && Gives(f, pc, x, s);
        assert x in records && LegOf(x, r.messageID) && Gives(f, ConfFor(f, x.origin), x, s);
      }
      if MessageGives(f, records, r.messageID, s) {
        var x :| x in records && LegOf(x, r.messageID) && Gives(f, ConfFor(f, x.origin), x, s);
        assert x in legs;
      }
    }
    ClassifyReads(s => SomeGives(f, legs, pc, s), s => SignalOf(f, records, r, s));
  }
}
