/**
 Log lines, mail records and the classification derived from a record.
 A line carries what the parser's expressions extract from it, so that every
 extractor is local to a line; a record is the value the store keeps per message.
 */
module Records {
  import opened Text

  /** A log time stamp; 0 is Go's zero time, "no time stamp". */
  type Time = nat
  const ZERO_TIME: Time := 0

  /** A match of the status expression; its code is never blank. */
  datatype StatusMatch = StatusMatch(code: string, detail: string)
  type StatusHit = h: StatusMatch | h.code != "" witness StatusMatch("sent", "")

  /** The text extractors; a client is written host[ip], a relay or TLS peer host[ip]:port. */
  datatype Field = From | To | Subject | MessageID | Relay | Client | Connect | Tls | OrigClient | Handoff

  /** What the extractors find on one line; a field is absent when its expression does not match there. */
  datatype Hits = Hits(
    texts: map<Field, string>,
    size: Option<nat>,
    status: Option<StatusHit>,
    sasl: bool,
    reinjected: bool,
    nullSender: bool)

  /** The verdict part of one content-filter line; blank action when it states no outcome. */
  datatype FilterHit = FilterHit(
    score: string, action: string, disposition: string, rule: string, quarantineID: string, onwardQID: string)

  datatype RejectHit = RejectHit(syntheticID: string, stage: string, client: string, response: string)

  /** How the grouping loop dispatches a line, in the order it tests. */
  datatype Kind =
    | ConnectLine
    | TlsLine
    | FilterLine(fid: string, hit: FilterHit)
    | NoQueueLine(reject: Option<RejectHit>)
    | QueueLine(qid: string, removed: bool)
    | OtherLine

  datatype Line = Line(text: string, time: Time, kind: Kind, hits: Hits)

  /** A record's identity: two servers may use the same queue id. */
  datatype Key = Key(origin: string, qid: string)

  datatype Record = Record(
    time: Time,
    origin: string,
    qid: string,
    from: string,
    to: string,
    subject: string,
    size: nat,
    messageID: string,
    status: string,
    detail: string,
    relay: string,
    client: string,
    tls: string,
    raw: seq<Line>,
    disposition: string,
    filter: string,
    filterAction: string,
    spamScore: string,
    filterRule: string,
    filterID: string,
    delivery: string,
    subsumed: bool)

  function KeyOf(r: Record): Key {
    Key(r.origin, r.qid)
  }

  /** The onward queue id a record expects, as a key of the same server. */
  function DeliveryKey(r: Record): Key {
    Key(r.origin, r.delivery)
  }

  const BLANK := Record(ZERO_TIME, "", "", "", "", "", 0, "", "", "", "", "", "", [], "", "", "", "", "", "", "", false)

  /** First match of an extractor over the joined lines, or blank. */
  function First(lines: seq<Line>, field: Field): string {
    if lines == [] then ""
    else if field in lines[0].hits.texts then lines[0].hits.texts[field]
    else First(lines[1..], field)
  }

  function FirstSize(lines: seq<Line>): nat {
    if lines == [] then 0
    else match lines[0].hits.size
      case Some(n) => n
      case None => FirstSize(lines[1..])
  }

  /** Last match of the status expression: the terminal outcome wins. */
  function LastStatus(lines: seq<Line>): Option<StatusHit> {
    if lines == [] then None
    else match lines[|lines| - 1].hits.status
      case Some(h) => Some(h)
      case None => LastStatus(lines[..|lines| - 1])
  }

  const LOCAL_RELAYS := ["dovecot", "lmtp", "virtual", "cyrus", "maildrop"]
  const LOCAL_DETAILS := [
    " saved", "delivered to mailbox", "delivered to maildir", "delivered to command", "delivered to file"]

  /** A terminal delivery to a local mailbox rather than an onward relay. */
  predicate DeliversLocal(r: Record) {
    var relay := ToLower(r.relay);
    || ContainsAny(relay, LOCAL_RELAYS) || relay == "local" || HasPrefix(relay, "local[")
    || ContainsAny(ToLower(r.detail), LOCAL_DETAILS)
  }

  /** The outcome implied by the Postfix status alone. */
  function DeriveDisposition(r: Record): (d: string)
    ensures d != ""
  {
    var st := ToLower(r.status);
    var detail := ToLower(r.detail);
    if HasPrefix(st, "sent") then (if DeliversLocal(r) then "delivered" else "sent")
    else if HasPrefix(st, "reject") then
      if ContainsAny(detail, ["spamassassin", "spam"]) then "spam"
      else if Contains(detail, "virus") then "virus"
      else "rejected"
    else if HasPrefix(st, "bounced") then "bounced"
    else if HasPrefix(st, "deferred") then "deferred"
    else if st == "" then (if r.size > 0 then "received" else "incomplete")
    else st
  }

  /** Dispositions a later status may still replace; scanner verdicts are not among them. */
  predicate IsStatusDisposition(d: string) {
    d in {"sent", "delivered", "deferred", "bounced", "rejected", "received", "incomplete"}
  }

  predicate IsSpace(c: char) {
    c in {' ', '\t', '\n', '\r', '\U{000B}', '\U{000C}', '\U{0085}', '\U{00A0}'}
  }

  /** strings.Fields(s)[0], or blank when there is no field. */
  function FirstField(s: string): string {
    if s == "" then "" else if IsSpace(s[0]) then FirstField(s[1..]) else Word(s)
  }

  function Word(s: string): string {
    if s == "" || IsSpace(s[0]) then "" else [s[0]] + Word(s[1..])
  }

  function DispositionOrStatus(r: Record): string {
    if r.disposition != "" then r.disposition else ToLower(FirstField(r.status))
  }
}
