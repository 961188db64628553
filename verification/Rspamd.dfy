/** Verdicts an rspamd host logs apart from the mail log, joined to a record by queue id. */
module Rspamd {
  import opened Text
  import opened Records

  datatype RspamdVerdict = RspamdVerdict(action: string, score: string, messageID: string, line: Option<Line>)

  /** Only a reject stops the mail; tagging actions leave the Postfix outcome alone. */
  function RspamdDisposition(action: string): string {
    if action == "reject" then "spam"
    else if action == "soft reject" || action == "greylist" then "deferred"
    else ""
  }

  /** Attaches a verdict to its record; the scanner line is added once. */
  function Enrich(r: Record, v: RspamdVerdict): (e: Record)
    ensures KeyOf(e) == KeyOf(r) && e.subsumed == r.subsumed && e.delivery == r.delivery
  {
    r.(
      filter := "rspamd",
      filterAction := v.action,
      spamScore := if v.score != "" then v.score else r.spamScore,
      messageID := Or(r.messageID, v.messageID),
      disposition := Or(RspamdDisposition(v.action), r.disposition),
      raw := if v.line.Some? && v.line.value !in r.raw then r.raw + [v.line.value] else r.raw)
  }

  /**
   What the record shows then: the verdict's action, its score and message id where it has
   them and the record no message id yet, the outcome of a reject or a delay, and the line.
   */
  lemma VerdictIsShown(r: Record, v: RspamdVerdict)
    ensures var e := Enrich(r, v);
      && e == r.(filter := "rspamd", filterAction := v.action, spamScore := e.spamScore, messageID := e.messageID,
                 disposition := e.disposition, raw := e.raw)
      && e.spamScore == (if v.score != "" then v.score else r.spamScore)
      && e.messageID == (if r.messageID != "" then r.messageID else v.messageID)
      && e.disposition == (match v.action
           case "reject" => "spam"
           case "soft reject" => "deferred"
           case "greylist" => "deferred"
           case _ => r.disposition)
      && (v.line.Some? ==> v.line.value in e.raw)
      && (e.raw == r.raw || (v.line.Some? && v.line.value !in r.raw && e.raw == r.raw + [v.line.value]))
  {
  }
}
