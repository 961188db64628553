/**
 What the classification of a record says, stated on the characters of its fields: where
 mail counts as delivered locally, which outcome a status tells, and what a row shows.
 */
module Outcomes {
  import opened Text
  import opened Records

  // ---- strings ----

  ghost predicate Occurs(s: string, sub: string) {
    exists i :: 0 <= i <= |s| && sub <= s[i..]
  }

  lemma {:induction false} ContainsIff(s: string, sub: string)
    ensures Contains(s, sub) <==> Occurs(s, sub)
  {
    assert s[0..] == s;
    if s != "" {
      ContainsIff(s[1..], sub);
      forall i | 0 < i <= |s|
        ensures s[i..] == s[1..][i - 1..]
      {
      }
      if Occurs(s[1..], sub) {
        var i :| 0 <= i <= |s[1..]| && sub <= s[1..][i..];
        assert s[i + 1..] == s[1..][i..];
      }
    }
  }

  lemma {:induction false} ContainsAnyIff(s: string, subs: seq<string>)
    ensures ContainsAny(s, subs) <==> exists t :: t in subs && Occurs(s, t)
  {
    if subs != [] {
      ContainsIff(s, subs[0]);
      ContainsAnyIff(s, subs[1..]);
      assert subs == [subs[0]] + subs[1..];
    }
  }

  /** Lower case: the 26 letters move to their small counterparts, everything else stays. */
  lemma LowerLetters(s: string)
    ensures |ToLower(s)| == |s|
    ensures forall i | 0 <= i < |s| ::
      ToLower(s)[i] as int == s[i] as int + if 65 <= s[i] as int <= 90 then 32 else 0
  {
  }

  // ---- local delivery ----

  ghost predicate NamesLocalTransport(relay: string) {
    || Occurs(relay, "dovecot") || Occurs(relay, "lmtp") || Occurs(relay, "virtual") || Occurs(relay, "cyrus")
    || Occurs(relay, "maildrop") || relay == "local" || "local[" <= relay
  }

  ghost predicate SaysSaved(detail: string) {
    || Occurs(detail, " saved") || Occurs(detail, "delivered to mailbox") || Occurs(detail, "delivered to maildir")
    || Occurs(detail, "delivered to command") || Occurs(detail, "delivered to file")
  }

  lemma LocalTransports(relay: string)
    ensures ContainsAny(relay, LOCAL_RELAYS) || relay == "local" || HasPrefix(relay, "local[") <==> NamesLocalTransport(relay)
  {
    ContainsAnyIff(relay, LOCAL_RELAYS);
    assert forall t :: t in LOCAL_RELAYS <==> t in {"dovecot", "lmtp", "virtual", "cyrus", "maildrop"};
  }

  lemma SavedDetails(detail: string)
    ensures ContainsAny(detail, LOCAL_DETAILS) <==> SaysSaved(detail)
  {
    ContainsAnyIff(detail, LOCAL_DETAILS);
    assert forall t :: t in LOCAL_DETAILS <==>
      t in {" saved", "delivered to mailbox", "delivered to maildir", "delivered to command", "delivered to file"};
  }

  /** Mail is delivered locally exactly when its relay names a local transport or its detail says it was saved. */
  lemma DeliversLocalIff(r: Record)
    ensures DeliversLocal(r) <==> NamesLocalTransport(ToLower(r.relay)) || SaysSaved(ToLower(r.detail))
  {
    LocalTransports(ToLower(r.relay));
    SavedDetails(ToLower(r.detail));
  }

  // ---- the outcome a status tells ----

  predicate OtherStatus(st: string) {
    !HasPrefix(st, "sent") && !HasPrefix(st, "reject") && !HasPrefix(st, "bounced") && !HasPrefix(st, "deferred")
  }

  /** When a Postfix status tells an outcome: per outcome, the statuses it stands for. */
  predicate Says(d: string, status: string, detail: string, relay: string, size: nat) {
    SaysOf(d, ToLower(status), DeliversLocal(BLANK.(relay := relay, detail := detail)),
           Contains(ToLower(detail), "spam"), Contains(ToLower(detail), "virus"), size)
  }

  predicate SaysOf(d: string, st: string, local: bool, spam: bool, virus: bool, size: nat) {
    match d
    case "sent" => HasPrefix(st, "sent") && !local
    case "delivered" => (HasPrefix(st, "sent") && local) || st == d
    case "bounced" => HasPrefix(st, d)
    case "deferred" => HasPrefix(st, d)
    case "spam" => (HasPrefix(st, "reject") && spam) || st == d
    case "virus" => (HasPrefix(st, "reject") && virus && !spam) || st == d
    case "rejected" => HasPrefix(st, "reject") && !spam && !virus
    case "received" => (st == "" && size > 0) || st == d
    case "incomplete" => (st == "" && size == 0) || st == d
    case _ => d != "" && st == d && OtherStatus(st)
  }

  lemma {:induction false} SpamAssassinIsSpam(s: string)
    ensures Contains(s, "spamassassin") ==> Contains(s, "spam")
  {
    assert "spam" <= "spamassassin";
    if s != "" && !HasPrefix(s, "spamassassin") {
      SpamAssassinIsSpam(s[1..]);
    }
  }

  /** The same over the facts the outcome depends on. */
  function Told(st: string, local: bool, spam: bool, virus: bool, size: nat): string {
    if HasPrefix(st, "sent") then (if local then "delivered" else "sent")
    else if HasPrefix(st, "reject") then (if spam then "spam" else if virus then "virus" else "rejected")
    else if HasPrefix(st, "bounced") then "bounced"
    else if HasPrefix(st, "deferred") then "deferred"
    else if st == "" then (if size > 0 then "received" else "incomplete")
    else st
  }

  lemma DerivedIsTold(r: Record)
    ensures DeriveDisposition(r) == Told(ToLower(r.status), DeliversLocal(BLANK.(relay := r.relay, detail := r.detail)),
      Contains(ToLower(r.detail), "spam"), Contains(ToLower(r.detail), "virus"), r.size)
  {
    SpamAssassinIsSpam(ToLower(r.detail));
    SpamListed(ToLower(r.detail));
  }

  lemma PrefixedSays(st: string, local: bool, spam: bool, virus: bool, size: nat, d: string)
    requires !OtherStatus(st)
    ensures Told(st, local, spam, virus, size) == d <==> SaysOf(d, st, local, spam, virus, size)
  {
    FirstLetters(st);
    OtherWords(st);
  }

  lemma OtherSays(st: string, local: bool, spam: bool, virus: bool, size: nat, d: string)
    requires OtherStatus(st)
    ensures Told(st, local, spam, virus, size) == d <==> SaysOf(d, st, local, spam, virus, size)
  {
    OwnPrefix(st);
  }

  lemma OwnPrefix(st: string)
    requires OtherStatus(st)
    ensures st !in {"sent", "bounced", "deferred", "rejected"}
  {
    assert HasPrefix("rejected", "reject");
  }

  /** A record's outcome is the one that its status, detail, relay and size tell, and no other. */
  lemma DerivedSays(r: Record, d: string)
    ensures DeriveDisposition(r) == d <==> Says(d, r.status, r.detail, r.relay, r.size)
  {
    DerivedIsTold(r);
    var st, local := ToLower(r.status), DeliversLocal(BLANK.(relay := r.relay, detail := r.detail));
    var spam, virus := Contains(ToLower(r.detail), "spam"), Contains(ToLower(r.detail), "virus");
    if OtherStatus(st) {
      OtherSays(st, local, spam, virus, r.size, d);
    } else {
      PrefixedSays(st, local, spam, virus, r.size, d);
    }
  }

  lemma SpamListed(detail: string)
    ensures ContainsAny(detail, ["spamassassin", "spam"]) <==> Contains(detail, "spamassassin") || Contains(detail, "spam")
  {
    assert ["spamassassin", "spam"][1..] == ["spam"] && ["spam"][1..] == [];
    assert ContainsAny(detail, ["spam"]) <==> Contains(detail, "spam");
  }

  /** No two of the prefixes fit one status. */
  lemma FirstLetters(st: string)
    ensures HasPrefix(st, "sent") ==> st[0] == 's' && st[1] == 'e'
    ensures HasPrefix(st, "reject") ==> st[0] == 'r' && st[2] == 'j'
    ensures HasPrefix(st, "bounced") ==> st[0] == 'b'
    ensures HasPrefix(st, "deferred") ==> st[0] == 'd' && st[2] == 'f'
  {
    assert "sent"[0] == 's' && "sent"[1] == 'e' && "reject"[0] == 'r' && "reject"[2] == 'j' && "bounced"[0] == 'b';
    assert "deferred"[0] == 'd' && "deferred"[2] == 'f';
  }

  /** The other outcomes have none of the prefixes. */
  lemma OtherWords(st: string)
    ensures st in {"spam", "virus", "delivered", "received", "incomplete"} ==> OtherStatus(st)
  {
    FirstLetters(st);
    assert "spam"[1] == 'p' && "virus"[0] == 'v' && "delivered"[2] == 'l' && "received"[2] == 'c' && "incomplete"[0] == 'i';
    assert "spam"[0] == 's' && "delivered"[0] == 'd' && "received"[0] == 'r';
  }

  // ---- what a row shows ----

  ghost predicate White(c: char) {
    9 <= c as int <= 13 || c as int in {32, 133, 160}
  }

  /** The first run of characters between white space. */
  ghost predicate FirstWordAt(s: string, w: string, i: nat) {
    && w != "" && i + |w| <= |s| && s[i..i + |w|] == w
    && (forall k | 0 <= k < i :: White(s[k])) && (forall k | 0 <= k < |w| :: !White(w[k]))
    && (i + |w| < |s| ==> White(s[i + |w|]))
  }

  ghost predicate IsFirstWord(s: string, w: string) {
    (w == "" && forall c | c in s :: White(c)) || exists i: nat :: FirstWordAt(s, w, i)
  }

  lemma SpaceIsWhite(c: char)
    ensures IsSpace(c) <==> White(c)
  {
  }

  lemma {:induction false} WordRuns(s: string)
    requires s != "" && !White(s[0])
    ensures FirstWordAt(s, Word(s), 0)
  {
    SpaceIsWhite(s[0]);
    if |s| > 1 {
      SpaceIsWhite(s[1]);
      if !White(s[1]) {
        WordRuns(s[1..]);
        assert s[..1 + |Word(s[1..])|] == [s[0]] + s[1..][..|Word(s[1..])|];
      }
    }
  }

  lemma {:induction false} FirstFieldIsWord(s: string)
    ensures IsFirstWord(s, FirstField(s))
  {
    if s != "" {
      SpaceIsWhite(s[0]);
      if White(s[0]) {
        FirstFieldIsWord(s[1..]);
        assert s == [s[0]] + s[1..];
        var w := FirstField(s);
        if exists i: nat :: FirstWordAt(s[1..], w, i) {
          var i: nat :| FirstWordAt(s[1..], w, i);
          assert FirstWordAt(s, w, i + 1) by {
            assert s[i + 1..i + 1 + |w|] == s[1..][i..i + |w|];
            forall k | 0 <= k < i + 1
              ensures White(s[k])
            {
              assert k > 0 ==> s[k] == s[1..][k - 1];
            }
          }
        }
      } else {
        WordRuns(s);
      }
    }
  }

  /** A row shows the record's disposition, or else the first word of its status in lower case. */
  lemma ShownOutcome(r: Record)
    ensures r.disposition != "" ==> DispositionOrStatus(r) == r.disposition
    ensures r.disposition == "" ==> exists w :: IsFirstWord(r.status, w) && DispositionOrStatus(r) == ToLower(w)
  {
    FirstFieldIsWord(r.status);
  }
}
