/** What a Fiber node's answer says of a payment, read off its raw status
    (src/integrations/fiber/fiber-status-mapper.ts:22-85, src/services/fiber-latch-service.ts:206, 702). */
module LegacyVerdicts {
  import opened JsText
  import opened FiberStatus
  import opened LegacyDb

  predicate Spelled(v: FiberVerification, words: set<string>) {
    v.rawStatus.Some? && Normalize(v.rawStatus.value) in words
  }

  /** The raw status spells one of the six words for paid, or there is none and the answer is marked verified. */
  predicate SaysPaid(v: FiberVerification) {
    || Spelled(v, {"paid", "success", "succeeded", "settled", "confirmed", "finalized"})
    || (v.rawStatus.None? && v.verified)
  }

  predicate SaysExpired(v: FiberVerification) {
    Spelled(v, {"expired", "timed_out", "timeout", "timedout"})
  }

  predicate SaysFailed(v: FiberVerification) {
    Spelled(v, {"failed", "canceled", "cancelled", "rejected"})
  }

  /** It spells a word for pending, or it is blank, or there is none and the answer is not marked verified. */
  predicate SaysPending(v: FiberVerification) {
    || Spelled(v, {"open", "received", "created", "inflight", "unpaid", "pending"})
    || (v.rawStatus.Some? && Trim(v.rawStatus.value) == "")
    || (v.rawStatus.None? && !v.verified)
  }

  lemma BlankIsNoWord(s: string)
    requires Trim(s) == ""
    ensures Normalize(s) == ""
  {
  }

  lemma PaidIsPaid()
    ensures Trim("paid") != "" && Normalize("paid") == "paid"
  {
    WordMeans("paid", "paid");
  }

  /** The mapper says of an answer what its raw status says. */
  lemma VerdictIff(v: FiberVerification)
    ensures var m := MapRawStatus(RawStatusOf(v));
      && (m.state == PaidVerified <==> SaysPaid(v))
      && (m.state == ExpiredState <==> SaysExpired(v))
      && (m.state == FailedState <==> SaysFailed(v))
      && (m.state in {Waiting, PaymentPending} <==> SaysPending(v))
      && (m.shouldIssue <==> SaysPaid(v))
      && (m.intentStatus == if SaysPaid(v) then Verified else if SaysExpired(v) then IntentExpired
                            else if SaysFailed(v) then Rejected else Pending)
  {
    VerdictOfText(RawStatusOf(v));
    if v.rawStatus.Some? {
      if Trim(v.rawStatus.value) == "" {
        BlankIsNoWord(v.rawStatus.value);
      }
    } else {
      PaidIsPaid();
    }
  }
}
