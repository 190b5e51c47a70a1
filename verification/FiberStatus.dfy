/** Fiber status strings and the intent states they stand for
    (src/integrations/fiber/fiber-status-mapper.ts). */
module FiberStatus {
  import opened Basics
  import opened JsText

  datatype Normalized = Waiting | PaymentPending | PaidVerified | ExpiredState | FailedState | UnknownState

  datatype IntentStatus = Pending | Verified | ReceiptIssued | Rejected | IntentExpired

  datatype Mapping = Mapping(state: Normalized, intentStatus: IntentStatus, shouldIssue: bool, isTerminal: bool)

  const PENDING_VALUES := {"open", "received", "created", "inflight", "unpaid", "pending"}
  const PAID_VALUES := {"paid", "success", "succeeded", "settled", "confirmed", "finalized"}
  const EXPIRED_VALUES := {"expired", "timed_out", "timeout", "timedout"}
  const FAILED_VALUES := {"failed", "canceled", "cancelled", "rejected"}

  predicate IsSeparator(c: char) {
    IsSpace(c) || c == '-'
  }

  /** `replace(/[\s-]+/g, "_")`: every maximal run of separators becomes one underscore. */
  function CollapseRuns(s: string): string {
    if s == "" then ""
    else if !IsSeparator(s[0]) then [s[0]] + CollapseRuns(s[1..])
    else if |s| > 1 && IsSeparator(s[1]) then CollapseRuns(s[1..])
    else ['_'] + CollapseRuns(s[1..])
  }

  function Normalize(raw: string): string {
    CollapseRuns(Lower(Trim(raw)))
  }

  function MapRawStatus(raw: Option<string>): Mapping {
    if raw.None? || Trim(raw.value) == "" then Mapping(Waiting, Pending, false, false)
    else
      var n := Normalize(raw.value);
      if n in PENDING_VALUES then Mapping(PaymentPending, Pending, false, false)
      else if n in PAID_VALUES then Mapping(PaidVerified, Verified, true, false)
      else if n in EXPIRED_VALUES then Mapping(ExpiredState, IntentExpired, false, true)
      else if n in FAILED_VALUES then Mapping(FailedState, Rejected, false, true)
      else Mapping(UnknownState, Pending, false, false)
  }

  /** The four answers of the mapper always tell one story. */
  lemma MappingIsCoherent(raw: Option<string>)
    ensures var m := MapRawStatus(raw);
      && (m.shouldIssue <==> m.state == PaidVerified) && (m.intentStatus == Verified <==> m.shouldIssue)
      && (m.isTerminal <==> m.intentStatus in {Rejected, IntentExpired})
      && (m.intentStatus == IntentExpired <==> m.state == ExpiredState)
      && (m.intentStatus == Rejected <==> m.state == FailedState)
      && m.intentStatus != ReceiptIssued
  {
  }

  /** What each status text means, written out: a status that is not blank is pending, paid, expired or failed
      exactly when its trimmed, lower-cased text, with every run of separators made one underscore, is one of
      these, and unknown otherwise; only a paid one asks for a receipt. A missing or blank one is waiting. */
  lemma VerdictOfText(raw: Option<string>)
    ensures var m := MapRawStatus(raw);
      if raw.None? || Trim(raw.value) == "" then m == Mapping(Waiting, Pending, false, false)
      else
        var text := Normalize(raw.value);
        && (m.state == PaymentPending <==> text in {"open", "received", "created", "inflight", "unpaid", "pending"})
        && (m.state == PaidVerified <==>
              text in {"paid", "success", "succeeded", "settled", "confirmed", "finalized"})
        && (m.state == ExpiredState <==> text in {"expired", "timed_out", "timeout", "timedout"})
        && (m.state == FailedState <==> text in {"failed", "canceled", "cancelled", "rejected"})
        && (m == Mapping(PaymentPending, Pending, false, false) || m == Mapping(PaidVerified, Verified, true, false)
            || m == Mapping(ExpiredState, IntentExpired, false, true)
            || m == Mapping(FailedState, Rejected, false, true)
            || m == Mapping(UnknownState, Pending, false, false))
  {
  }

  predicate OneWord(s: string) {
    s != "" && forall i | 0 <= i < |s| :: !IsSpace(s[i]) && s[i] != '-'
  }

  lemma {:induction false} WordIsCollapsed(s: string)
    requires s == "" || OneWord(s)
    ensures CollapseRuns(s) == s
  {
    if s != "" {
      WordIsCollapsed(s[1..]);
    }
  }

  lemma WordIsTrimmed(s: string)
    requires OneWord(s)
    ensures Trim(s) == s
  {
    TrimOf("", s, "");
    assert "" + s + "" == s;
  }

  lemma LoweredWord(s: string)
    requires OneWord(s)
    ensures CollapseRuns(Lower(s)) == Lower(s)
  {
    LowerKeepsSeparators(s);
    WordIsCollapsed(Lower(s));
  }

  /** A single word is only lower-cased. */
  lemma WordIsLowered(s: string)
    requires OneWord(s)
    ensures Trim(s) == s && Normalize(s) == Lower(s)
  {
    WordIsTrimmed(s);
    LoweredWord(s);
  }

  predicate Spells(s: string, low: string) {
    OneWord(s) && |s| == |low| && forall i | 0 <= i < |s| :: LowerChar(s[i]) == low[i]
  }

  lemma WordMeans(s: string, low: string)
    requires Spells(s, low)
    ensures Trim(s) != "" && Normalize(s) == low
  {
    WordIsLowered(s);
  }

  /** The official invoice and payment statuses of the Fiber node, in any letter case: Open, Received, Created and
      Inflight are pending, Paid and Success verified, Expired expired, Cancelled and Failed rejected. */
  lemma OfficialStatuses(s: string, low: string)
    requires Spells(s, low)
    ensures low in {"open", "received", "created", "inflight"} ==> MapRawStatus(Some(s)).intentStatus == Pending
    ensures low in {"paid", "success"} ==> MapRawStatus(Some(s)).intentStatus == Verified
    ensures low == "expired" ==> MapRawStatus(Some(s)).intentStatus == IntentExpired
    ensures low in {"cancelled", "failed"} ==> MapRawStatus(Some(s)).intentStatus == Rejected
  {
    WordMeans(s, low);
    VerdictOfText(Some(s));
  }

  predicate AllSeparators(s: string) {
    forall i | 0 <= i < |s| :: IsSeparator(s[i])
  }

  lemma {:induction false} RunCollapses(run: string, s: string)
    requires run != "" && AllSeparators(run) && (s == "" || !IsSeparator(s[0]))
    ensures CollapseRuns(run + s) == "_" + CollapseRuns(s)
  {
    assert (run + s)[1..] == run[1..] + s;
    if |run| > 1 {
      RunCollapses(run[1..], s);
    } else {
      assert run[1..] + s == s;
    }
  }

  lemma {:induction false} RunIsUnderscore(a: string, run: string, s: string)
    requires run != "" && AllSeparators(run)
    requires s != "" && !IsSeparator(s[0]) && (a == "" || !IsSeparator(a[|a| - 1]))
    ensures CollapseRuns(a + run + s) == CollapseRuns(a + "_" + s)
  {
    if a == "" {
      assert a + run + s == run + s && a + "_" + s == "_" + s;
      RunCollapses(run, s);
      assert ("_" + s)[1..] == s;
    } else {
      assert (a + run + s)[1..] == a[1..] + run + s;
      assert (a + "_" + s)[1..] == a[1..] + "_" + s;
      if |a| > 1 {
        assert (a + run + s)[1] == a[1] && (a + "_" + s)[1] == a[1];
      }
      RunIsUnderscore(a[1..], run, s);
    }
  }

  lemma LowerKeepsSeparators(s: string)
    ensures forall i | 0 <= i < |s| :: IsSeparator(Lower(s)[i]) <==> IsSeparator(s[i])
    ensures AllSeparators(s) ==> Lower(s) == s
  {
  }

  lemma LowerOfThree(a: string, b: string, c: string)
    ensures Lower(a + b + c) == Lower(a) + Lower(b) + Lower(c)
  {
  }

  lemma NormalizeInside(a: string, run: string, s: string)
    requires a != "" && !IsSeparator(a[|a| - 1]) && s != "" && !IsSeparator(s[0])
    requires run != "" && AllSeparators(run)
    ensures CollapseRuns(Lower(a + run + s)) == CollapseRuns(Lower(a + "_" + s))
  {
    LowerKeepsSeparators(a);
    LowerKeepsSeparators(run);
    LowerKeepsSeparators(s);
    LowerOfThree(a, run, s);
    LowerOfThree(a, "_", s);
    assert Lower("_") == "_";
    RunIsUnderscore(Lower(a), run, Lower(s));
  }

  /** Trimming around an inner text whose ends are not white space. */
  lemma TrimAround(a: string, mid: string, s: string) returns (a': string, s': string)
    requires a != "" && !IsSpace(a[|a| - 1]) && s != "" && !IsSpace(s[0])
    ensures Trim(a + mid + s) == a' + mid + s'
    ensures a' != "" && a'[|a'| - 1] == a[|a| - 1] && s' != "" && s'[0] == s[0]
    ensures a' == TrimStart(a) && s' == TrimEnd(s)
  {
    var before := TrimStartSplits(a);
    var after := TrimEndSplits(s);
    a', s' := TrimStart(a), TrimEnd(s);
    assert a' == "" ==> a == before;
    assert s' == "" ==> s == after;
    assert a + mid + s == before + (a' + mid + s') + after;
    TrimOf(before, a' + mid + s', after);
  }

  /** Inside a status, every run of white space and hyphens counts as one underscore. */
  lemma SpellingOfSeparators(a: string, run: string, s: string)
    requires a != "" && !IsSpace(a[|a| - 1]) && a[|a| - 1] != '-' && s != "" && !IsSpace(s[0]) && s[0] != '-'
    requires run != "" && forall i | 0 <= i < |run| :: IsSpace(run[i]) || run[i] == '-'
    ensures MapRawStatus(Some(a + run + s)) == MapRawStatus(Some(a + "_" + s))
  {
    var a1, s1 := TrimAround(a, run, s);
    var a2, s2 := TrimAround(a, "_", s);
    NormalizeInside(a1, run, s1);
  }

  lemma SameCaseSameSpace(s: string, s': string)
    requires Lower(s) == Lower(s')
    ensures |s| == |s'| && forall i | 0 <= i < |s| :: LowerChar(s[i]) == LowerChar(s'[i])
    ensures forall i | 0 <= i < |s| :: IsSpace(s[i]) <==> IsSpace(s'[i])
  {
    assert |Lower(s)| == |s| && |Lower(s')| == |s'|;
    forall i | 0 <= i < |s|
      ensures LowerChar(s[i]) == LowerChar(s'[i])
    {
      assert Lower(s)[i] == Lower(s')[i];
    }
  }

  lemma TrimKeepsCase(s: string, s': string)
    requires Lower(s) == Lower(s')
    ensures Lower(Trim(s)) == Lower(Trim(s'))
  {
    var before, after := TrimSplits(s);
    var n := |before|;
    SameShape(before, Trim(s), after, s');
    var mid := s'[n..n + |Trim(s)|];
    assert s' == s'[..n] + mid + s'[n + |Trim(s)|..];
    TrimOf(s'[..n], mid, s'[n + |Trim(s)|..]);
  }

  /** A text that differs from `a + mid + b` only in letter case has its spaces in the same places. */
  lemma SameShape(a: string, mid: string, b: string, s': string)
    requires AllSpace(a) && Tight(mid) && AllSpace(b) && Lower(a + mid + b) == Lower(s')
    ensures |s'| == |a| + |mid| + |b|
    ensures var n, k := |a|, |mid|;
            AllSpace(s'[..n]) && Tight(s'[n..n + k]) && AllSpace(s'[n + k..]) && Lower(s'[n..n + k]) == Lower(mid)
  {
    var s := a + mid + b;
    SameCaseSameSpace(s, s');
    var a', mid', b' := s'[..|a|], s'[|a|..|a| + |mid|], s'[|a| + |mid|..];
    forall i | 0 <= i < |a'|
      ensures IsSpace(a'[i])
    {
      assert s[i] == a[i];
    }
    forall i | 0 <= i < |b'|
      ensures IsSpace(b'[i])
    {
      assert s[|a| + |mid| + i] == b[i];
    }
    forall i | 0 <= i < |mid'|
      ensures LowerChar(mid'[i]) == LowerChar(mid[i])
      ensures IsSpace(mid'[i]) <==> IsSpace(mid[i])
    {
      assert s[|a| + i] == mid[i];
    }
  }

  /** Letter case and outer white space never change the mapping. */
  lemma MappingIgnoresCaseAndPadding(a: string, s: string, s': string, b: string)
    requires AllSpace(a) && AllSpace(b) && Lower(s) == Lower(s')
    ensures MapRawStatus(Some(a + s + b)) == MapRawStatus(Some(s'))
  {
    var before, after := TrimSplits(s);
    assert a + s + b == (a + before) + Trim(s) + (after + b);
    TrimOf(a + before, Trim(s), after + b);
    TrimKeepsCase(s, s');
    assert |Lower(Trim(s))| == |Trim(s)| && |Lower(Trim(s'))| == |Trim(s')|;
  }
}
