/** Rerunning an interrupted reconciliation: "safe to rerun after partial progress"
    (src/services/fiber-latch-service.ts:623-656). */
module Resumption {
  import opened LegacyDb
  import opened LegacyLifecycle
  import opened Reconciliation

  /** Both passes complete or both fail, over the same database. */
  predicate SameEnd(a: PassResult, b: PassResult) {
    a.db == b.db && (a.PassDone? <==> b.PassDone?)
  }

  /** The counters do not influence the pass. */
  lemma {:induction false} SummaryIsPassive(db: Db, rt: Runtime, ids: seq<nat>, w: World, s: Summary, s': Summary)
    requires Inv(db)
    ensures SameEnd(Pass(db, rt, ids, w, s), Pass(db, rt, ids, w, s'))
    decreases |ids|
  {
    if ids != [] && At(db, rt, ids[0], w).Reconciled? {
      var r := At(db, rt, ids[0], w);
      ReconcileKeepsInv(db, rt, ids[0], w.fiber(ids[0]), w.clock(ids[0]), w.jti(ids[0]));
      SummaryIsPassive(r.db, rt, ids[1..], w, Tally(s, r.outcome), Tally(s', r.outcome));
    }
  }

  predicate Untouched(db: Db, db1: Db, j: nat) {
    && j < |db.intents| && j < |db1.intents| && db1.intents[j] == db.intents[j]
    && (HasReceipt(db1.receipts, j) <==> HasReceipt(db.receipts, j))
  }

  /** From `db` to `db1` the intents of `done` were reconciled: others are untouched, and those that are
      still open are quiet. */
  ghost predicate Progress(db: Db, db1: Db, done: seq<nat>, w: World) {
    && |db1.intents| == |db.intents|
    && (forall j | 0 <= j < |db.intents| && j !in done :: Untouched(db, db1, j))
    && (forall j | 0 <= j < |db.intents| && j in done && Reconcilable(db1, j) :: Quiet(db1.intents[j], j, w))
  }

  lemma FirstStep(db: Db, rt: Runtime, ids: seq<nat>, w: World)
    requires Inv(db) && ids != [] && OpenOnce(db, ids) && At(db, rt, ids[0], w).Reconciled?
    ensures var db1 := At(db, rt, ids[0], w).db;
            Inv(db1) && OpenOnce(db1, ids[1..]) && Progress(db, db1, [ids[0]], w)
  {
    ReconcileKeepsInv(db, rt, ids[0], w.fiber(ids[0]), w.clock(ids[0]), w.jti(ids[0]));
    ReconcileEffect(db, rt, ids[0], w);
    var db1 := At(db, rt, ids[0], w).db;
    forall k | 0 <= k < |ids[1..]|
      ensures ids[1..][k] < |db1.intents| && Reconcilable(db1, ids[1..][k])
    {
      assert ids[1..][k] == ids[k + 1] && ids[k + 1] != ids[0];
      assert Reconcilable(db, ids[k + 1]);
    }
  }

  lemma ProgressAfter(db: Db, db1: Db, db2: Db, i: nat, done: seq<nat>, w: World)
    requires Progress(db, db1, [i], w) && Progress(db1, db2, done, w)
    ensures Progress(db, db2, [i] + done, w)
  {
    forall j | 0 <= j < |db.intents| && j !in [i] + done
      ensures Untouched(db, db2, j)
    {
      assert Untouched(db, db1, j) && Untouched(db1, db2, j);
    }
    forall j | 0 <= j < |db.intents| && j in [i] + done && Reconcilable(db2, j)
      ensures Quiet(db2.intents[j], j, w)
    {
      if j !in done {
        assert Untouched(db1, db2, j);
        assert Reconcilable(db1, j);
      }
    }
  }

  // ----- where a failing pass stops -----

  /** How many candidates the pass reconciles before it stops. */
  function Reached(db: Db, rt: Runtime, ids: seq<nat>, w: World): nat
    requires Inv(db)
    decreases |ids|
  {
    if ids == [] || At(db, rt, ids[0], w).ReconcileFailed? then 0
    else
      ReconcileKeepsInv(db, rt, ids[0], w.fiber(ids[0]), w.clock(ids[0]), w.jti(ids[0]));
      1 + Reached(At(db, rt, ids[0], w).db, rt, ids[1..], w)
  }

  /** Reconciling from `db` stopped in `end` at candidate `k`, whose transaction fails there, with those in
      front of it done. */
  ghost predicate StopsAt(db: Db, rt: Runtime, ids: seq<nat>, w: World, end: Db, k: nat) {
    && k < |ids| && Inv(end) && Progress(db, end, ids[..k], w)
    && At(end, rt, ids[k], w).ReconcileFailed?
  }

  /** A pass that fails has fully reconciled the candidates before the failing one and touched no other. */
  lemma {:induction false} FailurePoint(db: Db, rt: Runtime, ids: seq<nat>, w: World, s: Summary)
    requires Inv(db) && OpenOnce(db, ids) && Pass(db, rt, ids, w, s).PassFailed?
    ensures StopsAt(db, rt, ids, w, Pass(db, rt, ids, w, s).db, Reached(db, rt, ids, w))
    decreases |ids|
  {
    var r := At(db, rt, ids[0], w);
    if r.ReconcileFailed? {
      assert ids[..0] == [];
    } else {
      FirstStep(db, rt, ids, w);
      FailurePoint(r.db, rt, ids[1..], w, Tally(s, r.outcome));
      StopsOneLater(db, rt, ids, w, r.db, Pass(db, rt, ids, w, s).db, Reached(r.db, rt, ids[1..], w));
    }
  }

  lemma StopsOneLater(db: Db, rt: Runtime, ids: seq<nat>, w: World, db1: Db, end: Db, k: nat)
    requires ids != [] && Progress(db, db1, [ids[0]], w)
    requires StopsAt(db1, rt, ids[1..], w, end, k)
    ensures StopsAt(db, rt, ids, w, end, k + 1)
  {
    assert ids[..k + 1] == [ids[0]] + ids[1..][..k] && ids[k + 1] == ids[1..][k];
    ProgressAfter(db, db1, end, ids[0], ids[1..][..k], w);
  }

  /** Both worlds answer alike for these intents. */
  predicate AgreeOn(ids: seq<nat>, w: World, w2: World) {
    forall i | i in ids :: w2.fiber(i) == w.fiber(i) && w2.clock(i) == w.clock(i) && w2.jti(i) == w.jti(i)
  }

  lemma AgreeOnFirst(ids: seq<nat>, k: nat, w: World, w2: World)
    requires 0 < k <= |ids| && AgreeOn(ids[..k], w, w2)
    ensures AgreeOn([ids[0]], w, w2) && AgreeOn(ids[1..][..k - 1], w, w2)
  {
    assert ids[0] in ids[..k];
    assert ids[..k] == [ids[0]] + ids[1..][..k - 1];
  }

  /** Agreeing on the `k` candidates reached, another world leads the pass to the same point. */
  lemma {:induction false} SameUpToThere(db: Db, rt: Runtime, ids: seq<nat>, w: World, w2: World, s: Summary,
                                         k: nat, end: Db) returns (s1: Summary)
    requires Inv(db) && Pass(db, rt, ids, w, s) == PassFailed(end)
    requires k == Reached(db, rt, ids, w) && k <= |ids| && AgreeOn(ids[..k], w, w2)
    ensures Inv(end) && Pass(db, rt, ids, w2, s) == Pass(end, rt, ids[k..], w2, s1)
    decreases |ids|
  {
    if k == 0 {
      StopsAtOnce(db, rt, ids, w, s);
      s1 := s;
      assert ids[0..] == ids;
    } else {
      var r := At(db, rt, ids[0], w);
      AgreeOnFirst(ids, k, w, w2);
      FirstStepAlike(db, rt, ids, w, w2, s);
      s1 := SameUpToThere(r.db, rt, ids[1..], w, w2, Tally(s, r.outcome), k - 1, end);
      assert ids[1..][k - 1..] == ids[k..];
    }
  }

  lemma StopsAtOnce(db: Db, rt: Runtime, ids: seq<nat>, w: World, s: Summary)
    requires Inv(db) && Reached(db, rt, ids, w) == 0
    ensures Pass(db, rt, ids, w, s).db == db
  {
  }

  lemma FirstStepAlike(db: Db, rt: Runtime, ids: seq<nat>, w: World, w2: World, s: Summary)
    requires Inv(db) && ids != [] && AgreeOn([ids[0]], w, w2) && At(db, rt, ids[0], w).Reconciled?
    ensures var r := At(db, rt, ids[0], w);
      && Inv(r.db)
      && Pass(db, rt, ids, w, s) == Pass(r.db, rt, ids[1..], w, Tally(s, r.outcome))
      && Pass(db, rt, ids, w2, s) == Pass(r.db, rt, ids[1..], w2, Tally(s, r.outcome))
      && Reached(db, rt, ids, w) == 1 + Reached(r.db, rt, ids[1..], w)
  {
    assert ids[0] in [ids[0]];
    ReconcileKeepsInv(db, rt, ids[0], w.fiber(ids[0]), w.clock(ids[0]), w.jti(ids[0]));
  }

  // ----- where the rerun's list stands -----

  /** The reconcilable intents from `p` up to `n`. */
  function ListBetween(db: Db, p: nat, n: nat): seq<nat>
    requires p <= n <= |db.intents|
    decreases n
  {
    if n == p then [] else ListBetween(db, p, n - 1) + if Reconcilable(db, n - 1) then [n - 1] else []
  }

  lemma {:induction false} ListSplits(db: Db, p: nat, n: nat)
    requires p <= n <= |db.intents|
    ensures ListUpTo(db, n) == ListUpTo(db, p) + ListBetween(db, p, n)
    decreases n
  {
    if n > p {
      ListSplits(db, p, n - 1);
    }
  }

  /** What precedes a candidate in the list is the list up to it. */
  lemma {:induction false} ListBefore(db: Db, n: nat, k: nat)
    requires n <= |db.intents| && k < |ListUpTo(db, n)|
    ensures ListUpTo(db, n)[k] < n && ListUpTo(db, ListUpTo(db, n)[k]) == ListUpTo(db, n)[..k]
  {
    var before := ListUpTo(db, n - 1);
    if k < |before| {
      ListBefore(db, n - 1, k);
      assert ListUpTo(db, n)[..k] == before[..k];
    } else {
      assert ListUpTo(db, n)[..k] == before;
    }
  }

  lemma {:induction false} SameBetween(db: Db, db1: Db, p: nat, n: nat)
    requires p <= n <= |db.intents| && |db1.intents| == |db.intents|
    requires forall j | p <= j < n :: Untouched(db, db1, j)
    ensures ListBetween(db1, p, n) == ListBetween(db, p, n)
    decreases n
  {
    if n > p {
      SameBetween(db, db1, p, n - 1);
      assert Untouched(db, db1, n - 1);
    }
  }

  predicate AllQuiet(db: Db, ids: seq<nat>, w: World) {
    forall k | 0 <= k < |ids| ::
      ids[k] < |db.intents| && Reconcilable(db, ids[k]) && Quiet(db.intents[ids[k]], ids[k], w)
  }

  /** Oldest first, each once. */
  predicate Increasing(ids: seq<nat>) {
    forall k, l | 0 <= k < l < |ids| :: ids[k] < ids[l]
  }

  predicate IsOpen(db: Db, i: nat) {
    i < |db.intents| && Reconcilable(db, i)
  }

  /** These are exactly the reached candidates that are still open, oldest first. */
  ghost predicate StillOpen(db1: Db, reached: seq<nat>, ids: seq<nat>) {
    Increasing(ids) && forall i: nat :: i in ids <==> i in reached && IsOpen(db1, i)
  }

  lemma {:induction false} ListIsIncreasing(db: Db, n: nat)
    requires n <= |db.intents|
    ensures Increasing(ListUpTo(db, n))
  {
    if n > 0 {
      ListIsIncreasing(db, n - 1);
      ListIsOpen(db, n - 1);
    }
  }

  /** After progress on the first `k` candidates, the new list is those of them that are still open, and
      then the rest of the old one. */
  lemma RerunList(db: Db, db1: Db, k: nat, w: World)
    requires k < |List(db)| && Progress(db, db1, List(db)[..k], w)
    ensures var p := List(db)[k];
      && p < |db1.intents| && StillOpen(db1, List(db)[..k], ListUpTo(db1, p))
      && List(db1) == ListUpTo(db1, p) + List(db)[k..]
  {
    var n := |db.intents|;
    var ids := List(db);
    var p := ids[k];
    ListBefore(db, n, k);
    ListSplits(db, p, n);
    assert ids[k..] == ListBetween(db, p, n);
    ListIsOpen(db, p);
    forall j | p <= j < n
      ensures Untouched(db, db1, j)
    {
      assert j !in ids[..k];
    }
    SameBetween(db, db1, p, n);
    ListSplits(db1, p, n);
    ListIsOpen(db1, p);
    ListIsIncreasing(db1, p);
    forall j: nat
      ensures j in ListUpTo(db1, p) <==> j in ids[..k] && IsOpen(db1, j)
    {
      if j in ListUpTo(db1, p) {
        assert j !in ids[..k] ==> Untouched(db, db1, j);
        assert Reconcilable(db, j) ==> j in ids[..k];
      }
    }
  }

  /** Quiet intents at the front of a pass change nothing. */
  lemma {:induction false} QuietPrefix(db: Db, rt: Runtime, quiet: seq<nat>, rest: seq<nat>, w: World, s: Summary)
    requires Inv(db) && AllQuiet(db, quiet, w)
    ensures SameEnd(Pass(db, rt, quiet + rest, w, s), Pass(db, rt, rest, w, s))
    decreases |quiet|
  {
    if quiet == [] {
      assert quiet + rest == rest;
    } else {
      assert (quiet + rest)[1..] == quiet[1..] + rest;
      QuietIsInert(db, rt, quiet[0], w);
      QuietPrefix(db, rt, quiet[1..], rest, w, Tally(s, OutPending));
      SummaryIsPassive(db, rt, rest, w, Tally(s, OutPending), s);
    }
  }

  // ----- rerunning -----

  /** The candidates a failing pass reconciled. */
  function ReachedList(db: Db, rt: Runtime, w: World): (ids: seq<nat>)
    requires Inv(db)
    ensures |ids| == Reached(db, rt, List(db), w) <= |List(db)| && ids == List(db)[..|ids|]
  {
    ReachedWithin(db, rt, List(db), w);
    List(db)[..Reached(db, rt, List(db), w)]
  }

  lemma {:induction false} ReachedWithin(db: Db, rt: Runtime, ids: seq<nat>, w: World)
    requires Inv(db)
    ensures Reached(db, rt, ids, w) <= |ids|
    decreases |ids|
  {
    if ids != [] && At(db, rt, ids[0], w).Reconciled? {
      ReconcileKeepsInv(db, rt, ids[0], w.fiber(ids[0]), w.clock(ids[0]), w.jti(ids[0]));
      ReachedWithin(At(db, rt, ids[0], w).db, rt, ids[1..], w);
    }
  }

  /** The intents that the failing pass never got to, the failing one first. */
  function RestList(db: Db, rt: Runtime, w: World): seq<nat>
    requires Inv(db)
  {
    List(db)[|ReachedList(db, rt, w)|..]
  }

  /** Whatever the world and the configuration have become, a rerun after a failure first revisits exactly the
      reached intents that are still open, oldest first and each once, and then goes on, in the old order, from
      the one that failed. */
  lemma RerunRevisits(db: Db, rt: Runtime, w: World, rt2: Runtime, w2: World) returns (again: seq<nat>)
    requires Inv(db) && ReconcileOpen(db, rt, w).PassFailed?
    ensures var db1 := ReconcileOpen(db, rt, w).db;
      && Inv(db1) && StillOpen(db1, ReachedList(db, rt, w), again)
      && Progress(db, db1, ReachedList(db, rt, w), w)
      && ReconcileOpen(db1, rt2, w2) == Pass(db1, rt2, again + RestList(db, rt, w), w2, ZERO_SUMMARY)
  {
    ListCovers(db, w);
    FailurePoint(db, rt, List(db), w, ZERO_SUMMARY);
    var db1 := ReconcileOpen(db, rt, w).db;
    var k := Reached(db, rt, List(db), w);
    assert StopsAt(db, rt, List(db), w, db1, k);
    RerunList(db, db1, k, w);
    again := ListUpTo(db1, List(db)[k]);
  }

  lemma StillOpenAreQuiet(db1: Db, reached: seq<nat>, again: seq<nat>, w2: World)
    requires StillOpen(db1, reached, again)
    requires forall i | i in reached && IsOpen(db1, i) :: Quiet(db1.intents[i], i, w2)
    ensures AllQuiet(db1, again, w2)
  {
    forall k | 0 <= k < |again|
      ensures IsOpen(db1, again[k]) && Quiet(db1.intents[again[k]], again[k], w2)
    {
      assert again[k] in again;
    }
  }

  /** If the reached intents that are still open are quiet in the new world, whatever its clock and answers,
      the rerun is exactly the rest of the pass from where it stopped. */
  lemma RerunPicksUp(db: Db, rt: Runtime, w: World, rt2: Runtime, w2: World)
    requires Inv(db) && ReconcileOpen(db, rt, w).PassFailed?
    requires var db1 := ReconcileOpen(db, rt, w).db;
             forall i | i in ReachedList(db, rt, w) && IsOpen(db1, i) :: Quiet(db1.intents[i], i, w2)
    ensures var db1 := ReconcileOpen(db, rt, w).db;
      && Inv(db1)
      && SameEnd(ReconcileOpen(db1, rt2, w2), Pass(db1, rt2, RestList(db, rt, w), w2, ZERO_SUMMARY))
  {
    var again := RerunRevisits(db, rt, w, rt2, w2);
    var db1 := ReconcileOpen(db, rt, w).db;
    StillOpenAreQuiet(db1, ReachedList(db, rt, w), again, w2);
    QuietPrefix(db1, rt2, again, RestList(db, rt, w), w2, ZERO_SUMMARY);
  }

  /** The old world for the candidates reached, the new one for all others. */
  function Blend(reached: seq<nat>, w: World, w2: World): World {
    World((i: nat) => if i in reached then w.fiber(i) else w2.fiber(i),
          (i: nat) => if i in reached then w.clock(i) else w2.clock(i),
          (i: nat) => if i in reached then w.jti(i) else w2.jti(i))
  }

  lemma {:induction false} PassAlike(db: Db, rt: Runtime, ids: seq<nat>, w: World, w2: World, s: Summary)
    requires Inv(db) && AgreeOn(ids, w, w2)
    ensures Pass(db, rt, ids, w2, s) == Pass(db, rt, ids, w, s)
    decreases |ids|
  {
    if ids != [] {
      assert ids[0] in ids;
      if At(db, rt, ids[0], w).Reconciled? {
        var r := At(db, rt, ids[0], w);
        ReconcileKeepsInv(db, rt, ids[0], w.fiber(ids[0]), w.clock(ids[0]), w.jti(ids[0]));
        PassAlike(r.db, rt, ids[1..], w, w2, Tally(s, r.outcome));
      }
    }
  }

  lemma BlendOnRest(db: Db, rt: Runtime, w: World, w2: World)
    requires Inv(db)
    ensures AgreeOn(RestList(db, rt, w), w2, Blend(ReachedList(db, rt, w), w, w2))
    ensures AgreeOn(ReachedList(db, rt, w), w, Blend(ReachedList(db, rt, w), w, w2))
  {
    ListIsIncreasing(db, |db.intents|);
    var ids, k := List(db), |ReachedList(db, rt, w)|;
    forall i | i in ids[k..]
      ensures i !in ids[..k]
    {
      var l :| 0 <= l < |ids[k..]| && ids[k..][l] == i;
      assert ids[k + l] == i;
    }
  }

  /** A failed pass may be rerun. If the reached intents that are still open are quiet in the new world, the
      rerun ends exactly as one pass from the start would have, in which the candidates reached met the old
      world and all others met the new one, wherever the first pass stopped. Nothing is done twice and nothing
      is lost. */
  lemma InterruptedPassResumes(db: Db, rt: Runtime, w: World, w2: World)
    requires Inv(db) && ReconcileOpen(db, rt, w).PassFailed?
    requires var db1 := ReconcileOpen(db, rt, w).db;
             forall i | i in ReachedList(db, rt, w) && IsOpen(db1, i) :: Quiet(db1.intents[i], i, w2)
    ensures var db1 := ReconcileOpen(db, rt, w).db;
      && Inv(db1)
      && SameEnd(ReconcileOpen(db1, rt, w2), ReconcileOpen(db, rt, Blend(ReachedList(db, rt, w), w, w2)))
  {
    var db1 := ReconcileOpen(db, rt, w).db;
    RerunPicksUp(db, rt, w, rt, w2);
    var blend := Blend(ReachedList(db, rt, w), w, w2);
    BlendOnRest(db, rt, w, w2);
    FreshPassPicksUp(db, rt, w, blend, db1);
    PassAlike(db1, rt, RestList(db, rt, w), w2, blend, ZERO_SUMMARY);
  }

  lemma QuietAlike(db1: Db, ids: seq<nat>, w: World, w2: World)
    requires AgreeOn(ids, w, w2)
    requires forall i | i in ids && IsOpen(db1, i) :: Quiet(db1.intents[i], i, w)
    ensures forall i | i in ids && IsOpen(db1, i) :: Quiet(db1.intents[i], i, w2)
  {
  }

  /** In particular, a new world that agrees with the old one on the candidates reached, and does as it likes
      on all others, need not be blended. */
  lemma AgreeingWorldResumes(db: Db, rt: Runtime, w: World, w2: World)
    requires Inv(db) && ReconcileOpen(db, rt, w).PassFailed?
    requires AgreeOn(ReachedList(db, rt, w), w, w2)
    ensures var db1 := ReconcileOpen(db, rt, w).db;
            Inv(db1) && SameEnd(ReconcileOpen(db1, rt, w2), ReconcileOpen(db, rt, w2))
  {
    var db1 := ReconcileOpen(db, rt, w).db;
    var again := RerunRevisits(db, rt, w, rt, w2);
    QuietAlike(db1, ReachedList(db, rt, w), w, w2);
    RerunPicksUp(db, rt, w, rt, w2);
    FreshPassPicksUp(db, rt, w, w2, db1);
  }

  lemma FreshPassPicksUp(db: Db, rt: Runtime, w: World, w2: World, db1: Db)
    requires Inv(db) && Inv(db1) && ReconcileOpen(db, rt, w) == PassFailed(db1)
    requires AgreeOn(ReachedList(db, rt, w), w, w2)
    ensures SameEnd(ReconcileOpen(db, rt, w2), Pass(db1, rt, RestList(db, rt, w), w2, ZERO_SUMMARY))
  {
    var s1 := SameUpToThere(db, rt, List(db), w, w2, ZERO_SUMMARY, |ReachedList(db, rt, w)|, db1);
    SummaryIsPassive(db1, rt, RestList(db, rt, w), w2, ZERO_SUMMARY, s1);
  }

  // ----- what no rerun can undo -----

  lemma {:induction false} PassKeepsOthers(db: Db, rt: Runtime, ids: seq<nat>, w: World, s: Summary)
    requires Inv(db) && OpenOnce(db, ids)
    ensures var end := Pass(db, rt, ids, w, s).db;
      && Inv(end) && |end.intents| == |db.intents| && db.receipts <= end.receipts
      && (forall j | 0 <= j < |db.intents| && j !in ids :: Untouched(db, end, j))
    decreases |ids|
  {
    if ids != [] && At(db, rt, ids[0], w).Reconciled? {
      var r := At(db, rt, ids[0], w);
      FirstStep(db, rt, ids, w);
      ReconcileKeepsInv(db, rt, ids[0], w.fiber(ids[0]), w.clock(ids[0]), w.jti(ids[0]));
      PassKeepsOthers(r.db, rt, ids[1..], w, Tally(s, r.outcome));
      var end := Pass(db, rt, ids, w, s).db;
      forall j | 0 <= j < |db.intents| && j !in ids
        ensures Untouched(db, end, j)
      {
        assert Untouched(db, r.db, j) && Untouched(r.db, end, j);
      }
    }
  }

  /** Whatever the world and the configuration have become, no pass, rerun or not, complete or not, touches an
      intent that was closed before it, or any receipt; and a complete one leaves every open intent quiet. */
  lemma ClosedStaysClosed(db: Db, rt: Runtime, w: World)
    requires Inv(db)
    ensures var done := ReconcileOpen(db, rt, w);
      && Inv(done.db) && |done.db.intents| == |db.intents| && db.receipts <= done.db.receipts
      && (forall j | 0 <= j < |db.intents| && !Reconcilable(db, j) :: Untouched(db, done.db, j))
      && (done.PassDone? ==> Covered(done.db, [], w))
  {
    ListCovers(db, w);
    PassKeepsOthers(db, rt, List(db), w, ZERO_SUMMARY);
    if ReconcileOpen(db, rt, w).PassDone? {
      PassQuiets(db, rt, List(db), w, ZERO_SUMMARY);
    }
    forall j | 0 <= j < |db.intents| && !Reconcilable(db, j)
      ensures Untouched(db, ReconcileOpen(db, rt, w).db, j)
    {
      assert j !in List(db);
    }
  }
}
