/**
 How fast recovery empties the pending list (`api/events/redis.go`) while everyone else goes on publishing, trimming,
 subscribing and unsubscribing between any two of its steps. Only new reads, crashes, lost replies and the work of
 other consumers are left out.
 */
module EventStreamMeasure {
  import opened EventStream
  import opened EventStreamRecovery

  predicate OfEnvironment(a: Action) {
    a.Publish? || a.Tick? || a.Subscribe? || a.Unsubscribe?
  }

  /** A step of the recovery loop of consumer `c` that gets its reply. */
  predicate OfRecovery(a: Action, c: nat) {
    var w := WorkerId(c, true);
    || a == Scan(c)
    || a == Claim(c, false)
    || a == Begin(w)
    || (a.Call? && a.worker == w)
    || a == Ack(w, false)
  }

  predicate Undisturbed(acts: seq<Action>, c: nat) {
    forall k :: 0 <= k < |acts| ==> OfEnvironment(acts[k]) || OfRecovery(acts[k], c)
  }

  /** Each round of `Recover` starts with one scan. */
  function RoundsBegun(acts: seq<Action>): nat {
    if acts == [] then 0 else RoundsBegun(acts[..|acts| - 1]) + if acts[|acts| - 1].Scan? then 1 else 0
  }

  function Left(n: nat, r: nat): nat {
    if n <= PAGE * r then 0 else n - PAGE * r
  }

  /** The entries the worker has found stuck, or has claimed and not acknowledged yet. */
  function Busy(t: State, w: WorkerId): set<nat> {
    if w !in t.phases then {}
    else match t.phases[w]
      case Idle => {}
      case Scanned(ids) => IdSet(ids)
      case Handling(batch, _) => IdSet(batch)
      case Calling(batch, _, _, _) => IdSet(batch)
  }

  predicate HasClaimed(t: State, w: WorkerId) {
    w in t.phases && (t.phases[w].Handling? || t.phases[w].Calling?)
  }

  /** Everything pending is stuck, but for what the worker has claimed. */
  ghost predicate RestStuck(t: State, w: WorkerId) {
    forall id :: id in t.pending ==>
      && id < |t.messages|
      && (t.now - t.pending[id].deliveredAt > THRESHOLD || (HasClaimed(t, w) && id in Busy(t, w)))
  }

  ghost predicate PhaseOk(t: State, w: WorkerId) {
    w in t.phases &&
    match t.phases[w]
    case Idle => true
    case Scanned(_) => true
    case Handling(batch, pos) => pos <= |batch|
    case Calling(batch, pos, hs, n) => pos < |batch| && n < |hs|
  }

  /** After `r` rounds begun with `n` pending entries, all but the worker's own are `Left(n, r)`. */
  ghost predicate Measured(t: State, w: WorkerId, n: nat, r: nat) {
    && PhaseOk(t, w) && RestStuck(t, w)
    && Busy(t, w) <= t.pending.Keys
    && |t.pending.Keys - Busy(t, w)| == Left(n, r)
  }

  // ---- One step ----

  /** `u` differs from `t` in nothing that the measure depends on. */
  ghost predicate SameWork(t: State, u: State, w: WorkerId) {
    && u.pending == t.pending && |t.messages| <= |u.messages| && t.now <= u.now
    && PhaseOk(u, w) && HasClaimed(u, w) == HasClaimed(t, w) && Busy(u, w) == Busy(t, w)
  }

  lemma SameMeasure(t: State, u: State, w: WorkerId, n: nat, r: nat)
    requires Measured(t, w, n, r) && SameWork(t, u, w)
    ensures Measured(u, w, n, r)
  {
    hide PhaseOk, Busy, HasClaimed;
    assert RestStuck(u, w);
  }

  lemma EnvironmentFrame(t: State, a: Action)
    requires Enabled(t, a) && OfEnvironment(a)
    ensures var u := Apply(t, a);
      u.pending == t.pending && u.phases == t.phases && |t.messages| <= |u.messages| && t.now <= u.now
  {
  }

  lemma EnvironmentStep(t: State, a: Action, w: WorkerId, n: nat, r: nat)
    requires Measured(t, w, n, r) && Enabled(t, a) && OfEnvironment(a)
    ensures Measured(Apply(t, a), w, n, r)
  {
    EnvironmentFrame(t, a);
    hide Apply, Enabled, RestStuck;
    SameMeasure(t, Apply(t, a), w, n, r);
  }

  /** What a scan finds when everything is stuck. */
  lemma ScanFinds(t: State)
    requires AllStuck(t)
    ensures var ids := RecoverySet(t);
      && IdSet(ids) <= t.pending.Keys
      && |IdSet(ids)| == (if |t.pending| < PAGE then |t.pending| else PAGE)
      && |t.pending.Keys - IdSet(ids)| == Left(|t.pending|, 1)
  {
    var page := Oldest(t.pending, 0, |t.messages|, PAGE);
    OldestIs(t.pending, 0, |t.messages|, PAGE);
    StuckAll(page, t);
    OldestCount(t.pending, 0, |t.messages|, PAGE);
    assert Window(t.pending, 0, |t.messages|) == t.pending.Keys;
    assert IdSet(page) <= t.pending.Keys;
    assert |t.pending.Keys - IdSet(page)| == |t.pending.Keys| - |IdSet(page)|;
  }

  /** The state a scan leaves. */
  lemma ScanFrame(t: State, c: nat)
    requires Enabled(t, Scan(c))
    ensures var w, ids := WorkerId(c, true), RecoverySet(t);
      Apply(t, Scan(c)) == t.(phases := t.phases[w := if ids == [] then Idle else Scanned(ids)])
  {
  }

  lemma ScanStep(t: State, c: nat, n: nat, r: nat)
    requires Measured(t, WorkerId(c, true), n, r) && Enabled(t, Scan(c))
    ensures Measured(Apply(t, Scan(c)), WorkerId(c, true), n, r + 1)
  {
    var w, ids := WorkerId(c, true), RecoverySet(t);
    ScanFrame(t, c);
    ScanFinds(t);
    hide Apply, Enabled, RecoverySet;
    var u := Apply(t, Scan(c));
    assert t.pending.Keys - {} == t.pending.Keys;
    if ids == [] {
      assert IdSet(ids) == {};
    }
    assert Busy(u, w) == IdSet(ids);
    assert Left(Left(n, r), 1) == Left(n, r + 1);
  }

  /** What a claim of `ids` leaves pending. */
  lemma ClaimKeys(t: State, w: WorkerId, ids: seq<nat>)
    requires w in t.phases && t.phases[w] == Scanned(ids) && IdSet(ids) <= t.pending.Keys
    ensures var u := ApplyClaim(t, w, false);
      && Busy(u, w) == (set id | id in ids && t.first <= id)
      && u.pending.Keys == t.pending.Keys - (set id | id in ids && id < t.first)
      && (forall id :: id in u.pending && id !in Busy(u, w) ==> u.pending[id] == t.pending[id])
  {
    ClaimableIs(ids, t);
    assert forall id :: id in ids ==> id in IdSet(ids);
  }

  lemma ClaimStep(t: State, c: nat, n: nat, r: nat)
    requires Measured(t, WorkerId(c, true), n, r) && Enabled(t, Claim(c, false))
    ensures Measured(Apply(t, Claim(c, false)), WorkerId(c, true), n, r)
  {
    var w := WorkerId(c, true);
    var u := Apply(t, Claim(c, false));
    var ids := t.phases[w].ids;
    ClaimKeys(t, w, ids);
    assert u.pending.Keys - Busy(u, w) == t.pending.Keys - Busy(t, w);
  }

  lemma AckStep(t: State, w: WorkerId, n: nat, r: nat)
    requires Measured(t, w, n, r) && Enabled(t, Ack(w, false))
    ensures Measured(Apply(t, Ack(w, false)), w, n, r)
  {
    var u := Apply(t, Ack(w, false));
    assert u.pending.Keys - Busy(u, w) == t.pending.Keys - Busy(t, w);
  }

  lemma CallingFrame(t: State, a: Action, w: WorkerId)
    requires PhaseOk(t, w) && Enabled(t, a) && (a == Begin(w) || (a.Call? && a.worker == w))
    ensures SameWork(t, Apply(t, a), w) && HasClaimed(t, w)
  {
  }

  lemma CallingStep(t: State, a: Action, w: WorkerId, n: nat, r: nat)
    requires Measured(t, w, n, r) && Enabled(t, a) && (a == Begin(w) || (a.Call? && a.worker == w))
    ensures Measured(Apply(t, a), w, n, r)
  {
    CallingFrame(t, a, w);
    hide Apply, Enabled, SameWork;
    SameMeasure(t, Apply(t, a), w, n, r);
  }

  lemma MeasuredStep(t: State, a: Action, c: nat, n: nat, r: nat)
    requires Measured(t, WorkerId(c, true), n, r) && Enabled(t, a) && (OfEnvironment(a) || OfRecovery(a, c))
    ensures Measured(Apply(t, a), WorkerId(c, true), n, if a.Scan? then r + 1 else r)
  {
    var w := WorkerId(c, true);
    if OfEnvironment(a) {
      EnvironmentStep(t, a, w, n, r);
    } else if a.Scan? {
      ScanStep(t, c, n, r);
    } else if a.Claim? {
      ClaimStep(t, c, n, r);
    } else if a.Ack? {
      AckStep(t, w, n, r);
    } else {
      CallingStep(t, a, w, n, r);
    }
  }

  /** The worker can always take its next step. */
  lemma CanStep(t: State, c: nat, n: nat, r: nat)
    requires Measured(t, WorkerId(c, true), n, r)
    ensures exists a :: OfRecovery(a, c) && Enabled(t, a)
  {
    var w := WorkerId(c, true);
    match t.phases[w]
    case Idle => assert Enabled(t, Scan(c));
    case Scanned(_) => assert Enabled(t, Claim(c, false));
    case Handling(batch, pos) =>
      if pos < |batch| {
        assert batch[pos] in IdSet(batch);
        assert Enabled(t, Begin(w));
      } else {
        assert Enabled(t, Ack(w, false));
      }
    case Calling(_, _, _, _) => assert Enabled(t, Call(w, false));
  }

  // ---- What becomes of an entry ----

  /** Step `k` claims entry `id`, found stuck before. */
  ghost predicate ClaimedAt(s: State, acts: seq<Action>, k: nat, c: nat, id: nat) {
    && k < |acts| && acts[k] == Claim(c, false)
    && var u, w := Run(s, acts[..k]), WorkerId(c, true);
       w in u.phases && u.phases[w].Scanned? && id in u.phases[w].ids
  }

  /** The entry left the pending list because step `k` claimed it: dropped if trimmed by then, else acknowledged
      later. */
  ghost predicate SettledAt(s: State, acts: seq<Action>, k: nat, c: nat, id: nat) {
    && ClaimedAt(s, acts, k, c, id)
    && if id < Run(s, acts[..k]).first then id in Run(s, acts).dropped else id in Run(s, acts).acked
  }

  /** The entry is pending because step `k` claimed it, untrimmed, and its batch is not acknowledged yet. */
  ghost predicate InWorkAt(s: State, acts: seq<Action>, k: nat, c: nat, id: nat) {
    && ClaimedAt(s, acts, k, c, id) && Run(s, acts[..k]).first <= id
    && HasClaimed(Run(s, acts), WorkerId(c, true)) && id in Busy(Run(s, acts), WorkerId(c, true))
  }

  ghost predicate Traced(s: State, acts: seq<Action>, c: nat, id: nat) {
    var t := Run(s, acts);
    if id !in t.pending then exists k :: SettledAt(s, acts, k, c, id)
    else HasClaimed(t, WorkerId(c, true)) && id in Busy(t, WorkerId(c, true)) ==>
      exists k :: InWorkAt(s, acts, k, c, id)
  }

  lemma ClaimedEarlier(s: State, acts: seq<Action>, a: Action, k: nat, c: nat, id: nat)
    requires k < |acts|
    ensures ClaimedAt(s, acts + [a], k, c, id) <==> ClaimedAt(s, acts, k, c, id)
    ensures Run(s, (acts + [a])[..k]) == Run(s, acts[..k])
  {
    assert (acts + [a])[..k] == acts[..k];
  }

  /** A step keeps what was acknowledged or dropped. */
  lemma SettledStays(t: State, a: Action)
    requires Enabled(t, a)
    ensures t.acked <= Apply(t, a).acked && t.dropped <= Apply(t, a).dropped
  {
  }

  lemma RunSnoc(s: State, acts: seq<Action>, a: Action)
    requires Enabled(Run(s, acts), a)
    ensures Run(s, acts + [a]) == Apply(Run(s, acts), a)
  {
    assert (acts + [a])[..|acts|] == acts;
  }

  lemma GoneStep(s: State, acts: seq<Action>, t: State, a: Action, c: nat, id: nat, n: nat, r: nat)
    requires t == Run(s, acts) && Measured(t, WorkerId(c, true), n, r) && Enabled(t, a)
    requires OfEnvironment(a) || OfRecovery(a, c)
    requires id !in t.pending && Traced(s, acts, c, id)
    ensures Traced(s, acts + [a], c, id)
  {
    var k :| SettledAt(s, acts, k, c, id);
    RunSnoc(s, acts, a);
    SettledStays(t, a);
    ClaimedEarlier(s, acts, a, k, c, id);
    NeverPendingAgain(t, a, c, id, n, r);
    hide Run, Apply, ClaimedAt;
    assert SettledAt(s, acts + [a], k, c, id);
  }

  lemma BusyStep(t: State, a: Action, c: nat, id: nat, n: nat, r: nat)
    requires Measured(t, WorkerId(c, true), n, r) && Enabled(t, a) && (OfEnvironment(a) || OfRecovery(a, c))
    requires HasClaimed(t, WorkerId(c, true)) && id in Busy(t, WorkerId(c, true))
    ensures var w, u := WorkerId(c, true), Apply(t, a);
      if a.Ack? then id in u.acked && id !in u.pending else HasClaimed(u, w) && id in Busy(u, w) && id in u.pending
  {
    if OfEnvironment(a) {
      EnvironmentFrame(t, a);
      hide Apply;
    } else if !a.Ack? {
      CallingFrame(t, a, WorkerId(c, true));
      hide Apply;
    }
  }

  lemma WorkStep(s: State, acts: seq<Action>, a: Action, c: nat, id: nat, n: nat, r: nat)
    requires var t := Run(s, acts); Measured(t, WorkerId(c, true), n, r) && Enabled(t, a) && Traced(s, acts, c, id)
    requires var t := Run(s, acts);
      id in t.pending && HasClaimed(t, WorkerId(c, true)) && id in Busy(t, WorkerId(c, true))
    requires OfEnvironment(a) || OfRecovery(a, c)
    ensures Traced(s, acts + [a], c, id)
  {
    var t := Run(s, acts);
    var k :| InWorkAt(s, acts, k, c, id);
    RunSnoc(s, acts, a);
    ClaimedEarlier(s, acts, a, k, c, id);
    BusyStep(t, a, c, id, n, r);
    hide Run, Apply, ClaimedAt;
    if a.Ack? {
      assert SettledAt(s, acts + [a], k, c, id);
    } else {
      assert InWorkAt(s, acts + [a], k, c, id);
    }
  }

  lemma ClaimOne(t: State, c: nat, id: nat, n: nat, r: nat)
    requires Measured(t, WorkerId(c, true), n, r) && Enabled(t, Claim(c, false))
    requires id in t.phases[WorkerId(c, true)].ids && id in t.pending
    ensures var w, u := WorkerId(c, true), Apply(t, Claim(c, false));
      if id < t.first then id in u.dropped && id !in u.pending
      else HasClaimed(u, w) && id in Busy(u, w) && id in u.pending
  {
    ClaimableIs(t.phases[WorkerId(c, true)].ids, t);
  }

  lemma ClaimedStep(s: State, acts: seq<Action>, c: nat, id: nat, n: nat, r: nat)
    requires var t := Run(s, acts); Measured(t, WorkerId(c, true), n, r) && Enabled(t, Claim(c, false))
    requires var t := Run(s, acts); id in t.pending && id in t.phases[WorkerId(c, true)].ids
    ensures Traced(s, acts + [Claim(c, false)], c, id)
  {
    var a, t := Claim(c, false), Run(s, acts);
    RunSnoc(s, acts, a);
    ClaimOne(t, c, id, n, r);
    assert (acts + [a])[..|acts|] == acts;
    assert ClaimedAt(s, acts + [a], |acts|, c, id);
    hide Run, Apply, ClaimedAt;
    if id < t.first {
      assert SettledAt(s, acts + [a], |acts|, c, id);
    } else {
      assert InWorkAt(s, acts + [a], |acts|, c, id);
    }
  }

  lemma TracedStep(s: State, acts: seq<Action>, t: State, a: Action, c: nat, id: nat, n: nat, r: nat)
    requires t == Run(s, acts) && Measured(t, WorkerId(c, true), n, r) && Enabled(t, a)
    requires OfEnvironment(a) || OfRecovery(a, c)
    requires Traced(s, acts, c, id)
    ensures Traced(s, acts + [a], c, id)
  {
    var w := WorkerId(c, true);
    if id !in t.pending {
      GoneStep(s, acts, t, a, c, id, n, r);
    } else if HasClaimed(t, w) && id in Busy(t, w) {
      WorkStep(s, acts, a, c, id, n, r);
    } else if a.Claim? && id in Busy(t, w) {
      ClaimedStep(s, acts, c, id, n, r);
    } else {
      Untouched(t, a, c, id);
      RunSnoc(s, acts, a);
    }
  }

  lemma NeverPendingAgain(t: State, a: Action, c: nat, id: nat, n: nat, r: nat)
    requires Measured(t, WorkerId(c, true), n, r) && Enabled(t, a) && (OfEnvironment(a) || OfRecovery(a, c))
    requires id !in t.pending
    ensures id !in Apply(t, a).pending
  {
    if a.Claim? {
      ClaimableIs(t.phases[WorkerId(c, true)].ids, t);
    }
  }

  /** An entry that the worker is not busy with stays pending and out of its hands, unless it is being claimed. */
  lemma Untouched(t: State, a: Action, c: nat, id: nat)
    requires Enabled(t, a) && (OfEnvironment(a) || OfRecovery(a, c)) && id in t.pending
    requires !(HasClaimed(t, WorkerId(c, true)) && id in Busy(t, WorkerId(c, true)))
    requires !(a.Claim? && id in Busy(t, WorkerId(c, true)))
    ensures id in Apply(t, a).pending
    ensures !(HasClaimed(Apply(t, a), WorkerId(c, true)) && id in Busy(Apply(t, a), WorkerId(c, true)))
  {
    var w := WorkerId(c, true);
    if a.Claim? {
      ClaimableIs(t.phases[w].ids, t);
    } else if OfEnvironment(a) {
      assert Apply(t, a).pending == t.pending && Apply(t, a).phases == t.phases;
    } else if a.Begin? || a.Call? {
      assert Busy(Apply(t, a), w) == Busy(t, w);
    }
  }

  // ---- Runs ----

  /** The recovery loop is between two rounds. */
  predicate Resting(s: State, c: nat) {
    WorkerId(c, true) in s.phases && s.phases[WorkerId(c, true)].Idle?
  }

  ghost predicate Ready(s: State, c: nat) {
    AllStuck(s) && Resting(s, c)
  }

  ghost predicate RunOk(s: State, acts: seq<Action>, c: nat) {
    && Measured(Run(s, acts), WorkerId(c, true), |s.pending|, RoundsBegun(acts))
    && (forall id: nat :: id in s.pending ==> Traced(s, acts, c, id))
    && Run(s, acts).pending.Keys <= s.pending.Keys
  }

  lemma RoundsSnoc(acts: seq<Action>, a: Action)
    ensures RoundsBegun(acts + [a]) == RoundsBegun(acts) + if a.Scan? then 1 else 0
  {
    assert (acts + [a])[..|acts|] == acts;
  }

  lemma RunOkStep(s: State, acts: seq<Action>, a: Action, c: nat)
    requires RunOk(s, acts, c) && Enabled(Run(s, acts), a) && (OfEnvironment(a) || OfRecovery(a, c))
    ensures RunOk(s, acts + [a], c)
  {
    var t, n, r := Run(s, acts), |s.pending|, RoundsBegun(acts);
    RunSnoc(s, acts, a);
    RoundsSnoc(acts, a);
    MeasuredStep(t, a, c, n, r);
    forall id: nat | id in s.pending ensures Traced(s, acts + [a], c, id) {
      TracedStep(s, acts, t, a, c, id, n, r);
    }
    hide Measured, Traced, Run, Apply, OfRecovery;
    forall id | id in Apply(t, a).pending ensures id in s.pending {
      if id !in t.pending {
        NeverPendingAgain(t, a, c, id, n, r);
      }
    }
  }

  lemma {:induction false} RunMeasured(s: State, acts: seq<Action>, c: nat)
    requires Ready(s, c) && Legal(s, acts) && Undisturbed(acts, c)
    ensures RunOk(s, acts, c)
  {
    if acts == [] {
      assert s.pending.Keys - {} == s.pending.Keys;
    } else {
      var front, a := acts[..|acts| - 1], acts[|acts| - 1];
      assert acts == front + [a];
      assert Undisturbed(front, c) by { assert forall k :: 0 <= k < |front| ==> front[k] == acts[k]; }
      hide RunOk;
      RunMeasured(s, front, c);
      RunOkStep(s, front, a, c);
    }
  }

  /** In every such run, whatever the others do, the recovery loop always has a next step. */
  lemma NeverStops(s: State, acts: seq<Action>, c: nat)
    requires Ready(s, c) && Legal(s, acts) && Undisturbed(acts, c)
    ensures exists a :: OfRecovery(a, c) && Enabled(Run(s, acts), a)
  {
    hide Measured, Enabled, OfRecovery;
    RunMeasured(s, acts, c);
    CanStep(Run(s, acts), c, |s.pending|, RoundsBegun(acts));
  }

  /** With `n` pending entries that are all stuck, after `r` completed rounds of one recovery loop, whatever is
      published, trimmed, subscribed and unsubscribed between any of its steps, `max(0, n - 200 * r)` are left. Each
      one gone was claimed in some step: dropped if it had been trimmed by then, and acknowledged if not. */
  lemma RecoveryMeasure(s: State, acts: seq<Action>, c: nat)
    requires Ready(s, c) && Legal(s, acts) && Undisturbed(acts, c) && Resting(Run(s, acts), c)
    ensures var t := Run(s, acts);
      && |t.pending| == Left(|s.pending|, RoundsBegun(acts))
      && (t.pending == map[] <==> RoundsBegun(acts) >= Rounds(|s.pending|))
      && t.pending.Keys <= s.pending.Keys
      && forall id: nat :: id in s.pending && id !in t.pending ==> exists k :: SettledAt(s, acts, k, c, id)
  {
    RunMeasured(s, acts, c);
    var t := Run(s, acts);
    assert t.pending.Keys - {} == t.pending.Keys;
    forall id: nat | id in s.pending && id !in t.pending ensures exists k :: SettledAt(s, acts, k, c, id) {
      assert Traced(s, acts, c, id);
    }
    assert |t.pending| == 0 <==> t.pending == map[];
  }
}
