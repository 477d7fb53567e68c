/**
 The loops of `handleMessages`, `Recover` and `RecoverInterval` (`api/events/redis.go`) as runs of the
 protocol, and how fast they empty the pending list when nothing else happens.
 */
module EventStreamRecovery {
  import opened EventStream

  /** `t` is reached from `origin` by the steps `acts`. */
  ghost predicate Reached(origin: State, acts: seq<Action>, t: State) {
    Legal(origin, acts) && t == Run(origin, acts)
  }

  lemma ReachedStep(origin: State, acts: seq<Action>, t: State, a: Action)
    requires Reached(origin, acts, t) && Enabled(t, a)
    ensures Reached(origin, acts + [a], Apply(t, a))
  {
  }

  /** The calls of the first `n` handlers. */
  function CallRecords(w: WorkerId, id: nat, hs: seq<nat>, n: nat, panics: (nat, nat) -> bool): seq<Record>
    requires n <= |hs|
  {
    if n == 0 then [] else CallRecords(w, id, hs, n - 1, panics) + [Called(w, id, hs[n - 1], panics(id, hs[n - 1]))]
  }

  /** What handling one entry leaves in the log. */
  function HandlingRecords(s: State, w: WorkerId, id: nat, panics: (nat, nat) -> bool): seq<Record>
    requires id < |s.messages|
  {
    match s.messages[id]
    case Malformed => [Rejected(w, id)]
    case Event(t) =>
      var hs := Handlers(s.tables, w.consumer, t);
      [Took(w, id, hs)] + CallRecords(w, id, hs, |hs|, panics)
  }

  /** What handling the first `n` entries of a batch leaves in the log. */
  function HandlingLog(s: State, w: WorkerId, ids: seq<nat>, n: nat, panics: (nat, nat) -> bool): seq<Record>
    requires n <= |ids| && forall k :: 0 <= k < |ids| ==> ids[k] < |s.messages|
  {
    if n == 0 then [] else HandlingLog(s, w, ids, n - 1, panics) + HandlingRecords(s, w, ids[n - 1], panics)
  }

  lemma HandlingLogStep(s: State, w: WorkerId, ids: seq<nat>, n: nat, panics: (nat, nat) -> bool)
    requires n < |ids| && Published(s, ids)
    ensures HandlingLog(s, w, ids, n + 1, panics) ==
      HandlingLog(s, w, ids, n, panics) + HandlingRecords(s, w, ids[n], panics)
  {
  }

  function IdSet(ids: seq<nat>): set<nat> {
    set id | id in ids
  }

  /** `s` with worker `w` in `phase` and `records` added to the log. */
  function At(s: State, w: WorkerId, phase: Phase, records: seq<Record>): State {
    s.(phases := s.phases[w := phase], log := s.log + records)
  }

  lemma AtNow(s: State, w: WorkerId)
    requires w in s.phases
    ensures At(s, w, s.phases[w], []) == s
  {
    assert s.phases[w := s.phases[w]] == s.phases;
  }

  lemma AtAt(s: State, w: WorkerId, p: Phase, rs: seq<Record>, p': Phase, rs': seq<Record>)
    ensures At(At(s, w, p, rs), w, p', rs') == At(s, w, p', rs + rs')
  {
  }

  function PhaseAt(batch: seq<nat>, pos: nat, hs: seq<nat>, n: nat): Phase {
    if n < |hs| then Calling(batch, pos, hs, n) else Handling(batch, pos + 1)
  }

  lemma CallStep(s: State, w: WorkerId, batch: seq<nat>, pos: nat, hs: seq<nat>, n: nat, panics: (nat, nat) -> bool)
    requires pos < |batch| && n < |hs|
    ensures var t := At(s, w, PhaseAt(batch, pos, hs, n), CallRecords(w, batch[pos], hs, n, panics));
      var a := Call(w, panics(batch[pos], hs[n]));
      Enabled(t, a) && Apply(t, a) ==
        At(s, w, PhaseAt(batch, pos, hs, n + 1), CallRecords(w, batch[pos], hs, n + 1, panics))
  {
  }

  /** The inner loop: every handler of the snapshot in turn, whether or not it panics. */
  method CallAll(s: State, ghost acts: seq<Action>, w: WorkerId, panics: (nat, nat) -> bool, ghost origin: State)
    returns (t: State, ghost acts': seq<Action>)
    requires Reached(origin, acts, s)
    requires w in s.phases && s.phases[w].Calling? && s.phases[w].called == 0
    requires s.phases[w].pos < |s.phases[w].batch| && s.phases[w].snapshot != []
    ensures Reached(origin, acts', t)
    ensures var Calling(batch, pos, hs, _) := s.phases[w];
      t == At(s, w, Handling(batch, pos + 1), CallRecords(w, batch[pos], hs, |hs|, panics))
  {
    hide Reached, At;
    var Calling(batch, pos, hs, _) := s.phases[w];
    t, acts' := s, acts;
    AtNow(s, w);
    for n := 0 to |hs|
      invariant Reached(origin, acts', t)
      invariant t == At(s, w, PhaseAt(batch, pos, hs, n), CallRecords(w, batch[pos], hs, n, panics))
    {
      var a := Call(w, panics(batch[pos], hs[n]));
      CallStep(s, w, batch, pos, hs, n, panics);
      ReachedStep(origin, acts', t, a);
      t, acts' := Apply(t, a), acts' + [a];
    }
  }

  /** One message: the snapshot, then the calls. */
  method HandleOne(s: State, ghost acts: seq<Action>, w: WorkerId, panics: (nat, nat) -> bool, ghost origin: State)
    returns (t: State, ghost acts': seq<Action>)
    requires Reached(origin, acts, s)
    requires Enabled(s, Begin(w))
    ensures Reached(origin, acts', t)
    ensures var Handling(batch, pos) := s.phases[w];
      t == At(s, w, Handling(batch, pos + 1), HandlingRecords(s, w, batch[pos], panics))
  {
    var Handling(batch, pos) := s.phases[w];
    ReachedStep(origin, acts, s, Begin(w));
    var begun := ApplyBegin(s, w);
    t, acts' := begun, acts + [Begin(w)];
    if begun.phases[w].Calling? {
      t, acts' := CallAll(begun, acts', w, panics, origin);
      var hs := begun.phases[w].snapshot;
      AtAt(s, w, begun.phases[w], [Took(w, batch[pos], hs)], Handling(batch, pos + 1),
        CallRecords(w, batch[pos], hs, |hs|, panics));
    }
  }

  lemma BeginAt(s: State, w: WorkerId, batch: seq<nat>, pos: nat, log: seq<Record>, panics: (nat, nat) -> bool)
    requires pos < |batch| && Published(s, batch)
    ensures var t := At(s, w, Handling(batch, pos), log);
      Enabled(t, Begin(w)) && HandlingRecords(t, w, batch[pos], panics) == HandlingRecords(s, w, batch[pos], panics)
  {
  }

  /** The loop body for message `pos`, after the earlier ones. */
  method HandleNth(s: State, ghost acts: seq<Action>, w: WorkerId, batch: seq<nat>, pos: nat, r: State,
          panics: (nat, nat) -> bool, ghost origin: State)
    returns (t: State, ghost acts': seq<Action>)
    requires pos < |batch| && Published(s, batch)
    requires Reached(origin, acts, r) && r == At(s, w, Handling(batch, pos), HandlingLog(s, w, batch, pos, panics))
    ensures Reached(origin, acts', t)
    ensures t == At(s, w, Handling(batch, pos + 1), HandlingLog(s, w, batch, pos + 1, panics))
  {
    hide HandlingRecords;
    ghost var log := HandlingLog(s, w, batch, pos, panics);
    BeginAt(s, w, batch, pos, log, panics);
    t, acts' := HandleOne(r, acts, w, panics, origin);
    HandlingLogStep(s, w, batch, pos, panics);
    AtAt(s, w, Handling(batch, pos), log, Handling(batch, pos + 1), HandlingRecords(s, w, batch[pos], panics));
  }

  /** The outer loop. */
  method HandleAll(s: State, ghost acts: seq<Action>, w: WorkerId, panics: (nat, nat) -> bool, ghost origin: State)
    returns (t: State, ghost acts': seq<Action>)
    requires Reached(origin, acts, s)
    requires w in s.phases && s.phases[w].Handling? && s.phases[w].pos == 0 && Published(s, s.phases[w].batch)
    ensures Reached(origin, acts', t)
    ensures var ids := s.phases[w].batch; t == At(s, w, Handling(ids, |ids|), HandlingLog(s, w, ids, |ids|, panics))
  {
    hide Reached, HandlingRecords, At;
    var batch := s.phases[w].batch;
    t, acts' := s, acts;
    AtNow(s, w);
    for pos := 0 to |batch|
      invariant Reached(origin, acts', t)
      invariant t == At(s, w, Handling(batch, pos), HandlingLog(s, w, batch, pos, panics))
    {
      t, acts' := HandleNth(s, acts', w, batch, pos, t, panics, origin);
    }
  }

  /** `handleMessages`: the batch, then its acknowledgement. */
  method HandleMessages(s: State, ghost acts: seq<Action>, w: WorkerId, panics: (nat, nat) -> bool, ghost origin: State)
    returns (t: State, ghost acts': seq<Action>)
    requires Reached(origin, acts, s)
    requires w in s.phases && s.phases[w].Handling? && s.phases[w].pos == 0 && Published(s, s.phases[w].batch)
    ensures Reached(origin, acts', t)
    ensures var ids := s.phases[w].batch;
      t == At(s, w, Idle, HandlingLog(s, w, ids, |ids|, panics)).(
        pending := s.pending - IdSet(ids), acked := s.acked + (IdSet(ids) * s.pending.Keys))
  {
    var batch := s.phases[w].batch;
    t, acts' := HandleAll(s, acts, w, panics, origin);
    ReachedStep(origin, acts', t, Ack(w, false));
    AckAt(s, w, t, HandlingLog(s, w, batch, |batch|, panics));
    t, acts' := Apply(t, Ack(w, false)), acts' + [Ack(w, false)];
  }

  lemma AckAt(s: State, w: WorkerId, t: State, rs: seq<Record>)
    requires w in s.phases && s.phases[w].Handling?
    requires var ids := s.phases[w].batch; t == At(s, w, Handling(ids, |ids|), rs)
    ensures var ids := s.phases[w].batch;
      Apply(t, Ack(w, false)) == At(s, w, Idle, rs).(
        pending := s.pending - IdSet(ids), acked := s.acked + (IdSet(ids) * s.pending.Keys))
  {
  }

  // ---- Recover ----

  /** The pending entries one recovery round takes on. */
  function RecoverySet(s: State): seq<nat> {
    Stuck(Oldest(s.pending, 0, |s.messages|, PAGE), s.pending, s.now)
  }

  lemma RecoverySetIs(s: State)
    ensures forall id :: id in RecoverySet(s) ==> id in s.pending && id < |s.messages|
    ensures Published(s, RecoverySet(s))
  {
    OldestIs(s.pending, 0, |s.messages|, PAGE);
    StuckIs(Oldest(s.pending, 0, |s.messages|, PAGE), s.pending, s.now);
    assert forall k :: 0 <= k < |RecoverySet(s)| ==> RecoverySet(s)[k] in RecoverySet(s);
  }

  lemma ClaimedAndHandled(s: State, ids: seq<nat>, c: nat)
    requires forall id :: id in ids ==> id in s.pending
    ensures var batch := Claimable(ids, s);
      var gone := set id | id in ids && id in s.pending && id < s.first;
      var claimed := (s.pending - gone) + map id | id in batch :: Pending(c, s.now);
      && claimed - IdSet(batch) == s.pending - IdSet(ids)
      && IdSet(batch) * claimed.Keys == (set id | id in ids && s.first <= id)
      && gone == (set id | id in ids && id < s.first)
  {
    ClaimableIs(ids, s);
  }

  /** `s` without the pending entries `ids`, which are acknowledged if still in the stream, else dropped. */
  function Settled(s: State, ids: seq<nat>, log: seq<Record>): State {
    s.(pending := s.pending - IdSet(ids),
       acked := s.acked + (set id | id in ids && s.first <= id),
       dropped := s.dropped + (set id | id in ids && id < s.first),
       log := log)
  }

  /** XCLAIM of the ids found stuck, then their handling. */
  method ClaimAndHandle(s: State, ghost acts: seq<Action>, c: nat, panics: (nat, nat) -> bool, ghost origin: State)
    returns (t: State, ghost acts': seq<Action>)
    requires Reached(origin, acts, s)
    requires WorkerId(c, true) in s.phases && s.phases[WorkerId(c, true)].Scanned?
    requires Published(s, s.phases[WorkerId(c, true)].ids)
    requires forall id :: id in s.phases[WorkerId(c, true)].ids ==> id in s.pending
    ensures Reached(origin, acts', t)
    ensures var w := WorkerId(c, true);
      t == Settled(s, s.phases[w].ids, t.log).(phases := s.phases[w := Idle])
  {
    var w := WorkerId(c, true);
    var ids := s.phases[w].ids;
    ReachedStep(origin, acts, s, Claim(c, false));
    var claimed := Apply(s, Claim(c, false));
    ClaimablePublished(ids, s);
    t, acts' := HandleMessages(claimed, acts + [Claim(c, false)], w, panics, origin);
    ClaimedAndHandled(s, ids, c);
    assert s.phases[w := claimed.phases[w]][w := Idle] == s.phases[w := Idle];
  }

  /** The loop of `Recover` over the page of pending entries. */
  method CollectStuck(page: seq<nat>, pending: map<nat, Pending>, now: nat) returns (ids: seq<nat>)
    ensures ids == Stuck(page, pending, now)
  {
    ids := [];
    for i := 0 to |page|
      invariant ids == Stuck(page[..i], pending, now)
    {
      assert page[..i + 1][..i] == page[..i];
      if page[i] in pending && now - pending[page[i]].deliveredAt > THRESHOLD {
        ids := ids + [page[i]];
      }
    }
    assert page[..|page|] == page;
  }

  /** One round of `Recover`: the stuck entries of the oldest page leave the pending list, acknowledged if
      the stream still has them and dropped if it does not; nothing else changes but the log. */
  method Recover(s: State, ghost acts: seq<Action>, c: nat, panics: (nat, nat) -> bool, ghost origin: State)
    returns (t: State, ghost acts': seq<Action>)
    requires Reached(origin, acts, s)
    requires WorkerId(c, true) in s.phases && s.phases[WorkerId(c, true)].Idle?
    ensures Reached(origin, acts', t)
    ensures t == Settled(s, RecoverySet(s), t.log)
  {
    var w := WorkerId(c, true);
    var ids := CollectStuck(Oldest(s.pending, 0, |s.messages|, PAGE), s.pending, s.now);
    RecoverySetIs(s);
    ReachedStep(origin, acts, s, Scan(c));
    t, acts' := Apply(s, Scan(c)), acts + [Scan(c)];
    assert s.phases[w := Idle] == s.phases;
    if ids == [] {
      assert Settled(s, [], s.log) == s;
      return;
    }
    var scanned := t;
    t, acts' := ClaimAndHandle(scanned, acts', c, panics, origin);
    assert scanned.phases[w := Idle] == s.phases[w := Idle];
  }

  // ---- Rounds until empty ----

  /** The pending ids in `[lo, hi)`. */
  function Window(pending: map<nat, Pending>, lo: nat, hi: nat): set<nat> {
    set id | id in pending && lo <= id < hi
  }

  lemma WindowSplit(pending: map<nat, Pending>, lo: nat, hi: nat)
    requires lo < hi
    ensures |Window(pending, lo, hi)| == |Window(pending, lo + 1, hi)| + if lo in pending then 1 else 0
  {
    assert Window(pending, lo, hi) == (if lo in pending then {lo} else {}) + Window(pending, lo + 1, hi);
  }

  lemma IdSetCons(id: nat, rest: seq<nat>)
    requires id !in rest
    ensures |IdSet([id] + rest)| == 1 + |IdSet(rest)|
  {
    assert IdSet([id] + rest) == {id} + IdSet(rest);
  }

  lemma {:induction false} OldestCount(pending: map<nat, Pending>, lo: nat, hi: nat, count: nat)
    ensures var n := |Window(pending, lo, hi)|;
      |IdSet(Oldest(pending, lo, hi, count))| == if n < count then n else count
    decreases hi - lo
  {
    if hi <= lo {
      assert Window(pending, lo, hi) == {};
    } else if count > 0 {
      WindowSplit(pending, lo, hi);
      if lo in pending {
        OldestCount(pending, lo + 1, hi, count - 1);
        OldestIs(pending, lo + 1, hi, count - 1);
        IdSetCons(lo, Oldest(pending, lo + 1, hi, count - 1));
      } else {
        OldestCount(pending, lo + 1, hi, count);
      }
    }
  }

  ghost predicate AllStuck(s: State) {
    forall id :: id in s.pending ==> id < |s.messages| && s.now - s.pending[id].deliveredAt > THRESHOLD
  }

  lemma {:induction false} StuckAll(ids: seq<nat>, s: State)
    requires AllStuck(s) && forall id :: id in ids ==> id in s.pending
    ensures Stuck(ids, s.pending, s.now) == ids
  {
    if ids != [] {
      var n := |ids| - 1;
      assert ids == ids[..n] + [ids[n]];
      StuckAll(ids[..n], s);
    }
  }

  /** With everything stuck, one round takes min(200, n) of the n pending entries, the rest stay stuck,
      and what leaves the pending list is acknowledged or dropped. */
  lemma RoundTakes(s: State, log: seq<Record>)
    requires AllStuck(s)
    ensures var t := Settled(s, RecoverySet(s), log);
      && |t.pending| == (if |s.pending| < PAGE then 0 else |s.pending| - PAGE)
      && AllStuck(t)
      && t.pending.Keys + t.acked + t.dropped == s.pending.Keys + s.acked + s.dropped
  {
    var page := Oldest(s.pending, 0, |s.messages|, PAGE);
    OldestIs(s.pending, 0, |s.messages|, PAGE);
    StuckAll(page, s);
    OldestCount(s.pending, 0, |s.messages|, PAGE);
    assert Window(s.pending, 0, |s.messages|) == s.pending.Keys;
    var left := s.pending - IdSet(page);
    assert left.Keys == s.pending.Keys - IdSet(page) && IdSet(page) <= s.pending.Keys;
    assert |left| == |left.Keys|;
    Conserved(s, page, log);
  }

  /** ceil(n / 200) */
  function Rounds(n: nat): nat {
    (n + PAGE - 1) / PAGE
  }

  ghost function Tracked(s: State): set<nat> {
    s.pending.Keys + s.acked + s.dropped
  }

  /** One tick of `RecoverInterval` with everything stuck. */
  method TickAndRecover(s: State, ghost acts: seq<Action>, c: nat, panics: (nat, nat) -> bool, interval: nat,
          ghost origin: State)
    returns (t: State, ghost acts': seq<Action>)
    requires Reached(origin, acts, s)
    requires WorkerId(c, true) in s.phases && s.phases[WorkerId(c, true)].Idle?
    requires AllStuck(s) && s.pending != map[]
    ensures Reached(origin, acts', t)
    ensures t.messages == s.messages && t.next == s.next && t.phases == s.phases && t.now == s.now + interval
    ensures AllStuck(t) && Tracked(t) == Tracked(s)
    ensures Rounds(|s.pending|) == 1 + Rounds(|t.pending|) && |t.pending| < |s.pending|
  {
    ReachedStep(origin, acts, s, Tick(interval));
    var u := s.(now := s.now + interval);
    t, acts' := Recover(u, acts + [Tick(interval)], c, panics, origin);
    RoundTakes(u, t.log);
    assert |s.pending| != 0;
    OneRoundLess(|s.pending|);
  }

  /** The ticker loop of `RecoverInterval`, left alone with n pending entries that are all stuck: every
      round removes min(200, n) of them, so after ceil(n / 200) rounds none is pending, and each was
      acknowledged or dropped. */
  method RecoverInterval(s: State, c: nat, panics: (nat, nat) -> bool, interval: nat)
    returns (t: State, rounds: nat, ghost acts: seq<Action>)
    requires WorkerId(c, true) in s.phases && s.phases[WorkerId(c, true)].Idle?
    requires AllStuck(s)
    ensures Reached(s, acts, t)
    ensures t.pending == map[] && t.messages == s.messages && t.next == s.next
    ensures rounds == Rounds(|s.pending|)
    ensures t.acked + t.dropped == s.acked + s.dropped + s.pending.Keys
  {
    t, rounds, acts := s, 0, [];
    assert Reached(s, acts, t);
    hide Reached, AllStuck, Tracked, Rounds;
    while t.pending != map[]
      invariant Reached(s, acts, t)
      invariant t.messages == s.messages && t.next == s.next && t.phases == s.phases && AllStuck(t)
      invariant rounds + Rounds(|t.pending|) == Rounds(|s.pending|)
      invariant Tracked(t) == Tracked(s)
      decreases |t.pending|
    {
      t, acts := TickAndRecover(t, acts, c, panics, interval, s);
      rounds := rounds + 1;
    }
    NoneLeft(s, t);
  }

  lemma NoneLeft(s: State, t: State)
    requires t.pending == map[] && Tracked(t) == Tracked(s)
    ensures Rounds(|t.pending|) == 0 && t.acked + t.dropped == s.acked + s.dropped + s.pending.Keys
  {
  }

  lemma OneRoundLess(n: nat)
    requires n > 0
    ensures Rounds(n) == 1 + Rounds(if n < PAGE then 0 else n - PAGE)
  {
  }

  lemma Conserved(u: State, ids: seq<nat>, log: seq<Record>)
    requires forall id :: id in ids ==> id in u.pending
    ensures var t := Settled(u, ids, log);
      t.pending.Keys + t.acked + t.dropped == u.pending.Keys + u.acked + u.dropped
  {
  }
}
