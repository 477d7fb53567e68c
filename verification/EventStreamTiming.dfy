/**
 Which entries a round of recovery takes on, told by the steps of the run alone (`api/events/redis.go`): how long ago an
 entry was last handed out, and how many older ones are pending.
 */
module EventStreamTiming {
  import opened EventStream
  import EventStreamDelivery

  // ---- Idle time ----

  /** The step hands `id` out: a read, of what was not delivered yet, or a claim, of what is still pending and
      untrimmed. */
  predicate HandsOut(s: State, a: Action, id: nat)
    requires Enabled(s, a)
  {
    match a
    case Read(_, _) => s.first <= id && s.next <= id < |s.messages|
    case Claim(c, _) => id in s.phases[WorkerId(c, true)].ids && id in s.pending && s.first <= id
    case _ => false
  }

  /** The microseconds that have passed since `id` was last handed out. */
  ghost function IdleFor(s: State, acts: seq<Action>, id: nat): nat
    requires Legal(s, acts)
  {
    if acts == [] then 0
    else
      var front, a := acts[..|acts| - 1], acts[|acts| - 1];
      if HandsOut(Run(s, front), a, id) then 0
      else IdleFor(s, front, id) + if a.Tick? then a.micros else 0
  }

  /** The consumer that `id` was last handed out to. */
  ghost function Holder(s: State, acts: seq<Action>, id: nat): nat
    requires Legal(s, acts)
  {
    if acts == [] then 0
    else
      var front, a := acts[..|acts| - 1], acts[|acts| - 1];
      if HandsOut(Run(s, front), a, id) then a.consumer else Holder(s, front, id)
  }

  lemma StampStep(s: State, a: Action, id: nat)
    requires Enabled(s, a) && id in Apply(s, a).pending
    ensures Apply(s, a).now == s.now + if a.Tick? then a.micros else 0
    ensures if HandsOut(s, a, id) then Apply(s, a).pending[id] == Pending(a.consumer, s.now)
            else id in s.pending && Apply(s, a).pending[id] == s.pending[id]
  {
    if a.Read? {
      RangeIs(if s.first < s.next then s.next else s.first, |s.messages|);
    } else if a.Claim? {
      ClaimableIs(s.phases[WorkerId(a.consumer, true)].ids, s);
    }
  }

  /** The pending list names the consumer an entry was last handed out to, and how long ago. */
  lemma {:induction false} IdleIs(s: State, acts: seq<Action>, id: nat)
    requires Initial(s) && Legal(s, acts) && id in Run(s, acts).pending
    ensures Run(s, acts).now - Run(s, acts).pending[id].deliveredAt == IdleFor(s, acts, id)
    ensures Run(s, acts).pending[id].consumer == Holder(s, acts, id)
  {
    if acts != [] {
      var front, a := acts[..|acts| - 1], acts[|acts| - 1];
      var t := Run(s, front);
      StampStep(t, a, id);
      if !HandsOut(t, a, id) {
        IdleIs(s, front, id);
      }
    }
  }

  // ---- The oldest page ----

  function OlderPending(pending: map<nat, Pending>, lo: nat, id: nat): set<nat> {
    set j | j in pending && lo <= j < id
  }

  lemma OlderStep(pending: map<nat, Pending>, lo: nat, id: nat)
    requires lo < id
    ensures |OlderPending(pending, lo, id)| == |OlderPending(pending, lo + 1, id)| + if lo in pending then 1 else 0
  {
    assert OlderPending(pending, lo, id) == OlderPending(pending, lo + 1, id) + if lo in pending then {lo} else {};
  }

  lemma {:induction false} InPageIff(pending: map<nat, Pending>, lo: nat, hi: nat, count: nat, id: nat)
    ensures id in Oldest(pending, lo, hi, count) <==>
      id in pending && lo <= id < hi && |OlderPending(pending, lo, id)| < count
    decreases hi - lo
  {
    if lo < hi && count > 0 {
      InPageIff(pending, lo + 1, hi, if lo in pending then count - 1 else count, id);
      if lo < id {
        OlderStep(pending, lo, id);
      } else {
        assert OlderPending(pending, lo, id) == {};
      }
    }
  }

  lemma {:induction false} PageRises(pending: map<nat, Pending>, lo: nat, hi: nat, count: nat)
    ensures Increasing(Oldest(pending, lo, hi, count))
    ensures forall id :: id in Oldest(pending, lo, hi, count) ==> lo <= id
    decreases hi - lo
  {
    if lo < hi && count > 0 {
      var rest := Oldest(pending, lo + 1, hi, if lo in pending then count - 1 else count);
      PageRises(pending, lo + 1, hi, if lo in pending then count - 1 else count);
      assert forall k :: 0 <= k < |rest| ==> rest[k] in rest;
    }
  }

  lemma {:induction false} StuckRises(ids: seq<nat>, pending: map<nat, Pending>, now: nat)
    requires Increasing(ids)
    ensures Increasing(Stuck(ids, pending, now))
  {
    if ids != [] {
      var n := |ids| - 1;
      var front := Stuck(ids[..n], pending, now);
      StuckRises(ids[..n], pending, now);
      StuckIs(ids[..n], pending, now);
      forall k | 0 <= k < |front| ensures front[k] < ids[n] {
        assert front[k] in front;
        var j :| 0 <= j < n && ids[j] == front[k];
      }
    }
  }

  // ---- A scan ----

  /** What the recovery loop of `c` has scanned. */
  function Taken(s: State, c: nat): seq<nat> {
    var w := WorkerId(c, true);
    if w in s.phases && s.phases[w].Scanned? then s.phases[w].ids else []
  }

  lemma TakenIs(s: State, c: nat)
    requires Enabled(s, Scan(c))
    ensures Taken(Apply(s, Scan(c)), c) == Stuck(Oldest(s.pending, 0, |s.messages|, PAGE), s.pending, s.now)
  {
  }

  /** In every run a scan takes, in stream order, exactly the entries that are among the 200 oldest pending ones and
      were last handed out more than a second ago. */
  lemma ScanTakesIff(s: State, acts: seq<Action>, c: nat, id: nat)
    requires Initial(s) && Legal(s, acts) && Enabled(Run(s, acts), Scan(c))
    ensures var t := Run(s, acts); var taken := Taken(Apply(t, Scan(c)), c);
      && Increasing(taken)
      && (id in taken <==>
            && id in t.pending
            && |set j | j in t.pending && j < id| < 200
            && IdleFor(s, acts, id) > 1_000_000)
  {
    var t := Run(s, acts);
    var page := Oldest(t.pending, 0, |t.messages|, PAGE);
    TakenIs(t, c);
    PageRises(t.pending, 0, |t.messages|, PAGE);
    StuckRises(page, t.pending, t.now);
    StuckIs(page, t.pending, t.now);
    InPageIff(t.pending, 0, |t.messages|, PAGE, id);
    assert OlderPending(t.pending, 0, id) == set j | j in t.pending && j < id;
    EventStreamDelivery.RunInv(s, acts);
    if id in t.pending {
      IdleIs(s, acts, id);
    }
  }
}
