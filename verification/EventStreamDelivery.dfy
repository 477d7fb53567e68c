/**
 At-least-once handling and ordered first delivery, over every run of the consumer-group protocol.
 */
module EventStreamDelivery {
  import opened EventStream

  // ---- The log only grows ----

  lemma {:induction false} CallsSnoc(log: seq<Record>, e: Record, w: WorkerId, id: nat)
    ensures Calls(log + [e], w, id) ==
      Calls(log, w, id) + if e.Called? && e.worker == w && e.id == id then [e.handler] else []
  {
  }

  lemma HandledStays(log: seq<Record>, e: Record, id: nat, m: Message)
    requires Handled(log, id, m)
    ensures Handled(log + [e], id, m)
  {
    var k: nat :| HandledAt(log, k, id, m);
    var log' := log + [e];
    assert log'[..k] == log[..k] && log'[k + 1..] == log[k + 1..] + [e];
    if log[k].Took? {
      CallsSnoc(log[k + 1..], e, log[k].worker, id);
    }
    assert HandledAt(log', k, id, m);
  }

  // ---- What a worker owes ----

  /** Worker `w` took the handlers of entry `id` and has called exactly the first `n` of them since. */
  ghost predicate Owes(log: seq<Record>, w: WorkerId, id: nat, m: Message, hs: seq<nat>, n: nat) {
    exists k: nat :: TookAt(log, k, w, id, m, hs) && n <= |hs| && Calls(log[k + 1..], w, id) == hs[..n]
  }

  /** One more record leaves what was taken and called before. */
  lemma TookSnoc(log: seq<Record>, e: Record, k: nat, w: WorkerId, id: nat, m: Message, hs: seq<nat>)
    requires TookAt(log, k, w, id, m, hs)
    ensures TookAt(log + [e], k, w, id, m, hs)
    ensures Calls((log + [e])[k + 1..], w, id) ==
      Calls(log[k + 1..], w, id) + if e.Called? && e.worker == w && e.id == id then [e.handler] else []
  {
    assert (log + [e])[..k] == log[..k] && (log + [e])[k + 1..] == log[k + 1..] + [e];
    CallsSnoc(log[k + 1..], e, w, id);
  }

  lemma OwesStays(log: seq<Record>, e: Record, w: WorkerId, id: nat, m: Message, hs: seq<nat>, n: nat)
    requires Owes(log, w, id, m, hs, n)
    requires !(e.Called? && e.worker == w)
    ensures Owes(log + [e], w, id, m, hs, n)
  {
    hide Calls, TableOf;
    var k: nat :| TookAt(log, k, w, id, m, hs) && n <= |hs| && Calls(log[k + 1..], w, id) == hs[..n];
    TookSnoc(log, e, k, w, id, m, hs);
  }

  lemma OwesLess(log: seq<Record>, w: WorkerId, id: nat, m: Message, hs: seq<nat>, n: nat, panicked: bool)
    requires Owes(log, w, id, m, hs, n) && n < |hs|
    ensures Owes(log + [Called(w, id, hs[n], panicked)], w, id, m, hs, n + 1)
  {
    hide Calls, TableOf;
    var k: nat :| TookAt(log, k, w, id, m, hs) && n <= |hs| && Calls(log[k + 1..], w, id) == hs[..n];
    TookSnoc(log, Called(w, id, hs[n], panicked), k, w, id, m, hs);
    assert hs[..n] + [hs[n]] == hs[..n + 1];
  }

  lemma OwesNothing(log: seq<Record>, w: WorkerId, id: nat, m: Message, hs: seq<nat>)
    requires Owes(log, w, id, m, hs, |hs|)
    ensures Handled(log, id, m)
  {
    var k: nat :| TookAt(log, k, w, id, m, hs) && Calls(log[k + 1..], w, id) == hs[..|hs|];
    assert hs[..|hs|] == hs;
    assert HandledAt(log, k, id, m);
  }

  /** The first `n` entries of a batch are handled. */
  ghost predicate AllHandled(s: State, ids: seq<nat>, n: nat)
    requires n <= |ids|
  {
    forall k :: 0 <= k < n ==> ids[k] < |s.messages| && Handled(s.log, ids[k], s.messages[ids[k]])
  }

  /** The messages a worker has passed are handled, and it is on its way through the next one's snapshot. */
  ghost predicate WorkerOk(s: State, w: WorkerId) {
    w in s.phases ==>
      match s.phases[w]
      case Idle => true
      case Scanned(ids) => Published(s, ids)
      case Handling(batch, pos) => pos <= |batch| && Published(s, batch) && AllHandled(s, batch, pos)
      case Calling(batch, pos, hs, n) =>
        && pos < |batch| && n < |hs| && Published(s, batch) && AllHandled(s, batch, pos)
        && Owes(s.log, w, batch[pos], s.messages[batch[pos]], hs, n)
  }

  ghost predicate TablesOk(s: State) {
    forall c, t :: Handlers(s.tables, c, t) == TableOf(s.log, c, t)
  }

  ghost predicate AckedOk(s: State) {
    forall id: nat :: id in s.acked ==> id < |s.messages| && Handled(s.log, id, s.messages[id])
  }

  ghost predicate PendingOk(s: State) {
    forall id: nat :: id in s.pending ==> id < |s.messages|
  }

  ghost predicate Inv(s: State) {
    && TablesOk(s) && AckedOk(s) && PendingOk(s)
    && forall w :: w in s.phases ==> WorkerOk(s, w)
  }

  /** `t` is `s` with messages published since and at most one more record in the log. */
  ghost predicate Later(s: State, t: State) {
    && s.messages <= t.messages
    && (t.log == s.log || exists e :: t.log == s.log + [e])
  }

  lemma HandledLater(s: State, t: State, id: nat)
    requires Later(s, t) && id < |s.messages| && Handled(s.log, id, s.messages[id])
    ensures id < |t.messages| && Handled(t.log, id, t.messages[id])
  {
    if t.log != s.log {
      var e :| t.log == s.log + [e];
      HandledStays(s.log, e, id, s.messages[id]);
    }
  }

  lemma AllHandledLater(s: State, t: State, ids: seq<nat>, n: nat)
    requires n <= |ids| && Later(s, t) && AllHandled(s, ids, n)
    ensures AllHandled(t, ids, n)
  {
    forall k | 0 <= k < n ensures ids[k] < |t.messages| && Handled(t.log, ids[k], t.messages[ids[k]]) {
      HandledLater(s, t, ids[k]);
    }
  }

  /** Steps of others do not hurt a worker. */
  lemma WorkerStays(s: State, t: State, w: WorkerId)
    requires Later(s, t) && WorkerOk(s, w)
    requires w in t.phases ==> w in s.phases && t.phases[w] == s.phases[w]
    requires t.log != s.log ==> var e := t.log[|s.log|]; !(e.Called? && e.worker == w)
    ensures WorkerOk(t, w)
  {
    if w in t.phases && (t.phases[w].Handling? || t.phases[w].Calling?) {
      var p := s.phases[w];
      AllHandledLater(s, t, p.batch, p.pos);
      if p.Calling? && t.log != s.log {
        assert t.log == s.log + [t.log[|s.log|]];
        OwesStays(s.log, t.log[|s.log|], w, p.batch[p.pos], s.messages[p.batch[p.pos]], p.snapshot, p.called);
      }
    }
  }

  // ---- Each step keeps it ----

  lemma TableSnoc(log: seq<Record>, e: Record, c: nat, t: string)
    ensures TableOf(log + [e], c, t) ==
      if e == Subscribed(c, t, if e.Subscribed? then e.handler else 0) then TableOf(log, c, t) + [e.handler]
      else if e == Unsubscribed(c, t, if e.Unsubscribed? then e.handler else 0)
        then Minus(TableOf(log, c, t), e.handler)
      else TableOf(log, c, t)
  {
  }

  /** What a step adds to the log, and what it does to the handlers of one consumer and type. */
  lemma TableOnly(s: State, a: Action, c: nat, t: string)
    requires Enabled(s, a)
    ensures var log := Apply(s, a).log; log == s.log || log == s.log + [log[|s.log|]]
    ensures a.Subscribe? ==> Apply(s, a).log == s.log + [Subscribed(a.consumer, a.eventType, a.handler)]
    ensures a.Unsubscribe? ==> Apply(s, a).log == s.log + [Unsubscribed(a.consumer, a.eventType, a.handler)]
    ensures var log := Apply(s, a).log;
      !a.Subscribe? && !a.Unsubscribe? && log != s.log ==> !log[|s.log|].Subscribed? && !log[|s.log|].Unsubscribed?
    ensures var hs := Handlers(s.tables, c, t);
      Handlers(Apply(s, a).tables, c, t) ==
        if a.Subscribe? && a.consumer == c && a.eventType == t then hs + [a.handler]
        else if a.Unsubscribe? && a.consumer == c && a.eventType == t then Minus(hs, a.handler)
        else hs
  {
    hide Minus, Range, Claimable, Oldest, Stuck;
  }

  lemma TablesStep(s: State, a: Action)
    requires Enabled(s, a) && TablesOk(s)
    ensures TablesOk(Apply(s, a))
  {
    hide Apply, Enabled, Minus, TableOf, Handlers;
    var s' := Apply(s, a);
    forall c, t ensures Handlers(s'.tables, c, t) == TableOf(s'.log, c, t) {
      TableOnly(s, a, c, t);
      if s'.log != s.log {
        TableSnoc(s.log, s'.log[|s.log|], c, t);
      }
    }
  }

  /** The worker whose own phase a step changes, if there is just one. */
  function Actor(a: Action): WorkerId {
    match a
    case Read(c, _) => WorkerId(c, false)
    case Scan(c) => WorkerId(c, true)
    case Claim(c, _) => WorkerId(c, true)
    case Begin(w) => w
    case Call(w, _) => w
    case Ack(w, _) => w
    case _ => WorkerId(0, false)
  }

  predicate Acts(a: Action) {
    a.Read? || a.Scan? || a.Claim? || a.Begin? || a.Call? || a.Ack?
  }

  lemma StepLater(s: State, a: Action)
    requires Enabled(s, a)
    ensures Later(s, Apply(s, a))
    ensures Apply(s, a).log != s.log ==>
      var e := Apply(s, a).log[|s.log|];
      e.Called? ==> a.Call? && e.worker == a.worker
    ensures forall w ::
      w in Apply(s, a).phases && !(Acts(a) && w == Actor(a)) && !(a.Start? && w.consumer == a.consumer) ==>
      w in s.phases && Apply(s, a).phases[w] == s.phases[w]
  {
  }

  lemma ScanOk(s: State, c: nat)
    requires Enabled(s, Scan(c)) && Inv(s)
    ensures WorkerOk(Apply(s, Scan(c)), WorkerId(c, true))
  {
    var page := Oldest(s.pending, 0, |s.messages|, PAGE);
    var stuck := Stuck(page, s.pending, s.now);
    OldestIs(s.pending, 0, |s.messages|, PAGE);
    StuckIs(page, s.pending, s.now);
    assert forall k :: 0 <= k < |stuck| ==> stuck[k] in stuck;
  }

  lemma BeginOk(s: State, w: WorkerId)
    requires Enabled(s, Begin(w)) && Inv(s)
    ensures WorkerOk(Apply(s, Begin(w)), w)
  {
    var s' := Apply(s, Begin(w));
    var Handling(batch, pos) := s.phases[w];
    var id, m := batch[pos], s.messages[batch[pos]];
    StepLater(s, Begin(w));
    assert WorkerOk(s, w);
    AllHandledLater(s, s', batch, pos);
    var k := |s.log|;
    assert s'.log[..k] == s.log && s'.log[k + 1..] == [];
    if m.Malformed? {
      assert HandledAt(s'.log, k, id, m);
    } else {
      var hs := Handlers(s.tables, w.consumer, m.eventType);
      assert TookAt(s'.log, k, w, id, m, hs);
      assert hs[..0] == Calls(s'.log[k + 1..], w, id);
      assert hs == [] ==> HandledAt(s'.log, k, id, m);
    }
  }

  lemma CallOk(s: State, w: WorkerId, panics: bool)
    requires Enabled(s, Call(w, panics)) && WorkerOk(s, w)
    ensures WorkerOk(Apply(s, Call(w, panics)), w)
  {
    hide Owes, Handled;
    var s' := Apply(s, Call(w, panics));
    var Calling(batch, pos, hs, n) := s.phases[w];
    var id := batch[pos];
    assert s'.log == s.log + [Called(w, id, hs[n], panics)];
    AllHandledLater(s, s', batch, pos);
    OwesLess(s.log, w, id, s.messages[id], hs, n, panics);
    if n + 1 == |hs| {
      OwesNothing(s'.log, w, id, s.messages[id], hs);
    }
  }

  lemma ActorOk(s: State, a: Action)
    requires Enabled(s, a) && Inv(s) && Acts(a)
    ensures WorkerOk(Apply(s, a), Actor(a))
  {
    match a
    case Read(c, lost) =>
      StepLater(s, a);
      assert lost ==> Apply(s, a).phases == s.phases;
    case Scan(c) => ScanOk(s, c);
    case Claim(c, lost) =>
      assert WorkerOk(s, WorkerId(c, true));
      ClaimablePublished(s.phases[WorkerId(c, true)].ids, s);
    case Begin(w) => BeginOk(s, w);
    case Call(w, panics) => assert WorkerOk(s, w); CallOk(s, w, panics);
    case Ack(w, lost) =>
  }

  lemma AckedStep(s: State, a: Action)
    requires Enabled(s, a) && Inv(s)
    ensures AckedOk(Apply(s, a))
  {
    var s' := Apply(s, a);
    StepLater(s, a);
    forall id | id in s'.acked ensures id < |s'.messages| && Handled(s'.log, id, s'.messages[id]) {
      if id !in s.acked {
        var w := a.worker;
        assert WorkerOk(s, w);
        var k :| 0 <= k < |s.phases[w].batch| && s.phases[w].batch[k] == id;
      }
      HandledLater(s, s', id);
    }
  }

  lemma PendingStep(s: State, a: Action)
    requires Enabled(s, a) && Inv(s)
    ensures PendingOk(Apply(s, a))
  {
    if a.Read? {
      RangeIs(if s.first < s.next then s.next else s.first, |s.messages|);
    } else if a.Claim? {
      ClaimableIs(s.phases[WorkerId(a.consumer, true)].ids, s);
    }
  }

  lemma StepInv(s: State, a: Action)
    requires Enabled(s, a) && Inv(s)
    ensures Inv(Apply(s, a))
  {
    var s' := Apply(s, a);
    TablesStep(s, a);
    AckedStep(s, a);
    PendingStep(s, a);
    StepLater(s, a);
    forall w | w in s'.phases ensures WorkerOk(s', w) {
      if Acts(a) && w == Actor(a) {
        ActorOk(s, a);
      } else if a.Start? && w.consumer == a.consumer {
      } else {
        WorkerStays(s, s', w);
      }
    }
  }

  lemma {:induction false} RunInv(s: State, acts: seq<Action>)
    requires Initial(s)
    ensures Inv(Run(s, acts))
  {
    if acts != [] {
      var n := |acts| - 1;
      RunInv(s, acts[..n]);
      if Enabled(Run(s, acts[..n]), acts[n]) {
        StepInv(Run(s, acts[..n]), acts[n]);
      }
    }
  }

  /** At least once: in every run an acknowledged entry was passed by some worker's `handleMessages`, which
      found it malformed or took the handlers then subscribed to its type and called every one of them. */
  lemma AtLeastOnce(s: State, acts: seq<Action>, id: nat)
    requires Initial(s) && id in Run(s, acts).acked
    ensures var t := Run(s, acts); id < |t.messages| && Handled(t.log, id, t.messages[id])
  {
    RunInv(s, acts);
  }
}
