/**
 First deliveries are disjoint and in stream order, and each consumer begins to handle them in that order.
 */
module EventStreamOrder {
  import opened EventStream

  /** Every entry handed out by XREADGROUP, to whichever consumer, in the order of the replies. */
  function AllDelivered(log: seq<Record>): seq<nat> {
    if log == [] then []
    else
      var n := |log| - 1;
      AllDelivered(log[..n]) + if log[n].Delivered? then log[n].ids else []
  }

  ghost predicate Below(v: seq<nat>, bound: nat) {
    forall i :: 0 <= i < |v| ==> v[i] < bound
  }

  /** Increasing, and all below `bound`. */
  ghost predicate Rising(v: seq<nat>, bound: nat) {
    Increasing(v) && Below(v, bound)
  }

  /** What the next entry begun by `w` cannot be below. */
  function Floor(s: State, w: WorkerId): nat {
    if w !in s.phases then s.next
    else match s.phases[w]
      case Handling(batch, pos) => if pos < |batch| then batch[pos] else s.next
      case Calling(batch, pos, _, _) => if pos < |batch| then batch[pos] + 1 else s.next
      case _ => s.next
  }

  ghost predicate BatchOk(s: State, w: WorkerId) {
    w in s.phases ==>
      match s.phases[w]
      case Idle => true
      case Scanned(_) => false
      case Handling(batch, pos) => Rising(batch, s.next)
      case Calling(batch, pos, _, _) => Rising(batch, s.next)
  }

  ghost predicate Ordered(s: State, w: WorkerId) {
    BatchOk(s, w) && Rising(Begun(s.log, w), Floor(s, w))
  }

  ghost predicate InOrder(s: State) {
    && s.next <= |s.messages| && s.first <= |s.messages|
    && Rising(AllDelivered(s.log), s.next)
    && forall w: WorkerId :: !w.recovering ==> Ordered(s, w)
  }

  lemma BegunSnoc(log: seq<Record>, e: Record, w: WorkerId)
    ensures Begun(log + [e], w) == Begun(log, w) + if (e.Took? || e.Rejected?) && e.worker == w then [e.id] else []
    ensures AllDelivered(log + [e]) == AllDelivered(log) + if e.Delivered? then e.ids else []
  {
  }

  /** The one record a step can add. */
  lemma StepRecord(s: State, a: Action)
    requires Enabled(s, a)
    ensures var t := Apply(s, a);
      t.log == s.log || (t.log == s.log + [t.log[|s.log|]]
        && var e := t.log[|s.log|];
           && (e.Delivered? <==> a.Read?)
           && (e.Took? || e.Rejected? ==>
             a.Begin? && e.worker == a.worker && e.id == s.phases[a.worker].batch[s.phases[a.worker].pos]))
  {
  }

  // ---- Rising sequences ----

  lemma RisingWider(v: seq<nat>, bound: nat, wider: nat)
    requires Rising(v, bound) && bound <= wider
    ensures Rising(v, wider)
  {
  }

  lemma RisingMore(v: seq<nat>, bound: nat, lo: nat, hi: nat)
    requires Rising(v, bound) && bound <= lo <= hi
    ensures Rising(v + Range(lo, hi), hi)
  {
  }

  lemma RisingFrom(lo: nat, hi: nat)
    requires lo <= hi
    ensures Rising(Range(lo, hi), hi)
  {
  }

  lemma RisingPush(v: seq<nat>, id: nat, bound: nat)
    requires Rising(v, id) && id < bound
    ensures Rising(v + [id], bound)
  {
  }

  lemma RisingAt(v: seq<nat>, bound: nat, i: nat)
    requires Rising(v, bound) && i < |v|
    ensures v[i] < bound && (i + 1 < |v| ==> v[i] < v[i + 1])
  {
  }

  lemma NextBound(s: State)
    requires InOrder(s)
    ensures s.next <= |s.messages| && s.first <= |s.messages| && Rising(AllDelivered(s.log), s.next)
  {
  }

  lemma DeliveredRead(s: State, w: WorkerId, lost: bool)
    requires Rising(AllDelivered(s.log), s.next) && s.next <= |s.messages| && s.first <= |s.messages|
    ensures Rising(AllDelivered(ApplyRead(s, w, lost).log), |s.messages|)
  {
    hide Rising;
    var from := if s.first < s.next then s.next else s.first;
    BegunSnoc(s.log, Delivered(w, Range(from, |s.messages|)), w);
    RisingMore(AllDelivered(s.log), s.next, from, |s.messages|);
  }

  lemma DeliveredElse(s: State, a: Action)
    requires Enabled(s, a) && !a.Read?
    ensures AllDelivered(Apply(s, a).log) == AllDelivered(s.log) && Apply(s, a).next == s.next
  {
    var t := Apply(s, a);
    StepRecord(s, a);
    if t.log != s.log {
      BegunSnoc(s.log, t.log[|s.log|], WorkerId(0, false));
    }
  }

  lemma DeliveredStep(s: State, a: Action)
    requires Enabled(s, a) && InOrder(s)
    ensures Rising(AllDelivered(Apply(s, a).log), Apply(s, a).next)
  {
    NextBound(s);
    hide InOrder, Rising;
    if a.Read? {
      DeliveredRead(s, WorkerId(a.consumer, false), a.lost);
    } else {
      DeliveredElse(s, a);
    }
  }

  /** A read leaves each read loop with a rising batch and no lower floor. */
  lemma ReadRaisesFloor(s: State, a: Action, w: WorkerId)
    requires Enabled(s, a) && a.Read? && BatchOk(s, w) && s.next <= |s.messages| && s.first <= |s.messages|
    requires !w.recovering
    ensures BatchOk(Apply(s, a), w) && Floor(s, w) <= Floor(Apply(s, a), w)
  {
    hide Rising;
    var from := if s.first < s.next then s.next else s.first;
    if w in s.phases && (s.phases[w].Handling? || s.phases[w].Calling?) {
      var p := s.phases[w];
      RisingWider(p.batch, s.next, |s.messages|);
      if p.pos < |p.batch| {
        RisingAt(p.batch, s.next, p.pos);
      }
    }
    RisingFrom(from, |s.messages|);
  }

  lemma ReadOrdered(s: State, a: Action, w: WorkerId)
    requires Enabled(s, a) && Ordered(s, w) && a.Read? && s.next <= |s.messages| && s.first <= |s.messages|
    requires !w.recovering
    ensures Ordered(Apply(s, a), w)
  {
    var t := Apply(s, a);
    ReadRaisesFloor(s, a, w);
    StepRecord(s, a);
    hide Rising, Apply, Floor, BatchOk;
    BegunSnoc(s.log, t.log[|s.log|], w);
    RisingWider(Begun(s.log, w), Floor(s, w), Floor(t, w));
  }

  /** Beginning an entry raises the floor past it. */
  lemma BeginRaisesFloor(s: State, w: WorkerId)
    requires Enabled(s, Begin(w)) && BatchOk(s, w)
    ensures var t := Apply(s, Begin(w)); var Handling(batch, pos) := s.phases[w];
      && BatchOk(t, w) && batch[pos] < Floor(t, w) && Floor(s, w) == batch[pos]
      && t.log == s.log + [t.log[|s.log|]]
      && var e := t.log[|s.log|]; (e.Took? || e.Rejected?) && e.worker == w && e.id == batch[pos]
  {
    hide Rising;
    var Handling(batch, pos) := s.phases[w];
    RisingAt(batch, s.next, pos);
  }

  lemma BeginOrdered(s: State, w: WorkerId)
    requires Enabled(s, Begin(w)) && Ordered(s, w)
    ensures Ordered(Apply(s, Begin(w)), w)
  {
    var t := Apply(s, Begin(w));
    var Handling(batch, pos) := s.phases[w];
    BeginRaisesFloor(s, w);
    hide Rising, Apply, Floor, BatchOk;
    BegunSnoc(s.log, t.log[|s.log|], w);
    RisingPush(Begun(s.log, w), batch[pos], Floor(t, w));
  }

  lemma FloorRises(s: State, a: Action, w: WorkerId)
    requires Enabled(s, a) && BatchOk(s, w) && !a.Read? && !w.recovering && !(a.Begin? && a.worker == w)
    ensures BatchOk(Apply(s, a), w) && Floor(s, w) <= Floor(Apply(s, a), w)
  {
  }

  lemma OtherOrdered(s: State, a: Action, w: WorkerId)
    requires Enabled(s, a) && Ordered(s, w) && !a.Read? && !w.recovering && !(a.Begin? && a.worker == w)
    ensures Ordered(Apply(s, a), w)
  {
    var t := Apply(s, a);
    StepRecord(s, a);
    if t.log != s.log {
      BegunSnoc(s.log, t.log[|s.log|], w);
    }
    assert Begun(t.log, w) == Begun(s.log, w);
    FloorRises(s, a, w);
  }

  lemma StepInOrder(s: State, a: Action)
    requires Enabled(s, a) && InOrder(s)
    ensures InOrder(Apply(s, a))
  {
    DeliveredStep(s, a);
    NextBound(s);
    forall w: WorkerId | !w.recovering ensures Ordered(Apply(s, a), w) {
      assert Ordered(s, w);
      if a.Read? {
        ReadOrdered(s, a, w);
      } else if a == Begin(w) {
        BeginOrdered(s, w);
      } else {
        OtherOrdered(s, a, w);
      }
    }
  }

  lemma {:induction false} RunInOrder(s: State, acts: seq<Action>)
    requires Initial(s)
    ensures InOrder(Run(s, acts))
  {
    if acts != [] {
      var n := |acts| - 1;
      RunInOrder(s, acts[..n]);
      if Enabled(Run(s, acts[..n]), acts[n]) {
        StepInOrder(Run(s, acts[..n]), acts[n]);
      }
    }
  }

  /** In every run the deliveries of XREADGROUP, over all consumers, are strictly increasing (so no entry
      is delivered twice), and each consumer's read loop begins to handle its entries in stream order. */
  lemma OrderedFirstDelivery(s: State, acts: seq<Action>, consumer: nat)
    requires Initial(s)
    ensures Increasing(AllDelivered(Run(s, acts).log))
    ensures Increasing(Begun(Run(s, acts).log, WorkerId(consumer, false)))
  {
    RunInOrder(s, acts);
    assert Ordered(Run(s, acts), WorkerId(consumer, false));
  }
}
