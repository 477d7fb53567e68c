/**
 What becomes of the stream and of each entry, told by the steps of the run alone (`api/events/redis.go`): which entries
 the stream still has, who handles an entry and why, and how it leaves the pending list.
 */
module EventStreamFates {
  import opened EventStream
  import opened EventStreamTiming

  // ---- The stream ----

  /** The messages published, in order. */
  function Published(acts: seq<Action>): seq<Message> {
    if acts == [] then []
    else
      var n := |acts| - 1;
      Published(acts[..n]) + if acts[n].Publish? then [acts[n].message] else []
  }

  lemma StreamStep(t: State, a: Action)
    requires Enabled(t, a)
    ensures var u := Apply(t, a);
      && u.messages == t.messages + (if a.Publish? then [a.message] else [])
      && u.first == if a.Publish? && |t.messages| + 1 - t.first > 2000 then t.first + 1 else t.first
  {
  }

  /** The stream keeps every message published after those it started with, but for all except the last 2000. */
  lemma {:induction false} StreamIs(s: State, acts: seq<Action>)
    requires Initial(s)
    ensures var t := Run(s, acts);
      && t.messages == s.messages + Published(acts)
      && t.first == if |t.messages| <= s.first + 2000 then s.first else |t.messages| - 2000
  {
    if acts != [] {
      var n := |acts| - 1;
      StreamIs(s, acts[..n]);
      if Enabled(Run(s, acts[..n]), acts[n]) {
        StreamStep(Run(s, acts[..n]), acts[n]);
      }
      hide Enabled, Apply;
    }
  }

  // ---- Settling ----

  /** The step acknowledges `id`, which is pending. */
  predicate Acknowledges(s: State, a: Action, id: nat)
    requires Enabled(s, a)
  {
    a.Ack? && !a.lost && id in s.phases[a.worker].batch && id in s.pending
  }

  /** The step claims `id`, which is pending but trimmed. */
  predicate DropsTrimmed(s: State, a: Action, id: nat)
    requires Enabled(s, a)
  {
    a.Claim? && id in s.phases[WorkerId(a.consumer, true)].ids && id in s.pending && id < s.first
  }

  ghost predicate HandedOutAt(s: State, acts: seq<Action>, k: nat, id: nat) {
    k < |acts| && var t := Run(s, acts[..k]); Enabled(t, acts[k]) && HandsOut(t, acts[k], id)
  }

  ghost predicate AcknowledgedAt(s: State, acts: seq<Action>, k: nat, id: nat) {
    k < |acts| && var t := Run(s, acts[..k]); Enabled(t, acts[k]) && Acknowledges(t, acts[k], id)
  }

  ghost predicate DroppedAt(s: State, acts: seq<Action>, k: nat, id: nat) {
    k < |acts| && var t := Run(s, acts[..k]); Enabled(t, acts[k]) && DropsTrimmed(t, acts[k], id)
  }

  lemma AtFront(s: State, acts: seq<Action>, k: nat, id: nat)
    requires k + 1 < |acts|
    ensures var front := acts[..|acts| - 1];
      && (HandedOutAt(s, front, k, id) <==> HandedOutAt(s, acts, k, id))
      && (AcknowledgedAt(s, front, k, id) <==> AcknowledgedAt(s, acts, k, id))
      && (DroppedAt(s, front, k, id) <==> DroppedAt(s, acts, k, id))
  {
    assert acts[..|acts| - 1][..k] == acts[..k];
  }

  /** No step after `k` settled `id`. */
  ghost predicate UnsettledSince(s: State, acts: seq<Action>, k: nat, id: nat) {
    forall j :: k < j < |acts| ==> !AcknowledgedAt(s, acts, j, id) && !DroppedAt(s, acts, j, id)
  }

  ghost predicate Outstanding(s: State, acts: seq<Action>, id: nat) {
    exists k: nat :: HandedOutAt(s, acts, k, id) && UnsettledSince(s, acts, k, id)
  }

  lemma OutstandingSnoc(s: State, acts: seq<Action>, id: nat)
    requires acts != []
    ensures var n := |acts| - 1;
      Outstanding(s, acts, id) <==>
      || HandedOutAt(s, acts, n, id)
      || (Outstanding(s, acts[..n], id) && !AcknowledgedAt(s, acts, n, id) && !DroppedAt(s, acts, n, id))
  {
    var n := |acts| - 1;
    var front := acts[..n];
    hide HandedOutAt, AcknowledgedAt, DroppedAt;
    forall k: nat | k < n
      ensures HandedOutAt(s, front, k, id) <==> HandedOutAt(s, acts, k, id)
      ensures AcknowledgedAt(s, front, k, id) <==> AcknowledgedAt(s, acts, k, id)
      ensures DroppedAt(s, front, k, id) <==> DroppedAt(s, acts, k, id)
    {
      AtFront(s, acts, k, id);
    }
    InRange(s, acts, id);
    InRange(s, front, id);
  }

  lemma InRange(s: State, acts: seq<Action>, id: nat)
    ensures forall k: nat :: HandedOutAt(s, acts, k, id) ==> k < |acts|
    ensures forall k: nat :: AcknowledgedAt(s, acts, k, id) || DroppedAt(s, acts, k, id) ==> k < |acts|
  {
  }

  lemma PendingStep(t: State, a: Action, id: nat)
    requires Enabled(t, a)
    ensures id in Apply(t, a).pending <==>
      HandsOut(t, a, id) || (id in t.pending && !Acknowledges(t, a, id) && !DropsTrimmed(t, a, id))
    ensures id in Apply(t, a).acked <==> id in t.acked || Acknowledges(t, a, id)
    ensures id in Apply(t, a).dropped <==> id in t.dropped || DropsTrimmed(t, a, id)
  {
    if a.Read? {
      RangeIs(if t.first < t.next then t.next else t.first, |t.messages|);
    } else if a.Claim? {
      ClaimableIs(t.phases[WorkerId(a.consumer, true)].ids, t);
    }
  }

  /** An entry is pending exactly if some step handed it out and none has acknowledged or dropped it since. */
  lemma {:induction false} PendingIff(s: State, acts: seq<Action>, id: nat)
    requires Initial(s)
    ensures id in Run(s, acts).pending <==> Outstanding(s, acts, id)
  {
    if acts != [] {
      var n := |acts| - 1;
      PendingIff(s, acts[..n], id);
      OutstandingSnoc(s, acts, id);
      if Enabled(Run(s, acts[..n]), acts[n]) {
        PendingStep(Run(s, acts[..n]), acts[n], id);
      }
    }
  }

  ghost predicate Acknowledged(s: State, acts: seq<Action>, id: nat) {
    exists k: nat :: AcknowledgedAt(s, acts, k, id)
  }

  ghost predicate Dropped(s: State, acts: seq<Action>, id: nat) {
    exists k: nat :: DroppedAt(s, acts, k, id)
  }

  lemma AcknowledgedSnoc(s: State, acts: seq<Action>, id: nat)
    requires acts != []
    ensures var n := |acts| - 1;
      Acknowledged(s, acts, id) <==> Acknowledged(s, acts[..n], id) || AcknowledgedAt(s, acts, n, id)
  {
    var n := |acts| - 1;
    if Acknowledged(s, acts[..n], id) {
      var k: nat :| AcknowledgedAt(s, acts[..n], k, id);
      AtFront(s, acts, k, id);
    }
    if Acknowledged(s, acts, id) {
      var k: nat :| AcknowledgedAt(s, acts, k, id);
      if k < n {
        AtFront(s, acts, k, id);
      }
    }
  }

  lemma DroppedSnoc(s: State, acts: seq<Action>, id: nat)
    requires acts != []
    ensures var n := |acts| - 1; Dropped(s, acts, id) <==> Dropped(s, acts[..n], id) || DroppedAt(s, acts, n, id)
  {
    var n := |acts| - 1;
    if Dropped(s, acts[..n], id) {
      var k: nat :| DroppedAt(s, acts[..n], k, id);
      AtFront(s, acts, k, id);
    }
    if Dropped(s, acts, id) {
      var k: nat :| DroppedAt(s, acts, k, id);
      if k < n {
        AtFront(s, acts, k, id);
      }
    }
  }

  /** An entry counts as acknowledged exactly if a worker whose batch it was in got its acknowledgement through, and as
      dropped exactly if a claim found it trimmed. */
  lemma {:induction false} SettledIff(s: State, acts: seq<Action>, id: nat)
    requires Initial(s)
    ensures id in Run(s, acts).acked <==> Acknowledged(s, acts, id)
    ensures id in Run(s, acts).dropped <==> Dropped(s, acts, id)
  {
    if acts != [] {
      var n := |acts| - 1;
      SettledIff(s, acts[..n], id);
      AcknowledgedSnoc(s, acts, id);
      DroppedSnoc(s, acts, id);
      if Enabled(Run(s, acts[..n]), acts[n]) {
        PendingStep(Run(s, acts[..n]), acts[n], id);
      }
      hide Acknowledged, Dropped, Apply, Acknowledges, DropsTrimmed;
    }
  }

  // ---- Why a worker handles an entry ----

  /** The step hands a batch to worker `w`, and the worker gets the reply. */
  predicate Hands(a: Action, w: WorkerId) {
    a == if w.recovering then Claim(w.consumer, false) else Read(w.consumer, false)
  }

  /** Step `k` handed the worker just the entries of `batch`, in stream order. */
  ghost predicate BatchFrom(s: State, acts: seq<Action>, k: nat, w: WorkerId, batch: seq<nat>) {
    && k < |acts| && Hands(acts[k], w) && Increasing(batch)
    && forall id: nat :: id in batch <==> HandedOutAt(s, acts, k, id)
  }

  ghost predicate WorkerHasReason(s: State, acts: seq<Action>, w: WorkerId) {
    var t := Run(s, acts);
    w in t.phases ==>
      match t.phases[w]
      case Idle => true
      case Scanned(ids) => w.recovering && Increasing(ids)
      case Handling(batch, _) => exists k: nat :: BatchFrom(s, acts, k, w, batch)
      case Calling(batch, _, _, _) => exists k: nat :: BatchFrom(s, acts, k, w, batch)
  }

  lemma BatchStays(s: State, acts: seq<Action>, a: Action, k: nat, w: WorkerId, batch: seq<nat>)
    requires BatchFrom(s, acts, k, w, batch)
    ensures BatchFrom(s, acts + [a], k, w, batch)
  {
    assert (acts + [a])[..|acts|] == acts && (acts + [a])[..k] == acts[..k];
    forall id: nat ensures HandedOutAt(s, acts + [a], k, id) <==> HandedOutAt(s, acts, k, id) {
    }
  }

  lemma {:induction false} ClaimableRises(ids: seq<nat>, s: State)
    requires Increasing(ids)
    ensures Increasing(Claimable(ids, s))
  {
    if ids != [] {
      var rest := Claimable(ids[1..], s);
      ClaimableRises(ids[1..], s);
      ClaimableIs(ids[1..], s);
      forall k | 0 <= k < |rest| ensures ids[0] < rest[k] {
        assert rest[k] in rest;
        var j :| 0 <= j < |ids| - 1 && ids[1..][j] == rest[k];
        assert ids[j + 1] == rest[k];
      }
    }
  }

  lemma ScannedRises(t: State, c: nat)
    requires Enabled(t, Scan(c))
    ensures Increasing(Taken(Apply(t, Scan(c)), c))
  {
    TakenIs(t, c);
    PageRises(t.pending, 0, |t.messages|, PAGE);
    StuckRises(Oldest(t.pending, 0, |t.messages|, PAGE), t.pending, t.now);
  }

  /** The batch that the step puts worker `w` to work on. */
  lemma HandedBatch(s: State, acts: seq<Action>, a: Action, w: WorkerId)
    requires var t := Run(s, acts); Enabled(t, a) && Hands(a, w) && WorkerHasReason(s, acts, w)
    ensures var u := Apply(Run(s, acts), a);
      w in u.phases && u.phases[w].Handling? && BatchFrom(s, acts + [a], |acts|, w, u.phases[w].batch)
  {
    var t := Run(s, acts);
    var batch := Apply(t, a).phases[w].batch;
    assert (acts + [a])[..|acts|] == acts;
    if a.Read? {
      var from := if t.first < t.next then t.next else t.first;
      RangeIs(from, |t.messages|);
      assert batch == Range(from, |t.messages|);
      assert forall id: nat :: id in batch <==> HandsOut(t, a, id);
    } else {
      ClaimableIs(t.phases[w].ids, t);
      ClaimableRises(t.phases[w].ids, t);
      assert forall id: nat :: id in batch <==> HandsOut(t, a, id);
    }
    forall id: nat ensures id in batch <==> HandedOutAt(s, acts + [a], |acts|, id) {
    }
  }

  /** A step that hands the worker nothing leaves its batch alone, or takes it away. */
  lemma KeepsBatch(t: State, a: Action, w: WorkerId)
    requires Enabled(t, a) && !Hands(a, w) && w in Apply(t, a).phases
    ensures var p := Apply(t, a).phases[w];
      && (p.Scanned? ==> (w in t.phases && t.phases[w] == p) || (a == Scan(w.consumer) && w.recovering))
      && (p.Handling? || p.Calling? ==>
            w in t.phases && (t.phases[w].Handling? || t.phases[w].Calling?) && t.phases[w].batch == p.batch)
  {
  }

  lemma ReasonStep(s: State, acts: seq<Action>, a: Action, w: WorkerId)
    requires Enabled(Run(s, acts), a) && WorkerHasReason(s, acts, w)
    ensures Run(s, acts + [a]) == Apply(Run(s, acts), a)
    ensures WorkerHasReason(s, acts + [a], w)
  {
    var t := Run(s, acts);
    var u := Apply(t, a);
    assert (acts + [a])[..|acts|] == acts;
    if w in u.phases {
      if Hands(a, w) {
        HandedBatch(s, acts, a, w);
      } else {
        KeepsBatch(t, a, w);
        hide Apply, BatchFrom, Enabled;
        if u.phases[w].Scanned? && a == Scan(w.consumer) {
          ScannedRises(t, w.consumer);
        } else if u.phases[w].Handling? || u.phases[w].Calling? {
          var k: nat :| BatchFrom(s, acts, k, w, u.phases[w].batch);
          BatchStays(s, acts, a, k, w, u.phases[w].batch);
        }
      }
    }
  }

  lemma {:induction false} RunHasReason(s: State, acts: seq<Action>, w: WorkerId)
    requires Initial(s) && Legal(s, acts)
    ensures WorkerHasReason(s, acts, w)
  {
    if acts != [] {
      var n := |acts| - 1;
      assert acts == acts[..n] + [acts[n]];
      RunHasReason(s, acts[..n], w);
      ReasonStep(s, acts[..n], acts[n], w);
    }
  }

  /** A worker begins only entries that a read of its own, or for a recovery loop a claim, handed out and whose reply it
      got; its whole batch is what that step handed out, in stream order. */
  lemma BegunFrom(s: State, acts: seq<Action>, w: WorkerId)
    requires Initial(s) && Legal(s, acts) && Enabled(Run(s, acts), Begin(w))
    ensures exists k: nat :: BatchFrom(s, acts, k, w, Run(s, acts).phases[w].batch)
  {
    RunHasReason(s, acts, w);
  }

  // ---- Crashes ----

  /** A step of one of the two loops of consumer `c`. */
  predicate OfLoops(a: Action, c: nat) {
    || ((a.Read? || a.Scan? || a.Claim?) && a.consumer == c)
    || ((a.Begin? || a.Call? || a.Ack?) && a.worker.consumer == c)
  }

  ghost predicate Gone(t: State, c: nat) {
    c in t.started && WorkerId(c, false) !in t.phases && WorkerId(c, true) !in t.phases
  }

  lemma GoneStays(t: State, a: Action, c: nat)
    requires Enabled(t, a) && (Gone(t, c) || a == Crash(c))
    ensures Gone(Apply(t, a), c) && (Gone(t, c) ==> !OfLoops(a, c))
  {
  }

  lemma {:induction false} GoneAfterCrash(s: State, acts: seq<Action>, c: nat, k: nat)
    requires Legal(s, acts) && k < |acts| && acts[k] == Crash(c)
    ensures Gone(Run(s, acts), c)
  {
    var n := |acts| - 1;
    if k < n {
      GoneAfterCrash(s, acts[..n], c, k);
    }
    GoneStays(Run(s, acts[..n]), acts[n], c);
  }

  /** After a crash neither loop of the consumer does anything more. */
  lemma CrashSilences(s: State, acts: seq<Action>, c: nat, k: nat, j: nat)
    requires Legal(s, acts) && k < j < |acts| && acts[k] == Crash(c)
    ensures !OfLoops(acts[j], c)
  {
    LegalPrefix(s, acts, j + 1);
    assert acts[..j + 1][..j] == acts[..j] && acts[..j + 1][j] == acts[j];
    GoneAfterCrash(s, acts[..j], c, k);
    GoneStays(Run(s, acts[..j]), acts[j], c);
  }

  lemma {:induction false} LegalPrefix(s: State, acts: seq<Action>, n: nat)
    requires Legal(s, acts) && n <= |acts|
    ensures Legal(s, acts[..n])
    decreases |acts|
  {
    if n < |acts| {
      LegalPrefix(s, acts[..|acts| - 1], n);
      assert acts[..|acts| - 1][..n] == acts[..n];
    } else {
      assert acts[..n] == acts;
    }
  }
}
