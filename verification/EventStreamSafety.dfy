/**
 What every run of the consumer-group protocol keeps, by induction over its steps.
 */
module EventStreamSafety {
  import opened EventStream

  // ---- Where every entry is ----

  ghost predicate Bounds(s: State) {
    && s.first <= |s.messages| <= s.first + MAX_LEN
    && s.start <= s.next <= |s.messages|
  }

  function Count(b: bool): nat { if b then 1 else 0 }

  /** How many of the four sets `id` is in. */
  function Places(s: State, id: nat): nat {
    Count(id in s.pending) + Count(id in s.acked) + Count(id in s.dropped) + Count(id in s.skipped)
  }

  /** An entry past the group's start and up to the last delivered one is in exactly one place;
      later ones are nowhere, or already trimmed unseen. */
  predicate AccountedAt(s: State, id: nat) {
    && (id in s.dropped || id in s.skipped ==> id < s.first)
    && if id < s.start then Places(s, id) == 0
       else if id < s.next then Places(s, id) == 1
       else Places(s, id) == Count(id < s.first) && (id in s.skipped <==> id < s.first)
  }

  ghost predicate Accounted(s: State) {
    forall id: nat :: AccountedAt(s, id)
  }

  lemma InitialAccounted(s: State)
    requires Initial(s)
    ensures Bounds(s) && Accounted(s)
  {
  }

  lemma ReadAccounted(s: State, w: WorkerId, lost: bool)
    requires Bounds(s) && Accounted(s) && s.next < |s.messages| && s.first < |s.messages|
    ensures Bounds(ApplyRead(s, w, lost)) && Accounted(ApplyRead(s, w, lost))
  {
    var s' := ApplyRead(s, w, lost);
    var from := if s.first < s.next then s.next else s.first;
    RangeIs(from, |s.messages|);
    forall id: nat ensures AccountedAt(s', id) {
      assert AccountedAt(s, id);
      assert id in s'.pending <==> id in s.pending || from <= id < |s.messages|;
    }
  }

  lemma ClaimAccounted(s: State, w: WorkerId, lost: bool)
    requires Bounds(s) && Accounted(s) && w in s.phases && s.phases[w].Scanned?
    ensures Bounds(ApplyClaim(s, w, lost)) && Accounted(ApplyClaim(s, w, lost))
  {
    var s' := ApplyClaim(s, w, lost);
    var ids := s.phases[w].ids;
    ClaimableIs(ids, s);
    forall id: nat ensures AccountedAt(s', id) {
      assert AccountedAt(s, id);
      assert id in s'.pending <==> id in s.pending && !(id in ids && id < s.first);
      assert id in s'.dropped <==> id in s.dropped || (id in s.pending && id in ids && id < s.first);
    }
  }

  lemma AckAccounted(s: State, w: WorkerId, lost: bool)
    requires Bounds(s) && Accounted(s) && Enabled(s, Ack(w, lost))
    ensures Bounds(ApplyAck(s, w, lost)) && Accounted(ApplyAck(s, w, lost))
  {
    forall id: nat ensures AccountedAt(ApplyAck(s, w, lost), id) {
      assert AccountedAt(s, id);
    }
  }

  lemma PublishAccounted(s: State, m: Message)
    requires Bounds(s) && Accounted(s)
    ensures Bounds(ApplyPublish(s, m)) && Accounted(ApplyPublish(s, m))
  {
    forall id: nat ensures AccountedAt(ApplyPublish(s, m), id) {
      assert AccountedAt(s, id);
    }
  }

  ghost predicate SamePlaces(s: State, s': State) {
    && s'.messages == s.messages && s'.first == s.first && s'.start == s.start && s'.next == s.next
    && s'.pending == s.pending && s'.acked == s.acked && s'.dropped == s.dropped && s'.skipped == s.skipped
  }

  predicate Moves(a: Action) {
    a.Publish? || a.Read? || a.Claim? || a.Ack?
  }

  lemma OtherStepsMoveNothing(s: State, a: Action)
    requires Enabled(s, a) && !Moves(a)
    ensures SamePlaces(s, Apply(s, a))
  {
  }

  lemma SamePlacesAccounted(s: State, s': State)
    requires Bounds(s) && Accounted(s) && SamePlaces(s, s')
    ensures Bounds(s') && Accounted(s')
  {
    forall id: nat ensures AccountedAt(s', id) {
      assert AccountedAt(s, id);
    }
  }

  lemma StepAccounted(s: State, a: Action)
    requires Enabled(s, a) && Bounds(s) && Accounted(s)
    ensures Bounds(Apply(s, a)) && Accounted(Apply(s, a))
  {
    match a
    case Publish(m) => PublishAccounted(s, m);
    case Read(c, lost) => ReadAccounted(s, WorkerId(c, false), lost);
    case Claim(c, lost) => ClaimAccounted(s, WorkerId(c, true), lost);
    case Ack(w, lost) => AckAccounted(s, w, lost);
    case _ =>
      OtherStepsMoveNothing(s, a);
      SamePlacesAccounted(s, Apply(s, a));
  }

  lemma {:induction false} RunAccounted(s: State, acts: seq<Action>)
    requires Initial(s)
    ensures Bounds(Run(s, acts)) && Accounted(Run(s, acts))
  {
    if acts == [] {
      InitialAccounted(s);
    } else {
      var n := |acts| - 1;
      RunAccounted(s, acts[..n]);
      if Enabled(Run(s, acts[..n]), acts[n]) {
        StepAccounted(Run(s, acts[..n]), acts[n]);
      }
    }
  }

  /** No silent loss: in every run, each entry published since the group was created and up to the last
      delivered one is exactly one of pending, acknowledged, dropped at a claim after being trimmed, or
      trimmed before it was ever delivered; and whatever left the stream unacknowledged was trimmed. */
  lemma NoSilentLoss(s: State, acts: seq<Action>, id: nat)
    requires Initial(s)
    ensures var t := Run(s, acts);
      && (t.start <= id < t.next ==> Places(t, id) == 1)
      && (id in t.pending || id in t.acked || id in t.dropped ==> t.start <= id < t.next)
      && (id in t.dropped || id in t.skipped ==> t.start <= id < t.first)
      && |t.messages| <= t.first + MAX_LEN
  {
    RunAccounted(s, acts);
    assert AccountedAt(Run(s, acts), id);
  }

  /** The entries in the stream that the group has not been handed yet. */
  function Undelivered(s: State): int {
    |s.messages| - if s.first < s.next then s.next else s.first
  }

  predicate BacklogFull(s: State) {
    Undelivered(s) >= MAX_LEN
  }

  ghost predicate PublishedOnFullBacklog(s: State, acts: seq<Action>) {
    exists k: nat :: 0 <= k < |acts| && acts[k].Publish? && BacklogFull(Run(s, acts[..k]))
  }

  lemma PublishedSnoc(s: State, acts: seq<Action>)
    requires acts != []
    ensures var n := |acts| - 1;
      PublishedOnFullBacklog(s, acts) <==>
        PublishedOnFullBacklog(s, acts[..n]) || (acts[n].Publish? && BacklogFull(Run(s, acts[..n])))
  {
    var n := |acts| - 1;
    assert forall k :: 0 <= k <= n ==> acts[..n][..k] == acts[..k];
    if PublishedOnFullBacklog(s, acts) {
      var k: nat :| 0 <= k < |acts| && acts[k].Publish? && BacklogFull(Run(s, acts[..k]));
      assert k < n ==> acts[..n][k].Publish? && BacklogFull(Run(s, acts[..n][..k]));
    }
    if PublishedOnFullBacklog(s, acts[..n]) {
      var k: nat :| 0 <= k < n && acts[..n][k].Publish? && BacklogFull(Run(s, acts[..n][..k]));
      assert acts[k].Publish? && BacklogFull(Run(s, acts[..k]));
    }
  }

  /** Entries are lost undelivered in exactly the runs that publish while 2000 entries await delivery. */
  lemma {:induction false} SkippedIff(s: State, acts: seq<Action>)
    requires Initial(s)
    ensures Run(s, acts).skipped != {} <==> PublishedOnFullBacklog(s, acts)
  {
    if acts != [] {
      var n := |acts| - 1;
      SkippedIff(s, acts[..n]);
      RunAccounted(s, acts[..n]);
      PublishedSnoc(s, acts);
      var t := Run(s, acts[..n]);
      if Enabled(t, acts[n]) {
        SkippedStep(t, acts[n]);
        assert Run(s, acts) == Apply(t, acts[n]);
      } else {
        assert Run(s, acts) == t;
      }
    } else {
      assert Run(s, acts) == s;
    }
  }

  lemma SkippedStep(t: State, a: Action)
    requires Bounds(t) && Enabled(t, a)
    ensures Apply(t, a).skipped != {} <==> t.skipped != {} || (a.Publish? && BacklogFull(t))
  {
  }

  /** It does happen: 2001 publications without a reader lose the first entry. */
  lemma {:induction false} Publications(s: State, n: nat)
    requires Initial(s) && s.messages == []
    ensures var t := Run(s, seq(n, _ => Publish(Malformed)));
      |t.messages| == n && t.next == 0 && t.start == 0
      && (n > MAX_LEN ==> 0 in t.skipped)
  {
    var acts := seq(n, _ => Publish(Malformed));
    if n > 0 {
      Publications(s, n - 1);
      assert acts[..n - 1] == seq(n - 1, _ => Publish(Malformed));
      RunAccounted(s, acts);
      assert AccountedAt(Run(s, acts), 0);
    }
  }
}
