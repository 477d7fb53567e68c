/**
 The read loop of `Listen` (`api/events/redis.go`) as a run of the protocol: one reply is handled and acknowledged,
 and a subscriber that starts up gets what is published for its handler.
 */
module EventStreamReading {
  import opened EventStream
  import opened EventStreamRecovery
  import EventStreamSafety

  /** What a read hands out. */
  function Unread(s: State): seq<nat>
    requires s.first <= |s.messages| && s.next <= |s.messages|
  {
    Range(if s.first < s.next then s.next else s.first, |s.messages|)
  }

  lemma InBounds(origin: State, acts: seq<Action>, s: State)
    requires Initial(origin) && Reached(origin, acts, s)
    ensures s.first <= |s.messages| && s.next <= |s.messages| && forall id :: id in s.pending ==> id < s.next
  {
    EventStreamSafety.RunAccounted(origin, acts);
    forall id | id in s.pending ensures id < s.next {
      assert EventStreamSafety.AccountedAt(s, id);
    }
  }

  lemma ReadThenAcked(s: State, w: WorkerId)
    requires s.first <= |s.messages| && s.next <= |s.messages| && forall id :: id in s.pending ==> id < s.next
    ensures var read, ids := ApplyRead(s, w, false), Unread(s);
      && read.phases == s.phases[w := Handling(ids, 0)] && Published(read, ids)
      && read.pending - IdSet(ids) == s.pending
      && IdSet(ids) * read.pending.Keys == IdSet(ids)
  {
    var read, ids := ApplyRead(s, w, false), Unread(s);
    RangeIs(if s.first < s.next then s.next else s.first, |s.messages|);
    assert (read.pending - IdSet(ids)).Keys == s.pending.Keys;
  }

  /** One turn of the read loop, with no step of others in between: everything in the stream that the group was not
      handed yet is handled in order and acknowledged, and nothing else changes. */
  method ReadOnce(s: State, ghost acts: seq<Action>, c: nat, panics: (nat, nat) -> bool, ghost origin: State)
    returns (t: State, ghost acts': seq<Action>)
    requires Initial(origin) && Reached(origin, acts, s)
    requires WorkerId(c, false) in s.phases && s.phases[WorkerId(c, false)].Idle?
    requires s.next < |s.messages| && s.first < |s.messages|
    ensures Reached(origin, acts', t) && s.first <= |s.messages| && s.next <= |s.messages|
    ensures var w, ids := WorkerId(c, false), Unread(s);
      && Published(s, ids)
      && t == s.(next := |s.messages|, acked := s.acked + IdSet(ids),
                 log := s.log + [Delivered(w, ids)] + HandlingLog(s, w, ids, |ids|, panics))
  {
    hide Reached, At, IdSet, HandlingLog, Initial, Unread, ApplyRead;
    var w := WorkerId(c, false);
    InBounds(origin, acts, s);
    ReadThenAcked(s, w);
    var read := Apply(s, Read(c, false));
    ReachedStep(origin, acts, s, Read(c, false));
    t, acts' := HandleMessages(read, acts + [Read(c, false)], w, panics, origin);
    ghost var ids := Unread(s);
    ReadFrame(s, w);
    SameHandling(s, read, w, ids, |ids|, panics);
    ReadResult(s, w, HandlingLog(s, w, ids, |ids|, panics));
  }

  lemma ReadFrame(s: State, w: WorkerId)
    requires s.first <= |s.messages| && s.next <= |s.messages|
    ensures ApplyRead(s, w, false).messages == s.messages && ApplyRead(s, w, false).tables == s.tables
  {
  }

  /** The state after a reply was handled, with the records `rs`, and acknowledged. */
  lemma ReadResult(s: State, w: WorkerId, rs: seq<Record>)
    requires s.first <= |s.messages| && s.next <= |s.messages| && forall id :: id in s.pending ==> id < s.next
    requires w in s.phases && s.phases[w].Idle?
    ensures var read, ids := ApplyRead(s, w, false), Unread(s);
      At(read, w, Idle, rs).(pending := read.pending - IdSet(ids),
                             acked := read.acked + (IdSet(ids) * read.pending.Keys))
      == s.(next := |s.messages|, acked := s.acked + IdSet(ids), log := s.log + [Delivered(w, ids)] + rs)
  {
    ReadThenAcked(s, w);
    assert s.phases[w := Idle] == s.phases;
  }

  /** Handling depends only on the messages and the handlers. */
  lemma {:induction false} SameHandling(s: State, u: State, w: WorkerId, ids: seq<nat>, n: nat,
          panics: (nat, nat) -> bool)
    requires u.messages == s.messages && u.tables == s.tables && n <= |ids| && Published(s, ids)
    ensures Published(u, ids) && HandlingLog(u, w, ids, n, panics) == HandlingLog(s, w, ids, n, panics)
  {
    if n > 0 {
      SameHandling(s, u, w, ids, n - 1, panics);
    }
  }

  /** The steps up to a publication: the consumer starts, and subscribes a handler. */
  function Arrival(c: nat, eventType: string, h: nat): seq<Action> {
    [Start(c), Subscribe(c, eventType, h), Publish(Event(eventType))]
  }

  lemma RunOne(s: State, acts: seq<Action>, a: Action)
    requires Legal(s, acts) && Enabled(Run(s, acts), a)
    ensures Legal(s, acts + [a]) && Run(s, acts + [a]) == Apply(Run(s, acts), a)
  {
    assert (acts + [a])[..|acts|] == acts;
  }

  lemma RunOfThree(s: State, a: Action, b: Action, c: Action)
    requires Enabled(s, a) && Enabled(Apply(s, a), b) && Enabled(Apply(Apply(s, a), b), c)
    ensures Legal(s, [a, b, c]) && Run(s, [a, b, c]) == Apply(Apply(Apply(s, a), b), c)
  {
    assert Legal(s, []) && Run(s, []) == s;
    hide Enabled, Apply, Run, Legal;
    RunOne(s, [], a);
    RunOne(s, [] + [a], b);
    RunOne(s, [] + [a] + [b], c);
    assert [] + [a] + [b] + [c] == [a, b, c];
  }

  lemma Arrived(s: State, c: nat, eventType: string, h: nat)
    requires Initial(s)
    ensures Enabled(s, Start(c)) && Enabled(Apply(s, Start(c)), Subscribe(c, eventType, h))
    ensures var t := Apply(Apply(Apply(s, Start(c)), Subscribe(c, eventType, h)), Publish(Event(eventType)));
      && Legal(s, Arrival(c, eventType, h)) && Run(s, Arrival(c, eventType, h)) == t
      && t.phases == map[WorkerId(c, false) := Idle, WorkerId(c, true) := Idle]
      && t.messages == s.messages + [Event(eventType)] && t.next == |s.messages| && t.first <= |s.messages|
      && Handlers(t.tables, c, eventType) == [h]
      && t.pending == map[] && t.acked == {} && t.log == [Subscribed(c, eventType, h)]
  {
    hide Run, Legal;
    RunOfThree(s, Start(c), Subscribe(c, eventType, h), Publish(Event(eventType)));
  }

  lemma OneHandled(s: State, w: WorkerId, id: nat, eventType: string, h: nat, panics: (nat, nat) -> bool)
    requires id < |s.messages| && s.messages[id] == Event(eventType)
    requires Handlers(s.tables, w.consumer, eventType) == [h]
    ensures HandlingLog(s, w, [id], 1, panics) == [Took(w, id, [h]), Called(w, id, h, panics(id, h))]
    ensures IdSet([id]) == {id}
  {
    assert CallRecords(w, id, [h], 1, panics) == CallRecords(w, id, [h], 0, panics) + [Called(w, id, h, panics(id, h))];
    assert HandlingLog(s, w, [id], 1, panics) == HandlingLog(s, w, [id], 0, panics) + HandlingRecords(s, w, id, panics);
  }

  /** A subscriber that starts on a fresh group and subscribes a handler has it called once for an event of its type
      published then, whether or not it panics, and the event is acknowledged; its two loops are idle again. */
  method StartAndReceive(s: State, c: nat, eventType: string, h: nat, panics: (nat, nat) -> bool)
    returns (t: State, ghost acts: seq<Action>)
    requires Initial(s)
    ensures Reached(s, acts, t)
    ensures var w, id := WorkerId(c, false), |s.messages|;
      && t.messages == s.messages + [Event(eventType)] && t.acked == {id} && t.pending == map[]
      && t.phases == map[WorkerId(c, false) := Idle, WorkerId(c, true) := Idle]
      && t.log == [Subscribed(c, eventType, h), Delivered(w, [id]), Took(w, id, [h]), Called(w, id, h, panics(id, h))]
  {
    hide Run, Legal, Initial, Handlers, HandlingLog, IdSet;
    Arrived(s, c, eventType, h);
    var arrived := Arrive(s, c, eventType, h);
    assert Unread(arrived) == [|s.messages|];
    OneHandled(arrived, WorkerId(c, false), |s.messages|, eventType, h, panics);
    t, acts := ReadOnce(arrived, Arrival(c, eventType, h), c, panics, s);
  }

  method Arrive(s: State, c: nat, eventType: string, h: nat) returns (t: State)
    requires Initial(s)
    ensures t == Run(s, Arrival(c, eventType, h))
  {
    Arrived(s, c, eventType, h);
    hide Apply, Run;
    t := Apply(Apply(Apply(s, Start(c)), Subscribe(c, eventType, h)), Publish(Event(eventType)));
  }
}
