/**
 The consumer-group protocol of `api/events/redis.go` as a transition system: publishers append to a
 trimmed stream; any number of consumers read, dispatch and acknowledge; each consumer also runs a
 recovery loop that claims entries left pending too long.  A consumer's two loops are two workers.
 Every command to the server is one step, so all interleavings of commands, handler calls, crashes,
 lost replies, subscriptions and clock ticks are runs of the system.

 Entries are numbered in stream order.  `log` records what happened, in order.
 */
module EventStream {

  const MAX_LEN: nat := 2000
  const PAGE: nat := 200
  const THRESHOLD: nat := 1_000_000

  datatype Message = Malformed | Event(eventType: string)

  datatype WorkerId = WorkerId(consumer: nat, recovering: bool)

  datatype Pending = Pending(consumer: nat, deliveredAt: nat)

  datatype Phase =
    | Idle
    | Scanned(ids: seq<nat>)
    | Handling(batch: seq<nat>, pos: nat)
    | Calling(batch: seq<nat>, pos: nat, snapshot: seq<nat>, called: nat)

  datatype Record =
    | Subscribed(consumer: nat, eventType: string, handler: nat)
    | Unsubscribed(consumer: nat, eventType: string, handler: nat)
    | Delivered(worker: WorkerId, ids: seq<nat>)
    | Rejected(worker: WorkerId, id: nat)
    | Took(worker: WorkerId, id: nat, handlers: seq<nat>)
    | Called(worker: WorkerId, id: nat, handler: nat, panicked: bool)

  datatype State = State(
    messages: seq<Message>,
    first: nat,                 // entries below are trimmed
    start: nat,                 // where the group was created
    next: nat,                  // entries below were delivered or passed over
    now: nat,
    pending: map<nat, Pending>,
    acked: set<nat>,
    dropped: set<nat>,          // trimmed while pending and dropped when claimed
    skipped: set<nat>,          // trimmed before any delivery
    started: set<nat>,
    phases: map<WorkerId, Phase>,
    tables: map<(nat, string), seq<nat>>,
    log: seq<Record>)

  datatype Action =
    | Publish(message: Message)
    | Tick(micros: nat)
    | Start(consumer: nat)
    | Crash(consumer: nat)
    | Subscribe(consumer: nat, eventType: string, handler: nat)
    | Unsubscribe(consumer: nat, eventType: string, handler: nat)
    | Read(consumer: nat, lost: bool)
    | Scan(consumer: nat)
    | Claim(consumer: nat, lost: bool)
    | Begin(worker: WorkerId)
    | Call(worker: WorkerId, panics: bool)
    | Ack(worker: WorkerId, lost: bool)

  function Range(lo: nat, hi: nat): seq<nat>
    requires lo <= hi
  {
    seq(hi - lo, i requires 0 <= i => lo + i)
  }

  lemma RangeIs(lo: nat, hi: nat)
    requires lo <= hi
    ensures forall id: nat :: id in Range(lo, hi) <==> lo <= id < hi
  {
    forall id: nat | lo <= id < hi ensures id in Range(lo, hi) {
      assert Range(lo, hi)[id - lo] == id;
    }
  }

  function Minus(v: seq<nat>, x: nat): seq<nat> {
    if v == [] then [] else if v[0] == x then v[1..] else [v[0]] + Minus(v[1..], x)
  }

  function Handlers(tables: map<(nat, string), seq<nat>>, consumer: nat, eventType: string): seq<nat> {
    if (consumer, eventType) in tables then tables[(consumer, eventType)] else []
  }

  /** The `count` smallest pending ids in `[lo, hi)`, in order: what XPENDING - + `count` returns. */
  function Oldest(pending: map<nat, Pending>, lo: nat, hi: nat, count: nat): seq<nat>
    decreases hi - lo
  {
    if hi <= lo || count == 0 then []
    else if lo in pending then [lo] + Oldest(pending, lo + 1, hi, count - 1)
    else Oldest(pending, lo + 1, hi, count)
  }

  /** The ids idle for longer than the threshold. */
  function Stuck(ids: seq<nat>, pending: map<nat, Pending>, now: nat): seq<nat> {
    if ids == [] then []
    else
      var n := |ids| - 1;
      Stuck(ids[..n], pending, now)
      + if ids[n] in pending && now - pending[ids[n]].deliveredAt > THRESHOLD then [ids[n]] else []
  }

  lemma {:induction false} OldestIs(pending: map<nat, Pending>, lo: nat, hi: nat, count: nat)
    ensures forall id: nat :: id in Oldest(pending, lo, hi, count) ==> id in pending && lo <= id < hi
    decreases hi - lo
  {
    if lo < hi && count > 0 {
      OldestIs(pending, lo + 1, hi, if lo in pending then count - 1 else count);
    }
  }

  lemma {:induction false} StuckIs(ids: seq<nat>, pending: map<nat, Pending>, now: nat)
    ensures forall id: nat :: id in Stuck(ids, pending, now) <==>
      id in ids && id in pending && now - pending[id].deliveredAt > THRESHOLD
  {
    if ids != [] {
      StuckIs(ids[..|ids| - 1], pending, now);
    }
  }

  /** The ids XCLAIM hands over: still pending and not trimmed. */
  function Claimable(ids: seq<nat>, s: State): seq<nat> {
    if ids == [] then []
    else if ids[0] in s.pending && s.first <= ids[0] then [ids[0]] + Claimable(ids[1..], s)
    else Claimable(ids[1..], s)
  }

  lemma {:induction false} ClaimableIs(ids: seq<nat>, s: State)
    ensures forall id :: id in Claimable(ids, s) <==> id in ids && id in s.pending && s.first <= id
  {
    if ids != [] {
      ClaimableIs(ids[1..], s);
    }
  }

  ghost predicate Published(s: State, ids: seq<nat>) {
    forall k :: 0 <= k < |ids| ==> ids[k] < |s.messages|
  }

  lemma {:induction false} ClaimablePublished(ids: seq<nat>, s: State)
    requires Published(s, ids)
    ensures Published(s, Claimable(ids, s))
  {
    if ids != [] {
      assert Published(s, ids[1..]);
      ClaimablePublished(ids[1..], s);
    }
  }

  predicate Enabled(s: State, a: Action) {
    match a
    case Publish(_) => true
    case Tick(_) => true
    case Start(c) => c !in s.started
    case Crash(c) => c in s.started
    case Subscribe(c, t, h) => c in s.started && h !in Handlers(s.tables, c, t)
    case Unsubscribe(c, t, h) => c in s.started
    case Read(c, _) => WorkerId(c, false) in s.phases && s.phases[WorkerId(c, false)].Idle? && s.next < |s.messages|
      && s.first < |s.messages|
    case Scan(c) => WorkerId(c, true) in s.phases && s.phases[WorkerId(c, true)].Idle?
    case Claim(c, _) => WorkerId(c, true) in s.phases && s.phases[WorkerId(c, true)].Scanned?
    case Begin(w) => w in s.phases && s.phases[w].Handling? && s.phases[w].pos < |s.phases[w].batch|
      && s.phases[w].batch[s.phases[w].pos] < |s.messages|
    case Call(w, _) => w in s.phases && s.phases[w].Calling? && s.phases[w].called < |s.phases[w].snapshot|
      && s.phases[w].pos < |s.phases[w].batch|
    case Ack(w, _) => w in s.phases && s.phases[w].Handling? && s.phases[w].pos == |s.phases[w].batch|
  }

  /** XADD with MAXLEN 2000. */
  function ApplyPublish(s: State, m: Message): State {
    var s' := s.(messages := s.messages + [m]);
    if |s.messages| + 1 - s.first <= MAX_LEN then s'
    else s'.(first := s.first + 1, skipped := if s.next <= s.first then s.skipped + {s.first} else s.skipped)
  }

  /** XREADGROUP with ">": everything in the stream past the group's last delivered entry. */
  function ApplyRead(s: State, w: WorkerId, lost: bool): State
    requires s.next <= |s.messages| && s.first <= |s.messages|
  {
    var ids := Range(if s.first < s.next then s.next else s.first, |s.messages|);
    s.(next := |s.messages|,
       pending := s.pending + map id | id in ids :: Pending(w.consumer, s.now),
       phases := if lost then s.phases else s.phases[w := Handling(ids, 0)],
       log := s.log + [Delivered(w, ids)])
  }

  function ApplyClaim(s: State, w: WorkerId, lost: bool): State
    requires w in s.phases && s.phases[w].Scanned?
  {
    var ids := s.phases[w].ids;
    var batch := Claimable(ids, s);
    var gone := set id | id in ids && id in s.pending && id < s.first;
    s.(pending := (s.pending - gone) + map id | id in batch :: Pending(w.consumer, s.now),
       dropped := s.dropped + gone,
       phases := s.phases[w := if lost then Idle else Handling(batch, 0)])
  }

  function ApplyBegin(s: State, w: WorkerId): State
    requires Enabled(s, Begin(w))
  {
    var Handling(batch, pos) := s.phases[w];
    var id := batch[pos];
    match s.messages[id]
    case Malformed =>
      s.(phases := s.phases[w := Handling(batch, pos + 1)], log := s.log + [Rejected(w, id)])
    case Event(t) =>
      var hs := Handlers(s.tables, w.consumer, t);
      s.(phases := s.phases[w := if hs == [] then Handling(batch, pos + 1) else Calling(batch, pos, hs, 0)],
         log := s.log + [Took(w, id, hs)])
  }

  /** `safeCall`: a panic is caught, so the next handler is called either way. */
  function ApplyCall(s: State, w: WorkerId, panics: bool): State
    requires Enabled(s, Call(w, panics))
  {
    var Calling(batch, pos, hs, n) := s.phases[w];
    s.(phases := s.phases[w := if n + 1 == |hs| then Handling(batch, pos + 1) else Calling(batch, pos, hs, n + 1)],
       log := s.log + [Called(w, batch[pos], hs[n], panics)])
  }

  function ApplyAck(s: State, w: WorkerId, lost: bool): State
    requires Enabled(s, Ack(w, lost))
  {
    var ids := set id | id in s.phases[w].batch && id in s.pending;
    var s' := s.(phases := s.phases[w := Idle]);
    if lost then s' else s'.(pending := s.pending - ids, acked := s.acked + ids)
  }

  function Apply(s: State, a: Action): State
    requires Enabled(s, a)
  {
    match a
    case Publish(m) => ApplyPublish(s, m)
    case Tick(d) => s.(now := s.now + d)
    case Start(c) =>
      s.(started := s.started + {c}, phases := s.phases[WorkerId(c, false) := Idle][WorkerId(c, true) := Idle])
    case Crash(c) => s.(phases := s.phases - {WorkerId(c, false), WorkerId(c, true)})
    case Subscribe(c, t, h) =>
      s.(tables := s.tables[(c, t) := Handlers(s.tables, c, t) + [h]], log := s.log + [Subscribed(c, t, h)])
    case Unsubscribe(c, t, h) =>
      s.(tables := s.tables[(c, t) := Minus(Handlers(s.tables, c, t), h)], log := s.log + [Unsubscribed(c, t, h)])
    case Read(c, lost) => ApplyRead(s, WorkerId(c, false), lost)
    case Scan(c) =>
      var stuck := Stuck(Oldest(s.pending, 0, |s.messages|, PAGE), s.pending, s.now);
      s.(phases := s.phases[WorkerId(c, true) := if stuck == [] then Idle else Scanned(stuck)])
    case Claim(c, lost) => ApplyClaim(s, WorkerId(c, true), lost)
    case Begin(w) => ApplyBegin(s, w)
    case Call(w, panics) => ApplyCall(s, w, panics)
    case Ack(w, lost) => ApplyAck(s, w, lost)
  }

  /** The group has just been created (at "$") on a stream of any contents. */
  ghost predicate Initial(s: State) {
    && s.first <= |s.messages| && |s.messages| - s.first <= MAX_LEN
    && s.start == s.next == |s.messages|
    && s.pending == map[] && s.acked == {} && s.dropped == {} && s.skipped == {}
    && s.started == {} && s.phases == map[] && s.tables == map[] && s.log == []
  }

  ghost predicate Legal(s: State, acts: seq<Action>)
    decreases |acts|
  {
    acts != [] ==> var n := |acts| - 1; Legal(s, acts[..n]) && Enabled(Run(s, acts[..n]), acts[n])
  }

  ghost function Run(s: State, acts: seq<Action>): State
    decreases |acts|
  {
    if acts == [] then s
    else
      var n := |acts| - 1;
      var t := Run(s, acts[..n]);
      if Enabled(t, acts[n]) then Apply(t, acts[n]) else t
  }

  // ---- What the log says ----

  /** The handlers `consumer` has subscribed to `eventType`, replayed from the log. */
  function TableOf(log: seq<Record>, consumer: nat, eventType: string): seq<nat> {
    if log == [] then []
    else
      var n := |log| - 1;
      var before := TableOf(log[..n], consumer, eventType);
      match log[n]
      case Subscribed(c, t, h) => if c == consumer && t == eventType then before + [h] else before
      case Unsubscribed(c, t, h) => if c == consumer && t == eventType then Minus(before, h) else before
      case _ => before
  }

  /** The handlers `w` called for entry `id`, in order. */
  function Calls(log: seq<Record>, w: WorkerId, id: nat): seq<nat> {
    if log == [] then []
    else
      var n := |log| - 1;
      Calls(log[..n], w, id) + if log[n].Called? && log[n].worker == w && log[n].id == id then [log[n].handler] else []
  }

  /** At position `k` worker `w` took the handlers subscribed to the entry's type at that moment, and
      from there on it called these, in order (calling them all when the prefix is all). */
  ghost predicate TookAt(log: seq<Record>, k: nat, w: WorkerId, id: nat, m: Message, hs: seq<nat>) {
    && k < |log| && log[k] == Took(w, id, hs)
    && m.Event? && hs == TableOf(log[..k], w.consumer, m.eventType)
  }

  /** Some worker's `handleMessages` passed the entry: it found it malformed, or took a snapshot of the
      handlers (perhaps none) and called every one of them in order. */
  ghost predicate HandledAt(log: seq<Record>, k: nat, id: nat, m: Message) {
    && k < |log|
    && match log[k]
       case Rejected(w, i) => i == id && m.Malformed?
       case Took(w, i, hs) => TookAt(log, k, w, id, m, hs) && hs <= Calls(log[k + 1..], w, id)
       case _ => false
  }

  ghost predicate Handled(log: seq<Record>, id: nat, m: Message) {
    exists k: nat :: HandledAt(log, k, id, m)
  }

  /** The entries worker `w` began to handle, in order. */
  function Begun(log: seq<Record>, w: WorkerId): seq<nat> {
    if log == [] then []
    else
      var n := |log| - 1;
      Begun(log[..n], w) + if (log[n].Took? || log[n].Rejected?) && log[n].worker == w then [log[n].id] else []
  }

  ghost predicate Increasing(v: seq<nat>) {
    forall i, j :: 0 <= i < j < |v| ==> v[i] < v[j]
  }
}
