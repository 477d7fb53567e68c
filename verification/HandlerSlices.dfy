/**
 The slice a dispatch ranges over while the table it came from is edited (`api/events/bus.go`): which handlers the
 loop meets, and when it meets just those that were subscribed when it started.
 */
module HandlerSlices {
  import opened GoSlice

  /** A `*HandlerInstance`: its address, which no other instance shares, and the function it points to. */
  datatype HandlerInstance = HandlerInstance(address: nat, handler: nat)

  type Instances = seq<HandlerInstance>

  datatype Subscription = Subscription(eventType: string, instance: HandlerInstance)

  /** What another goroutine, or a handler, does to the table between two calls. */
  datatype Interference = Subscribing(eventType: string, handler: nat) | Unsubscribing(sub: Subscription)

  /** No instance occurs twice. */
  ghost predicate Distinct(v: Instances) {
    forall i, j :: 0 <= i < j < |v| ==> v[i] != v[j]
  }

  ghost predicate AllBelow(v: Instances, bound: nat) {
    forall h :: h in v ==> h.address < bound
  }

  /** The array behind the slice that the loop took. While `shared`, the table's own slice of the type is its first
      `len` cells; after an `append` that did not fit it lies elsewhere. `next` is the next address handed out. */
  datatype Live = Live(cells: Instances, len: nat, shared: bool, next: nat) {
    ghost predicate Valid() { len <= |cells| }
  }

  /** The first position below `len` that holds `x`, or `len`. */
  function Position(cells: Instances, len: nat, x: HandlerInstance): (i: nat)
    requires len <= |cells|
    ensures i <= len && (i < len ==> cells[i] == x)
    ensures forall k :: 0 <= k < i ==> cells[k] != x
  {
    if len == 0 then 0
    else
      var i := Position(cells, len - 1, x);
      if i < len - 1 then i else if cells[len - 1] == x then len - 1 else len
  }

  /** `i` is where `v` first holds `x`, or its length. */
  predicate IsPosition(v: Instances, x: HandlerInstance, i: nat) {
    i <= |v| && (i < |v| ==> v[i] == x) && forall k :: 0 <= k < i ==> v[k] != x
  }

  lemma PositionIs(cells: Instances, len: nat, x: HandlerInstance, i: nat)
    requires i <= len <= |cells| && (i < len ==> cells[i] == x) && forall k :: 0 <= k < i ==> cells[k] != x
    ensures Position(cells, len, x) == i
  {
    var p := Position(cells, len, x);
    assert p <= i;
  }

  /** What an edit of the table does to the array. */
  function Edit(m: Live, t: string, op: Interference): (r: Live)
    requires m.Valid()
    ensures r.Valid() && |r.cells| == |m.cells|
  {
    match op
    case Subscribing(u, h) =>
      var w := m.(next := m.next + 1);
      if u != t || !m.shared then w
      else if m.len < |m.cells| then w.(cells := m.cells[m.len := HandlerInstance(m.next, h)], len := m.len + 1)
      else w.(shared := false)
    case Unsubscribing(sub) =>
      var i := Position(m.cells, m.len, sub.instance);
      if sub.eventType != t || !m.shared || i == m.len then m
      else m.(cells := Shift(m.cells, i, m.len), len := m.len - 1)
  }

  /** The removal of the instance at `at` of `v`, the slice of its type. */
  lemma RemovalIs(m: Live, t: string, sub: Subscription, v: Instances, at: nat)
    requires m.Valid() && (sub.eventType == t && m.shared ==> v == m.cells[..m.len])
    requires IsPosition(v, sub.instance, at)
    ensures sub.eventType == t && m.shared ==> |v| == m.len
    ensures Edit(m, t, Unsubscribing(sub)) ==
      if sub.eventType == t && m.shared && at < |v| then m.(cells := Shift(m.cells, at, m.len), len := m.len - 1) else m
  {
    if sub.eventType == t && m.shared {
      assert forall k :: 0 <= k < |v| ==> v[k] == m.cells[k];
      PositionIs(m.cells, m.len, sub.instance, at);
    }
  }

  /** The edit writes position `pos`: an `append` the end of the table's slice, a removal everything it moves. */
  predicate Writes(m: Live, t: string, op: Interference, pos: nat)
    requires m.Valid()
  {
    m.shared && match op
      case Subscribing(u, _) => u == t && m.len < |m.cells| && pos == m.len
      case Unsubscribing(sub) => sub.eventType == t && Position(m.cells, m.len, sub.instance) <= pos && pos + 1 < m.len
  }

  function Edits(m: Live, t: string, ops: seq<Interference>, n: nat): (r: Live)
    requires m.Valid() && n <= |ops|
    ensures r.Valid() && |r.cells| == |m.cells|
  {
    if n == 0 then m else Edit(Edits(m, t, ops, n - 1), t, ops[n - 1])
  }

  predicate SomeWrites(m: Live, t: string, ops: seq<Interference>, n: nat, pos: nat)
    requires m.Valid() && n <= |ops|
  {
    n > 0 && (SomeWrites(m, t, ops, n - 1, pos) || Writes(Edits(m, t, ops, n - 1), t, ops[n - 1], pos))
  }

  /** What is done to the table just before call `k`. */
  function Batch(env: seq<seq<Interference>>, k: nat): seq<Interference> {
    if k < |env| then env[k] else []
  }

  /** The array after the first `k` batches. */
  function AfterBatches(m: Live, t: string, env: seq<seq<Interference>>, k: nat): (r: Live)
    requires m.Valid()
    ensures r.Valid() && |r.cells| == |m.cells|
  {
    if k == 0 then m else Edits(AfterBatches(m, t, env, k - 1), t, Batch(env, k - 1), |Batch(env, k - 1)|)
  }

  /** Some edit of the first `k` batches wrote position `pos`. */
  predicate Written(m: Live, t: string, env: seq<seq<Interference>>, k: nat, pos: nat)
    requires m.Valid()
  {
    k > 0 && (Written(m, t, env, k - 1, pos)
      || SomeWrites(AfterBatches(m, t, env, k - 1), t, Batch(env, k - 1), |Batch(env, k - 1)|, pos))
  }

  /** The instances called by a loop over a slice of length `n`. */
  function Reads(m: Live, t: string, env: seq<seq<Interference>>, n: nat): (r: Instances)
    requires m.Valid() && n <= |m.cells|
    ensures |r| == n
  {
    seq(n, k requires 0 <= k < n => AfterBatches(m, t, env, k + 1).cells[k])
  }

  lemma ReadsNext(m: Live, t: string, env: seq<seq<Interference>>, k: nat)
    requires m.Valid() && k < |m.cells|
    ensures Reads(m, t, env, k + 1) == Reads(m, t, env, k) + [AfterBatches(m, t, env, k + 1).cells[k]]
  {
    hide AfterBatches;
  }

  // ---- What the edits make of the table ----

  /** What is subscribed to each type, in order, and the next address. */
  datatype Book = Book(contents: map<string, Instances>, next: nat)

  function In(b: Book, t: string): Instances {
    if t in b.contents then b.contents[t] else []
  }

  function EditBook(b: Book, op: Interference): Book {
    match op
    case Subscribing(t, h) => Book(b.contents[t := In(b, t) + [HandlerInstance(b.next, h)]], b.next + 1)
    case Unsubscribing(sub) =>
      var v := In(b, sub.eventType);
      var i := Position(v, |v|, sub.instance);
      if i == |v| then b else b.(contents := b.contents[sub.eventType := Without(v, i)])
  }

  function EditsBook(b: Book, ops: seq<Interference>, n: nat): Book
    requires n <= |ops|
  {
    if n == 0 then b else EditBook(EditsBook(b, ops, n - 1), ops[n - 1])
  }

  /** The table after the first `k` batches. */
  function BatchesBook(b: Book, env: seq<seq<Interference>>, k: nat): Book {
    if k == 0 then b else EditsBook(BatchesBook(b, env, k - 1), Batch(env, k - 1), |Batch(env, k - 1)|)
  }

  /** The removal of the instance at `at` of what is subscribed to its type. */
  lemma BookWithout(b: Book, sub: Subscription, at: nat)
    requires IsPosition(In(b, sub.eventType), sub.instance, at)
    ensures EditBook(b, Unsubscribing(sub)) ==
      if at == |In(b, sub.eventType)| then b
      else b.(contents := b.contents[sub.eventType := Without(In(b, sub.eventType), at)])
  {
    PositionIs(In(b, sub.eventType), |In(b, sub.eventType)|, sub.instance, at);
  }

  // ---- A written cell never gets its instance back ----

  /** The instances `v` the loop started with have been issued, and none has moved up. */
  ghost predicate NoneMovedUp(m: Live, v: Instances) {
    && m.Valid() && |v| <= |m.cells| && AllBelow(v, m.next)
    && forall j, k :: 0 <= j < |v| && j < k < m.len ==> m.cells[k] != v[j]
  }

  lemma EditKeeps(m: Live, t: string, op: Interference, v: Instances, pos: nat)
    requires NoneMovedUp(m, v) && pos < |v|
    ensures NoneMovedUp(Edit(m, t, op), v)
    ensures if Writes(m, t, op, pos) then Edit(m, t, op).cells[pos] != v[pos]
      else Edit(m, t, op).cells[pos] == m.cells[pos]
  {
    assert forall j :: 0 <= j < |v| ==> v[j] in v;
  }

  lemma {:induction false} EditsKeep(m: Live, t: string, ops: seq<Interference>, n: nat, v: Instances, pos: nat)
    requires NoneMovedUp(m, v) && pos < |v| && n <= |ops|
    ensures NoneMovedUp(Edits(m, t, ops, n), v)
    ensures Edits(m, t, ops, n).cells[pos] == v[pos] <==> m.cells[pos] == v[pos] && !SomeWrites(m, t, ops, n, pos)
  {
    if n > 0 {
      EditsKeep(m, t, ops, n - 1, v, pos);
      EditKeeps(Edits(m, t, ops, n - 1), t, ops[n - 1], v, pos);
    }
  }

  lemma {:induction false} BatchesKeep(m: Live, t: string, env: seq<seq<Interference>>, k: nat, v: Instances, pos: nat)
    requires NoneMovedUp(m, v) && pos < |v| && m.cells[pos] == v[pos]
    ensures NoneMovedUp(AfterBatches(m, t, env, k), v)
    ensures AfterBatches(m, t, env, k).cells[pos] == v[pos] <==> !Written(m, t, env, k, pos)
  {
    if k > 0 {
      BatchesKeep(m, t, env, k - 1, v, pos);
      EditsKeep(AfterBatches(m, t, env, k - 1), t, Batch(env, k - 1), |Batch(env, k - 1)|, v, pos);
    }
  }

  /** Some edit before call `k` wrote the position that call reads. */
  predicate Spoilt(m: Live, t: string, env: seq<seq<Interference>>, k: nat)
    requires m.Valid()
  {
    Written(m, t, env, k + 1, k)
  }

  lemma SpoiltIff(m: Live, t: string, env: seq<seq<Interference>>, k: nat)
    requires m.Valid() && Distinct(m.cells[..m.len]) && AllBelow(m.cells[..m.len], m.next) && k < m.len
    ensures Reads(m, t, env, m.len)[k] == m.cells[..m.len][k] <==> !Spoilt(m, t, env, k)
  {
    var v := m.cells[..m.len];
    forall j, k | 0 <= j < |v| && j < k < m.len ensures m.cells[k] != v[j] {
      assert v[k] == m.cells[k];
    }
    BatchesKeep(m, t, env, k + 1, v, k);
  }

  /** The loop calls just the handlers subscribed when it started, once each and in order, if and only if no edit before
      a call wrote the position that call reads, whatever is subscribed and unsubscribed in between. */
  lemma UnnoticedIff(m: Live, t: string, env: seq<seq<Interference>>)
    requires m.Valid() && Distinct(m.cells[..m.len]) && AllBelow(m.cells[..m.len], m.next)
    ensures Reads(m, t, env, m.len) == m.cells[..m.len] <==> forall k: nat :: k < m.len ==> !Spoilt(m, t, env, k)
  {
    hide Spoilt, Reads;
    var r, v := Reads(m, t, env, m.len), m.cells[..m.len];
    forall k: nat | k < m.len ensures r[k] == v[k] <==> !Spoilt(m, t, env, k) {
      SpoiltIff(m, t, env, k);
    }
    assert r == v <==> forall k: nat :: k < m.len ==> r[k] == v[k];
  }

  // ---- Subscriptions alone ----

  ghost predicate OnlySubscribing(env: seq<seq<Interference>>) {
    forall k, j :: 0 <= k < |env| && 0 <= j < |env[k]| ==> env[k][j].Subscribing?
  }

  lemma {:induction false} EditsGrow(m: Live, t: string, ops: seq<Interference>, n: nat, pos: nat)
    requires m.Valid() && n <= |ops| && pos < m.len && forall j :: 0 <= j < |ops| ==> ops[j].Subscribing?
    ensures m.len <= Edits(m, t, ops, n).len && !SomeWrites(m, t, ops, n, pos)
  {
    if n > 0 {
      EditsGrow(m, t, ops, n - 1, pos);
    }
  }

  lemma {:induction false} BatchesGrow(m: Live, t: string, env: seq<seq<Interference>>, k: nat, pos: nat)
    requires m.Valid() && OnlySubscribing(env) && pos < m.len
    ensures m.len <= AfterBatches(m, t, env, k).len && !Written(m, t, env, k, pos)
  {
    if k > 0 {
      BatchesGrow(m, t, env, k - 1, pos);
      EditsGrow(AfterBatches(m, t, env, k - 1), t, Batch(env, k - 1), |Batch(env, k - 1)|, pos);
    }
  }

  /** Subscriptions are never noticed. */
  lemma SubscribingUnnoticed(m: Live, t: string, env: seq<seq<Interference>>)
    requires m.Valid() && Distinct(m.cells[..m.len]) && AllBelow(m.cells[..m.len], m.next) && OnlySubscribing(env)
    ensures Reads(m, t, env, m.len) == m.cells[..m.len]
  {
    forall k: nat | k < m.len ensures !Spoilt(m, t, env, k) {
      BatchesGrow(m, t, env, k + 1, k);
    }
    UnnoticedIff(m, t, env);
  }

  // ---- One removal alone ----

  /** `sub` is unsubscribed just before call `at`, and nothing else happens. */
  ghost predicate OneRemoval(env: seq<seq<Interference>>, sub: Subscription, at: nat) {
    && at < |env| && env[at] == [Unsubscribing(sub)]
    && forall k: nat :: k < |env| && k != at ==> env[k] == []
  }

  lemma {:induction false} BatchesOneRemoval(m: Live, env: seq<seq<Interference>>, sub: Subscription, at: nat, k: nat)
    requires m.Valid() && OneRemoval(env, sub, at)
    ensures AfterBatches(m, sub.eventType, env, k) == if k <= at then m else Edit(m, sub.eventType, Unsubscribing(sub))
  {
    if k > 0 {
      var t, before, ops := sub.eventType, AfterBatches(m, sub.eventType, env, k - 1), Batch(env, k - 1);
      BatchesOneRemoval(m, env, sub, at, k - 1);
      if k - 1 == at {
        assert Edits(before, t, ops, 1) == Edit(Edits(before, t, ops, 0), t, ops[0]);
      }
    }
  }

  lemma StaleAt(v: Instances, i: nat)
    requires i < |v|
    ensures |Stale(v, i)| == |v| && forall k :: 0 <= k < |v| ==>
      Stale(v, i)[k] == v[if i <= k < |v| - 1 then k + 1 else k]
  {
  }

  lemma OneRemovalAt(m: Live, env: seq<seq<Interference>>, sub: Subscription, at: nat, k: nat)
    requires m.Valid() && m.shared && OneRemoval(env, sub, at) && k < m.len
    requires Position(m.cells, m.len, sub.instance) < m.len
    ensures var v, i := m.cells[..m.len], Position(m.cells, m.len, sub.instance);
      AfterBatches(m, sub.eventType, env, k + 1).cells[k] == if k < at then v[k] else Stale(v, i)[k]
  {
    hide AfterBatches, Stale, Position;
    BatchesOneRemoval(m, env, sub, at, k + 1);
    StaleAt(m.cells[..m.len], Position(m.cells, m.len, sub.instance));
  }

  lemma Stitched(r: Instances, a: Instances, b: Instances, at: nat)
    requires |r| == |a| == |b| && at <= |r| && forall k: nat :: k < |r| ==> r[k] == if k < at then a[k] else b[k]
    ensures r == a[..at] + b[at..]
  {
  }

  /** With nothing else in between, the loop calls the first `at` handlers and then what the shifted array shows. */
  lemma OneRemovalReads(m: Live, env: seq<seq<Interference>>, sub: Subscription, at: nat)
    requires m.Valid() && m.shared && OneRemoval(env, sub, at) && at < m.len
    requires sub.instance in m.cells[..m.len]
    ensures var v, i := m.cells[..m.len], Position(m.cells, m.len, sub.instance);
      i < |v| && v[i] == sub.instance && Reads(m, sub.eventType, env, m.len) == v[..at] + Stale(v, i)[at..]
  {
    var v, i := m.cells[..m.len], Position(m.cells, m.len, sub.instance);
    StaleAt(v, i);
    hide AfterBatches, Stale, Position;
    var r := Reads(m, sub.eventType, env, m.len);
    forall k: nat | k < m.len ensures r[k] == if k < at then v[k] else Stale(v, i)[k] {
      OneRemovalAt(m, env, sub, at, k);
    }
    Stitched(r, v, Stale(v, i), at);
  }

  /** A single removal, of the handler at `i` just before call `at`, is unnoticed exactly if it is of the last handler
      or before the last call. */
  lemma UnsubscribeUnnoticedIff(v: Instances, i: nat, at: nat)
    requires Distinct(v) && i < |v| && at < |v|
    ensures v[..at] + Stale(v, i)[at..] == v <==> i == |v| - 1 || at == |v| - 1
  {
    var r := v[..at] + Stale(v, i)[at..];
    var j := if i < at then at else i;
    if i < |v| - 1 && at < |v| - 1 {
      assert r[j] == v[j + 1] && v[j] != v[j + 1];
    } else {
      assert forall k :: 0 <= k < |v| ==> r[k] == v[k];
    }
  }

  /** Any other single removal makes the loop skip a handler and call the last one twice. */
  lemma UnsubscribeSkipsAndRepeats(v: Instances, i: nat, at: nat)
    requires Distinct(v) && i < |v| - 1 && at < |v| - 1
    ensures var r := v[..at] + Stale(v, i)[at..];
      && v[if i < at then at else i] !in r
      && |r| == |v| && r[|v| - 1] == r[|v| - 2] == v[|v| - 1]
  {
    var r := v[..at] + Stale(v, i)[at..];
    var j := if i < at then at else i;
    assert forall k :: 0 <= k < |r| ==> r[k] == v[if j <= k < |v| - 1 then k + 1 else k];
  }
}
