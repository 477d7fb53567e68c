/**
 The handler table of one subscriber (`api/events/redis.go`), with its slices and arrays, against the handlers that the
 protocol's state keeps for that consumer: a handler of the protocol is the address of an instance.
 */
module EventTables {
  import opened GoSlice
  import opened HandlerSlices
  import opened EventHandlers
  import opened EventStream
  import EventStreamDelivery

  function Addresses(v: Instances): (r: seq<nat>)
    ensures |r| == |v| && forall i :: 0 <= i < |v| ==> r[i] == v[i].address
  {
    seq(|v|, i requires 0 <= i < |v| => v[i].address)
  }

  function Of(contents: map<string, Instances>, t: string): Instances {
    if t in contents then contents[t] else []
  }

  ghost predicate ApartByAddress(v: Instances) {
    forall i, j :: 0 <= i < j < |v| ==> v[i].address != v[j].address
  }

  /** The table of consumer `c` holds, type by type and in order, what the protocol keeps for it. */
  ghost predicate Shows(contents: map<string, Instances>, s: State, c: nat) {
    && (forall t :: t in contents ==> ApartByAddress(contents[t]))
    && (forall t :: Handlers(s.tables, c, t) == Addresses(Of(contents, t)))
  }

  /** A pointer in the table is the one of the subscription if their addresses are equal. */
  ghost predicate Genuine(contents: map<string, Instances>, sub: HandlerSlices.Subscription) {
    forall i :: var v := Of(contents, sub.eventType);
      0 <= i < |v| && v[i].address == sub.instance.address ==> v[i] == sub.instance
  }

  lemma {:induction false} MinusAt(v: seq<nat>, i: nat)
    requires i < |v| && forall k :: 0 <= k < i ==> v[k] != v[i]
    ensures Minus(v, v[i]) == v[..i] + v[i + 1..]
  {
    if i > 0 {
      MinusAt(v[1..], i - 1);
      assert v[1..][..i - 1] == v[..i][1..];
    }
  }

  lemma {:induction false} MinusAbsent(v: seq<nat>, x: nat)
    requires x !in v
    ensures Minus(v, x) == v
  {
    if v != [] {
      MinusAbsent(v[1..], x);
    }
  }

  lemma ShowsAtFirst(s: State, c: nat)
    requires Initial(s)
    ensures Shows(map[], s, c)
  {
  }

  lemma AppendedApart(v: Instances, instance: HandlerInstance)
    requires ApartByAddress(v) && AllBelow(v, instance.address)
    ensures ApartByAddress(v + [instance]) && Addresses(v + [instance]) == Addresses(v) + [instance.address]
    ensures instance.address !in Addresses(v)
  {
    forall i | 0 <= i < |v| ensures v[i].address < instance.address {
      assert v[i] in v;
    }
  }

  lemma SubscribeShows(contents: map<string, Instances>, s: State, c: nat, t: string, instance: HandlerInstance)
    requires Shows(contents, s, c) && Issued(contents, instance.address) && c in s.started
    ensures Enabled(s, Subscribe(c, t, instance.address))
    ensures Shows(contents[t := Of(contents, t) + [instance]], Apply(s, Subscribe(c, t, instance.address)), c)
  {
    AppendedApart(Of(contents, t), instance);
    var contents' := contents[t := Of(contents, t) + [instance]];
    var s' := Apply(s, Subscribe(c, t, instance.address));
    hide Addresses, ApartByAddress;
    forall u ensures Handlers(s'.tables, c, u) == Addresses(Of(contents', u)) {
      assert Handlers(s.tables, c, u) == Addresses(Of(contents, u));
    }
  }

  lemma WithoutApart(v: Instances, x: HandlerInstance, at: nat)
    requires ApartByAddress(v) && IsPosition(v, x, at)
    requires forall i :: 0 <= i < |v| && v[i].address == x.address ==> v[i] == x
    ensures at < |v| ==> ApartByAddress(Without(v, at)) && Minus(Addresses(v), x.address) == Addresses(Without(v, at))
    ensures at == |v| ==> Minus(Addresses(v), x.address) == Addresses(v)
  {
    if at < |v| {
      MinusAt(Addresses(v), at);
      assert Addresses(Without(v, at)) == Addresses(v)[..at] + Addresses(v)[at + 1..];
    } else {
      MinusAbsent(Addresses(v), x.address);
    }
  }

  lemma UnsubscribeShows(contents: map<string, Instances>, s: State, c: nat, sub: HandlerSlices.Subscription, at: nat)
    requires Shows(contents, s, c) && c in s.started && Genuine(contents, sub)
    requires IsPosition(Of(contents, sub.eventType), sub.instance, at)
    ensures var t, v := sub.eventType, Of(contents, sub.eventType);
      Shows(if at < |v| then contents[t := Without(v, at)] else contents,
            Apply(s, Unsubscribe(c, t, sub.instance.address)), c)
  {
    var t, v := sub.eventType, Of(contents, sub.eventType);
    var contents' := if at < |v| then contents[t := Without(v, at)] else contents;
    var s' := Apply(s, Unsubscribe(c, t, sub.instance.address));
    WithoutApart(v, sub.instance, at);
    hide Addresses, ApartByAddress, Minus, Without, IsPosition;
    forall u ensures Handlers(s'.tables, c, u) == Addresses(Of(contents', u)) {
      assert Handlers(s.tables, c, u) == Addresses(Of(contents, u));
    }
  }

  /** No other step of the protocol changes what the consumer's table has to hold. */
  lemma OthersShow(contents: map<string, Instances>, s: State, c: nat, a: Action)
    requires Shows(contents, s, c) && Enabled(s, a) && !((a.Subscribe? || a.Unsubscribe?) && a.consumer == c)
    ensures Shows(contents, Apply(s, a), c)
  {
    hide Apply, Enabled, Handlers;
    forall t ensures Handlers(Apply(s, a).tables, c, t) == Addresses(Of(contents, t)) {
      EventStreamDelivery.TableOnly(s, a, c, t);
    }
  }

  /** Subscribing is an enabled step of the protocol, with the new instance's address. */
  method SubscribeStep(table: HandlerTable, eventType: string, handler: nat, ghost s: State, ghost c: nat)
    returns (sub: HandlerSlices.Subscription)
    requires table.Valid() && Shows(table.view.contents, s, c) && c in s.started
    modifies table, table.Own(eventType)
    ensures table.Valid() && Enabled(s, Subscribe(c, eventType, sub.instance.address))
    ensures Shows(table.view.contents, Apply(s, Subscribe(c, eventType, sub.instance.address)), c)
  {
    hide Shows, Apply, Enabled, Issued;
    ghost var contents, next := table.view.contents, table.nextAddress;
    sub := table.Subscribe(eventType, handler);
    SubscribeShows(contents, s, c, eventType, sub.instance);
  }

  /** Unsubscribing is the protocol's step. */
  method UnsubscribeStep(table: HandlerTable, sub: HandlerSlices.Subscription, ghost s: State, ghost c: nat)
    requires table.Valid() && Shows(table.view.contents, s, c) && c in s.started && Genuine(table.view.contents, sub)
    modifies table`handlers, table`view, table.Own(sub.eventType)
    ensures table.Valid()
    ensures Shows(table.view.contents, Apply(s, Unsubscribe(c, sub.eventType, sub.instance.address)), c)
  {
    hide Shows, Apply, Genuine;
    ghost var contents := table.view.contents;
    ghost var at := table.Unsubscribe(sub);
    UnsubscribeShows(contents, s, c, sub, at);
  }

  /** What a dispatch of one message calls, whatever happens in between, is the snapshot that the protocol takes when a
      worker of the consumer starts the message. */
  method DispatchStep(table: HandlerTable, eventType: string, env: seq<seq<Interference>>, ghost s: State, ghost c: nat)
    returns (called: Instances)
    requires table.Valid() && Shows(table.view.contents, s, c)
    modifies table, table.Repr()
    ensures table.Valid() && Addresses(called) == Handlers(s.tables, c, eventType)
  {
    called := table.Dispatch(eventType, env);
  }
}
