/**
 The handler tables of `api/events/bus.go` and `api/events/redis.go`: one Go slice of handler
 instances per event type, edited in place under a mutex, and the two ways of dispatching over
 them.  The mutex is released before any handler runs, so other goroutines (or the handlers
 themselves) may subscribe and unsubscribe between two calls; `env[k]` lists what they do just
 before call `k`.
 */
module EventHandlers {
  import opened GoSlice
  import opened HandlerSlices

  ghost predicate Issued(contents: map<string, Instances>, bound: nat) {
    forall t :: t in contents ==> AllBelow(contents[t], bound)
  }

  lemma IssueNext(contents: map<string, Instances>, t: string, h: HandlerInstance)
    requires Issued(contents, h.address)
    ensures var v := if t in contents then contents[t] else [];
      h !in v && Issued(contents[t := v + [h]], h.address + 1)
  {
  }

  lemma DistinctWithout(v: Instances, i: nat)
    requires Distinct(v) && i < |v|
    ensures Distinct(Without(v, i)) && v[i] !in Without(v, i)
    ensures forall h :: h in Without(v, i) ==> h in v
  {
    var w := Without(v, i);
    assert forall k :: 0 <= k < |w| ==> w[k] == v[if k < i then k else k + 1];
  }

  /** A backing array: the type it was allocated for and what it holds, behind the slice's end too. */
  datatype Backing = Backing(owner: string, cells: Instances)

  /** The instances subscribed to each type in subscription order, and every backing array. */
  datatype TableView = TableView(contents: map<string, Instances>, arrays: map<array<HandlerInstance>, Backing>)

  /** The slice of `t` lies in an array of its own and shows its contents, each instance once. */
  ghost predicate EntryOk(hs: map<string, Slice<HandlerInstance>>, v: TableView, t: string) {
    && t in hs && t in v.contents && hs[t].arr in v.arrays
    && var b := v.arrays[hs[t].arr];
       b.owner == t && hs[t].len <= |b.cells| && b.cells[..hs[t].len] == v.contents[t] && Distinct(v.contents[t])
  }

  ghost predicate TableOk(hs: map<string, Slice<HandlerInstance>>, v: TableView) {
    && (forall t :: t in hs ==> EntryOk(hs, v, t))
    && (forall t :: t in v.contents ==> t in hs)
  }

  /** Changing one type's slice, within its array or to a new one, leaves the other types' as they were. */
  lemma ReplaceEntry(hs: map<string, Slice<HandlerInstance>>, v: TableView, t: string, s: Slice<HandlerInstance>,
          w: Instances, cells: Instances)
    requires TableOk(hs, v) && (s.arr in v.arrays ==> v.arrays[s.arr].owner == t)
    requires s.len <= |cells| && cells[..s.len] == w && Distinct(w)
    ensures TableOk(hs[t := s], TableView(v.contents[t := w], v.arrays[s.arr := Backing(t, cells)]))
  {
    var hs', v' := hs[t := s], TableView(v.contents[t := w], v.arrays[s.arr := Backing(t, cells)]);
    forall u | u in hs' ensures EntryOk(hs', v', u) {
      assert u != t ==> EntryOk(hs, v, u);
    }
  }

  lemma AddEntry(hs: map<string, Slice<HandlerInstance>>, v: TableView, t: string, s: Slice<HandlerInstance>,
          w: Instances, x: HandlerInstance, cells: Instances)
    requires TableOk(hs, v) && (s.arr in v.arrays ==> v.arrays[s.arr].owner == t)
    requires w == (if t in v.contents then v.contents[t] else []) && x !in w && s.len <= |cells|
    requires cells[..s.len] == w + [x]
    ensures TableOk(hs[t := s], TableView(v.contents[t := w + [x]], v.arrays[s.arr := Backing(t, cells)]))
  {
    assert t in v.contents ==> EntryOk(hs, v, t);
    ReplaceEntry(hs, v, t, s, w + [x], cells);
  }

  ghost predicate CanRemove(hs: map<string, Slice<HandlerInstance>>, v: TableView, t: string, at: nat) {
    && t in hs && t in v.contents && hs[t].arr in v.arrays
    && at < hs[t].len <= |v.arrays[hs[t].arr].cells| && at < |v.contents[t]|
  }

  ghost function RemovedView(hs: map<string, Slice<HandlerInstance>>, v: TableView, t: string, at: nat): TableView
    requires CanRemove(hs, v, t, at)
  {
    var s, b := hs[t], v.arrays[hs[t].arr];
    TableView(v.contents[t := Without(v.contents[t], at)], v.arrays[s.arr := b.(cells := Shift(b.cells, at, s.len))])
  }

  lemma CutEntry(hs: map<string, Slice<HandlerInstance>>, v: TableView, t: string, i: nat, bound: nat)
    requires TableOk(hs, v) && Issued(v.contents, bound) && t in hs
    requires i < |if t in v.contents then v.contents[t] else []|
    ensures CanRemove(hs, v, t, i)
    ensures TableOk(hs[t := Slice(hs[t].arr, hs[t].len - 1)], RemovedView(hs, v, t, i))
    ensures Issued(RemovedView(hs, v, t, i).contents, bound)
    ensures RemovedView(hs, v, t, i).arrays.Keys == v.arrays.Keys
  {
    assert EntryOk(hs, v, t);
    var s, b, w := hs[t], v.arrays[hs[t].arr], Without(v.contents[t], i);
    DistinctWithout(v.contents[t], i);
    assert Shift(b.cells, i, s.len)[..s.len - 1] == w;
    ReplaceEntry(hs, v, t, Slice(s.arr, s.len - 1), w, Shift(b.cells, i, s.len));
  }

  /** Someone who took a slice header out of the table, and what it showed then. */
  datatype Reader = Reader(slice: Slice<HandlerInstance>, taken: Instances)

  /** The reader still sees what it took, and the table will not write below its length. */
  ghost predicate Spares(hs: map<string, Slice<HandlerInstance>>, v: TableView, r: Reader) {
    && r.slice.arr in v.arrays
    && var b := v.arrays[r.slice.arr];
       && r.slice.len <= |b.cells| && b.cells[..r.slice.len] == r.taken
       && (b.owner in hs && hs[b.owner].arr == r.slice.arr ==> r.slice.len <= hs[b.owner].len)
  }

  class HandlerTable {
    var handlers: map<string, Slice<HandlerInstance>>
    /** Where the next `&HandlerInstance{...}` will be allocated. */
    var nextAddress: nat
    ghost var view: TableView

    ghost function Repr(): set<array<HandlerInstance>>
      reads this`view
    {
      view.arrays.Keys
    }

    ghost predicate Entry(t: string)
      reads this`handlers, this`view
    {
      EntryOk(handlers, view, t)
    }

    ghost predicate SlicesValid()
      reads this`handlers, this`view
    {
      TableOk(handlers, view)
    }

    ghost predicate ArraysValid()
      reads this`view, Repr()
    {
      forall a :: a in view.arrays ==> a[..] == view.arrays[a].cells
    }

    /** No instance in the table is at an address still to be handed out. */
    ghost predicate Valid()
      reads this, Repr()
    {
      ArraysValid() && SlicesValid() && Issued(view.contents, nextAddress)
    }

    ghost function Contents(t: string): Instances
      reads this`view
    {
      if t in view.contents then view.contents[t] else []
    }

    /** The array behind the slice of `t`. */
    ghost function Own(t: string): set<array<HandlerInstance>>
      reads this`handlers
    {
      if t in handlers then {handlers[t].arr} else {}
    }

    constructor ()
      ensures Valid() && view == TableView(map[], map[])
    {
      handlers, view, nextAddress := map[], TableView(map[], map[]), 0;
    }

    method Subscribe(eventType: string, handler: nat) returns (sub: Subscription)
      requires Valid()
      modifies this, Own(eventType)
      ensures Valid() && fresh(Repr() - old(Repr()))
      ensures sub == Subscription(eventType, HandlerInstance(old(nextAddress), handler))
      ensures nextAddress == old(nextAddress) + 1
      ensures sub.instance !in old(Contents(eventType))
      ensures view.contents == old(view.contents)[eventType := old(Contents(eventType)) + [sub.instance]]
      ensures Appended(old(handlers), old(view), eventType, sub.instance)
    {
      var instance := HandlerInstance(nextAddress, handler);
      nextAddress := nextAddress + 1;
      ghost var before := view.contents;
      IssueNext(before, eventType, instance);
      Insert(eventType, instance);
      sub := Subscription(eventType, instance);
    }

    /** Since `hs` and `v`, the instance was written behind the slice of `t`, or its slice moved to a new array. */
    ghost predicate Appended(hs: map<string, Slice<HandlerInstance>>, v: TableView, t: string,
            instance: HandlerInstance)
      reads this`handlers, this`view
    {
      && t in handlers && handlers == hs[t := handlers[t]]
      && if t in hs && hs[t].arr in v.arrays && hs[t].len < |v.arrays[hs[t].arr].cells| then
           var b := v.arrays[hs[t].arr];
           handlers[t] == Slice(hs[t].arr, hs[t].len + 1)
             && view.arrays == v.arrays[hs[t].arr := b.(cells := b.cells[hs[t].len := instance])]
         else
           && handlers[t].arr !in v.arrays && handlers[t].arr in view.arrays
           && view.arrays == v.arrays[handlers[t].arr := view.arrays[handlers[t].arr]]
    }

    method Insert(eventType: string, instance: HandlerInstance)
      requires ArraysValid() && SlicesValid() && instance !in Contents(eventType)
      modifies this`handlers, this`view, Own(eventType)
      ensures ArraysValid() && SlicesValid() && fresh(Repr() - old(Repr()))
      ensures view.contents == old(view.contents)[eventType := old(Contents(eventType)) + [instance]]
      ensures Appended(old(handlers), old(view), eventType, instance)
    {
      hide TableOk, EntryOk, Distinct;
      ghost var before, hs, v := Contents(eventType), handlers, view;
      OwnEntry(eventType);
      var grown: Slice<HandlerInstance>;
      if eventType in handlers {
        grown := Append(handlers[eventType], instance, before);
      } else {
        grown := Singleton(instance);
      }
      ghost var after, cells := before + [instance], grown.arr[..];
      ArrayPrefix(grown.arr, grown.len);
      AddEntry(hs, v, eventType, grown, before, instance, cells);
      handlers := handlers[eventType := grown];
      view := TableView(view.contents[eventType := after], view.arrays[grown.arr := Backing(eventType, cells)]);
    }

    /** The array of the slice of `t` is the table's, and shows what is subscribed. */
    lemma OwnEntry(t: string)
      requires ArraysValid() && SlicesValid()
      ensures t in handlers ==>
        handlers[t].arr in view.arrays && view.arrays[handlers[t].arr].owner == t && handlers[t].Shows(Contents(t))
      ensures t !in handlers ==> Contents(t) == []
    {
      assert t in handlers ==> Entry(t);
    }

    /** `at` is the position of the instance, if it is subscribed. */
    method Unsubscribe(sub: Subscription) returns (ghost at: nat)
      requires Valid()
      modifies this`handlers, this`view, Own(sub.eventType)
      ensures Valid() && Repr() == old(Repr())
      ensures IsPosition(old(Contents(sub.eventType)), sub.instance, at)
      ensures at == |old(Contents(sub.eventType))| ==> view == old(view) && handlers == old(handlers)
      ensures at < |old(Contents(sub.eventType))| ==> Removed(old(handlers), old(view), sub.eventType, at)
    {
      hide Distinct, Removed;
      ghost var before := Contents(sub.eventType);
      OwnEntry(sub.eventType);
      if sub.eventType !in handlers {
        assert sub.eventType !in view.contents;
        return 0;
      }
      var entries := handlers[sub.eventType];
      for i := 0 to entries.len
        invariant forall k :: 0 <= k < i ==> before[k] != sub.instance
      {
        assert before[i] == entries.arr[i];
        if entries.arr[i] == sub.instance {
          CutAt(sub.eventType, i);
          return i;
        }
      }
      return |before|;
    }

    /** Since `hs` and `v`, position `at` was cut out of the slice of `t`, and its array shifted in place. */
    ghost predicate Removed(hs: map<string, Slice<HandlerInstance>>, v: TableView, t: string, at: nat)
      reads this`handlers, this`view
    {
      CanRemove(hs, v, t, at) && handlers == hs[t := Slice(hs[t].arr, hs[t].len - 1)]
        && view == RemovedView(hs, v, t, at)
    }

    /** `append(s[:i], s[i+1:]...)` of a slice in the table's arrays. */
    method ShiftIn(s: Slice<HandlerInstance>, i: nat) returns (shorter: Slice<HandlerInstance>)
      requires ArraysValid() && s.arr in view.arrays && i < s.len <= |view.arrays[s.arr].cells|
      modifies this`view, s.arr
      ensures ArraysValid() && shorter == Slice(s.arr, s.len - 1)
      ensures var b := old(view.arrays[s.arr]);
        view == old(view).(arrays := old(view.arrays)[s.arr := b.(cells := Shift(b.cells, i, s.len))])
    {
      ghost var b := view.arrays[s.arr];
      shorter := RemoveAt(s, i, s.arr[..s.len]);
      hide Shift;
      view := view.(arrays := view.arrays[s.arr := b.(cells := Shift(b.cells, i, s.len))]);
    }

    /** Cuts position `i` out of the slice of `t`, in place. */
    method CutAt(t: string, i: nat)
      requires Valid() && t in handlers && i < |Contents(t)|
      modifies this`handlers, this`view, handlers[t].arr
      ensures Valid() && Repr() == old(Repr()) && Removed(old(handlers), old(view), t, i)
    {
      hide TableOk, EntryOk, Distinct, Shift, Without, Issued;
      ghost var hs, v := handlers, view;
      CutEntry(hs, v, t, i, nextAddress);
      ghost var after := RemovedView(hs, v, t, i);
      var shorter := ShiftIn(handlers[t], i);
      handlers := handlers[t := shorter];
      view := after;
    }

    /** What another goroutine does to the table while a dispatch is under way. */
    method Interfere(op: Interference)
      requires Valid()
      modifies this, Repr()
      ensures Valid() && fresh(Repr() - old(Repr()))
      ensures ToBook() == EditBook(old(ToBook()), op)
    {
      hide TableOk, EntryOk, Distinct, Issued, Appended, Position;
      OwnInRepr(op);
      ghost var b := ToBook();
      match op
      case Subscribing(t, h) => var _ := Subscribe(t, h);
      case Unsubscribing(sub) =>
        ghost var at := Unsubscribe(sub);
        BookWithout(b, sub, at);
    }

    ghost function ToBook(): Book
      reads this`view, this`nextAddress
    {
      Book(view.contents, nextAddress)
    }

    lemma OwnInRepr(op: Interference)
      requires Valid()
      ensures Own(if op.Subscribing? then op.eventType else op.sub.eventType) <= Repr()
    {
    }

    ghost predicate Undisturbed(r: Reader)
      reads this`handlers, this`view
    {
      Spares(handlers, view, r)
    }

    lemma StillShows(r: Reader)
      requires ArraysValid() && Undisturbed(r)
      ensures r.slice.Shows(r.taken)
    {
      ArrayPrefix(r.slice.arr, r.slice.len);
    }

    lemma AppendSpares(u: string, instance: HandlerInstance, r: Reader, hs: map<string, Slice<HandlerInstance>>,
            v: TableView)
      requires Spares(hs, v, r) && (u in hs ==> hs[u].arr in v.arrays && v.arrays[hs[u].arr].owner == u)
      requires Appended(hs, v, u, instance)
      ensures Undisturbed(r)
    {
    }

    /** Subscriptions never disturb a reader. */
    method SubscribeBeside(eventType: string, handler: nat, ghost reader: Reader) returns (sub: Subscription)
      requires Valid() && Undisturbed(reader)
      modifies this, Own(eventType)
      ensures Valid() && fresh(Repr() - old(Repr()))
      ensures Undisturbed(reader) && reader.slice.Shows(reader.taken)
    {
      hide TableOk, EntryOk, Issued, Distinct, AllBelow, Spares, Appended;
      ghost var hs, v := handlers, view;
      OwnEntry(eventType);
      sub := Subscribe(eventType, handler);
      AppendSpares(eventType, sub.instance, reader, hs, v);
      StillShows(reader);
    }

    // ---- Dispatch over the live slice ----

    /** `m` describes the array behind the header `live`, taken from the slice of `t`. */
    ghost predicate Follows(live: Slice<HandlerInstance>, t: string, m: Live)
      reads this`handlers, this`view, this`nextAddress
    {
      && live.arr in view.arrays && view.arrays[live.arr] == Backing(t, m.cells) && m.next == nextAddress && m.Valid()
      && t in handlers && if m.shared then handlers[t] == Slice(live.arr, m.len) else handlers[t].arr != live.arr
    }

    lemma SubscribingFollowed(u: string, h: nat, live: Slice<HandlerInstance>, t: string, m: Live,
            hs: map<string, Slice<HandlerInstance>>, v: TableView)
      requires t in hs && live.arr in v.arrays && v.arrays[live.arr] == Backing(t, m.cells) && m.Valid()
      requires nextAddress == m.next + 1
      requires if m.shared then hs[t] == Slice(live.arr, m.len) else hs[t].arr != live.arr
      requires u in hs ==> hs[u].arr in v.arrays && v.arrays[hs[u].arr].owner == u
      requires Appended(hs, v, u, HandlerInstance(m.next, h))
      ensures Follows(live, t, Edit(m, t, Subscribing(u, h)))
    {
    }

    lemma RemovalFollowed(sub: Subscription, live: Slice<HandlerInstance>, t: string, m: Live, at: nat,
            hs: map<string, Slice<HandlerInstance>>, v: TableView)
      requires t in hs && live.arr in v.arrays && v.arrays[live.arr] == Backing(t, m.cells) && m.Valid()
      requires nextAddress == m.next
      requires if m.shared then hs[t] == Slice(live.arr, m.len) else hs[t].arr != live.arr
      requires sub.eventType in hs ==>
        hs[sub.eventType].arr in v.arrays && v.arrays[hs[sub.eventType].arr].owner == sub.eventType
      requires var w := if sub.eventType in v.contents then v.contents[sub.eventType] else [];
        IsPosition(w, sub.instance, at)
        && (sub.eventType == t && m.shared ==> w == m.cells[..m.len])
        && if at == |w| then view == v && handlers == hs else Removed(hs, v, sub.eventType, at)
      ensures Follows(live, t, Edit(m, t, Unsubscribing(sub)))
    {
      RemovalIs(m, t, sub, if sub.eventType in v.contents then v.contents[sub.eventType] else [], at);
      hide Edit, Position, Shift;
    }

    /** An interference does to the array what `Edit` says. */
    method InterfereBeside(op: Interference, ghost live: Slice<HandlerInstance>, ghost t: string, ghost m: Live)
      requires Valid() && Follows(live, t, m)
      modifies this, Repr()
      ensures Valid() && fresh(Repr() - old(Repr()))
      ensures Follows(live, t, Edit(m, t, op))
    {
      ghost var hs, v := handlers, view;
      assert Entry(t);
      OwnInRepr(op);
      match op
      case Subscribing(u, h) =>
        assert u in hs ==> Entry(u);
        hide TableOk, Appended, Edit;
        var _ := Subscribe(u, h);
        SubscribingFollowed(u, h, live, t, m, hs, v);
      case Unsubscribing(sub) =>
        assert sub.eventType in hs ==> Entry(sub.eventType);
        hide TableOk, Removed, Edit;
        ghost var at := Unsubscribe(sub);
        RemovalFollowed(sub, live, t, m, at, hs, v);
    }

    /** The array of the slice of `t` at the moment. */
    ghost function LiveOf(t: string): Live
      requires t in handlers && handlers[t].arr in view.arrays
      reads this`handlers, this`view, this`nextAddress
    {
      Live(view.arrays[handlers[t].arr].cells, handlers[t].len, true, nextAddress)
    }

    /** `LocalBus.Publish` ranges over the live slice: it calls what the array shows call by call, under any
        interleaved subscriptions and removals; under subscriptions alone, exactly the handlers subscribed when it
        started, once each and in subscription order. */
    method Publish(eventType: string, env: seq<seq<Interference>>) returns (called: Instances)
      requires Valid()
      modifies this, Repr()
      ensures Valid()
      ensures eventType !in old(handlers) ==> called == []
      ensures eventType in old(handlers) ==>
        old(handlers[eventType]).arr in old(view.arrays) &&
        var m := old(LiveOf(eventType));
        m.Valid() && m.cells[..m.len] == old(Contents(eventType)) && called == Reads(m, eventType, env, m.len)
      ensures OnlySubscribing(env) ==> called == old(Contents(eventType))
    {
      if eventType !in handlers {
        return [];
      }
      assert Entry(eventType);
      ghost var m := LiveOf(eventType);
      called := CallLive(eventType, env, m);
      if OnlySubscribing(env) {
        SubscribingUnnoticed(m, eventType, env);
      }
    }

    lemma FollowsAtFirst(live: Slice<HandlerInstance>, t: string, m: Live)
      requires Valid() && t in handlers && live == handlers[t] && live.arr in view.arrays && m == LiveOf(t)
      ensures Follows(live, t, m)
    {
      assert Entry(t);
    }

    /** The loop of `Publish`. */
    method CallLive(eventType: string, env: seq<seq<Interference>>, ghost m: Live) returns (called: Instances)
      requires Valid() && eventType in handlers && handlers[eventType].arr in view.arrays && m == LiveOf(eventType)
      modifies this, Repr()
      ensures Valid() && m.Valid() && called == Reads(m, eventType, env, m.len)
    {
      hide Edits, EntryOk, Distinct, Issued, Reads, Batch, TableOk;
      called := [];
      var live := handlers[eventType];
      ghost var now := m;
      FollowsAtFirst(live, eventType, m);
      for k := 0 to live.len
        invariant Valid() && fresh(Repr() - old(Repr()))
        invariant now == AfterBatches(m, eventType, env, k) && Follows(live, eventType, now)
        invariant called == Reads(m, eventType, env, k)
      {
        now := DoBatch(Batch(env, k), live, eventType, now);
        ReadsNext(m, eventType, env, k);
        called := called + [live.arr[k]];
      }
    }

    /** What happens just before one call. */
    method DoBatch(ops: seq<Interference>, ghost live: Slice<HandlerInstance>, ghost t: string, ghost m: Live)
      returns (ghost now: Live)
      requires Valid() && Follows(live, t, m)
      modifies this, Repr()
      ensures Valid() && fresh(Repr() - old(Repr()))
      ensures now == Edits(m, t, ops, |ops|) && Follows(live, t, now)
    {
      hide Edit, TableOk, Issued;
      now := m;
      for j := 0 to |ops|
        invariant Valid() && fresh(Repr() - old(Repr()))
        invariant now == Edits(m, t, ops, j) && Follows(live, t, now)
      {
        InterfereBeside(ops[j], live, t, now);
        now := Edit(now, t, ops[j]);
      }
    }

    // ---- Dispatch over a copy ----

    /** `append([]*HandlerInstance(nil), handlers...)` */
    method CopyOf(live: Slice<HandlerInstance>, ghost v: Instances) returns (copy: array<HandlerInstance>)
      requires live.Shows(v)
      ensures fresh(copy) && copy[..] == v
    {
      copy := new HandlerInstance[live.len];
      for k := 0 to live.len
        modifies copy
        invariant copy[..k] == v[..k]
      {
        copy[k] := live.arr[k];
      }
    }

    /** What happens just before one call, elsewhere than in `copy`. */
    method InterfereAll(ops: seq<Interference>, ghost copy: array<HandlerInstance>)
      requires Valid() && copy !in Repr()
      modifies this, Repr()
      ensures Valid() && fresh(Repr() - old(Repr())) && copy !in Repr()
      ensures ToBook() == EditsBook(old(ToBook()), ops, |ops|)
    {
      ghost var b := ToBook();
      for j := 0 to |ops|
        invariant Valid() && fresh(Repr() - old(Repr())) && copy !in Repr()
        invariant ToBook() == EditsBook(b, ops, j)
      {
        Interfere(ops[j]);
      }
    }

    /** The dispatch of one message in `RedisSubscriber.handleMessages`: the slice is copied first, so
        no interference can change which handlers run, while the table takes every edit. */
    method Dispatch(eventType: string, env: seq<seq<Interference>>) returns (called: Instances)
      requires Valid()
      modifies this, Repr()
      ensures Valid()
      ensures called == old(Contents(eventType))
      ensures ToBook() == BatchesBook(old(ToBook()), env, |called|)
    {
      hide TableOk, EntryOk, Issued, Distinct, EditsBook, Batch;
      ghost var b := ToBook();
      OwnEntry(eventType);
      called := [];
      if eventType !in handlers {
        return;
      }
      ghost var taken := Contents(eventType);
      var copy := CopyOf(handlers[eventType], taken);
      for k := 0 to copy.Length
        invariant Valid() && fresh(Repr() - old(Repr())) && copy !in Repr()
        invariant copy[..] == taken && called == taken[..k]
        invariant ToBook() == BatchesBook(b, env, k)
      {
        InterfereAll(Batch(env, k), copy);
        called := called + [copy[k]];
      }
    }
  }
}
