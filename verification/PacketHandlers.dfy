/**
 The packet-handler registry of `networking/handlers.go`: one Go slice of handlers per packet
 header, and an id table from which a handler's header is looked up for removal.
 */
module PacketHandlers {
  import opened GoSlice

  newtype int16 = x: int | -0x8000 <= x < 0x8000

  datatype Handler = Handler(id: nat, callee: nat)

  type Lists = map<int16, seq<Handler>>

  function At(lists: Lists, header: int16): seq<Handler> {
    if header in lists then lists[header] else []
  }

  /** `v` without the handlers called `id`, the rest in order. */
  function Others(v: seq<Handler>, id: int): seq<Handler> {
    if v == [] then []
    else
      var n := |v| - 1;
      Others(v[..n], id) + if v[n].id == id then [] else [v[n]]
  }

  ghost predicate Distinct(v: seq<Handler>) {
    forall i, j :: 0 <= i < j < |v| ==> v[i].id != v[j].id
  }

  predicate Has(v: seq<Handler>, id: int) {
    v != [] && (v[|v| - 1].id == id || Has(v[..|v| - 1], id))
  }

  lemma {:induction false} HasMeans(v: seq<Handler>, id: int)
    ensures Has(v, id) <==> exists i :: 0 <= i < |v| && v[i].id == id
  {
    if v != [] {
      var n := |v| - 1;
      HasMeans(v[..n], id);
      assert forall i :: 0 <= i < n ==> v[..n][i] == v[i];
    }
  }

  lemma {:induction false} OthersAbsent(v: seq<Handler>, id: int)
    requires !Has(v, id)
    ensures Others(v, id) == v
  {
    if v != [] {
      OthersAbsent(v[..|v| - 1], id);
    }
  }

  lemma {:induction false} OthersAppend(u: seq<Handler>, v: seq<Handler>, id: int)
    ensures Others(u + v, id) == Others(u, id) + Others(v, id)
  {
    if v == [] {
      assert u + v == u;
    } else {
      var n := |v| - 1;
      assert (u + v)[..|u + v| - 1] == u + v[..n];
      OthersAppend(u, v[..n], id);
    }
  }

  /** Taking out the one handler called `id` is the same as cutting its position. */
  lemma {:induction false} OthersPresent(v: seq<Handler>, i: nat, id: int)
    requires i < |v| && v[i].id == id
    requires forall k :: 0 <= k < |v| && k != i ==> v[k].id != id
    ensures Others(v, id) == Without(v, i)
  {
    var n := |v| - 1;
    if i < n {
      OthersPresent(v[..n], i, id);
      assert Without(v, i) == Without(v[..n], i) + [v[n]];
    } else {
      HasMeans(v[..n], id);
      OthersAbsent(v[..n], id);
      assert Without(v, i) == v[..n];
    }
  }

  /** A loop that has just cut position `i` meets no other handler with that id behind it. */
  lemma StaleClear(v: seq<Handler>, i: nat)
    requires i < |v| && forall k :: 0 <= k < |v| && k != i ==> v[k].id != v[i].id
    ensures forall k :: i < k < |v| ==> Stale(v, i)[k].id != v[i].id
  {
  }

  /** What the registry stands for. */
  datatype Registry = Registry(count: nat, lists: Lists, headers: map<int, int16>)

  datatype Op = Register(header: int16, callee: nat) | Remove(id: int)

  const EMPTY := Registry(0, map[], map[])

  /** Registering appends under a new id; removing takes that id out of every list. */
  function Step(r: Registry, op: Op): Registry {
    match op
    case Register(h, f) =>
      Registry(r.count + 1, r.lists[h := At(r.lists, h) + [Handler(r.count, f)]], r.headers[r.count := h])
    case Remove(id) =>
      r.(lists := map h | h in r.lists :: Others(r.lists[h], id))
  }

  function Run(ops: seq<Op>): Registry {
    if ops == [] then EMPTY else Step(Run(ops[..|ops| - 1]), ops[|ops| - 1])
  }

  /** Ids are unique and below `count`, and the id table names the list of every live handler. */
  ghost predicate Consistent(r: Registry) {
    && (forall h :: h in r.lists ==> Distinct(r.lists[h]))
    && (forall h, k :: h in r.lists && k in r.lists[h] ==> k.id < r.count && k.id in r.headers && r.headers[k.id] == h)
    && (forall id :: id in r.headers <==> 0 <= id < r.count)
  }

  lemma {:induction false} OthersSub(v: seq<Handler>, id: int)
    ensures forall k :: k in Others(v, id) <==> k in v && k.id != id
    ensures Distinct(v) ==> Distinct(Others(v, id))
  {
    if v != [] {
      var n := |v| - 1;
      OthersSub(v[..n], id);
      assert v == v[..n] + [v[n]];
      if Distinct(v) && v[n].id != id {
        var w := Others(v[..n], id);
        forall i | 0 <= i < |w| ensures w[i].id != v[n].id {
          assert w[i] in v[..n];
        }
      }
    }
  }

  lemma StepConsistent(r: Registry, op: Op)
    requires Consistent(r)
    ensures Consistent(Step(r, op))
  {
    if op.Register? {
      var v := At(r.lists, op.header);
      assert forall i :: 0 <= i < |v| ==> v[i] in v;
    } else {
      forall h | h in r.lists
        ensures Distinct(Others(r.lists[h], op.id)) && forall k :: k in Others(r.lists[h], op.id) ==> k in r.lists[h]
      {
        OthersSub(r.lists[h], op.id);
      }
    }
  }

  /** In every run ids stay unique, below the counter, and looked up under their own header. */
  lemma {:induction false} RunConsistent(ops: seq<Op>)
    ensures Consistent(Run(ops))
  {
    if ops != [] {
      RunConsistent(ops[..|ops| - 1]);
      StepConsistent(Run(ops[..|ops| - 1]), ops[|ops| - 1]);
    }
  }

  /** The registrations for `h` in `ops[i..]` that are not removed later, `id` being the next id at `i`. */
  function LiveFrom(ops: seq<Op>, i: nat, id: nat, h: int16): seq<Handler>
    requires i <= |ops|
    decreases |ops| - i
  {
    if i == |ops| then []
    else LiveAt(ops, i, id, h) + LiveFrom(ops, i + 1, if ops[i].Register? then id + 1 else id, h)
  }

  function RegistrationsFrom(ops: seq<Op>, i: nat): nat
    requires i <= |ops|
    decreases |ops| - i
  {
    if i == |ops| then 0 else (if ops[i].Register? then 1 else 0) + RegistrationsFrom(ops, i + 1)
  }

  lemma {:induction false} RegistrationsSnoc(ops: seq<Op>, op: Op, i: nat)
    requires i <= |ops|
    ensures RegistrationsFrom(ops + [op], i) == RegistrationsFrom(ops, i) + if op.Register? then 1 else 0
    decreases |ops| - i
  {
    if i < |ops| {
      RegistrationsSnoc(ops, op, i + 1);
    }
  }

  /** What one entry of the history contributes to `LiveFrom`. */
  function LiveAt(ops: seq<Op>, i: nat, id: nat, h: int16): seq<Handler>
    requires i < |ops|
  {
    if ops[i].Register? && ops[i].header == h && Remove(id) !in ops[i + 1..] then [Handler(id, ops[i].callee)] else []
  }

  lemma LiveAtSnoc(ops: seq<Op>, op: Op, i: nat, id: nat, h: int16)
    requires i < |ops|
    ensures LiveAt(ops + [op], i, id, h) ==
      if op.Remove? then Others(LiveAt(ops, i, id, h), op.id)
      else LiveAt(ops, i, id, h)
  {
    assert (ops + [op])[i + 1..] == ops[i + 1..] + [op];
    var now := LiveAt(ops, i, id, h);
    if now != [] {
      assert now[..0] == [];
    }
  }

  /** What one more operation makes of a list, `id` being the next id. */
  function After(v: seq<Handler>, op: Op, id: nat, h: int16): seq<Handler> {
    match op
    case Register(g, callee) => v + if g == h then [Handler(id, callee)] else []
    case Remove(removed) => Others(v, removed)
  }

  lemma LiveFromLast(ops: seq<Op>, op: Op, id: nat, h: int16)
    ensures LiveFrom(ops + [op], |ops|, id, h) == After([], op, id, h)
  {
    assert (ops + [op])[|ops| + 1..] == [];
  }

  lemma AfterFront(u: seq<Handler>, v: seq<Handler>, op: Op, id: nat, h: int16)
    ensures After(u + v, op, id, h) == (if op.Remove? then Others(u, op.id) else u) + After(v, op, id, h)
  {
    if op.Remove? {
      OthersAppend(u, v, op.id);
    }
  }

  lemma {:induction false} LiveFromSnoc(ops: seq<Op>, op: Op, i: nat, id: nat, h: int16)
    requires i <= |ops|
    ensures LiveFrom(ops + [op], i, id, h) == After(LiveFrom(ops, i, id, h), op, id + RegistrationsFrom(ops, i), h)
    decreases |ops| - i
  {
    hide LiveAt, After, Others;
    if i < |ops| {
      var id' := if ops[i].Register? then id + 1 else id;
      LiveFromSnoc(ops, op, i + 1, id', h);
      LiveAtSnoc(ops, op, i, id, h);
      assert (ops + [op])[i] == ops[i];
      AfterFront(LiveAt(ops, i, id, h), LiveFrom(ops, i + 1, id', h), op, id + RegistrationsFrom(ops, i), h);
    } else {
      LiveFromLast(ops, op, id, h);
    }
  }

  lemma {:induction false} RunCount(ops: seq<Op>)
    ensures Run(ops).count == RegistrationsFrom(ops, 0)
  {
    if ops != [] {
      RunCount(ops[..|ops| - 1]);
      RegistrationsSnoc(ops[..|ops| - 1], ops[|ops| - 1], 0);
      assert ops == ops[..|ops| - 1] + [ops[|ops| - 1]];
    }
  }

  lemma StepAt(r: Registry, op: Op, h: int16)
    ensures At(Step(r, op).lists, h) == After(At(r.lists, h), op, r.count, h)
  {
  }

  /** After any run the list of each header holds exactly the registrations for it that were not
      removed afterwards, in registration order, the n-th registration of the run having id n. */
  lemma {:induction false} RunIsLive(ops: seq<Op>, h: int16)
    ensures At(Run(ops).lists, h) == LiveFrom(ops, 0, 0, h)
  {
    if ops != [] {
      var front, op := ops[..|ops| - 1], ops[|ops| - 1];
      RunIsLive(front, h);
      RunCount(front);
      LiveFromSnoc(front, op, 0, 0, h);
      assert front + [op] == ops;
      StepAt(Run(front), op, h);
    }
  }

  /** The handlers of each header, and the header each backing array was allocated for. */
  datatype TableView = TableView(lists: Lists, owner: map<array<Handler>, int16>)

  class HandlerManager {
    var count: nat
    var handlers: map<int16, Slice<Handler>>
    var handlerIdToHeader: map<int, int16>
    ghost var view: TableView

    ghost function Repr(): set<array<Handler>>
      reads this`view
    {
      view.owner.Keys
    }

    ghost predicate Entry(h: int16)
      reads this`handlers, this`view, Repr()
    {
      && h in handlers && h in view.lists
      && handlers[h].arr in view.owner && view.owner[handlers[h].arr] == h
      && handlers[h].Shows(view.lists[h])
    }

    ghost predicate SlicesValid()
      reads this`handlers, this`view, Repr()
    {
      && (forall h :: h in handlers ==> Entry(h))
      && (forall h :: h in view.lists ==> h in handlers)
    }

    ghost function Model(): Registry
      reads this`count, this`view, this`handlerIdToHeader
    {
      Registry(count, view.lists, handlerIdToHeader)
    }

    ghost predicate Valid()
      reads this, Repr()
    {
      SlicesValid() && Consistent(Model())
    }

    constructor ()
      ensures Valid() && Model() == EMPTY
    {
      count, handlers, handlerIdToHeader := 0, map[], map[];
      view := TableView(map[], map[]);
    }

    ghost function Own(h: int16): set<array<Handler>>
      reads this`handlers
    {
      if h in handlers then {handlers[h].arr} else {}
    }

    /** The list of `header` with one more entry, in its array or in a new one; the other lists stay. */
    method Grow(header: int16, entry: Handler) returns (grown: Slice<Handler>)
      requires SlicesValid()
      modifies Own(header)
      ensures grown.Shows(At(view.lists, header) + [entry])
      ensures if grown.arr in Repr() then view.owner[grown.arr] == header else fresh(grown.arr)
      ensures forall h :: h in handlers && h != header ==> Entry(h)
    {
      if header in handlers {
        assert Entry(header);
        grown := Append(handlers[header], entry, At(view.lists, header));
      } else {
        grown := Singleton(entry);
      }
    }

    method AppendTo(header: int16, entry: Handler)
      requires SlicesValid()
      modifies this`handlers, this`view, Own(header)
      ensures SlicesValid() && fresh(Repr() - old(Repr()))
      ensures view.lists == old(view.lists)[header := At(old(view.lists), header) + [entry]]
    {
      var grown := Grow(header, entry);
      handlers := handlers[header := grown];
      view := TableView(view.lists[header := At(view.lists, header) + [entry]], view.owner[grown.arr := header]);
    }

    method RegisterHandler(header: int16, callee: nat) returns (id: nat)
      requires Valid()
      modifies this, Own(header)
      ensures Valid() && fresh(Repr() - old(Repr()))
      ensures Model() == Step(old(Model()), Register(header, callee))
      ensures id == old(count)
    {
      ghost var before := Model();
      AppendTo(header, Handler(count, callee));
      handlerIdToHeader, count := handlerIdToHeader[count := header], count + 1;
      assert Model() == Step(before, Register(header, callee));
      StepConsistent(before, Register(header, callee));
      return count - 1;
    }

    /** Cuts the handler called `id` at position `i` out of the slice of `header`, in place.  Behind `i` the
        shifted array shows no other handler with that id. */
    method CutAt(header: int16, i: nat, id: int)
      requires SlicesValid() && header in view.lists && Distinct(view.lists[header])
      requires i < |view.lists[header]| && view.lists[header][i].id == id
      modifies this`handlers, this`view, Own(header)
      ensures SlicesValid()
      ensures view == old(view).(lists := old(view.lists)[header := Others(old(view.lists[header]), id)])
      ensures Clear(old(handlers[header]), i + 1, id)
      ensures header in handlers && handlers[header].arr == old(handlers[header].arr)
    {
      ghost var v := view.lists[header];
      var h := handlers[header];
      OthersPresent(v, i, id);
      StaleClear(v, i);
      var shorter := RemoveAt(h, i, v);
      handlers := handlers[header := shorter];
      view := view.(lists := view.lists[header := Without(v, i)]);
      assert forall k :: 0 <= k < h.len ==> h.arr[k] == Stale(v, i)[k];
    }

    method RemoveHandler(id: int)
      requires Valid()
      modifies this`handlers, this`view, Repr()
      ensures Valid() && Repr() == old(Repr())
      ensures Model() == Step(old(Model()), Remove(id))
    {
      StepConsistent(Model(), Remove(id));
      var header := if id in handlerIdToHeader then handlerIdToHeader[id] else 0;
      RemovedEverywhere(Model(), header, id);
      if header in handlers {
        RemoveFrom(header, id);
      }
    }

    /** The loop of `RemoveHandler`.  It keeps ranging over the slice header it took first, while the
        removal shifts the array behind it. */
    method RemoveFrom(header: int16, id: int)
      requires SlicesValid() && header in view.lists && Distinct(view.lists[header])
      modifies this`handlers, this`view, Own(header)
      ensures SlicesValid()
      ensures view == old(view).(lists := old(view.lists)[header := Others(old(view.lists[header]), id)])
    {
      ghost var v := view.lists[header];
      var h := handlers[header];
      ghost var removed := false;
      for i := 0 to h.len
        invariant !removed ==> view == old(view) && handlers == old(handlers) && SlicesValid() && !Has(v[..i], id)
        invariant removed ==> SlicesValid() && Clear(h, i, id)
        invariant removed ==> view == old(view).(lists := old(view.lists)[header := Others(v, id)])
      {
        if h.arr[i].id == id {
          assert v[i] == h.arr[i];
          CutAt(header, i, id);
          removed := true;
        } else if !removed {
          assert v[..i + 1] == v[..i] + [v[i]] && v[i] == h.arr[i];
        }
      }
      if !removed {
        assert v[..h.len] == v;
        OthersAbsent(v, id);
        assert view.lists == view.lists[header := v];
      }
    }

    /** No element the range loop still has to look at is called `id`. */
    static ghost predicate Clear(h: Slice<Handler>, from: nat, id: int)
      reads h.arr
    {
      h.len <= h.arr.Length && forall k :: from <= k < h.len ==> h.arr[k].id != id
    }
  }

  /** Looking in the one list that the id table names is enough. */
  lemma RemovedEverywhere(r: Registry, header: int16, id: int)
    requires Consistent(r)
    requires header == if id in r.headers then r.headers[id] else 0
    ensures Step(r, Remove(id)).lists ==
      if header in r.lists then r.lists[header := Others(r.lists[header], id)] else r.lists
  {
    forall h | h in r.lists && h != header ensures Others(r.lists[h], id) == r.lists[h] {
      HasMeans(r.lists[h], id);
      assert forall i :: 0 <= i < |r.lists[h]| ==> r.lists[h][i] in r.lists[h];
      OthersAbsent(r.lists[h], id);
    }
  }

  /** Removing an id that was never given out, or was removed before, changes nothing. */
  lemma RemoveAbsent(r: Registry, id: int)
    requires forall h :: h in r.lists ==> !Has(r.lists[h], id)
    ensures Step(r, Remove(id)) == r
  {
    forall h | h in r.lists ensures Others(r.lists[h], id) == r.lists[h] {
      OthersAbsent(r.lists[h], id);
    }
  }

  lemma RemoveTwice(r: Registry, id: int)
    ensures Step(Step(r, Remove(id)), Remove(id)) == Step(r, Remove(id))
  {
    forall h | h in r.lists ensures !Has(Others(r.lists[h], id), id) {
      OthersSub(r.lists[h], id);
      HasMeans(Others(r.lists[h], id), id);
    }
    RemoveAbsent(Step(r, Remove(id)), id);
  }
}
