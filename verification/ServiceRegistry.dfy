/**
 Service registration: `RegisterService` of `configuration/rpc.go` with the records of `configuration/data.go`, and
 the events it publishes, as `api/configuration/api.go` reads them.
 */
module ServiceRegistry {
  import opened Decimal
  import HeaderList
  import opened Wire

  // ---- Messages, records and events ----

  datatype Instance = Instance(address: string, password: string, db: int)

  datatype Incoming = Incoming(service: string, stream: string, group: string, instance: Instance, headers: seq<int>)

  datatype Outgoing = Outgoing(service: string, instance: Instance)

  datatype Registration = Registration(incoming: Incoming, outgoing: Outgoing)

  /** The 32-bit fields of a registration hold 32-bit values. */
  predicate Typed(r: Registration) {
    HeaderList.AllInt32(r.incoming.headers) && IsInt32(r.incoming.instance.db) && IsInt32(r.outgoing.instance.db)
  }

  /** What Redis keeps under `incoming_service:` and a name. */
  datatype IncomingRecord = IncomingRecord(service: string, stream: string, group: string, address: string,
                                           password: string, db: int, headers: string)

  datatype OutgoingRecord = OutgoingRecord(service: string, address: string, password: string, db: int)

  /** `RegisterService` leaves the group of the record empty. */
  function StoredIncoming(s: Incoming): IncomingRecord {
    IncomingRecord(s.service, s.stream, "", s.instance.address, s.instance.password, s.instance.db,
      HeaderList.Text(s.headers))
  }

  function StoredOutgoing(s: Outgoing): OutgoingRecord {
    OutgoingRecord(s.service, s.instance.address, s.instance.password, s.instance.db)
  }

  /** `int32(n)`. */
  function ToInt32(n: int): int {
    Signed32(n % TWO32)
  }

  function IncomingProto(r: IncomingRecord): Incoming {
    Incoming(r.service, r.stream, r.group, Instance(r.address, r.password, ToInt32(r.db)),
      HeaderList.Headers(r.headers))
  }

  function OutgoingProto(r: OutgoingRecord): Outgoing {
    Outgoing(r.service, Instance(r.address, r.password, ToInt32(r.db)))
  }

  /** A registration read back from its records is the one that was stored, except for the group. */
  lemma StoredRoundTrip(r: Registration)
    requires Typed(r)
    ensures IncomingProto(StoredIncoming(r.incoming)) == r.incoming.(group := "")
    ensures OutgoingProto(StoredOutgoing(r.outgoing)) == r.outgoing
  {
    HeaderList.RoundTrip(r.incoming.headers);
    Signed32Mod(r.incoming.instance.db);
    Signed32Mod(r.outgoing.instance.db);
  }

  datatype EventType = REGISTER | UPDATE | NOOP

  /** The keys of an event's values. */
  datatype Field =
    | IncomingService | IncomingStream | IncomingGroup | IncomingAddress | IncomingPassword | IncomingDb
    | IncomingHeaders
    | OutgoingService | OutgoingAddress | OutgoingPassword | OutgoingDb

  datatype Event = Event(id: string, kind: EventType, values: map<Field, string>)

  /** The values of a registration whose numbers have been printed. */
  function Values(r: Registration, headers: string, incomingDb: string, outgoingDb: string): map<Field, string> {
    map[IncomingService := r.incoming.service, IncomingStream := r.incoming.stream, IncomingGroup := r.incoming.group,
        IncomingAddress := r.incoming.instance.address, IncomingPassword := r.incoming.instance.password,
        IncomingDb := incomingDb, IncomingHeaders := headers,
        OutgoingService := r.outgoing.service, OutgoingAddress := r.outgoing.instance.address,
        OutgoingPassword := r.outgoing.instance.password, OutgoingDb := outgoingDb]
  }

  /** `newNetworkingUpdateEvent`; values travel as text. */
  function NewEvent(id: string, kind: EventType, r: Registration): Event {
    Event(id, kind, Values(r, HeaderList.Text(r.incoming.headers), Print(r.incoming.instance.db),
      Print(r.outgoing.instance.db)))
  }

  datatype ConfigurationEvent = ConfigurationEvent(id: string, kind: EventType, registration: Registration)

  /** `values[f].(string)`, which panics on a missing key. */
  function Read(e: Event, f: Field): Result<string> {
    if f in e.values then Ok(e.values[f]) else Panic
  }

  function Db(text: string): int {
    var n := ParseInt32(text);
    if n.Some? then n.value else 0
  }

  /** `GenericEventToNetworkConfigurationEvent`; `None` is its nil. */
  function ToConfigurationEvent(e: Event): Result<Option<ConfigurationEvent>> {
    if e.kind != REGISTER && e.kind != UPDATE then Ok(None)
    else
      var headers :- Read(e, IncomingHeaders);
      var incomingDb :- Read(e, IncomingDb);
      var outgoingDb :- Read(e, OutgoingDb);
      var service :- Read(e, IncomingService);
      var stream :- Read(e, IncomingStream);
      var group :- Read(e, IncomingGroup);
      var address :- Read(e, IncomingAddress);
      var password :- Read(e, IncomingPassword);
      var outgoing :- Read(e, OutgoingService);
      var outgoingAddress :- Read(e, OutgoingAddress);
      var outgoingPassword :- Read(e, OutgoingPassword);
      var incoming := Incoming(service, stream, group, Instance(address, password, Db(incomingDb)),
        HeaderList.Headers(headers));
      Ok(Some(ConfigurationEvent(e.id, e.kind,
                                 Registration(incoming,
                                   Outgoing(outgoing, Instance(outgoingAddress, outgoingPassword, Db(outgoingDb)))))))
  }

  lemma ReadBack(id: string, kind: EventType, r: Registration, headers: string, incomingDb: string, outgoingDb: string)
    requires HeaderList.Headers(headers) == r.incoming.headers
    requires Db(incomingDb) == r.incoming.instance.db && Db(outgoingDb) == r.outgoing.instance.db
    ensures ToConfigurationEvent(Event(id, kind, Values(r, headers, incomingDb, outgoingDb))) ==
            Ok(if kind == NOOP then None else Some(ConfigurationEvent(id, kind, r)))
  {
  }

  /** A database number that does not parse reads as 0, and headers that do not parse are left out. */
  lemma ReadValues(id: string, kind: EventType, r: Registration, headers: string, incomingDb: string,
          outgoingDb: string)
    requires kind != NOOP
    ensures
      var inDb, outDb := ParseInt32(incomingDb), ParseInt32(outgoingDb);
      var incoming := r.incoming.(headers := HeaderList.Headers(headers),
                                  instance := r.incoming.instance.(db := if inDb.Some? then inDb.value else 0));
      var outgoing := r.outgoing.(instance := r.outgoing.instance.(db := if outDb.Some? then outDb.value else 0));
      ToConfigurationEvent(Event(id, kind, Values(r, headers, incomingDb, outgoingDb))) ==
      Ok(Some(ConfigurationEvent(id, kind, Registration(incoming, outgoing))))
  {
  }

  /** A listener gets the whole registration back, group included, and nothing for a NOOP; it never panics. */
  lemma EventRoundTrip(id: string, kind: EventType, r: Registration)
    requires Typed(r)
    ensures ToConfigurationEvent(NewEvent(id, kind, r)) ==
      Ok(if kind == NOOP then None else Some(ConfigurationEvent(id, kind, r)))
  {
    HeaderList.RoundTrip(r.incoming.headers);
    ParseInt32OfPrint(r.incoming.instance.db);
    ParseInt32OfPrint(r.outgoing.instance.db);
    ReadBack(id, kind, r, HeaderList.Text(r.incoming.headers), Print(r.incoming.instance.db),
      Print(r.outgoing.instance.db));
  }

  // ---- One registration ----

  datatype Status = CREATED | UPDATED | UNCHANGED

  datatype Services = Services(incoming: map<string, IncomingRecord>, outgoing: map<string, OutgoingRecord>)

  function StatusOf(v: Services, r: Registration): Status {
    if r.incoming.service in v.incoming && r.outgoing.service in v.outgoing then UNCHANGED
    else if r.incoming.service in v.incoming || r.outgoing.service in v.outgoing then UPDATED
    else CREATED
  }

  function KindOf(s: Status): EventType {
    match s
    case CREATED => REGISTER
    case UPDATED => UPDATE
    case UNCHANGED => NOOP
  }

  /** `HSet` of a record that does not exist yet. */
  function AddNew<R>(m: map<string, R>, name: string, record: R): map<string, R> {
    if name in m then m else m[name := record]
  }

  function Store(v: Services, r: Registration): Services {
    Services(AddNew(v.incoming, r.incoming.service, StoredIncoming(r.incoming)),
             AddNew(v.outgoing, r.outgoing.service, StoredOutgoing(r.outgoing)))
  }

  /** The service with its Redis records, and the events it has published. */
  class Server {
    var incoming: map<string, IncomingRecord>
    var outgoing: map<string, OutgoingRecord>
    var published: seq<Event>

    ghost function View(): Services
      reads this
    {
      Services(incoming, outgoing)
    }

    /** `id` is the random id of the event. */
    method RegisterService(r: Registration, id: string) returns (status: Status)
      modifies this
      ensures View() == Store(old(View()), r) && status == StatusOf(old(View()), r)
      ensures published == old(published) + [NewEvent(id, KindOf(status), r)]
    {
      status := CREATED;
      var kind := REGISTER;
      if r.incoming.service in incoming {
        status, kind := UPDATED, UPDATE;
      } else {
        var s := r.incoming;
        var headers := HeaderList.PrintHeaders(s.headers);
        incoming := incoming[s.service :=
          IncomingRecord(s.service, s.stream, "", s.instance.address, s.instance.password, s.instance.db, headers)];
      }
      if r.outgoing.service in outgoing {
        if status == CREATED {
          status, kind := UPDATED, UPDATE;
        } else {
          status, kind := UNCHANGED, NOOP;
        }
      } else {
        outgoing := outgoing[r.outgoing.service := StoredOutgoing(r.outgoing)];
      }
      published := published + [NewEvent(id, kind, r)];
    }
  }

  // ---- Sequential runs ----

  function Run(v: Services, rs: seq<Registration>): Services {
    if rs == [] then v else Store(Run(v, rs[..|rs| - 1]), rs[|rs| - 1])
  }

  function StatusAt(v: Services, rs: seq<Registration>, i: nat): Status
    requires i < |rs|
  {
    StatusOf(Run(v, rs[..i]), rs[i])
  }

  /** Some of the first `n` registrations is for the incoming service `name`. */
  ghost predicate NamedIncoming(rs: seq<Registration>, n: nat, name: string)
    requires n <= |rs|
  {
    exists i: nat :: i < n && rs[i].incoming.service == name
  }

  ghost predicate NamedOutgoing(rs: seq<Registration>, n: nat, name: string)
    requires n <= |rs|
  {
    exists i: nat :: i < n && rs[i].outgoing.service == name
  }

  /** Repeated `AddNew`. */
  function AddAll<R>(m: map<string, R>, entries: seq<(string, R)>): map<string, R> {
    if entries == [] then m
    else
      var n := |entries| - 1;
      AddNew(AddAll(m, entries[..n]), entries[n].0, entries[n].1)
  }

  ghost predicate Has<R(!new)>(entries: seq<(string, R)>, n: nat, name: string)
    requires n <= |entries|
  {
    exists i: nat :: i < n && entries[i].0 == name
  }

  lemma HasSnoc<R(!new)>(entries: seq<(string, R)>, k: string)
    requires entries != []
    ensures var n := |entries| - 1; Has(entries, |entries|, k) <==> Has(entries[..n], n, k) || entries[n].0 == k
  {
  }

  /** What was there stays. */
  lemma {:induction false} OldEntryKept<R(!new)>(m: map<string, R>, entries: seq<(string, R)>, k: string)
    ensures var all := AddAll(m, entries);
      && (k in all <==> k in m || Has(entries, |entries|, k))
      && (k in m ==> all[k] == m[k])
  {
    if entries != [] {
      OldEntryKept(m, entries[..|entries| - 1], k);
      HasSnoc(entries, k);
    }
  }

  /** Of the entries for a new name the first one stays. */
  lemma {:induction false} FirstEntryKept<R(!new)>(m: map<string, R>, entries: seq<(string, R)>, i: nat)
    requires i < |entries| && entries[i].0 !in m && !Has(entries, i, entries[i].0)
    ensures var all := AddAll(m, entries); entries[i].0 in all && all[entries[i].0] == entries[i].1
  {
    var n, k := |entries| - 1, entries[i].0;
    var front := entries[..n];
    if i < n {
      assert front[i] == entries[i];
      assert forall j: nat :: j < i ==> front[j] == entries[j];
      FirstEntryKept(m, front, i);
    } else {
      OldEntryKept(m, front, k);
      assert forall j: nat :: j < n ==> front[j] == entries[j];
    }
  }

  function IncomingEntries(rs: seq<Registration>): (r: seq<(string, IncomingRecord)>)
    ensures |r| == |rs|
  {
    seq(|rs|, i requires 0 <= i < |rs| => (rs[i].incoming.service, StoredIncoming(rs[i].incoming)))
  }

  function OutgoingEntries(rs: seq<Registration>): (r: seq<(string, OutgoingRecord)>)
    ensures |r| == |rs|
  {
    seq(|rs|, i requires 0 <= i < |rs| => (rs[i].outgoing.service, StoredOutgoing(rs[i].outgoing)))
  }

  lemma NamedIsHas(rs: seq<Registration>, n: nat, name: string)
    requires n <= |rs|
    ensures Has(IncomingEntries(rs), n, name) <==> NamedIncoming(rs, n, name)
    ensures Has(OutgoingEntries(rs), n, name) <==> NamedOutgoing(rs, n, name)
  {
    var incoming, outgoing := IncomingEntries(rs), OutgoingEntries(rs);
    assert forall i: nat :: i < n ==> incoming[i].0 == rs[i].incoming.service;
    assert forall i: nat :: i < n ==> outgoing[i].0 == rs[i].outgoing.service;
  }

  lemma {:induction false} RunIsAddAll(v: Services, rs: seq<Registration>)
    ensures Run(v, rs) == Services(AddAll(v.incoming, IncomingEntries(rs)), AddAll(v.outgoing, OutgoingEntries(rs)))
  {
    if rs != [] {
      var n := |rs| - 1;
      RunIsAddAll(v, rs[..n]);
      assert IncomingEntries(rs)[..n] == IncomingEntries(rs[..n]);
      assert OutgoingEntries(rs)[..n] == OutgoingEntries(rs[..n]);
    }
  }

  /** After any run the services with a record are those that had one and those named, and old records stay. */
  lemma RecordsAfter(v: Services, rs: seq<Registration>, name: string)
    ensures var w := Run(v, rs);
      && (name in w.incoming <==> name in v.incoming || NamedIncoming(rs, |rs|, name))
      && (name in w.outgoing <==> name in v.outgoing || NamedOutgoing(rs, |rs|, name))
      && (name in v.incoming ==> w.incoming[name] == v.incoming[name])
      && (name in v.outgoing ==> w.outgoing[name] == v.outgoing[name])
  {
    RunIsAddAll(v, rs);
    OldEntryKept(v.incoming, IncomingEntries(rs), name);
    OldEntryKept(v.outgoing, OutgoingEntries(rs), name);
    NamedIsHas(rs, |rs|, name);
  }

  /** In every run a call is CREATED, UPDATED or UNCHANGED exactly when neither, one or both of its services were
      there at the start or named by an earlier call. */
  lemma StatusExact(v: Services, rs: seq<Registration>, i: nat)
    requires i < |rs|
    ensures
      var incoming := rs[i].incoming.service in v.incoming || NamedIncoming(rs, i, rs[i].incoming.service);
      var outgoing := rs[i].outgoing.service in v.outgoing || NamedOutgoing(rs, i, rs[i].outgoing.service);
      && (StatusAt(v, rs, i) == CREATED <==> !incoming && !outgoing)
      && (StatusAt(v, rs, i) == UPDATED <==> incoming != outgoing)
      && (StatusAt(v, rs, i) == UNCHANGED <==> incoming && outgoing)
  {
    RecordsAfter(v, rs[..i], rs[i].incoming.service);
    RecordsAfter(v, rs[..i], rs[i].outgoing.service);
    assert NamedIncoming(rs[..i], i, rs[i].incoming.service) <==> NamedIncoming(rs, i, rs[i].incoming.service);
    assert NamedOutgoing(rs[..i], i, rs[i].outgoing.service) <==> NamedOutgoing(rs, i, rs[i].outgoing.service);
  }

  /** The event published by call `i`. */
  function EventAt(v: Services, rs: seq<Registration>, i: nat, id: string): Event
    requires i < |rs|
  {
    NewEvent(id, KindOf(StatusAt(v, rs, i)), rs[i])
  }

  /** In every run the event of a call is a REGISTER, an UPDATE or a NOOP exactly when neither, one or both of its
      services were there at the start or named by an earlier call. */
  lemma KindExact(v: Services, rs: seq<Registration>, i: nat, id: string)
    requires i < |rs|
    ensures
      var incoming := rs[i].incoming.service in v.incoming || NamedIncoming(rs, i, rs[i].incoming.service);
      var outgoing := rs[i].outgoing.service in v.outgoing || NamedOutgoing(rs, i, rs[i].outgoing.service);
      var e := EventAt(v, rs, i, id);
      && e.id == id
      && (e.kind == REGISTER <==> !incoming && !outgoing)
      && (e.kind == UPDATE <==> incoming != outgoing)
      && (e.kind == NOOP <==> incoming && outgoing)
  {
    StatusExact(v, rs, i);
  }

  /** The record of a new service is, ever after, the one of the first call that named it. */
  lemma FirstRecordKept(v: Services, rs: seq<Registration>, i: nat)
    requires i < |rs|
    ensures var w, r := Run(v, rs), rs[i];
      && (r.incoming.service !in v.incoming && !NamedIncoming(rs, i, r.incoming.service) ==>
            r.incoming.service in w.incoming && w.incoming[r.incoming.service] == StoredIncoming(r.incoming))
      && (r.outgoing.service !in v.outgoing && !NamedOutgoing(rs, i, r.outgoing.service) ==>
            r.outgoing.service in w.outgoing && w.outgoing[r.outgoing.service] == StoredOutgoing(r.outgoing))
  {
    RunIsAddAll(v, rs);
    var r := rs[i];
    NamedIsHas(rs, i, r.incoming.service);
    NamedIsHas(rs, i, r.outgoing.service);
    if r.incoming.service !in v.incoming && !NamedIncoming(rs, i, r.incoming.service) {
      FirstEntryKept(v.incoming, IncomingEntries(rs), i);
    }
    if r.outgoing.service !in v.outgoing && !NamedOutgoing(rs, i, r.outgoing.service) {
      FirstEntryKept(v.outgoing, OutgoingEntries(rs), i);
    }
  }

  // ---- Runs through the client library ----

  /** The client library uses one name for both records. */
  ghost predicate ByClient(rs: seq<Registration>) {
    forall i :: 0 <= i < |rs| ==> rs[i].incoming.service == rs[i].outgoing.service
  }

  lemma NamedAlike(rs: seq<Registration>, n: nat, name: string)
    requires ByClient(rs) && n <= |rs|
    ensures NamedIncoming(rs, n, name) == NamedOutgoing(rs, n, name)
  {
  }

  /** `UPDATED` never answers a client, whatever the run, exactly when the two kinds of record start out under the
      same names. */
  lemma NeverUpdatedIff(v: Services)
    ensures (forall rs: seq<Registration>, i: nat :: ByClient(rs) && i < |rs| ==> StatusAt(v, rs, i) != UPDATED) <==>
      v.incoming.Keys == v.outgoing.Keys
  {
    if v.incoming.Keys == v.outgoing.Keys {
      forall rs: seq<Registration>, i: nat | ByClient(rs) && i < |rs| ensures StatusAt(v, rs, i) != UPDATED {
        NamedAlike(rs, i, rs[i].incoming.service);
        StatusExact(v, rs, i);
        assert rs[i].incoming.service in v.incoming.Keys <==> rs[i].outgoing.service in v.outgoing.Keys;
      }
    } else {
      var name :| (name in v.incoming) != (name in v.outgoing);
      var nowhere := Instance("", "", 0);
      var rs := [Registration(Incoming(name, "", "", nowhere, []), Outgoing(name, nowhere))];
      assert rs[..0] == [];
      assert ByClient(rs) && StatusAt(v, rs, 0) == UPDATED;
    }
  }

  /** A name gets one REGISTER event, at its first registration, and NOOP events after it. */
  lemma OneRegisterPerName(v: Services, rs: seq<Registration>, i: nat, id: string)
    requires ByClient(rs) && v.incoming.Keys == v.outgoing.Keys && i < |rs|
    ensures
      var name := rs[i].incoming.service;
      var kind := EventAt(v, rs, i, id).kind;
      && kind != UPDATE
      && (kind == REGISTER <==> name !in v.incoming && forall j :: 0 <= j < i ==> rs[j].incoming.service != name)
  {
    NamedAlike(rs, i, rs[i].incoming.service);
    StatusExact(v, rs, i);
    assert rs[i].incoming.service in v.incoming.Keys <==> rs[i].outgoing.service in v.outgoing.Keys;
  }

  /** What a listener learns from a REGISTER event is what the service answers for that name ever after, except for
      the group, which only the event carries. */
  lemma ListenersAgreeWithStore(v: Services, rs: seq<Registration>, i: nat, id: string)
    requires i < |rs| && Typed(rs[i]) && EventAt(v, rs, i, id).kind == REGISTER
    ensures
      var w, name := Run(v, rs), rs[i].incoming.service;
      var told := ToConfigurationEvent(EventAt(v, rs, i, id));
      && told == Ok(Some(ConfigurationEvent(id, REGISTER, rs[i])))
      && name in w.incoming && IncomingProto(w.incoming[name]) == rs[i].incoming.(group := "")
      && rs[i].outgoing.service in w.outgoing && OutgoingProto(w.outgoing[rs[i].outgoing.service]) == rs[i].outgoing
  {
    EventRoundTrip(id, REGISTER, rs[i]);
    StatusExact(v, rs, i);
    FirstRecordKept(v, rs, i);
    StoredRoundTrip(rs[i]);
  }
}
