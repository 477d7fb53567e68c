/**
 The connection manager of `networking/manager.go` and `networking/client.go`: which connections are
 registered, which session key belongs to which connection, and when a send channel is closed.
 */
module SessionManager {

  /** A `*Client`. */
  type ClientId = nat

  /** `sso` is the key each client logged in with, "" before; `closes` counts the closes of its send channel. */
  datatype View = View(clients: set<ClientId>, sessions: map<string, ClientId>, sso: map<ClientId, string>,
    closes: map<ClientId, nat>)

  /** The messages `run` receives, and the sends on a client's channel by the other goroutines. */
  datatype Event =
    | Register(client: ClientId)
    | Die(client: ClientId)
    | LogIn(sso: string, client: ClientId)
    | Send(client: ClientId)

  function Key(v: View, c: ClientId): string {
    if c in v.sso then v.sso[c] else ""
  }

  function Closes(v: View, c: ClientId): nat {
    if c in v.closes then v.closes[c] else 0
  }

  function Step(v: View, e: Event): View {
    match e
    case Register(c) => v.(clients := v.clients + {c})
    case Die(c) =>
      if c in v.clients then
        v.(clients := v.clients - {c}, sessions := v.sessions - {Key(v, c)}, closes := v.closes[c := Closes(v, c) + 1])
      else v
    case LogIn(k, c) => v.(sessions := v.sessions[k := c], sso := v.sso[c := k])
    case Send(_) => v
  }

  function Run(v: View, es: seq<Event>): View {
    if es == [] then v else Step(Run(v, es[..|es| - 1]), es[|es| - 1])
  }

  /** No client is registered yet, and none has a key. */
  ghost predicate Initial(v: View) {
    && v.clients == {} && v.sessions == map[]
    && (forall c :: c in v.sso ==> v.sso[c] == "") && (forall c :: c in v.closes ==> v.closes[c] == 0)
  }

  /** `serveWs` registers each new connection once. */
  ghost predicate RegisteredOnce(es: seq<Event>) {
    forall i, j :: 0 <= i < j < |es| && es[i].Register? && es[j].Register? ==> es[i].client != es[j].client
  }

  // ---- Close exactly once ----

  /** `c` was registered and died later. */
  ghost predicate Left(es: seq<Event>, c: ClientId) {
    exists i, j :: 0 <= i < j < |es| && es[i] == Register(c) && es[j] == Die(c)
  }

  lemma LeftSnoc(es: seq<Event>, c: ClientId)
    requires es != []
    ensures var n := |es| - 1;
      Left(es, c) <==> Left(es[..n], c) || (es[n] == Die(c) && Register(c) in es[..n])
  {
  }

  lemma NotRegisteredBefore(es: seq<Event>, i: nat)
    requires RegisteredOnce(es) && i < |es| && es[i].Register?
    ensures es[i] !in es[..i] && RegisteredOnce(es[..i])
  {
  }

  /** One message, for a connection that was registered and left before as the flags say. */
  lemma ClosedStep(v: View, e: Event, c: ClientId, registered: bool, left: bool)
    requires Closes(v, c) == (if left then 1 else 0) && (c in v.clients <==> registered && !left)
    requires (left ==> registered) && (e == Register(c) ==> !registered)
    ensures var w := Step(v, e);
      var leaves := e == Die(c) && registered;
      && Closes(w, c) == (if left || leaves then 1 else 0)
      && (c in w.clients <==> (registered || e == Register(c)) && !(left || leaves))
  {
  }

  /** In every run in which each connection is registered once, its send channel is closed once if the
      connection has left `clients` and never otherwise, however often its two goroutines call die. */
  lemma {:induction false} ClosedOnceOnLeaving(v: View, es: seq<Event>, c: ClientId)
    requires Initial(v) && RegisteredOnce(es)
    ensures var w := Run(v, es);
      && Closes(w, c) == (if Left(es, c) then 1 else 0)
      && (c in w.clients <==> Register(c) in es && !Left(es, c))
  {
    if es != [] {
      var n := |es| - 1;
      var front := es[..n];
      assert RegisteredOnce(front) by {
        assert forall i :: 0 <= i < n ==> front[i] == es[i];
      }
      ClosedOnceOnLeaving(v, front, c);
      LeftSnoc(es, c);
      assert Register(c) in es <==> Register(c) in front || es[n] == Register(c) by {
        assert es == front + [es[n]];
      }
      if es[n] == Register(c) {
        NotRegisteredBefore(es, n);
      }
      if Left(front, c) {
        var i, j :| 0 <= i < j < n && front[i] == Register(c) && front[j] == Die(c);
        assert Register(c) in front;
      }
      ClosedStep(Run(v, front), es[n], c, Register(c) in front, Left(front, c));
    }
  }

  // ---- Session routing ----

  /** `sessions` is exactly the map from key to client over the live logged-in clients. */
  ghost predicate Exact(v: View) {
    && (forall k :: k in v.sessions ==> k != "" && v.sessions[k] in v.clients && Key(v, v.sessions[k]) == k)
    && (forall c :: c in v.clients && Key(v, c) != "" ==> Key(v, c) in v.sessions && v.sessions[Key(v, c)] == c)
  }

  /** A login that names a registered client which holds no other key, with a key nobody else holds. */
  ghost predicate GoodLogin(v: View, k: string, c: ClientId) {
    && k != "" && c in v.clients && (Key(v, c) == "" || Key(v, c) == k)
    && forall d :: d in v.clients && d != c ==> Key(v, d) != k
  }

  lemma LogInExactIff(v: View, k: string, c: ClientId)
    requires Exact(v)
    ensures Exact(Step(v, LogIn(k, c))) <==> GoodLogin(v, k, c)
  {
    var w := Step(v, LogIn(k, c));
    assert w.sessions[k] == c && Key(w, c) == k;
    if Exact(w) {
      assert k in w.sessions && w.sessions[k] in w.clients;
      assert Key(v, c) in w.sessions ==> Key(w, w.sessions[Key(v, c)]) == Key(v, c);
      forall d | d in v.clients && d != c ensures Key(v, d) != k {
        assert Key(w, d) == Key(v, d);
      }
    }
    if GoodLogin(v, k, c) {
      forall j | j in w.sessions ensures j != "" && w.sessions[j] in w.clients && Key(w, w.sessions[j]) == j {
        assert j != k ==> v.sessions[j] != c;
      }
      forall d | d in w.clients && Key(w, d) != "" ensures Key(w, d) in w.sessions && w.sessions[Key(w, d)] == d {
        assert d != c ==> Key(w, d) == Key(v, d) != k;
      }
    }
  }

  lemma DieExact(v: View, c: ClientId)
    requires Exact(v)
    ensures Exact(Step(v, Die(c)))
  {
  }

  lemma RegisterExact(v: View, c: ClientId)
    requires Exact(v) && Key(v, c) == ""
    ensures Exact(Step(v, Register(c)))
  {
  }

  ghost predicate GoodLoginAt(v: View, es: seq<Event>, i: nat) {
    i < |es| && (es[i].LogIn? ==> GoodLogin(Run(v, es[..i]), es[i].sso, es[i].client))
  }

  ghost predicate GoodLogins(v: View, es: seq<Event>) {
    forall i :: 0 <= i < |es| ==> GoodLoginAt(v, es, i)
  }

  ghost predicate AlwaysExact(v: View, es: seq<Event>) {
    forall i :: 0 <= i <= |es| ==> Exact(Run(v, es[..i]))
  }

  lemma {:induction false} KeyOnlyIfRegistered(v: View, es: seq<Event>, c: ClientId)
    requires Initial(v) && GoodLogins(v, es)
    ensures c in Run(v, es).clients || Key(Run(v, es), c) != "" ==> Register(c) in es
  {
    if es != [] {
      var n := |es| - 1;
      assert es == es[..n] + [es[n]];
      GoodPrefix(v, es);
      KeyOnlyIfRegistered(v, es[..n], c);
      assert GoodLoginAt(v, es, n);
    }
  }

  lemma GoodPrefix(v: View, es: seq<Event>)
    requires es != [] && GoodLogins(v, es)
    ensures GoodLogins(v, es[..|es| - 1])
  {
    var n := |es| - 1;
    forall i | 0 <= i < n ensures GoodLoginAt(v, es[..n], i) {
      assert GoodLoginAt(v, es, i) && es[..n][..i] == es[..i];
    }
  }

  lemma {:induction false} ExactAfter(v: View, es: seq<Event>)
    requires Initial(v) && RegisteredOnce(es) && GoodLogins(v, es)
    ensures Exact(Run(v, es))
  {
    if es != [] {
      var n := |es| - 1;
      var front := es[..n];
      GoodPrefix(v, es);
      assert RegisteredOnce(front) by {
        assert forall i :: 0 <= i < n ==> front[i] == es[i];
      }
      ExactAfter(v, front);
      var w := Run(v, front);
      match es[n]
      case Register(c) =>
        KeyOnlyIfRegistered(v, front, c);
        NotRegisteredBefore(es, n);
        RegisterExact(w, c);
      case Die(c) => DieExact(w, c);
      case LogIn(k, c) =>
        assert GoodLoginAt(v, es, n);
        LogInExactIff(w, k, c);
      case Send(_) =>
    }
  }

  /** Routing is exact throughout a run if and only if every login in it is good when it arrives. */
  lemma SessionsExactIff(v: View, es: seq<Event>)
    requires Initial(v) && RegisteredOnce(es)
    ensures AlwaysExact(v, es) <==> GoodLogins(v, es)
  {
    if AlwaysExact(v, es) {
      forall i | 0 <= i < |es| ensures GoodLoginAt(v, es, i) {
        assert es[..i + 1][..i] == es[..i];
        assert Exact(Run(v, es[..i])) && Exact(Run(v, es[..i + 1]));
        if es[i].LogIn? {
          LogInExactIff(Run(v, es[..i]), es[i].sso, es[i].client);
        }
      }
    }
    if GoodLogins(v, es) {
      forall i | 0 <= i <= |es| ensures Exact(Run(v, es[..i])) {
        forall j | 0 <= j < i ensures GoodLoginAt(v, es[..i], j) {
          assert GoodLoginAt(v, es, j) && es[..i][..j] == es[..j];
        }
        assert RegisteredOnce(es[..i]) by {
          assert forall j :: 0 <= j < i ==> es[..i][j] == es[j];
        }
        ExactAfter(v, es[..i]);
      }
    }
  }

  // ---- Where a key routes ----

  /** Within the first `n` events `d` was registered and has not died since. */
  ghost predicate RegisteredAt(es: seq<Event>, n: nat, d: ClientId) {
    exists r :: 0 <= r < n && r < |es| && es[r] == Register(d) && forall j :: r < j < n && j < |es| ==> es[j] != Die(d)
  }

  /** The last login of `d` within the first `n` events was with key `k`; without one its key is "". */
  ghost predicate LatestKey(es: seq<Event>, n: nat, d: ClientId, k: string) {
    || (k == "" && forall j :: 0 <= j < n && j < |es| ==> !(es[j].LogIn? && es[j].client == d))
    || (exists l :: 0 <= l < n && l < |es| && es[l] == LogIn(k, d)
          && forall j :: l < j < n && j < |es| ==> !(es[j].LogIn? && es[j].client == d))
  }

  /** Event `i` is the death of a registered client whose latest key was `k`. */
  ghost predicate Unroutes(es: seq<Event>, i: nat, k: string) {
    i < |es| && es[i].Die? && RegisteredAt(es, i, es[i].client) && LatestKey(es, i, es[i].client, k)
  }

  /** The last login with `k` within the first `n` events was by `c`, and nothing unrouted `k` after it. */
  ghost predicate RoutesTo(es: seq<Event>, n: nat, k: string, c: ClientId) {
    exists l :: 0 <= l < n && l < |es| && es[l] == LogIn(k, c)
      && forall j :: l < j < n && j < |es| ==> !(es[j].LogIn? && es[j].sso == k) && !Unroutes(es, j, k)
  }

  lemma RunNext(v: View, es: seq<Event>, n: nat)
    requires n < |es|
    ensures Run(v, es[..n + 1]) == Step(Run(v, es[..n]), es[n])
  {
    assert es[..n + 1][..n] == es[..n];
  }

  lemma {:induction false} RegisteredIff(v: View, es: seq<Event>, n: nat, d: ClientId)
    requires Initial(v) && n <= |es|
    ensures d in Run(v, es[..n]).clients <==> RegisteredAt(es, n, d)
  {
    if n > 0 {
      RegisteredIff(v, es, n - 1, d);
      RunNext(v, es, n - 1);
    }
  }

  lemma {:induction false} LatestKeyIff(v: View, es: seq<Event>, n: nat, d: ClientId, k: string)
    requires Initial(v) && n <= |es|
    ensures Key(Run(v, es[..n]), d) == k <==> LatestKey(es, n, d, k)
  {
    if n > 0 {
      LatestKeyIff(v, es, n - 1, d, k);
      RunNext(v, es, n - 1);
    }
  }

  lemma RoutesToNext(es: seq<Event>, n: nat, k: string, c: ClientId)
    requires n < |es|
    ensures RoutesTo(es, n + 1, k, c) <==>
      || es[n] == LogIn(k, c)
      || (RoutesTo(es, n, k, c) && !(es[n].LogIn? && es[n].sso == k) && !Unroutes(es, n, k))
  {
    hide Unroutes;
  }

  /** In every run, whatever the logins, a key routes to the client of the last login with it, unless a registered
      client whose latest key it was has died after that login: then it routes nowhere. */
  lemma {:induction false} RoutedIff(v: View, es: seq<Event>, n: nat, k: string, c: ClientId)
    requires Initial(v) && n <= |es|
    ensures var w := Run(v, es[..n]); k in w.sessions && w.sessions[k] == c <==> RoutesTo(es, n, k, c)
  {
    if n > 0 {
      RoutedIff(v, es, n - 1, k, c);
      RunNext(v, es, n - 1);
      RoutesToNext(es, n - 1, k, c);
      RegisteredIff(v, es, n - 1, es[n - 1].client);
      LatestKeyIff(v, es, n - 1, es[n - 1].client, k);
      hide RoutesTo, RegisteredAt, LatestKey;
    }
  }

  /** A login takes its key over, whoever had it. */
  lemma LastLoginRoutes(v: View, es: seq<Event>, k: string, c: ClientId)
    requires Initial(v)
    ensures var w := Run(v, es + [LogIn(k, c)]); k in w.sessions && w.sessions[k] == c
  {
    var all := es + [LogIn(k, c)];
    assert all[..|all|] == all;
    RoutedIff(v, all, |all|, k, c);
  }

  // ---- Sends on a closed channel ----

  /** Event `i` sends on a closed channel, which ends the process. */
  ghost predicate SendPanics(v: View, es: seq<Event>, i: nat) {
    i < |es| && es[i].Send? && Closes(Run(v, es[..i]), es[i].client) > 0
  }

  /** Event `i` sends to a client that has died. */
  ghost predicate SentTooLate(es: seq<Event>, i: nat) {
    i < |es| && es[i].Send? && Left(es[..i], es[i].client)
  }

  /** A send panics exactly when it follows its client's death. */
  lemma SendPanicsIff(v: View, es: seq<Event>, i: nat)
    requires Initial(v) && RegisteredOnce(es) && i < |es| && es[i].Send?
    ensures SendPanics(v, es, i) <==> SentTooLate(es, i)
  {
    assert RegisteredOnce(es[..i]) by {
      assert forall j :: 0 <= j < i ==> es[..i][j] == es[j];
    }
    ClosedOnceOnLeaving(v, es[..i], es[i].client);
  }

  /** The client dies at one of the events from `l` up to `i`. */
  ghost predicate DiesBetween(es: seq<Event>, l: nat, i: nat, c: ClientId) {
    exists j :: l <= j < i && j < |es| && es[j] == Die(c)
  }

  ghost predicate LeftBefore(es: seq<Event>, n: nat, c: ClientId) {
    exists a, b :: 0 <= a < b < n && b < |es| && es[a] == Register(c) && es[b] == Die(c)
  }

  lemma LeftPrefix(es: seq<Event>, n: nat, c: ClientId)
    requires n <= |es|
    ensures Left(es[..n], c) <==> LeftBefore(es, n, c)
  {
    if LeftBefore(es, n, c) {
      var a, b :| 0 <= a < b < n && es[a] == Register(c) && es[b] == Die(c);
      assert es[..n][a] == Register(c) && es[..n][b] == Die(c);
    }
  }

  lemma LeftSince(es: seq<Event>, l: nat, i: nat, c: ClientId)
    requires RegisteredOnce(es) && l <= i <= |es| && Register(c) in es[..l] && !Left(es[..l], c)
    ensures Left(es[..i], c) <==> DiesBetween(es, l, i, c)
  {
    LeftPrefix(es, l, c);
    LeftPrefix(es, i, c);
    var r :| 0 <= r < l && es[r] == Register(c);
  }

  /** While every login is good, a send to the client that `sessions` named at event `l` panics exactly if the client
      has died since: looking up and sending are not one step. */
  lemma RoutedSendPanicsIff(v: View, es: seq<Event>, l: nat, k: string, i: nat)
    requires Initial(v) && RegisteredOnce(es) && GoodLogins(v, es)
    requires l <= i < |es| && k in Run(v, es[..l]).sessions && es[i] == Send(Run(v, es[..l]).sessions[k])
    ensures SendPanics(v, es, i) <==> DiesBetween(es, l, i, es[i].client)
  {
    var c := es[i].client;
    SessionsExactIff(v, es);
    assert Exact(Run(v, es[..l])) && c in Run(v, es[..l]).clients;
    assert RegisteredOnce(es[..l]) by {
      assert forall j :: 0 <= j < l ==> es[..l][j] == es[j];
    }
    ClosedOnceOnLeaving(v, es[..l], c);
    SendPanicsIff(v, es, i);
    LeftSince(es, l, i, c);
  }

  // ---- The run loop ----

  class Client {
    var sso: string
    /** How often the send channel was closed. */
    var closes: nat

    constructor ()
      ensures sso == "" && closes == 0
    {
      sso, closes := "", 0;
    }

    /** `close(client.send)`: closing twice would panic. */
    method CloseSend()
      requires closes == 0
      modifies this`closes
      ensures closes == 1
    {
      closes := closes + 1;
    }

    /** `client.send <- packet`. */
    method SendPacket() returns (panicked: bool)
      ensures panicked <==> closes > 0
    {
      panicked := closes > 0;
    }
  }

  class Manager {
    var clients: set<ClientId>
    var sessions: map<string, ClientId>
    /** What each `*Client` points to. */
    const objects: map<ClientId, Client>

    ghost predicate Valid()
      reads this, objects.Values
    {
      && clients <= objects.Keys
      && (forall c, d :: c in objects && d in objects && c != d ==> objects[c] != objects[d])
      && (forall c :: c in clients ==> objects[c].closes == 0)
    }

    ghost function ToView(): View
      reads this, objects.Values
    {
      View(clients, sessions, map c | c in objects :: objects[c].sso, map c | c in objects :: objects[c].closes)
    }

    constructor (objects: map<ClientId, Client>)
      requires forall c, d :: c in objects && d in objects && c != d ==> objects[c] != objects[d]
      requires forall c :: c in objects ==> objects[c].sso == "" && objects[c].closes == 0
      ensures Valid() && this.objects == objects && Initial(ToView())
    {
      this.objects := objects;
      clients, sessions := {}, map[];
    }

    method HandleRegister(c: ClientId)
      requires Valid() && c in objects && objects[c].closes == 0
      modifies this
      ensures Valid() && ToView() == Step(old(ToView()), Register(c))
    {
      clients := clients + {c};
    }

    method HandleDie(c: ClientId)
      requires Valid() && c in objects
      modifies this, objects[c]
      ensures Valid() && ToView() == Step(old(ToView()), Die(c))
    {
      if c in clients {
        clients := clients - {c};
        sessions := sessions - {objects[c].sso};
        objects[c].CloseSend();
      }
    }

    method HandleLogin(sso: string, c: ClientId)
      requires Valid() && c in objects
      modifies this, objects[c]
      ensures Valid() && ToView() == Step(old(ToView()), LogIn(sso, c))
      ensures sessions == old(sessions)[sso := c] && objects[c].sso == sso
    {
      ghost var v := ToView();
      sessions := sessions[sso := c];
      objects[c].sso := sso;
      assert ToView().closes == v.closes && ToView().sso == v.sso[c := sso];
    }

    /** Another goroutine sends on the client's channel. */
    method HandleSend(c: ClientId) returns (panicked: bool)
      requires c in objects
      ensures panicked <==> Closes(ToView(), c) > 0
    {
      panicked := objects[c].SendPacket();
    }

    method Handle(e: Event) returns (panicked: bool)
      requires Valid() && e.client in objects && (e.Register? ==> Closes(ToView(), e.client) == 0)
      modifies this, objects[e.client]
      ensures Valid() && ToView() == Step(old(ToView()), e)
      ensures panicked <==> e.Send? && Closes(ToView(), e.client) > 0
    {
      panicked := false;
      match e
      case Register(c) =>
        assert ToView().closes[c] == 0;
        HandleRegister(c);
      case Die(c) => HandleDie(c);
      case LogIn(sso, c) => HandleLogin(sso, c);
      case Send(c) => panicked := HandleSend(c);
    }

    /** `Manager.run` over the messages of one run, with the sends in between: no send channel is ever closed twice, and
        everything is served unless a send comes after its client's death. */
    method Serve(es: seq<Event>) returns (served: nat)
      requires Valid() && Initial(ToView())
      requires RegisteredOnce(es) && forall e :: e in es ==> e.client in objects
      modifies this, objects.Values
      ensures Valid() && served <= |es| && ToView() == Run(old(ToView()), es[..served])
      ensures forall i: nat :: i < served ==> !SentTooLate(es, i)
      ensures served < |es| ==> SentTooLate(es, served)
    {
      hide Initial, RegisteredOnce, SentTooLate, Step;
      ghost var v := ToView();
      for i := 0 to |es|
        invariant Valid() && ToView() == Run(v, es[..i])
        invariant forall j: nat :: j < i ==> !SentTooLate(es, j)
      {
        EventOnTime(v, es, i);
        var panicked := Handle(es[i]);
        if panicked {
          return i;
        }
      }
      assert es[..|es|] == es;
      return |es|;
    }
  }

  lemma EventOnTime(v: View, es: seq<Event>, i: nat)
    requires Initial(v) && RegisteredOnce(es) && i < |es|
    ensures es[i].Register? ==> Closes(Run(v, es[..i]), es[i].client) == 0
    ensures es[i].Send? && Closes(Run(v, es[..i + 1]), es[i].client) > 0 <==> SentTooLate(es, i)
    ensures Run(v, es[..i + 1]) == Step(Run(v, es[..i]), es[i])
    ensures es[i].Send? ==> Run(v, es[..i + 1]) == Run(v, es[..i])
  {
    assert es[..i + 1][..i] == es[..i];
    if es[i].Register? {
      NeverClosedBefore(v, es, i);
    } else if es[i].Send? {
      SendPanicsIff(v, es, i);
    }
  }

  lemma NeverClosedBefore(v: View, es: seq<Event>, i: nat)
    requires Initial(v) && RegisteredOnce(es) && i < |es| && es[i].Register?
    ensures Closes(Run(v, es[..i]), es[i].client) == 0
  {
    var c := es[i].client;
    NotRegisteredBefore(es, i);
    ClosedOnceOnLeaving(v, es[..i], c);
    assert forall a :: 0 <= a < i ==> es[..i][a] in es[..i];
  }
}
