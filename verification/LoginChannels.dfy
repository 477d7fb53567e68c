/**
 The login request/reply protocol of `player/event.go` and `player/data.go`.  All channels are
 unbuffered, so each communication is one step of sender and receiver together.  Any number of
 callers run `EventListener.Login`; `EventListener.Listen` hands each ticket to `Database.Listen`,
 which spawns a loader per ticket; a loader's result goes back through `Listen` to whichever waiting
 caller receives first.
 */
module LoginChannels {

  type Ticket = string

  datatype Caller =
    | Calling(ticket: Ticket)                    // blocked in e.ticket <- sso
    | Waiting(ticket: Ticket)                    // blocked in <-e.login
    | Answered(ticket: Ticket, repliedFor: Ticket, ok: bool)

  datatype Listener =
    | Selecting
    | Handing(ticket: Ticket)                    // blocked in data.auth <- sso
    | Replying(loaded: Ticket)                   // blocked in e.login <- playerData != nil
    | Panicked                                   // built a login event from a nil user

  datatype State = State(
    known: set<Ticket>,                          // the tickets that resolve to a user row
    callers: map<nat, Caller>,
    listener: Listener,
    loading: multiset<Ticket>,                   // loaders running loadUserData
    loaded: multiset<Ticket>,                    // loaders blocked in data.Auth <- user
    accepted: multiset<Ticket>,                  // every ticket Listen ever received
    replied: multiset<Ticket>)                   // every ticket whose result was replied

  datatype Action =
    | Call(caller: nat, ticket: Ticket)
    | Accept(caller: nat)
    | Hand
    | Load(ticket: Ticket)
    | Take(ticket: Ticket)
    | Reply(caller: nat)

  predicate Enabled(s: State, a: Action) {
    match a
    case Call(c, _) => c !in s.callers
    case Accept(c) => s.listener.Selecting? && c in s.callers && s.callers[c].Calling?
    case Hand => s.listener.Handing?
    case Load(t) => t in s.loading
    case Take(t) => s.listener.Selecting? && t in s.loaded
    case Reply(c) => s.listener.Replying? && c in s.callers && s.callers[c].Waiting?
  }

  function Apply(s: State, a: Action): State
    requires Enabled(s, a)
  {
    match a
    case Call(c, t) => s.(callers := s.callers[c := Calling(t)])
    case Accept(c) =>
      var t := s.callers[c].ticket;
      s.(callers := s.callers[c := Waiting(t)], listener := Handing(t), accepted := s.accepted + multiset{t})
    case Hand =>
      s.(listener := Selecting, loading := s.loading + multiset{s.listener.ticket})
    case Load(t) =>
      s.(loading := s.loading - multiset{t}, loaded := s.loaded + multiset{t})
    case Take(t) =>
      s.(listener := Replying(t), loaded := s.loaded - multiset{t})
    case Reply(c) =>
      var t := s.listener.loaded;
      s.(callers := s.callers[c := Answered(s.callers[c].ticket, t, t in s.known)],
         listener := if t in s.known then Selecting else Panicked,
         replied := s.replied + multiset{t})
  }

  ghost predicate Initial(s: State) {
    s.callers == map[] && s.listener.Selecting? && s.loading == s.loaded == s.accepted == s.replied == multiset{}
  }

  ghost predicate Legal(s: State, acts: seq<Action>) {
    acts != [] ==> var n := |acts| - 1; Legal(s, acts[..n]) && Enabled(Run(s, acts[..n]), acts[n])
  }

  ghost function Run(s: State, acts: seq<Action>): State {
    if acts == [] then s
    else
      var n := |acts| - 1;
      var t := Run(s, acts[..n]);
      if Enabled(t, acts[n]) then Apply(t, acts[n]) else t
  }

  // ---- Conservation ----

  function WaitingCallers(s: State): set<nat> {
    set c | c in s.callers && s.callers[c].Waiting?
  }

  function CallingCallers(s: State): set<nat> {
    set c | c in s.callers && s.callers[c].Calling?
  }

  /** The ticket the listener holds. */
  function InHand(s: State): multiset<Ticket> {
    match s.listener
    case Handing(t) => multiset{t}
    case Replying(t) => multiset{t}
    case _ => multiset{}
  }

  function InFlight(s: State): multiset<Ticket> {
    InHand(s) + s.loading + s.loaded
  }

  /** Callers still waiting are as many as the tickets in flight, and every ticket accepted is either in
      flight or has been replied, once. */
  ghost predicate Conserved(s: State) {
    && |WaitingCallers(s)| == |InFlight(s)|
    && s.accepted == InFlight(s) + s.replied
  }

  lemma WaitingStep(s: State, a: Action)
    requires Enabled(s, a)
    ensures WaitingCallers(Apply(s, a)) ==
      match a
      case Accept(c) => WaitingCallers(s) + {c}
      case Reply(c) => WaitingCallers(s) - {c}
      case _ => WaitingCallers(s)
  {
  }

  lemma FlightAccept(s: State, c: nat)
    requires Enabled(s, Accept(c))
    ensures InFlight(Apply(s, Accept(c))) == InFlight(s) + multiset{s.callers[c].ticket}
  {
  }

  lemma FlightReply(s: State, c: nat)
    requires Enabled(s, Reply(c))
    ensures InFlight(s) == InFlight(Apply(s, Reply(c))) + multiset{s.listener.loaded}
  {
  }

  lemma FlightInside(s: State, a: Action)
    requires Enabled(s, a) && !a.Accept? && !a.Reply?
    ensures InFlight(Apply(s, a)) == InFlight(s)
  {
    match a
    case Call(_, _) =>
    case Hand => HandKeeps(s.listener.ticket, s.loading, s.loaded);
    case Load(t) => LoadKeeps(InHand(s), s.loading, s.loaded, t);
    case Take(t) => TakeKeeps(s.loading, s.loaded, t);
  }

  lemma HandKeeps(t: Ticket, loading: multiset<Ticket>, loaded: multiset<Ticket>)
    ensures multiset{} + (loading + multiset{t}) + loaded == multiset{t} + loading + loaded
  {
  }

  lemma LoadKeeps(hand: multiset<Ticket>, loading: multiset<Ticket>, loaded: multiset<Ticket>, t: Ticket)
    requires t in loading
    ensures hand + (loading - multiset{t}) + (loaded + multiset{t}) == hand + loading + loaded
  {
  }

  lemma TakeKeeps(loading: multiset<Ticket>, loaded: multiset<Ticket>, t: Ticket)
    requires t in loaded
    ensures multiset{t} + loading + (loaded - multiset{t}) == multiset{} + loading + loaded
  {
  }

  lemma AcceptConserved(s: State, c: nat)
    requires Enabled(s, Accept(c)) && Conserved(s)
    ensures Conserved(Apply(s, Accept(c)))
  {
    WaitingStep(s, Accept(c));
    FlightAccept(s, c);
    assert c !in WaitingCallers(s);
  }

  lemma ReplyConserved(s: State, c: nat)
    requires Enabled(s, Reply(c)) && Conserved(s)
    ensures Conserved(Apply(s, Reply(c)))
  {
    WaitingStep(s, Reply(c));
    FlightReply(s, c);
    assert c in WaitingCallers(s);
  }

  lemma StepConserved(s: State, a: Action)
    requires Enabled(s, a) && Conserved(s)
    ensures Conserved(Apply(s, a))
  {
    match a
    case Accept(c) => AcceptConserved(s, c);
    case Reply(c) => ReplyConserved(s, c);
    case _ =>
      WaitingStep(s, a);
      FlightInside(s, a);
  }

  lemma {:induction false} RunConserved(s: State, acts: seq<Action>)
    requires Initial(s)
    ensures Conserved(Run(s, acts))
  {
    if acts == [] {
      assert WaitingCallers(s) == {};
    } else {
      var n := |acts| - 1;
      RunConserved(s, acts[..n]);
      if Enabled(Run(s, acts[..n]), acts[n]) {
        StepConserved(Run(s, acts[..n]), acts[n]);
      }
    }
  }

  /** In every interleaving, when `Listen` is about to send a reply some caller is there to receive it. */
  lemma ReplyAlwaysReceived(s: State, acts: seq<Action>)
    requires Initial(s) && Run(s, acts).listener.Replying?
    ensures exists c :: Enabled(Run(s, acts), Reply(c))
  {
    RunConserved(s, acts);
    ReplyHasReceiver(Run(s, acts));
  }

  lemma ReplyHasReceiver(t: State)
    requires Conserved(t) && t.listener.Replying?
    ensures exists c :: Enabled(t, Reply(c))
  {
    assert |WaitingCallers(t)| != 0;
    var c :| c in WaitingCallers(t);
    assert Enabled(t, Reply(c));
  }

  // ---- Progress ----

  /** Steps the service still owes: five for a caller not accepted yet, down to one for a reply in hand. */
  function Owed(s: State): nat {
    5 * |CallingCallers(s)| + (if s.listener.Handing? then 4 else if s.listener.Replying? then 1 else 0)
    + 3 * |s.loading| + 2 * |s.loaded|
  }

  lemma CallingStep(s: State, a: Action)
    requires Enabled(s, a) && !a.Call?
    ensures |CallingCallers(Apply(s, a))| == |CallingCallers(s)| - if a.Accept? then 1 else 0
  {
    assert CallingCallers(Apply(s, a)) == CallingCallers(s) - if a.Accept? then {a.caller} else {};
  }

  lemma EachStepPaysOne(s: State, a: Action)
    requires Enabled(s, a) && !a.Call?
    ensures Owed(Apply(s, a)) == Owed(s) - 1
  {
    CallingStep(s, a);
    hide CallingCallers;
  }

  lemma SomeStep(s: State)
    requires Conserved(s) && Owed(s) > 0 && !s.listener.Panicked?
    ensures exists a :: Enabled(s, a) && !a.Call?
  {
    if s.listener.Handing? {
      assert Enabled(s, Hand);
    } else if s.listener.Replying? {
      assert |WaitingCallers(s)| != 0;
      var c :| c in WaitingCallers(s);
      assert Enabled(s, Reply(c));
    } else if |s.loaded| > 0 {
      var t :| t in s.loaded;
      assert Enabled(s, Take(t));
    } else if |s.loading| > 0 {
      var t :| t in s.loading;
      assert Enabled(s, Load(t));
    } else {
      assert |CallingCallers(s)| != 0;
      var c :| c in CallingCallers(s);
      assert Enabled(s, Accept(c));
    }
  }

  /** Steps of the service alone: no new caller arrives. */
  predicate ServiceOnly(acts: seq<Action>) {
    acts != [] ==> !acts[|acts| - 1].Call? && ServiceOnly(acts[..|acts| - 1])
  }

  lemma {:induction false} ServiceSteps(s: State, acts: seq<Action>)
    requires Conserved(s) && Legal(s, acts) && ServiceOnly(acts)
    ensures Conserved(Run(s, acts)) && Owed(Run(s, acts)) + |acts| == Owed(s)
  {
    if acts != [] {
      var n := |acts| - 1;
      ServiceSteps(s, acts[..n]);
      StepConserved(Run(s, acts[..n]), acts[n]);
      EachStepPaysOne(Run(s, acts[..n]), acts[n]);
    }
  }

  /** No deadlock: once no new caller arrives, whatever the service does next, it takes exactly `Owed` steps,
      never blocks before, and then every caller has been answered (provided no ticket made it panic). */
  lemma EveryoneAnswered(s: State, acts: seq<Action>, more: seq<Action>)
    requires Initial(s) && Legal(Run(s, acts), more) && ServiceOnly(more)
    ensures var t := Run(s, acts); var u := Run(t, more);
      && |more| <= Owed(t)
      && (|more| < Owed(t) && !u.listener.Panicked? ==> exists a :: Enabled(u, a) && !a.Call?)
      && (|more| == Owed(t) ==> forall c :: c in u.callers ==> u.callers[c].Answered?)
  {
    var t := Run(s, acts);
    var u := Run(t, more);
    RunConserved(s, acts);
    ServiceSteps(t, more);
    if |more| < Owed(t) && !u.listener.Panicked? {
      SomeStep(u);
    }
    if |more| == Owed(t) {
      assert |CallingCallers(u)| == 0 && |WaitingCallers(u)| == 0;
      forall c | c in u.callers ensures u.callers[c].Answered? {
        assert c !in CallingCallers(u) && c !in WaitingCallers(u);
      }
    }
  }

  // ---- Answers ----

  ghost predicate Truthful(s: State) {
    && (forall c :: c in s.callers && s.callers[c].Answered? ==>
          s.callers[c].repliedFor in s.replied && (s.callers[c].ok <==> s.callers[c].repliedFor in s.known))
    && (s.listener.Panicked? <==> exists t :: t in s.replied && t !in s.known)
  }

  lemma StepTruthful(s: State, a: Action)
    requires Enabled(s, a) && Truthful(s)
    ensures Truthful(Apply(s, a))
  {
  }

  lemma {:induction false} RunTruthful(s: State, acts: seq<Action>)
    requires Initial(s)
    ensures Truthful(Run(s, acts)) && Run(s, acts).known == s.known
  {
    if acts != [] {
      var n := |acts| - 1;
      RunTruthful(s, acts[..n]);
      if Enabled(Run(s, acts[..n]), acts[n]) {
        StepTruthful(Run(s, acts[..n]), acts[n]);
      }
    }
  }

  /** If every accepted ticket resolves, the listener never panics and every answer is true; it panics
      in exactly the runs that reply for a ticket that does not resolve. */
  lemma AnswersTrue(s: State, acts: seq<Action>)
    requires Initial(s)
    ensures var t := Run(s, acts);
      && (t.listener.Panicked? <==> exists k :: k in t.replied && k !in s.known)
      && ((forall k :: k in t.accepted ==> k in s.known) ==>
            !t.listener.Panicked? && forall c :: c in t.callers && t.callers[c].Answered? ==> t.callers[c].ok)
  {
    RunTruthful(s, acts);
    RunConserved(s, acts);
    var t := Run(s, acts);
    assert forall k :: k in t.replied ==> k in t.accepted;
  }

  // ---- Whose ticket a reply is for ----

  /** No caller is accepted while another one waits. */
  ghost predicate OneAtATime(s: State, acts: seq<Action>) {
    forall k :: 0 <= k < |acts| && acts[k].Accept? ==> WaitingCallers(Run(s, acts[..k])) == {}
  }

  /** At most one caller waits, and what is in flight is its ticket; earlier answers were for their own tickets. */
  ghost predicate Matched(s: State) {
    && (forall c :: c in WaitingCallers(s) ==> WaitingCallers(s) == {c} && InFlight(s) == multiset{s.callers[c].ticket})
    && (WaitingCallers(s) == {} ==> InFlight(s) == multiset{})
    && (forall c :: c in s.callers && s.callers[c].Answered? ==> s.callers[c].repliedFor == s.callers[c].ticket)
  }

  lemma AcceptMatched(s: State, c: nat)
    requires Enabled(s, Accept(c)) && Matched(s) && WaitingCallers(s) == {}
    ensures Matched(Apply(s, Accept(c)))
  {
  }

  lemma ReplyMatched(s: State, c: nat)
    requires Enabled(s, Reply(c)) && Matched(s)
    ensures Matched(Apply(s, Reply(c)))
  {
    var s' := Apply(s, Reply(c));
    WaitingStep(s, Reply(c));
    FlightReply(s, c);
    assert c in WaitingCallers(s);
    var t := s.callers[c].ticket;
    assert InFlight(s) == multiset{t} && s.listener.loaded in InFlight(s);
    assert s.listener.loaded == t;
    assert |InFlight(s')| == |InFlight(s)| - 1;
    assert WaitingCallers(s') == {};
  }

  lemma InsideMatched(s: State, a: Action)
    requires Enabled(s, a) && Matched(s) && !a.Accept? && !a.Reply?
    ensures Matched(Apply(s, a))
  {
    var s' := Apply(s, a);
    FlightInside(s, a);
    SameCallers(s, a);
    assert WaitingCallers(s') == WaitingCallers(s);
  }

  lemma SameCallers(s: State, a: Action)
    requires Enabled(s, a) && !a.Accept? && !a.Reply?
    ensures forall c :: c in WaitingCallers(s) <==> c in WaitingCallers(Apply(s, a))
    ensures forall c :: c in s.callers ==> c in Apply(s, a).callers && Apply(s, a).callers[c] == s.callers[c]
    ensures forall c :: c in Apply(s, a).callers && Apply(s, a).callers[c].Answered? ==> c in s.callers
  {
  }

  lemma StepMatched(s: State, a: Action)
    requires Enabled(s, a) && Matched(s)
    requires a.Accept? ==> WaitingCallers(s) == {}
    ensures Matched(Apply(s, a))
  {
    match a
    case Accept(c) => AcceptMatched(s, c);
    case Reply(c) => ReplyMatched(s, c);
    case _ => InsideMatched(s, a);
  }

  /** When a caller is only accepted while no other waits, every reply is for the caller's own ticket. */
  lemma {:induction false} SequentialRepliesMatch(s: State, acts: seq<Action>)
    requires Initial(s) && OneAtATime(s, acts)
    ensures Matched(Run(s, acts))
  {
    if acts != [] {
      var n := |acts| - 1;
      assert forall k :: 0 <= k <= n ==> acts[..n][..k] == acts[..k];
      assert forall k :: 0 <= k < n ==> acts[..n][k] == acts[k];
      SequentialRepliesMatch(s, acts[..n]);
      if Enabled(Run(s, acts[..n]), acts[n]) {
        StepMatched(Run(s, acts[..n]), acts[n]);
      }
    }
  }

  // ---- When replies always match ----

  /** Callers only present tickets of `k`. */
  ghost predicate Presents(acts: seq<Action>, k: set<Ticket>) {
    forall i :: 0 <= i < |acts| && acts[i].Call? ==> acts[i].ticket in k
  }

  /** Every answer so far was for the caller's own ticket. */
  ghost predicate AllMatched(s: State) {
    forall c :: c in s.callers && s.callers[c].Answered? ==> s.callers[c].repliedFor == s.callers[c].ticket
  }

  ghost predicate FlightWithin(s: State, k: set<Ticket>) {
    forall t :: t in InFlight(s) ==> t in k
  }

  ghost predicate CallersWithin(s: State, k: set<Ticket>) {
    forall c :: c in s.callers ==> s.callers[c].ticket in k && (s.callers[c].Answered? ==> s.callers[c].repliedFor in k)
  }

  /** Every ticket anywhere is in `k`. */
  ghost predicate Within(s: State, k: set<Ticket>) {
    CallersWithin(s, k) && FlightWithin(s, k)
  }

  lemma FlightStaysWithin(s: State, a: Action, k: set<Ticket>)
    requires Enabled(s, a) && Within(s, k)
    ensures FlightWithin(Apply(s, a), k)
  {
    if a.Accept? {
      FlightAccept(s, a.caller);
    } else if a.Reply? {
      FlightReply(s, a.caller);
    } else {
      FlightInside(s, a);
    }
  }

  lemma CallersStayWithin(s: State, a: Action, k: set<Ticket>)
    requires Enabled(s, a) && CallersWithin(s, k) && (a.Call? ==> a.ticket in k)
    requires a.Reply? ==> s.listener.loaded in k
    ensures CallersWithin(Apply(s, a), k)
  {
  }

  lemma StepWithin(s: State, a: Action, k: set<Ticket>)
    requires Enabled(s, a) && Within(s, k) && (a.Call? ==> a.ticket in k)
    ensures Within(Apply(s, a), k)
  {
    FlightStaysWithin(s, a, k);
    if a.Reply? {
      FlightReply(s, a.caller);
      assert s.listener.loaded in InFlight(s);
    }
    CallersStayWithin(s, a, k);
  }

  lemma {:induction false} RunWithin(s: State, acts: seq<Action>, k: set<Ticket>)
    requires Initial(s) && Presents(acts, k)
    ensures Within(Run(s, acts), k)
  {
    if acts != [] {
      var front, a := acts[..|acts| - 1], acts[|acts| - 1];
      assert forall i :: 0 <= i < |front| ==> front[i] == acts[i];
      RunWithin(s, front, k);
      if Enabled(Run(s, front), a) {
        StepWithin(Run(s, front), a, k);
      }
    }
  }

  lemma OneTicket(k: set<Ticket>, t: Ticket, u: Ticket)
    requires |k| <= 1 && t in k && u in k
    ensures t == u
  {
    assert {t, u} <= k;
    if t != u {
      assert |{t, u}| == 2;
      CardinalityMonotone({t, u}, k);
    }
  }

  lemma {:induction false} CardinalityMonotone(a: set<Ticket>, b: set<Ticket>)
    requires a <= b
    ensures |a| <= |b|
  {
    assert b == a + (b - a);
  }

  /** `r` is reached from `s` by the steps `acts`, each enabled in its turn, with callers presenting tickets of `k`. */
  ghost predicate Reached(s: State, acts: seq<Action>, r: State, k: set<Ticket>) {
    Legal(s, acts) && Run(s, acts) == r && Presents(acts, k)
  }

  lemma Then(s: State, acts: seq<Action>, r: State, k: set<Ticket>, a: Action)
    requires Reached(s, acts, r, k) && Enabled(r, a) && (a.Call? ==> a.ticket in k)
    ensures Reached(s, acts + [a], Apply(r, a), k)
  {
    assert (acts + [a])[..|acts|] == acts;
  }

  /** A new caller is accepted, and its ticket handed to a loader. */
  lemma AcceptOne(s: State, acts: seq<Action>, r: State, k: set<Ticket>, c: nat, t: Ticket)
    returns (acts': seq<Action>, r': State)
    requires Reached(s, acts, r, k) && c !in r.callers && r.listener.Selecting? && t in k
    ensures Reached(s, acts', r', k)
    ensures r'.callers == r.callers[c := Waiting(t)] && r'.loading == r.loading + multiset{t}
    ensures r'.listener.Selecting? && r'.known == r.known
  {
    var r1 := Apply(r, Call(c, t));
    var r2 := Apply(r1, Accept(c));
    Then(s, acts, r, k, Call(c, t));
    Then(s, acts + [Call(c, t)], r1, k, Accept(c));
    Then(s, acts + [Call(c, t)] + [Accept(c)], r2, k, Hand);
    acts', r' := acts + [Call(c, t)] + [Accept(c)] + [Hand], Apply(r2, Hand);
  }

  /** A loader finishes, and its result is replied to some waiting caller. */
  lemma ReplyOne(s: State, acts: seq<Action>, r: State, k: set<Ticket>, c: nat, t: Ticket)
    returns (acts': seq<Action>, r': State)
    requires Reached(s, acts, r, k) && c in r.callers && r.callers[c].Waiting? && r.listener.Selecting?
    requires t in r.loading
    ensures Reached(s, acts', r', k)
    ensures r'.callers == r.callers[c := Answered(r.callers[c].ticket, t, t in r.known)]
    ensures r'.loading == r.loading - multiset{t}
    ensures (t in r.known ==> r'.listener.Selecting?) && r'.known == r.known
  {
    var r1 := Apply(r, Load(t));
    var r2 := Apply(r1, Take(t));
    Then(s, acts, r, k, Load(t));
    Then(s, acts + [Load(t)], r1, k, Take(t));
    Then(s, acts + [Load(t)] + [Take(t)], r2, k, Reply(c));
    acts', r' := acts + [Load(t)] + [Take(t)] + [Reply(c)], Apply(r2, Reply(c));
  }

  /** Two callers wait, and their tickets are being loaded. */
  ghost predicate BothWait(r: State, c: nat, d: nat, t: Ticket, u: Ticket) {
    && c in r.callers && r.callers[c] == Waiting(t) && d in r.callers && r.callers[d] == Waiting(u)
    && r.listener.Selecting? && t in r.loading && u in r.loading
  }

  lemma TwoAccepted(s: State, k: set<Ticket>, c: nat, d: nat, t: Ticket, u: Ticket)
    returns (acts: seq<Action>, r: State)
    requires Initial(s) && c != d && t in k && u in k
    ensures Reached(s, acts, r, k) && BothWait(r, c, d, t, u) && r.known == s.known
  {
    acts, r := AcceptOne(s, [], s, k, c, t);
    acts, r := AcceptOne(s, acts, r, k, d, u);
  }

  /** Each of the two was answered for the other's ticket. */
  ghost predicate Crossed(r: State, c: nat, d: nat, t: Ticket, u: Ticket) {
    && c in r.callers && r.callers[c] == Answered(t, u, true)
    && d in r.callers && r.callers[d] == Answered(u, t, true)
  }

  /** Two callers that wait together can get each other's reply. */
  lemma RepliesCanCross(s: State, c: nat, d: nat, t: Ticket, u: Ticket) returns (acts: seq<Action>)
    requires Initial(s) && c != d && t != u && t in s.known && u in s.known
    ensures Legal(s, acts) && Presents(acts, {t, u})
    ensures Crossed(Run(s, acts), c, d, t, u)
  {
    var r: State;
    acts, r := TwoAccepted(s, {t, u}, c, d, t, u);
    acts, r := ReplyOne(s, acts, r, {t, u}, c, u);
    acts, r := ReplyOne(s, acts, r, {t, u}, d, t);
  }

  /** If callers may present two different tickets, resolvable or not, some run answers a caller for the other one. */
  lemma SomeRunMismatches(s: State, k: set<Ticket>, t: Ticket, u: Ticket) returns (acts: seq<Action>)
    requires Initial(s) && t in k && u in k && t != u
    ensures Legal(s, acts) && Presents(acts, k) && !AllMatched(Run(s, acts))
  {
    var r: State;
    acts, r := TwoAccepted(s, k, 0, 1, t, u);
    acts, r := ReplyOne(s, acts, r, k, 0, u);
    assert r.callers[0].Answered? && r.callers[0].repliedFor != r.callers[0].ticket;
  }

  lemma TwoTickets(k: set<Ticket>) returns (t: Ticket, u: Ticket)
    requires |k| >= 2
    ensures t in k && u in k && t != u
  {
    t :| t in k;
    assert |k - {t}| == |k| - 1;
    u :| u in k - {t};
  }

  /** Every answer is for the caller's own ticket in every run if and only if callers can present at most one ticket. */
  lemma RepliesMatchIff(s: State, k: set<Ticket>)
    requires Initial(s)
    ensures (forall acts :: Legal(s, acts) && Presents(acts, k) ==> AllMatched(Run(s, acts))) <==> |k| <= 1
  {
    if |k| <= 1 {
      forall acts | Legal(s, acts) && Presents(acts, k) ensures AllMatched(Run(s, acts)) {
        var r := Run(s, acts);
        RunWithin(s, acts, k);
        forall c | c in r.callers && r.callers[c].Answered? ensures r.callers[c].repliedFor == r.callers[c].ticket {
          OneTicket(k, r.callers[c].repliedFor, r.callers[c].ticket);
        }
      }
    } else {
      var t, u := TwoTickets(k);
      var acts := SomeRunMismatches(s, k, t, u);
    }
  }

  // ---- When the listener never panics ----

  lemma {:induction false} AcceptedWithin(s: State, acts: seq<Action>, k: set<Ticket>)
    requires Initial(s) && Presents(acts, k)
    ensures forall t :: t in Run(s, acts).accepted ==> t in k
  {
    if acts != [] {
      var front, a := acts[..|acts| - 1], acts[|acts| - 1];
      assert forall i :: 0 <= i < |front| ==> front[i] == acts[i];
      AcceptedWithin(s, front, k);
      RunWithin(s, front, k);
    }
  }

  /** A single caller whose ticket does not resolve is enough. */
  lemma OneCallPanics(s: State, k: set<Ticket>, t: Ticket) returns (acts: seq<Action>)
    requires Initial(s) && t in k && t !in s.known
    ensures Legal(s, acts) && Presents(acts, k) && Run(s, acts).listener.Panicked?
  {
    var r: State;
    acts, r := AcceptOne(s, [], s, k, 0, t);
    acts, r := ReplyOne(s, acts, r, k, 0, t);
    RunTruthful(s, acts);
    assert r.callers[0].Answered? && r.callers[0].repliedFor == t;
  }

  /** No run makes the listener panic if and only if every ticket that callers can present resolves. */
  lemma NeverPanicsIff(s: State, k: set<Ticket>)
    requires Initial(s)
    ensures (forall acts :: Legal(s, acts) && Presents(acts, k) ==> !Run(s, acts).listener.Panicked?) <==> k <= s.known
  {
    if k <= s.known {
      forall acts | Legal(s, acts) && Presents(acts, k) ensures !Run(s, acts).listener.Panicked? {
        AcceptedWithin(s, acts, k);
        AnswersTrue(s, acts);
        RunConserved(s, acts);
      }
    } else {
      var t :| t in k && t !in s.known;
      var acts := OneCallPanics(s, k, t);
    }
  }
}
