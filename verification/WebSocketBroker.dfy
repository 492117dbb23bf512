/** The dashboard's websocket broker: two indexes over sockets and topics, its lock-atomic
    sections, and every interleaving of them with broadcasts whose sends happen outside the lock. */
module WebSocketBroker {
  import opened Common

  type Socket = nat

  const DEFAULT_TOPICS: set<string> := {"ticks", "features", "decisions", "orders", "journal"}

  /** Socket to topics, and topic to sockets. */
  datatype Index = Index(clients: map<Socket, set<string>>, byTopic: map<string, set<Socket>>)

  ghost predicate Shaped(ix: Index) {
    && ix.byTopic.Keys == DEFAULT_TOPICS
    && forall ws | ws in ix.clients :: ix.clients[ws] <= DEFAULT_TOPICS
  }

  /** Both indexes tell the same story. */
  ghost predicate Agrees(ix: Index) {
    forall ws: Socket, t | t in ix.byTopic :: ws in ix.byTopic[t] <==> ws in ix.clients && t in ix.clients[ws]
  }

  // ---------------------------------------------------------------- atomic sections

  function Wanted(topics: Option<set<string>>): set<string> {
    if topics.Some? then topics.value * DEFAULT_TOPICS else DEFAULT_TOPICS
  }

  function AddTo(byTopic: map<string, set<Socket>>, ws: Socket, topics: set<string>): map<string, set<Socket>> {
    map t | t in byTopic :: if t in topics then byTopic[t] + {ws} else byTopic[t]
  }

  function DropFrom(byTopic: map<string, set<Socket>>, ws: Socket, topics: set<string>): map<string, set<Socket>> {
    map t | t in byTopic :: if t in topics then byTopic[t] - {ws} else byTopic[t]
  }

  function TopicsOf(ix: Index, ws: Socket): set<string> { if ws in ix.clients then ix.clients[ws] else {} }

  function Connected(ix: Index, ws: Socket, topics: Option<set<string>>): Index {
    Index(ix.clients[ws := Wanted(topics)], AddTo(ix.byTopic, ws, Wanted(topics)))
  }

  function Disconnected(ix: Index, ws: Socket): Index {
    Index(ix.clients - {ws}, DropFrom(ix.byTopic, ws, TopicsOf(ix, ws)))
  }

  predicate CanSubscribe(ix: Index, ws: Socket, topic: string) {
    topic in DEFAULT_TOPICS && ws in ix.clients && topic !in ix.clients[ws]
  }

  predicate CanUnsubscribe(ix: Index, ws: Socket, topic: string) {
    topic in DEFAULT_TOPICS && ws in ix.clients && topic in ix.clients[ws]
  }

  function Subscribed(ix: Index, ws: Socket, topic: string): Index {
    if CanSubscribe(ix, ws, topic)
    then Index(ix.clients[ws := ix.clients[ws] + {topic}], AddTo(ix.byTopic, ws, {topic}))
    else ix
  }

  function Unsubscribed(ix: Index, ws: Socket, topic: string): Index {
    if CanUnsubscribe(ix, ws, topic)
    then Index(ix.clients[ws := ix.clients[ws] - {topic}], DropFrom(ix.byTopic, ws, {topic}))
    else ix
  }

  function Cleaned(ix: Index, dead: seq<Socket>): Index {
    if dead == [] then ix else Disconnected(Cleaned(ix, dead[..|dead| - 1]), dead[|dead| - 1])
  }

  // ---------------------------------------------------------------- what each section keeps

  /** Connecting keeps the indexes in agreement exactly when the socket is new or every topic it
      already had is among the new ones; otherwise stale entries stay behind. */
  lemma ConnectKeepsIff(ix: Index, ws: Socket, topics: Option<set<string>>)
    requires Shaped(ix) && Agrees(ix)
    ensures Shaped(Connected(ix, ws, topics))
    ensures Agrees(Connected(ix, ws, topics)) <==> TopicsOf(ix, ws) <= Wanted(topics)
  {
    hide DEFAULT_TOPICS;
    var ix' := Connected(ix, ws, topics);
    if Agrees(ix') {
      forall t | t in TopicsOf(ix, ws)
        ensures t in Wanted(topics)
      {
        assert t in ix.byTopic && t in ix'.byTopic;
        assert ws in ix.byTopic[t] && ws in ix'.byTopic[t];
        assert t in ix'.clients[ws];
      }
    }
  }

  /** Connected with two topics and then with one of them, a socket stays in the index of the other. */
  lemma ReconnectLeavesStale()
    ensures var blank := Index(map[], map t | t in DEFAULT_TOPICS :: {});
            var once := Connected(blank, 0, Some({"ticks", "orders"}));
            var twice := Connected(once, 0, Some({"ticks"}));
            && Shaped(blank) && Agrees(blank) && Agrees(once) && !Agrees(twice)
            && twice.clients[0] == {"ticks"} && "orders" in twice.byTopic && 0 in twice.byTopic["orders"]
  {
    var blank := Index(map[], map t | t in DEFAULT_TOPICS :: {});
    var once := Connected(blank, 0, Some({"ticks", "orders"}));
    ConnectKeepsIff(blank, 0, Some({"ticks", "orders"}));
    ConnectKeepsIff(once, 0, Some({"ticks"}));
    var orders := "orders";
    assert orders in DEFAULT_TOPICS && orders in TopicsOf(once, 0) && orders !in Wanted(Some({"ticks"}));
  }

  lemma DisconnectKeeps(ix: Index, ws: Socket)
    requires Shaped(ix) && Agrees(ix)
    ensures Shaped(Disconnected(ix, ws)) && Agrees(Disconnected(ix, ws))
    ensures ws !in Disconnected(ix, ws).clients
  {
    hide DEFAULT_TOPICS;
  }

  lemma SubscribeKeeps(ix: Index, ws: Socket, topic: string)
    requires Shaped(ix) && Agrees(ix)
    ensures Shaped(Subscribed(ix, ws, topic)) && Agrees(Subscribed(ix, ws, topic))
    ensures Shaped(Unsubscribed(ix, ws, topic)) && Agrees(Unsubscribed(ix, ws, topic))
  {
  }

  lemma {:induction false} CleanKeeps(ix: Index, dead: seq<Socket>)
    requires Shaped(ix) && Agrees(ix)
    ensures Shaped(Cleaned(ix, dead)) && Agrees(Cleaned(ix, dead))
    ensures Cleaned(ix, dead).clients == ix.clients - (set ws | ws in dead)
  {
    hide Agrees, Shaped, DropFrom;
    if dead != [] {
      var n := |dead| - 1;
      CleanKeeps(ix, dead[..n]);
      DisconnectKeeps(Cleaned(ix, dead[..n]), dead[n]);
      assert dead == dead[..n] + [dead[n]];
      assert (set ws | ws in dead) == (set ws | ws in dead[..n]) + {dead[n]};
    }
  }

  // ---------------------------------------------------------------- broadcasts in flight

  /** A broadcast between its snapshot and its cleanup. */
  datatype Flight = Flight(targets: seq<Socket>, next: nat, dead: seq<Socket>, sent: nat, done: bool)

  /** One send of one broadcast to one socket, and whether it went through. */
  datatype Attempt = Attempt(id: nat, ws: Socket, ok: bool)

  datatype System = System(ix: Index, flights: map<nat, Flight>, attempts: seq<Attempt>)

  datatype Action =
    | Connect(ws: Socket, topics: Option<set<string>>)
    | Disconnect(ws: Socket)
    | Subscribe(ws: Socket, topic: string)
    | Unsubscribe(ws: Socket, topic: string)
    | Begin(id: nat, topic: string, order: seq<Socket>)
    | Send(id: nat, ok: bool)
    | Finish(id: nat)

  ghost predicate Distinct(s: seq<Socket>) { forall i, j | 0 <= i < j < |s| :: s[i] != s[j] }

  /** A broadcast lists the subscribers in any order; sends happen one by one; cleanup comes last. */
  ghost predicate Enabled(sys: System, a: Action) {
    match a
    case Begin(id, topic, order) =>
      && id !in sys.flights && topic in DEFAULT_TOPICS && topic in sys.ix.byTopic
      && Distinct(order) && forall ws :: ws in order <==> ws in sys.ix.byTopic[topic]
    case Send(id, _) =>
      id in sys.flights && !sys.flights[id].done && sys.flights[id].next < |sys.flights[id].targets|
    case Finish(id) =>
      id in sys.flights && !sys.flights[id].done && sys.flights[id].next == |sys.flights[id].targets|
    case _ => true
  }

  function AfterSend(f: Flight, ok: bool): Flight
    requires f.next < |f.targets|
  {
    if ok then f.(next := f.next + 1, sent := f.sent + 1)
    else f.(next := f.next + 1, dead := f.dead + [f.targets[f.next]])
  }

  ghost function Apply(sys: System, a: Action): System
    requires Enabled(sys, a)
  {
    match a
    case Connect(ws, topics) => sys.(ix := Connected(sys.ix, ws, topics))
    case Disconnect(ws) => sys.(ix := Disconnected(sys.ix, ws))
    case Subscribe(ws, topic) => sys.(ix := Subscribed(sys.ix, ws, topic))
    case Unsubscribe(ws, topic) => sys.(ix := Unsubscribed(sys.ix, ws, topic))
    case Begin(id, _, order) => sys.(flights := sys.flights[id := Flight(order, 0, [], 0, false)])
    case Send(id, ok) =>
      var f := sys.flights[id];
      sys.(flights := sys.flights[id := AfterSend(f, ok)],
           attempts := sys.attempts + [Attempt(id, f.targets[f.next], ok)])
    case Finish(id) =>
      var f := sys.flights[id];
      sys.(ix := Cleaned(sys.ix, f.dead), flights := sys.flights[id := f.(done := true)])
  }

  /** The sockets one broadcast tried, in order. */
  function Tried(attempts: seq<Attempt>, id: nat): seq<Socket> {
    if attempts == [] then []
    else
      var last := attempts[|attempts| - 1];
      Tried(attempts[..|attempts| - 1], id) + if last.id == id then [last.ws] else []
  }

  /** The sockets one broadcast failed to reach, in order. */
  function Failed(attempts: seq<Attempt>, id: nat): seq<Socket> {
    if attempts == [] then []
    else
      var last := attempts[|attempts| - 1];
      Failed(attempts[..|attempts| - 1], id) + if last.id == id && !last.ok then [last.ws] else []
  }

  /** One attempt per snapshot target up to `next`; the dead are those that failed, the sent the rest. */
  ghost predicate FlightOk(attempts: seq<Attempt>, id: nat, f: Flight) {
    && Distinct(f.targets) && f.next <= |f.targets|
    && Tried(attempts, id) == f.targets[..f.next]
    && f.dead == Failed(attempts, id) && f.sent + |f.dead| == f.next
    && (f.done ==> f.next == |f.targets|)
  }

  ghost predicate Inv(sys: System) {
    && Shaped(sys.ix) && Agrees(sys.ix)
    && (forall id | id in sys.flights :: FlightOk(sys.attempts, id, sys.flights[id]))
    && (forall k | 0 <= k < |sys.attempts| :: sys.attempts[k].id in sys.flights)
  }

  /** The guard of a connect: the socket is not registered, or keeps all its topics. */
  ghost predicate Safe(sys: System, a: Action) {
    a.Connect? ==> TopicsOf(sys.ix, a.ws) <= Wanted(a.topics)
  }

  lemma TriedAppend(attempts: seq<Attempt>, id: nat, x: Attempt)
    ensures Tried(attempts + [x], id) == Tried(attempts, id) + if x.id == id then [x.ws] else []
    ensures Failed(attempts + [x], id) == Failed(attempts, id) + if x.id == id && !x.ok then [x.ws] else []
  {
    assert (attempts + [x])[..|attempts|] == attempts;
  }

  lemma {:induction false} NeverTried(attempts: seq<Attempt>, id: nat)
    requires forall k | 0 <= k < |attempts| :: attempts[k].id != id
    ensures Tried(attempts, id) == [] && Failed(attempts, id) == []
  {
    if attempts != [] { NeverTried(attempts[..|attempts| - 1], id); }
  }

  lemma SendKeeps(sys: System, id: nat, ok: bool)
    requires Inv(sys) && Enabled(sys, Send(id, ok))
    ensures Inv(Apply(sys, Send(id, ok)))
  {
    hide Agrees, Shaped, Distinct, Tried, Failed;
    var f := sys.flights[id];
    var sys' := Apply(sys, Send(id, ok));
    forall k | k in sys'.flights
      ensures FlightOk(sys'.attempts, k, sys'.flights[k])
    {
      TriedAppend(sys.attempts, k, Attempt(id, f.targets[f.next], ok));
      assert FlightOk(sys.attempts, k, sys.flights[k]);
      if k == id { assert f.targets[..f.next + 1] == f.targets[..f.next] + [f.targets[f.next]]; }
    }
  }

  lemma BeginKeeps(sys: System, id: nat, topic: string, order: seq<Socket>)
    requires Inv(sys) && Enabled(sys, Begin(id, topic, order))
    ensures Inv(Apply(sys, Begin(id, topic, order)))
  {
    hide Agrees, Shaped, Distinct, Tried, Failed;
    NeverTried(sys.attempts, id);
    forall k | k in sys.flights
      ensures FlightOk(sys.attempts, k, sys.flights[k])
    {
    }
  }

  /** Every safe step keeps the invariant; a connect keeps it only if it is safe. */
  lemma StepKeepsIff(sys: System, a: Action)
    requires Inv(sys) && Enabled(sys, a)
    ensures Inv(Apply(sys, a)) <==> Safe(sys, a)
  {
    hide Agrees, Shaped, FlightOk;
    match a
    case Connect(ws, topics) => ConnectKeepsIff(sys.ix, ws, topics);
    case Disconnect(ws) => DisconnectKeeps(sys.ix, ws);
    case Subscribe(ws, topic) => SubscribeKeeps(sys.ix, ws, topic);
    case Unsubscribe(ws, topic) => SubscribeKeeps(sys.ix, ws, topic);
    case Begin(id, topic, order) => BeginKeeps(sys, id, topic, order);
    case Send(id, ok) => SendKeeps(sys, id, ok);
    case Finish(id) =>
      CleanKeeps(sys.ix, sys.flights[id].dead);
      FinishKeeps(sys.attempts, id, sys.flights[id]);
  }

  lemma FinishKeeps(attempts: seq<Attempt>, id: nat, f: Flight)
    requires FlightOk(attempts, id, f) && f.next == |f.targets|
    ensures FlightOk(attempts, id, f.(done := true))
  {
  }

  // ---------------------------------------------------------------- whole runs

  /** `actions` is an interleaving that can happen from `sys`. */
  ghost predicate IsRun(sys: System, actions: seq<Action>)
    decreases |actions|
  {
    actions == [] || (Enabled(sys, actions[0]) && IsRun(Apply(sys, actions[0]), actions[1..]))
  }

  ghost function After(sys: System, actions: seq<Action>): System
    requires IsRun(sys, actions)
    decreases |actions|
  {
    if actions == [] then sys else After(Apply(sys, actions[0]), actions[1..])
  }

  /** Every connect is safe in the state in which it is taken. */
  ghost predicate SafeRun(sys: System, actions: seq<Action>)
    requires IsRun(sys, actions)
    decreases |actions|
  {
    actions == [] || (Safe(sys, actions[0]) && SafeRun(Apply(sys, actions[0]), actions[1..]))
  }

  /** The invariant holds in every state of a run. */
  ghost predicate InvThroughout(sys: System, actions: seq<Action>)
    requires IsRun(sys, actions)
    decreases |actions|
  {
    Inv(sys) && (actions == [] || InvThroughout(Apply(sys, actions[0]), actions[1..]))
  }

  /** No socket connects while registered, nor twice. */
  ghost predicate ConnectsOnce(sys: System, actions: seq<Action>) {
    && (forall i | 0 <= i < |actions| && actions[i].Connect? :: actions[i].ws !in sys.ix.clients)
    && (forall i, j | 0 <= i < j < |actions| && actions[i].Connect? && actions[j].Connect? ::
          actions[i].ws != actions[j].ws)
  }

  lemma OnlyConnectRegisters(sys: System, a: Action, ws: Socket)
    requires Inv(sys) && Enabled(sys, a) && ws !in sys.ix.clients
    requires a.Connect? ==> a.ws != ws
    ensures ws !in Apply(sys, a).ix.clients
  {
    hide Agrees, FlightOk;
    if a.Finish? { CleanedShrinks(sys.ix, sys.flights[a.id].dead); }
  }

  lemma {:induction false} CleanedShrinks(ix: Index, dead: seq<Socket>)
    ensures Cleaned(ix, dead).clients.Keys <= ix.clients.Keys
  {
    if dead != [] { CleanedShrinks(ix, dead[..|dead| - 1]); }
  }

  /** In every interleaving the two indexes agree, and every broadcast tries each target of its
      snapshot in order, once, in all its states exactly when each connect is safe when taken: a
      socket may come back after it left, or widen its topics. */
  lemma {:induction false} IndexesAgreeIff(sys: System, actions: seq<Action>)
    requires Inv(sys) && IsRun(sys, actions)
    ensures InvThroughout(sys, actions) <==> SafeRun(sys, actions)
    decreases |actions|
  {
    if actions != [] {
      hide Inv, Enabled, Safe;
      var a, rest := actions[0], actions[1..];
      StepKeepsIff(sys, a);
      if Safe(sys, a) {
        IndexesAgreeIff(Apply(sys, a), rest);
      } else {
        NotThroughout(Apply(sys, a), rest);
      }
    }
  }

  lemma NotThroughout(sys: System, actions: seq<Action>)
    requires IsRun(sys, actions) && !Inv(sys)
    ensures !InvThroughout(sys, actions)
  {
  }

  lemma {:induction false} ThroughoutToTheEnd(sys: System, actions: seq<Action>)
    requires IsRun(sys, actions) && InvThroughout(sys, actions)
    ensures Inv(After(sys, actions))
    decreases |actions|
  {
    hide Inv, Enabled;
    if actions != [] { ThroughoutToTheEnd(Apply(sys, actions[0]), actions[1..]); }
  }

  /** A run in which each socket connects once has only safe connects. */
  lemma {:induction false} ConnectsOnceIsSafe(sys: System, actions: seq<Action>)
    requires Inv(sys) && IsRun(sys, actions) && ConnectsOnce(sys, actions)
    ensures SafeRun(sys, actions)
    decreases |actions|
  {
    if actions != [] {
      hide Inv, Enabled, Agrees, Wanted;
      var a, rest := actions[0], actions[1..];
      StepKeepsIff(sys, a);
      var next := Apply(sys, a);
      forall i | 0 <= i < |rest| && rest[i].Connect?
        ensures rest[i].ws !in next.ix.clients
      {
        assert rest[i] == actions[i + 1];
        OnlyConnectRegisters(sys, a, rest[i].ws);
      }
      ConnectsOnceIsSafe(next, rest);
    }
  }

  /** In every interleaving in which each socket connects once, the two indexes agree. */
  lemma IndexesAgree(sys: System, actions: seq<Action>)
    requires Inv(sys) && IsRun(sys, actions) && ConnectsOnce(sys, actions)
    ensures Inv(After(sys, actions))
  {
    hide Inv, IsRun;
    ConnectsOnceIsSafe(sys, actions);
    IndexesAgreeIff(sys, actions);
    ThroughoutToTheEnd(sys, actions);
  }

  /** The socket is in neither index. */
  ghost predicate Absent(ix: Index, ws: Socket) {
    ws !in ix.clients && forall t | t in ix.byTopic :: ws !in ix.byTopic[t]
  }

  lemma {:induction false} CleanedAbsent(ix: Index, dead: seq<Socket>, ws: Socket)
    requires Absent(ix, ws)
    ensures Absent(Cleaned(ix, dead), ws)
  {
    if dead != [] { CleanedAbsent(ix, dead[..|dead| - 1], ws); }
  }

  lemma StepAbsent(sys: System, a: Action, ws: Socket)
    requires Enabled(sys, a) && Absent(sys.ix, ws) && (a.Connect? ==> a.ws != ws)
    ensures Absent(Apply(sys, a).ix, ws)
  {
    hide DEFAULT_TOPICS;
    if a.Finish? { CleanedAbsent(sys.ix, sys.flights[a.id].dead, ws); }
  }

  /** A socket that is in neither index stays out until it connects, whatever else happens: in every
      interleaving, whether or not the indexes agree. */
  lemma {:induction false} NoReappearance(sys: System, actions: seq<Action>, ws: Socket)
    requires IsRun(sys, actions) && Absent(sys.ix, ws)
    requires forall i | 0 <= i < |actions| && actions[i].Connect? :: actions[i].ws != ws
    ensures Absent(After(sys, actions).ix, ws)
    decreases |actions|
  {
    if actions != [] {
      hide Enabled, Absent;
      StepAbsent(sys, actions[0], ws);
      NoReappearance(Apply(sys, actions[0]), actions[1..], ws);
    }
  }

  /** When a broadcast finishes, its targets were each tried once, the count it returns is the
      number not found dead, and the dead are gone from both indexes. */
  lemma BroadcastFinishes(sys: System, id: nat)
    requires Inv(sys) && Enabled(sys, Finish(id))
    ensures var f := sys.flights[id]; var ix := Apply(sys, Finish(id)).ix;
            && Tried(sys.attempts, id) == f.targets && Distinct(f.targets)
            && f.dead == Failed(sys.attempts, id)
            && f.sent == |f.targets| - |f.dead|
            && forall ws | ws in f.dead :: Absent(ix, ws)
  {
    var f := sys.flights[id];
    assert FlightOk(sys.attempts, id, f);
    assert f.targets[..|f.targets|] == f.targets;
    CleanKeeps(sys.ix, f.dead);
    hide Cleaned, Tried, Failed;
    var ix := Cleaned(sys.ix, f.dead);
    forall ws | ws in f.dead
      ensures ws !in ix.clients
    {
      assert ws in (set x | x in f.dead);
    }
  }

  // ---------------------------------------------------------------- subscriptions reach broadcasts

  /** The socket is indexed under the topic. */
  ghost predicate Hears(ix: Index, ws: Socket, topic: string) { topic in ix.byTopic && ws in ix.byTopic[topic] }

  /** The steps that may take a socket off a topic: it leaves, it unsubscribes, or a finishing
      broadcast found it dead. */
  ghost predicate TakesOff(sys: System, a: Action, ws: Socket, topic: string)
    requires Enabled(sys, a)
  {
    match a
    case Disconnect(w) => w == ws
    case Unsubscribe(w, t) => w == ws && t == topic
    case Finish(id) => ws in sys.flights[id].dead
    case _ => false
  }

  lemma {:induction false} CleanedHears(ix: Index, dead: seq<Socket>, ws: Socket, topic: string)
    requires Hears(ix, ws, topic) && ws !in dead
    ensures Hears(Cleaned(ix, dead), ws, topic)
  {
    if dead != [] {
      assert dead[|dead| - 1] in dead;
      CleanedHears(ix, dead[..|dead| - 1], ws, topic);
    }
  }

  lemma StepHears(sys: System, a: Action, ws: Socket, topic: string)
    requires Enabled(sys, a) && Hears(sys.ix, ws, topic) && !TakesOff(sys, a, ws, topic)
    ensures Hears(Apply(sys, a).ix, ws, topic)
  {
    hide DEFAULT_TOPICS;
    if a.Finish? { CleanedHears(sys.ix, sys.flights[a.id].dead, ws, topic); }
  }

  /** No step of a run takes the socket off the topic. */
  ghost predicate StaysOn(sys: System, actions: seq<Action>, ws: Socket, topic: string)
    requires IsRun(sys, actions)
    decreases |actions|
  {
    actions == []
    || (!TakesOff(sys, actions[0], ws, topic) && StaysOn(Apply(sys, actions[0]), actions[1..], ws, topic))
  }

  lemma {:induction false} RunHears(sys: System, actions: seq<Action>, ws: Socket, topic: string)
    requires IsRun(sys, actions) && StaysOn(sys, actions, ws, topic) && Hears(sys.ix, ws, topic)
    ensures Hears(After(sys, actions).ix, ws, topic)
    decreases |actions|
  {
    hide Hears, TakesOff, Enabled;
    if actions != [] {
      StepHears(sys, actions[0], ws, topic);
      RunHears(Apply(sys, actions[0]), actions[1..], ws, topic);
    }
  }

  /** A subscription counts: whatever happens after one that changed something, as long as nothing
      takes the socket off the topic, every broadcast that begins has the socket among its targets. */
  lemma SubscriberIsTarget(sys: System, ws: Socket, topic: string, actions: seq<Action>, id: nat, order: seq<Socket>)
    requires Shaped(sys.ix) && topic in DEFAULT_TOPICS && ws in sys.ix.clients && topic !in sys.ix.clients[ws]
    requires Enabled(sys, Subscribe(ws, topic))
    requires IsRun(Apply(sys, Subscribe(ws, topic)), actions)
    requires StaysOn(Apply(sys, Subscribe(ws, topic)), actions, ws, topic)
    requires Enabled(After(Apply(sys, Subscribe(ws, topic)), actions), Begin(id, topic, order))
    ensures ws in order
    ensures var sys' := Apply(After(Apply(sys, Subscribe(ws, topic)), actions), Begin(id, topic, order));
            id in sys'.flights && ws in sys'.flights[id].targets
  {
    hide IsRun, StaysOn, After;
    RunHears(Apply(sys, Subscribe(ws, topic)), actions, ws, topic);
  }

  /** So does connecting, for each known topic asked for. */
  lemma ConnectedHears(ix: Index, ws: Socket, topics: Option<set<string>>, topic: string)
    requires Shaped(ix) && topic in DEFAULT_TOPICS && (topics.None? || topic in topics.value)
    ensures Hears(Connected(ix, ws, topics), ws, topic)
  {
  }

  // ---------------------------------------------------------------- the broker

  class Broker {
    var clients: map<Socket, set<string>>
    var byTopic: map<string, set<Socket>>

    ghost function View(): Index
      reads this
    {
      Index(clients, byTopic)
    }

    ghost predicate Valid()
      reads this
    {
      Shaped(View())
    }

    constructor ()
      ensures Valid() && Agrees(View()) && clients == map[]
    {
      clients := map[];
      byTopic := map t | t in DEFAULT_TOPICS :: {};
    }

    method Connect(ws: Socket, topics: Option<set<string>>)
      requires Valid()
      modifies this
      ensures Valid() && View() == Connected(old(View()), ws, topics)
      ensures clients.Keys == old(clients).Keys + {ws} && byTopic.Keys == old(byTopic).Keys
      ensures forall t :: t in clients[ws] <==> t in DEFAULT_TOPICS && (topics.None? || t in topics.value)
      ensures forall t | t in byTopic :: byTopic[t] == old(byTopic)[t] + if t in clients[ws] then {ws} else {}
      ensures forall other | other in clients && other != ws :: clients[other] == old(clients)[other]
    {
      hide DEFAULT_TOPICS;
      var requested := if topics.Some? then topics.value else DEFAULT_TOPICS;
      var sub := set t | t in requested && t in DEFAULT_TOPICS;
      assert sub == Wanted(topics);
      clients := clients[ws := sub];
      AddToIndex(ws, sub);
    }

    method AddToIndex(ws: Socket, sub: set<string>)
      requires sub <= byTopic.Keys
      modifies `byTopic
      ensures byTopic == AddTo(old(byTopic), ws, sub)
    {
      ghost var before := byTopic;
      var left := sub;
      assert byTopic == AddTo(before, ws, sub - left);
      while left != {}
        invariant left <= sub <= byTopic.Keys && byTopic == AddTo(before, ws, sub - left)
        decreases |left|
      {
        var t :| t in left;
        byTopic := byTopic[t := byTopic[t] + {ws}];
        left := left - {t};
      }
      assert sub - left == sub;
    }

    method Disconnect(ws: Socket)
      requires Valid()
      modifies this
      ensures Valid() && View() == Disconnected(old(View()), ws)
      ensures clients == old(clients) - {ws} && byTopic.Keys == old(byTopic).Keys
      ensures forall t | t in byTopic :: byTopic[t] ==
                if ws in old(clients) && t in old(clients)[ws] then old(byTopic)[t] - {ws} else old(byTopic)[t]
    {
      hide DEFAULT_TOPICS;
      var sub := if ws in clients then clients[ws] else {};
      clients := clients - {ws};
      DropFromIndex(ws, sub);
    }

    method DropFromIndex(ws: Socket, sub: set<string>)
      requires sub <= byTopic.Keys
      modifies `byTopic
      ensures byTopic == DropFrom(old(byTopic), ws, sub)
    {
      ghost var before := byTopic;
      var left := sub;
      assert byTopic == DropFrom(before, ws, sub - left);
      while left != {}
        invariant left <= sub <= byTopic.Keys && byTopic == DropFrom(before, ws, sub - left)
        decreases |left|
      {
        var t :| t in left;
        byTopic := byTopic[t := byTopic[t] - {ws}];
        left := left - {t};
      }
      assert sub - left == sub;
    }

    method Subscribe(ws: Socket, topic: string) returns (changed: bool)
      requires Valid()
      modifies this
      ensures Valid() && View() == Subscribed(old(View()), ws, topic)
      ensures changed <==> topic in DEFAULT_TOPICS && ws in old(clients) && topic !in old(clients)[ws]
      ensures changed ==>
                && clients == old(clients)[ws := old(clients)[ws] + {topic}]
                && topic in old(byTopic) && byTopic == old(byTopic)[topic := old(byTopic)[topic] + {ws}]
      ensures !changed ==> clients == old(clients) && byTopic == old(byTopic)
    {
      if topic !in DEFAULT_TOPICS { return false; }
      if ws !in clients { return false; }
      if topic in clients[ws] { return false; }
      clients := clients[ws := clients[ws] + {topic}];
      byTopic := byTopic[topic := byTopic[topic] + {ws}];
      return true;
    }

    method Unsubscribe(ws: Socket, topic: string) returns (changed: bool)
      requires Valid()
      modifies this
      ensures Valid() && View() == Unsubscribed(old(View()), ws, topic)
      ensures changed <==> topic in DEFAULT_TOPICS && ws in old(clients) && topic in old(clients)[ws]
      ensures changed ==>
                && clients == old(clients)[ws := old(clients)[ws] - {topic}]
                && topic in old(byTopic) && byTopic == old(byTopic)[topic := old(byTopic)[topic] - {ws}]
      ensures !changed ==> clients == old(clients) && byTopic == old(byTopic)
    {
      if topic !in DEFAULT_TOPICS { return false; }
      if ws !in clients || topic !in clients[ws] { return false; }
      clients := clients[ws := clients[ws] - {topic}];
      byTopic := byTopic[topic := byTopic[topic] - {ws}];
      return true;
    }

    /** The subscribers of a topic, in some order. */
    method Snapshot(topic: string) returns (targets: seq<Socket>)
      requires Valid() && topic in DEFAULT_TOPICS
      ensures Distinct(targets) && forall ws :: ws in targets <==> ws in byTopic[topic]
    {
      var left := byTopic[topic];
      targets := [];
      while left != {}
        invariant left <= byTopic[topic] && Distinct(targets)
        invariant forall ws :: ws in targets <==> ws in byTopic[topic] - left
        decreases |left|
      {
        var ws :| ws in left;
        assert ws !in targets;
        targets := targets + [ws];
        left := left - {ws};
      }
    }

    method CleanupDead(dead: seq<Socket>)
      requires Valid()
      modifies this
      ensures Valid() && View() == Cleaned(old(View()), dead)
    {
      for k := 0 to |dead|
        invariant Valid() && View() == Cleaned(old(View()), dead[..k])
      {
        assert dead[..k + 1][..k] == dead[..k];
        Disconnect(dead[k]);
      }
      assert dead[..|dead|] == dead;
    }

    /** A broadcast that nothing interrupts; `alive` decides which sends succeed. */
    method Broadcast(topic: string, alive: Socket -> bool)
      returns (sent: nat, ghost targets: seq<Socket>, ghost dead: seq<Socket>)
      requires Valid()
      modifies this
      ensures Valid() && View() == Cleaned(old(View()), dead)
      ensures topic !in DEFAULT_TOPICS ==> targets == []
      ensures topic in DEFAULT_TOPICS ==>
                Distinct(targets) && forall ws :: ws in targets <==> ws in old(byTopic)[topic]
      ensures sent == |targets| - |dead| && forall ws :: ws in dead <==> ws in targets && !alive(ws)
    {
      sent, targets, dead := 0, [], [];
      if topic !in DEFAULT_TOPICS { return; }
      var order := Snapshot(topic);
      targets := order;
      var failed: seq<Socket> := [];
      for k := 0 to |order|
        invariant sent + |failed| == k
        invariant forall ws :: ws in failed <==> ws in order[..k] && !alive(ws)
      {
        assert order[..k + 1] == order[..k] + [order[k]];
        if alive(order[k]) { sent := sent + 1; } else { failed := failed + [order[k]]; }
      }
      assert order[..|order|] == order;
      dead := failed;
      if failed != [] { CleanupDead(failed); }
    }
  }
}
