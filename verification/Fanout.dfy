/**
Cross-instance fan-out as a state machine: a sender runs the local handler for every target and then
publishes one envelope; every listener that gets a copy runs its own handler, unless the envelope
carries its own origin. `handled` counts every run of a handler as (message, process, user).
*/
module Fanout {
  import opened Common
  import opened Envelope
  import Uuid

  /** Module state of a process: the pid that generated the instance id, and the id. */
  datatype Identity = Identity(pid: Option<int>, id: string)

  /** A process anywhere, in whatever container, with the pid it has there. */
  datatype Worker = Worker(pid: int, me: Identity)

  datatype Message = Message(sender: int, targets: seq<nat>, payload: string, local: nat)

  datatype Dispatch = Dispatch(targets: seq<nat>, done: nat)

  datatype State = State(
    workers: map<int, Worker>,
    owner: map<string, int>,  // which process generated an id
    messages: map<int, Message>,
    published: set<int>,  // messages whose publish call has returned
    origins: map<int, string>,
    channel: map<int, Json>,
    received: set<(int, int)>,  // (message, process)
    dispatches: map<(int, int), Dispatch>,
    handled: multiset<(int, int, nat)>)

  const NOTHING := State(map[], map[], map[], {}, map[], map[], {}, map[], multiset{})

  datatype Publication = NoRedis | PublishFailed | Published

  datatype Event =
    | Start(process: int, pid: int)
    | Fork(parent: int, child: int, pid: int)
    | Send(process: int, message: int, targets: seq<nat>, payload: string)
    | DeliverLocal(message: int)
    | Publish(message: int, newId: string, outcome: Publication)
    | Receive(message: int, process: int, newId: string)
    | Handle(message: int, process: int)

  // ---- instance ids ----

  predicate NeedsId(me: Identity, pid: int) {
    me.pid != Some(pid)
  }

  /** _instance_id(): an id inherited through fork is replaced. */
  function Identify(me: Identity, pid: int, newId: string): Identity {
    if NeedsId(me, pid) then Identity(Some(pid), newId) else me
  }

  /** A new random UUID is unlike any before. */
  predicate NewIdOk(s: State, newId: string) {
    newId !in s.owner
  }

  predicate Unidentified(w: Worker) {
    NeedsId(w.me, w.pid)
  }

  function Identified(s: State, p: int, newId: string): State
    requires p in s.workers
  {
    var w := s.workers[p];
    if Unidentified(w) then
      s.(workers := s.workers[p := Worker(w.pid, Identify(w.me, w.pid, newId))], owner := s.owner[newId := p])
    else s
  }

  // ---- events ----

  /** Processes of different containers may well have the same pid. */
  function OnStart(s: State, p: int, pid: int): State {
    if p in s.workers then s else s.(workers := s.workers[p := Worker(pid, Identity(None, ""))])
  }

  /**
  The child starts with a copy of its parent's module state. Its pid is not the one recorded there: that
  belongs to the parent or to the ancestor the parent has the record from.
  */
  function OnFork(s: State, parent: int, child: int, pid: int): State {
    if parent in s.workers && child !in s.workers && NeedsId(s.workers[parent].me, pid) then
      s.(workers := s.workers[child := Worker(pid, s.workers[parent].me)])
    else s
  }

  ghost predicate ValidTargets(targets: seq<nat>) {
    && targets != []
    && (forall i :: 0 <= i < |targets| ==> targets[i] < Uuid.LIMIT)
    && (forall i, j :: 0 <= i < j < |targets| ==> targets[i] != targets[j])
  }

  ghost function OnSend(s: State, p: int, m: int, targets: seq<nat>, payload: string): State {
    if p in s.workers && m !in s.messages && ValidTargets(targets) then
      s.(messages := s.messages[m := Message(p, targets, payload, 0)])
    else s
  }

  function OnDeliverLocal(s: State, m: int): State {
    if m in s.messages && s.messages[m].local < |s.messages[m].targets| then
      var msg := s.messages[m];
      s.(messages := s.messages[m := msg.(local := msg.local + 1)],
         handled := s.handled + multiset{(m, msg.sender, msg.targets[msg.local])})
    else s
  }

  predicate MayPublish(s: State, m: int) {
    && m in s.messages && m !in s.published
    && s.messages[m].local == |s.messages[m].targets| > 0
    && s.messages[m].sender in s.workers
  }

  function Posted(s: State, m: int, id: string, wire: Json): State {
    s.(published := s.published + {m}, origins := s.origins[m := id], channel := s.channel[m := wire])
  }

  function OnPublish(s: State, m: int, newId: string, outcome: Publication): State {
    if !MayPublish(s, m) || !NewIdOk(s, newId) then s
    else if outcome.NoRedis? || s.messages[m].payload == "" then s.(published := s.published + {m})
    else
      var msg := s.messages[m];
      var t := Identified(s, msg.sender, newId);
      var id := t.workers[msg.sender].me.id;
      if outcome.PublishFailed? then t.(published := s.published + {m})
      else Posted(t, m, id, Build(id, msg.targets, msg.payload))
  }

  /** Whom a listener with instance id `id` hands an envelope to: nobody when it is malformed or its own. */
  function Reaction(wire: Json, id: string): Option<seq<nat>> {
    match Parse(wire)
    case None => None
    case Some(env) => if env.origin == Some(id) then None else Some(env.targets)
  }

  /** An envelope without a readable origin is nobody's own: every listener hands it to all its targets. */
  lemma UnsignedIsHandled(wire: Json, id: string)
    requires wire.Obj? && Parse(wire).Some? && ("origin" !in wire.fields || !wire.fields["origin"].Str?)
    ensures Reaction(wire, id) == Some(Parse(wire).value.targets)
  {
  }

  function Taken(s: State, m: int, p: int, reaction: Option<seq<nat>>): State {
    s.(received := s.received + {(m, p)},
       dispatches := if reaction.None? then s.dispatches
                     else s.dispatches[(m, p) := Dispatch(reaction.value, 0)])
  }

  /** A copy reaches a listener at most once. */
  function OnReceive(s: State, m: int, p: int, newId: string): State {
    if m !in s.channel || p !in s.workers || (m, p) in s.received || !NewIdOk(s, newId) then s
    else
      var t := Identified(s, p, newId);
      Taken(t, m, p, Reaction(s.channel[m], t.workers[p].me.id))
  }

  function OnHandle(s: State, m: int, p: int): State {
    if (m, p) in s.dispatches && s.dispatches[(m, p)].done < |s.dispatches[(m, p)].targets| then
      var d := s.dispatches[(m, p)];
      s.(dispatches := s.dispatches[(m, p) := d.(done := d.done + 1)],
         handled := s.handled + multiset{(m, p, d.targets[d.done])})
    else s
  }

  ghost function Step(s: State, e: Event): State {
    match e
    case Start(p, pid) => OnStart(s, p, pid)
    case Fork(parent, child, pid) => OnFork(s, parent, child, pid)
    case Send(p, m, targets, payload) => OnSend(s, p, m, targets, payload)
    case DeliverLocal(m) => OnDeliverLocal(s, m)
    case Publish(m, newId, outcome) => OnPublish(s, m, newId, outcome)
    case Receive(m, p, newId) => OnReceive(s, m, p, newId)
    case Handle(m, p) => OnHandle(s, m, p)
  }

  ghost function Run(es: seq<Event>): State {
    if es == [] then NOTHING else Step(Run(es[..|es| - 1]), es[|es| - 1])
  }

  // ---- the invariant ----

  /** Whoever holds an id got it from the process that generated it, and under one's own pid from oneself. */
  ghost predicate HoldsOwn(s: State, p: int)
    requires p in s.workers
  {
    var w := s.workers[p];
    w.me.pid.Some? ==> w.me.id in s.owner && (!Unidentified(w) ==> s.owner[w.me.id] == p)
  }

  ghost predicate IdInv(s: State) {
    forall p :: p in s.workers ==> HoldsOwn(s, p)
  }

  ghost predicate MessageOk(s: State, m: int)
    requires m in s.messages
  {
    ValidTargets(s.messages[m].targets) && s.messages[m].local <= |s.messages[m].targets|
  }

  /** What is on the channel is the sender's envelope, under an id of the sender. */
  ghost predicate Authentic(s: State, m: int)
    requires m in s.channel
  {
    && m in s.messages && m in s.origins && m in s.published
    && s.messages[m].local == |s.messages[m].targets|
    && s.origins[m] in s.owner && s.owner[s.origins[m]] == s.messages[m].sender
    && s.messages[m].sender in s.workers
    && !Unidentified(s.workers[s.messages[m].sender]) && s.workers[s.messages[m].sender].me.id == s.origins[m]
    && s.messages[m].targets != []
    && s.channel[m] == Build(s.origins[m], s.messages[m].targets, s.messages[m].payload)
  }

  ghost predicate DispatchOk(s: State, k: (int, int))
    requires k in s.dispatches
  {
    && k in s.received && k.0 in s.messages
    && s.messages[k.0].sender != k.1
    && s.dispatches[k].targets == s.messages[k.0].targets
    && s.dispatches[k].done <= |s.dispatches[k].targets|
  }

  /** A received copy is being dispatched, except by its own sender. */
  ghost predicate TakenOk(s: State, k: (int, int)) {
    && k.0 in s.channel && k.0 in s.messages
    && (s.messages[k.0].sender != k.1 ==> k in s.dispatches)
  }

  ghost predicate MessageInv(s: State) {
    && (forall m :: m in s.messages ==> MessageOk(s, m))
    && (forall m :: m in s.channel ==> Authentic(s, m))
    && (forall k :: k in s.dispatches ==> DispatchOk(s, k))
    && (forall k :: k in s.received ==> TakenOk(s, k))
  }

  function Times(targets: seq<nat>, n: nat, u: nat): nat
    requires n <= |targets|
  {
    multiset(targets[..n])[u]
  }

  /** How often user `u` was due so far at process `p`. */
  function Due(s: State, m: int, p: int, u: nat): nat {
    if m !in s.messages then 0
    else if p == s.messages[m].sender then
      (if s.messages[m].local <= |s.messages[m].targets|
       then Times(s.messages[m].targets, s.messages[m].local, u) else 0)
    else if (m, p) in s.dispatches && s.dispatches[(m, p)].done <= |s.dispatches[(m, p)].targets| then
      Times(s.dispatches[(m, p)].targets, s.dispatches[(m, p)].done, u)
    else 0
  }

  ghost predicate HandledInv(s: State) {
    forall m, p, u :: s.handled[(m, p, u)] == Due(s, m, p, u)
  }

  ghost predicate Inv(s: State) {
    IdInv(s) && MessageInv(s) && HandledInv(s)
  }

  // ---- ids ----

  lemma StartKeepsIds(s: State, p: int, pid: int)
    requires IdInv(s)
    ensures IdInv(OnStart(s, p, pid))
  {
  }

  lemma ForkKeepsIds(s: State, parent: int, child: int, pid: int)
    requires IdInv(s)
    ensures IdInv(OnFork(s, parent, child, pid))
  {
  }

  lemma IdentifyKeepsIds(s: State, p: int, newId: string)
    requires IdInv(s) && p in s.workers && NewIdOk(s, newId)
    ensures IdInv(Identified(s, p, newId))
    ensures var t := Identified(s, p, newId);
            && !Unidentified(t.workers[p])
            && t.workers[p].me.id in t.owner && t.owner[t.workers[p].me.id] == p
  {
  }

  lemma SameIds(s: State, t: State)
    requires IdInv(s) && t.workers == s.workers && t.owner == s.owner
    ensures IdInv(t)
  {
  }

  lemma PublishKeepsIds(s: State, m: int, newId: string, outcome: Publication)
    requires IdInv(s)
    ensures IdInv(OnPublish(s, m, newId, outcome))
  {
    var t := OnPublish(s, m, newId, outcome);
    if t.workers == s.workers && t.owner == s.owner {
      SameIds(s, t);
    } else {
      IdentifyKeepsIds(s, s.messages[m].sender, newId);
      SameIds(Identified(s, s.messages[m].sender, newId), t);
    }
  }

  lemma ReceiveKeepsIds(s: State, m: int, p: int, newId: string)
    requires IdInv(s)
    ensures IdInv(OnReceive(s, m, p, newId))
  {
  }

  lemma StepKeepsIds(s: State, e: Event)
    requires IdInv(s)
    ensures IdInv(Step(s, e))
  {
    match e
    case Start(p, pid) => StartKeepsIds(s, p, pid);
    case Fork(parent, child, pid) => ForkKeepsIds(s, parent, child, pid);
    case Publish(m, newId, outcome) => PublishKeepsIds(s, m, newId, outcome);
    case Receive(m, p, newId) => ReceiveKeepsIds(s, m, p, newId);
    case _ => SameIds(s, Step(s, e));
  }

  /** Two identified processes never share an id, whatever their pids and however they were forked. */
  lemma IdsDistinct(s: State, p: int, q: int)
    requires IdInv(s) && p in s.workers && q in s.workers && p != q
    requires !Unidentified(s.workers[p]) && !Unidentified(s.workers[q])
    ensures s.workers[p].me.id != s.workers[q].me.id
  {
  }

  lemma RunMore(es: seq<Event>, e: Event)
    ensures Run(es + [e]) == Step(Run(es), e)
  {
    assert (es + [e])[..|es|] == es;
  }

  /** A started process has no id yet; a forked one has its parent's, and needs one of its own. */
  lemma NewProcesses(es: seq<Event>, p: int, parent: int, pid: int)
    requires var s := Run(es); p !in s.workers && parent in s.workers && s.workers[parent].me.pid != Some(pid)
    ensures var t := Run(es + [Start(p, pid)]); p in t.workers && t.workers[p].pid == pid && t.workers[p].me.pid.None?
    ensures var s := Run(es); var t := Run(es + [Fork(parent, p, pid)]);
            && p in t.workers && t.workers[p] == Worker(pid, s.workers[parent].me) && Unidentified(t.workers[p])
  {
    RunMore(es, Start(p, pid));
    RunMore(es, Fork(parent, p, pid));
  }

  // ---- messages, envelopes and dispatches ----

  /** Messages stay as they are when only workers are added or completed. */
  lemma IdentitiesKeepMessages(s: State, t: State)
    requires MessageInv(s)
    requires t == s.(workers := t.workers, owner := t.owner)
    requires forall p :: p in s.workers ==> p in t.workers
    requires forall p :: p in s.workers && !Unidentified(s.workers[p]) ==> t.workers[p] == s.workers[p]
    requires forall id :: id in s.owner ==> id in t.owner && t.owner[id] == s.owner[id]
    ensures MessageInv(t)
  {
  }

  lemma SendKeepsMessages(s: State, p: int, m: int, targets: seq<nat>, payload: string)
    requires MessageInv(s)
    ensures MessageInv(OnSend(s, p, m, targets, payload))
  {
  }

  lemma DeliverKeepsMessages(s: State, m: int)
    requires MessageInv(s)
    ensures MessageInv(OnDeliverLocal(s, m))
  {
  }

  lemma IdentifyKeepsMessages(s: State, p: int, newId: string)
    requires MessageInv(s) && p in s.workers && NewIdOk(s, newId)
    ensures MessageInv(Identified(s, p, newId))
  {
  }

  lemma PostedKeepsMessages(s: State, m: int, wire: Json)
    requires MessageInv(s) && MayPublish(s, m)
    requires var sender := s.messages[m].sender; var w := s.workers[sender];
             !Unidentified(w) && w.me.id in s.owner && s.owner[w.me.id] == sender
    requires wire == Build(s.workers[s.messages[m].sender].me.id, s.messages[m].targets, s.messages[m].payload)
    ensures MessageInv(Posted(s, m, s.workers[s.messages[m].sender].me.id, wire))
  {
  }

  lemma FlagKeepsMessages(s: State, m: int)
    requires MessageInv(s)
    ensures MessageInv(s.(published := s.published + {m}))
  {
  }

  lemma PublishKeepsMessages(s: State, m: int, newId: string, outcome: Publication)
    requires IdInv(s) && MessageInv(s)
    ensures MessageInv(OnPublish(s, m, newId, outcome))
  {
    if MayPublish(s, m) && NewIdOk(s, newId) {
      var msg := s.messages[m];
      var i := Identified(s, msg.sender, newId);
      FlagKeepsMessages(s, m);
      IdentifyKeepsIds(s, msg.sender, newId);
      IdentifyKeepsMessages(s, msg.sender, newId);
      FlagKeepsMessages(i, m);
      PostedKeepsMessages(i, m, Build(i.workers[msg.sender].me.id, msg.targets, msg.payload));
    }
  }

  /** The listener's comparison is exact: it skips the sender's own copy and nothing else. */
  lemma SkipsOwnOnly(s: State, m: int, p: int, newId: string)
    requires IdInv(s) && MessageInv(s) && m in s.channel && p in s.workers && NewIdOk(s, newId)
    ensures m in s.messages
    ensures Reaction(s.channel[m], Identified(s, p, newId).workers[p].me.id)
         == if p == s.messages[m].sender then None else Some(s.messages[m].targets)
  {
    assert Authentic(s, m) && MessageOk(s, m);
    RoundTrip(s.origins[m], s.messages[m].targets, s.messages[m].payload);
    IdentifyKeepsIds(s, p, newId);
  }

  lemma TakenKeepsMessages(s: State, m: int, p: int, reaction: Option<seq<nat>>)
    requires MessageInv(s) && m in s.channel && m in s.messages
    requires reaction == if p == s.messages[m].sender then None else Some(s.messages[m].targets)
    ensures MessageInv(Taken(s, m, p, reaction))
  {
  }

  lemma ReceiveKeepsMessages(s: State, m: int, p: int, newId: string)
    requires IdInv(s) && MessageInv(s)
    ensures MessageInv(OnReceive(s, m, p, newId))
  {
    if m in s.channel && p in s.workers && (m, p) !in s.received && NewIdOk(s, newId) {
      var i := Identified(s, p, newId);
      SkipsOwnOnly(s, m, p, newId);
      IdentifyKeepsMessages(s, p, newId);
      TakenKeepsMessages(i, m, p, Reaction(s.channel[m], i.workers[p].me.id));
    }
  }

  lemma HandleKeepsMessages(s: State, m: int, p: int)
    requires MessageInv(s)
    ensures MessageInv(OnHandle(s, m, p))
  {
  }

  lemma StepKeepsMessages(s: State, e: Event)
    requires IdInv(s) && MessageInv(s)
    ensures MessageInv(Step(s, e))
  {
    match e
    case Start(p, pid) => IdentitiesKeepMessages(s, OnStart(s, p, pid));
    case Fork(parent, child, pid) => IdentitiesKeepMessages(s, OnFork(s, parent, child, pid));
    case Send(p, m, targets, payload) => SendKeepsMessages(s, p, m, targets, payload);
    case DeliverLocal(m) => DeliverKeepsMessages(s, m);
    case Publish(m, newId, outcome) => PublishKeepsMessages(s, m, newId, outcome);
    case Receive(m, p, newId) => ReceiveKeepsMessages(s, m, p, newId);
    case Handle(m, p) => HandleKeepsMessages(s, m, p);
  }

  // ---- handler runs ----

  lemma TimesStep(targets: seq<nat>, n: nat, u: nat)
    requires n < |targets|
    ensures Times(targets, n + 1, u) == Times(targets, n, u) + if targets[n] == u then 1 else 0
  {
    assert targets[..n + 1] == targets[..n] + [targets[n]];
  }

  lemma SameHandled(s: State, t: State)
    requires HandledInv(s) && t.messages == s.messages && t.dispatches == s.dispatches && t.handled == s.handled
    ensures HandledInv(t)
  {
  }

  lemma SendKeepsHandled(s: State, p: int, m: int, targets: seq<nat>, payload: string)
    requires MessageInv(s) && HandledInv(s)
    ensures HandledInv(OnSend(s, p, m, targets, payload))
  {
  }

  lemma DeliverKeepsHandled(s: State, m: int)
    requires MessageInv(s) && HandledInv(s)
    ensures HandledInv(OnDeliverLocal(s, m))
  {
    if m in s.messages && s.messages[m].local < |s.messages[m].targets| {
      var t := OnDeliverLocal(s, m);
      forall x, p, u ensures t.handled[(x, p, u)] == Due(t, x, p, u) {
        assert s.handled[(x, p, u)] == Due(s, x, p, u);
        TimesStep(s.messages[m].targets, s.messages[m].local, u);
      }
    }
  }

  lemma TakenKeepsHandled(s: State, m: int, p: int, reaction: Option<seq<nat>>)
    requires MessageInv(s) && HandledInv(s) && m in s.messages && (m, p) !in s.received
    ensures HandledInv(Taken(s, m, p, reaction))
  {
  }

  lemma ReceiveKeepsHandled(s: State, m: int, p: int, newId: string)
    requires IdInv(s) && MessageInv(s) && HandledInv(s)
    ensures HandledInv(OnReceive(s, m, p, newId))
  {
    if m in s.channel && p in s.workers && (m, p) !in s.received && NewIdOk(s, newId) {
      var i := Identified(s, p, newId);
      assert Authentic(s, m);
      IdentifyKeepsMessages(s, p, newId);
      SameHandled(s, i);
      TakenKeepsHandled(i, m, p, Reaction(s.channel[m], i.workers[p].me.id));
    }
  }

  lemma PublishRunsNothing(s: State, m: int, newId: string, outcome: Publication)
    ensures var t := OnPublish(s, m, newId, outcome);
            t.messages == s.messages && t.dispatches == s.dispatches && t.handled == s.handled
  {
  }

  lemma PublishKeepsHandled(s: State, m: int, newId: string, outcome: Publication)
    requires HandledInv(s)
    ensures HandledInv(OnPublish(s, m, newId, outcome))
  {
    PublishRunsNothing(s, m, newId, outcome);
    SameHandled(s, OnPublish(s, m, newId, outcome));
  }

  lemma HandleDue(s: State, m: int, p: int, x: int, q: int, u: nat)
    requires m in s.messages && s.messages[m].sender != p
    requires (m, p) in s.dispatches && s.dispatches[(m, p)].done < |s.dispatches[(m, p)].targets|
    ensures var d := s.dispatches[(m, p)];
            Due(OnHandle(s, m, p), x, q, u)
            == Due(s, x, q, u) + if x == m && q == p && u == d.targets[d.done] then 1 else 0
  {
    TimesStep(s.dispatches[(m, p)].targets, s.dispatches[(m, p)].done, u);
  }

  lemma HandleKeepsHandled(s: State, m: int, p: int)
    requires MessageInv(s) && HandledInv(s)
    ensures HandledInv(OnHandle(s, m, p))
  {
    if (m, p) in s.dispatches && s.dispatches[(m, p)].done < |s.dispatches[(m, p)].targets| {
      var t := OnHandle(s, m, p);
      assert DispatchOk(s, (m, p));
      forall x, q, u ensures t.handled[(x, q, u)] == Due(t, x, q, u) {
        assert s.handled[(x, q, u)] == Due(s, x, q, u);
        HandleDue(s, m, p, x, q, u);
      }
    }
  }

  lemma StepKeepsHandled(s: State, e: Event)
    requires Inv(s)
    ensures HandledInv(Step(s, e))
  {
    match e
    case Start(p, pid) => SameHandled(s, OnStart(s, p, pid));
    case Fork(parent, child, pid) => SameHandled(s, OnFork(s, parent, child, pid));
    case Send(p, m, targets, payload) => SendKeepsHandled(s, p, m, targets, payload);
    case DeliverLocal(m) => DeliverKeepsHandled(s, m);
    case Publish(m, newId, outcome) => PublishKeepsHandled(s, m, newId, outcome);
    case Receive(m, p, newId) => ReceiveKeepsHandled(s, m, p, newId);
    case Handle(m, p) => HandleKeepsHandled(s, m, p);
  }

  // ---- a whole request, uninterrupted ----

  /** The handler runs of process `p` for message `m`, one for each of the users. */
  function Runs(m: int, p: int, users: seq<nat>): multiset<(int, int, nat)> {
    if users == [] then multiset{}
    else Runs(m, p, users[..|users| - 1]) + multiset{(m, p, users[|users| - 1])}
  }

  lemma RunsMore(m: int, p: int, users: seq<nat>, n: nat)
    requires n < |users|
    ensures Runs(m, p, users[..n + 1]) == Runs(m, p, users[..n]) + multiset{(m, p, users[n])}
  {
    assert users[..n + 1][..n] == users[..n];
  }

  lemma UpdateTwice<K, V>(f: map<K, V>, k: K, a: V, b: V)
    ensures f[k := a][k := b] == f[k := b]
  {
  }

  lemma AddTwice<T>(a: multiset<T>, b: multiset<T>, c: multiset<T>)
    ensures a + b + c == a + (b + c)
  {
  }

  function LocalLoop(s: State, m: int, n: nat): State {
    if n == 0 then s else OnDeliverLocal(LocalLoop(s, m, n - 1), m)
  }

  /** The steps of a direct message: the local loop, then the publication. */
  ghost function SendSteps(s: State, p: int, m: int, targets: seq<nat>, payload: string, newId: string,
                           outcome: Publication): State {
    OnPublish(LocalLoop(OnSend(s, p, m, targets, payload), m, |targets|), m, newId, outcome)
  }

  /** After `n` rounds of the local loop. */
  function Delivered(s: State, m: int, msg: Message, n: nat): State
    requires n <= |msg.targets|
  {
    s.(messages := s.messages[m := msg.(local := n)], handled := s.handled + Runs(m, msg.sender, msg.targets[..n]))
  }

  lemma OneDelivered(s: State, m: int, msg: Message, n: nat)
    requires n < |msg.targets|
    ensures OnDeliverLocal(Delivered(s, m, msg, n), m) == Delivered(s, m, msg, n + 1)
  {
    UpdateTwice(s.messages, m, msg.(local := n), msg.(local := n + 1));
    RunsMore(m, msg.sender, msg.targets, n);
    AddTwice(s.handled, Runs(m, msg.sender, msg.targets[..n]), multiset{(m, msg.sender, msg.targets[n])});
  }

  lemma NothingDelivered(s: State, m: int, msg: Message)
    requires m in s.messages && s.messages[m] == msg && msg.local == 0
    ensures Delivered(s, m, msg, 0) == s
  {
    assert s.messages[m := msg] == s.messages;
    assert Runs(m, msg.sender, msg.targets[..0]) == multiset{};
  }

  lemma {:induction false} LocalLoopRuns(s: State, m: int, msg: Message, n: nat)
    requires m in s.messages && s.messages[m] == msg && msg.local == 0 && n <= |msg.targets|
    ensures LocalLoop(s, m, n) == Delivered(s, m, msg, n)
  {
    if n == 0 {
      NothingDelivered(s, m, msg);
    } else {
      LocalLoopRuns(s, m, msg, n - 1);
      OneDelivered(s, m, msg, n - 1);
    }
  }

  predicate Silent(payload: string, outcome: Publication) {
    outcome.NoRedis? || payload == ""
  }

  /** Whether a publication gets as far as the process's id. */
  lemma PublishIdentifies(s: State, m: int, newId: string, outcome: Publication)
    requires MayPublish(s, m) && NewIdOk(s, newId)
    ensures OnPublish(s, m, newId, outcome).workers
         == if Silent(s.messages[m].payload, outcome) then s.workers
            else Identified(s, s.messages[m].sender, newId).workers
  {
  }

  /** What it puts on the channel. */
  lemma PublishPosts(s: State, m: int, newId: string, outcome: Publication)
    requires MayPublish(s, m) && NewIdOk(s, newId)
    ensures var msg := s.messages[m]; var me := Identified(s, msg.sender, newId).workers[msg.sender].me;
            OnPublish(s, m, newId, outcome).channel
            == if Silent(msg.payload, outcome) || outcome.PublishFailed? then s.channel
               else s.channel[m := Build(me.id, msg.targets, msg.payload)]
  {
  }

  lemma SendStepsLoop(s: State, p: int, m: int, targets: seq<nat>, payload: string)
    requires p in s.workers && m !in s.messages && ValidTargets(targets)
    ensures LocalLoop(OnSend(s, p, m, targets, payload), m, |targets|)
         == Delivered(s, m, Message(p, targets, payload, 0), |targets|)
  {
    var msg := Message(p, targets, payload, 0);
    LocalLoopRuns(OnSend(s, p, m, targets, payload), m, msg, |targets|);
    UpdateTwice(s.messages, m, msg, msg.(local := |targets|));
  }

  /** What they come to. */
  lemma SendStepsDo(s: State, p: int, m: int, targets: seq<nat>, payload: string, newId: string, outcome: Publication)
    requires p in s.workers && m !in s.messages && m !in s.published && ValidTargets(targets) && NewIdOk(s, newId)
    ensures var t := SendSteps(s, p, m, targets, payload, newId, outcome);
            && t.handled == s.handled + Runs(m, p, targets)
            && t.workers == (if Silent(payload, outcome) then s.workers else Identified(s, p, newId).workers)
            && p in t.workers
            && t.channel == (if Silent(payload, outcome) || outcome.PublishFailed? then s.channel
                             else s.channel[m := Build(t.workers[p].me.id, targets, payload)])
  {
    SendStepsLoop(s, p, m, targets, payload);
    var d := Delivered(s, m, Message(p, targets, payload, 0), |targets|);
    assert targets[..|targets|] == targets;
    PublishRunsNothing(d, m, newId, outcome);
    PublishIdentifies(d, m, newId, outcome);
    PublishPosts(d, m, newId, outcome);
  }

  function HandleLoop(s: State, m: int, p: int, n: nat): State {
    if n == 0 then s else OnHandle(HandleLoop(s, m, p, n - 1), m, p)
  }

  /** The steps of a listener: it takes its copy, then runs the handler for each target. */
  function ReceiveSteps(s: State, m: int, p: int, newId: string): State {
    var t := OnReceive(s, m, p, newId);
    if (m, p) in t.dispatches then HandleLoop(t, m, p, |t.dispatches[(m, p)].targets|) else t
  }

  /** After `n` rounds of the dispatch loop. */
  function Handled(s: State, m: int, p: int, targets: seq<nat>, n: nat): State
    requires n <= |targets|
  {
    s.(dispatches := s.dispatches[(m, p) := Dispatch(targets, n)], handled := s.handled + Runs(m, p, targets[..n]))
  }

  lemma OneHandled(s: State, m: int, p: int, targets: seq<nat>, n: nat)
    requires n < |targets|
    ensures OnHandle(Handled(s, m, p, targets, n), m, p) == Handled(s, m, p, targets, n + 1)
  {
    UpdateTwice(s.dispatches, (m, p), Dispatch(targets, n), Dispatch(targets, n + 1));
    RunsMore(m, p, targets, n);
    AddTwice(s.handled, Runs(m, p, targets[..n]), multiset{(m, p, targets[n])});
  }

  lemma NothingHandled(s: State, m: int, p: int, targets: seq<nat>)
    requires (m, p) in s.dispatches && s.dispatches[(m, p)] == Dispatch(targets, 0)
    ensures Handled(s, m, p, targets, 0) == s
  {
    assert s.dispatches[(m, p) := Dispatch(targets, 0)] == s.dispatches;
    assert Runs(m, p, targets[..0]) == multiset{};
  }

  lemma {:induction false} HandleLoopRuns(s: State, m: int, p: int, targets: seq<nat>, n: nat)
    requires (m, p) in s.dispatches && s.dispatches[(m, p)] == Dispatch(targets, 0) && n <= |targets|
    ensures HandleLoop(s, m, p, n) == Handled(s, m, p, targets, n)
  {
    if n == 0 {
      NothingHandled(s, m, p, targets);
    } else {
      HandleLoopRuns(s, m, p, targets, n - 1);
      OneHandled(s, m, p, targets, n - 1);
    }
  }

  lemma SenderHasNoDispatch(s: State, m: int)
    requires MessageInv(s) && m in s.messages
    ensures (m, s.messages[m].sender) !in s.dispatches
  {
  }

  lemma ReceiveDoes(s: State, m: int, p: int, newId: string)
    requires Inv(s) && m in s.channel && p in s.workers && (m, p) !in s.received && NewIdOk(s, newId)
    ensures m in s.messages
    ensures var t := OnReceive(s, m, p, newId);
            && t.workers == Identified(s, p, newId).workers && t.handled == s.handled
            && if p == s.messages[m].sender then (m, p) !in t.dispatches
               else (m, p) in t.dispatches && t.dispatches[(m, p)] == Dispatch(s.messages[m].targets, 0)
  {
    SkipsOwnOnly(s, m, p, newId);
    SenderHasNoDispatch(s, m);
  }

  /** What they come to: nothing at the sender, one run for each target anywhere else. */
  lemma ReceiveStepsDo(s: State, m: int, p: int, newId: string)
    requires Inv(s) && m in s.channel && p in s.workers && (m, p) !in s.received && NewIdOk(s, newId)
    ensures m in s.messages
    ensures var t := ReceiveSteps(s, m, p, newId);
            && t.workers == Identified(s, p, newId).workers
            && t.handled == s.handled + Runs(m, p, if p == s.messages[m].sender then [] else s.messages[m].targets)
  {
    ReceiveDoes(s, m, p, newId);
    var targets := s.messages[m].targets;
    if p == s.messages[m].sender {
      assert Runs(m, p, []) == multiset{};
    } else {
      HandleLoopRuns(OnReceive(s, m, p, newId), m, p, targets, |targets|);
      assert targets[..|targets|] == targets;
    }
  }

  // ---- whole runs ----

  lemma {:induction false} RunKeepsInv(es: seq<Event>)
    ensures Inv(Run(es))
    decreases |es|
  {
    if es != [] {
      var s, e := Run(es[..|es| - 1]), es[|es| - 1];
      RunKeepsInv(es[..|es| - 1]);
      StepKeepsIds(s, e);
      StepKeepsMessages(s, e);
      StepKeepsHandled(s, e);
    }
  }

  lemma TimesOfDistinct(targets: seq<nat>, n: nat, u: nat)
    requires ValidTargets(targets) && n <= |targets|
    ensures Times(targets, n, u) <= 1
    ensures u in targets[..n] <==> Times(targets, n, u) == 1
    decreases n
  {
    if n > 0 {
      TimesStep(targets, n - 1, u);
      TimesOfDistinct(targets, n - 1, u);
      assert targets[..n] == targets[..n - 1] + [targets[n - 1]];
    }
  }

  /** For every message, process and user the handler runs at most once, and never for a user who is no target. */
  lemma AtMostOnce(es: seq<Event>, m: int, p: int, u: nat)
    ensures var s := Run(es);
            && s.handled[(m, p, u)] <= 1
            && (s.handled[(m, p, u)] == 1 ==> m in s.messages && u in s.messages[m].targets)
  {
    RunKeepsInv(es);
    var s := Run(es);
    assert s.handled[(m, p, u)] == Due(s, m, p, u);
    if m in s.messages {
      assert MessageOk(s, m);
      TimesOfDistinct(s.messages[m].targets, s.messages[m].local, u);
      if (m, p) in s.dispatches {
        assert DispatchOk(s, (m, p));
        TimesOfDistinct(s.messages[m].targets, s.dispatches[(m, p)].done, u);
      }
    }
  }

  /** At the sender it has run exactly once for every target when the local loop is over, whatever Redis does. */
  lemma SenderExactlyOnce(es: seq<Event>, m: int, u: nat)
    requires var s := Run(es); m in s.messages && s.messages[m].local == |s.messages[m].targets|
    ensures var s := Run(es); s.handled[(m, s.messages[m].sender, u)] == if u in s.messages[m].targets then 1 else 0
  {
    RunKeepsInv(es);
    var s := Run(es);
    var msg := s.messages[m];
    assert MessageOk(s, m) && s.handled[(m, msg.sender, u)] == Due(s, m, msg.sender, u);
    TimesOfDistinct(msg.targets, msg.local, u);
    assert msg.targets[..msg.local] == msg.targets;
  }

  /** Publishing comes after the local loop, so a published message has already been handled by its sender. */
  lemma PublishedAfterLocal(es: seq<Event>, m: int)
    requires m in Run(es).channel
    ensures var s := Run(es); m in s.messages && s.messages[m].local == |s.messages[m].targets|
  {
    RunKeepsInv(es);
    assert Authentic(Run(es), m);
  }

  /** A listener elsewhere with a copy is always dispatching it, and ends with exactly one run per target. */
  lemma ReceiverExactlyOnce(es: seq<Event>, m: int, p: int, u: nat)
    requires (m, p) in Run(es).received
    ensures var s := Run(es);
            && m in s.messages
            && (p != s.messages[m].sender <==> (m, p) in s.dispatches)
            && ((m, p) in s.dispatches && s.dispatches[(m, p)].done == |s.dispatches[(m, p)].targets| ==>
                  s.handled[(m, p, u)] == if u in s.messages[m].targets then 1 else 0)
  {
    RunKeepsInv(es);
    var s := Run(es);
    assert Authentic(s, m) && MessageOk(s, m);
    assert s.handled[(m, p, u)] == Due(s, m, p, u);
    if (m, p) in s.dispatches {
      assert DispatchOk(s, (m, p));
      var d := s.dispatches[(m, p)];
      TimesOfDistinct(d.targets, d.done, u);
      assert d.done == |d.targets| ==> d.targets[..d.done] == d.targets;
    }
  }
}
