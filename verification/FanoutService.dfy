/** One process's side of the fan-out, as it runs: instance id, direct message, listener, and the local SSE queues. */
module FanoutService {
  import opened Common
  import opened Envelope
  import opened Fanout
  import Uuid

  /** A direct message goes to both ends, once when they are the same user. */
  function DmTargets(peer: nat, sender: nat): seq<nat> {
    if peer == sender then [peer] else [peer, sender]
  }

  lemma DmTargetsValid(peer: nat, sender: nat)
    requires peer < Uuid.LIMIT && sender < Uuid.LIMIT
    ensures ValidTargets(DmTargets(peer, sender))
    ensures forall u :: u in DmTargets(peer, sender) <==> u == peer || u == sender
  {
  }

  function Deliveries(targets: seq<nat>, payload: string): seq<(nat, string)> {
    seq(|targets|, i requires 0 <= i < |targets| => (targets[i], payload))
  }

  lemma DeliveriesTo(targets: seq<nat>, payload: string, log: seq<(nat, string)>)
    ensures Users((log + Deliveries(targets, payload))[|log|..]) == targets
  {
    assert (log + Deliveries(targets, payload))[|log|..] == Deliveries(targets, payload);
  }

  /** For whom the handler ran. */
  function Users(log: seq<(nat, string)>): seq<nat> {
    seq(|log|, i requires 0 <= i < |log| => log[i].0)
  }

  /** The machine has not heard of the message. */
  predicate Unsent(s: State, m: int) {
    m !in s.messages && m !in s.published && m !in s.channel
  }

  /** A PUBLISH whose answer gets lost is on the channel all the same. */
  function PublicationOf(redis: bool, publish: Outcome): Publication {
    if !redis then NoRedis else if publish.Failed? then PublishFailed else Published
  }

  /** The identity a process has after a publication. */
  function AfterPublishing(me: Identity, pid: int, redis: bool, payload: string, newId: string): Identity {
    if redis && payload != "" then Identify(me, pid, newId) else me
  }

  /** The machine's steps for a new message, from the process that sends it. */
  lemma SendingSteps(s: State, p: int, m: int, w: Worker, targets: seq<nat>, payload: string, newId: string,
                     redis: bool, publish: Outcome)
    requires p in s.workers && s.workers[p] == w && Unsent(s, m)
    requires ValidTargets(targets) && NewIdOk(s, newId)
    ensures var t := SendSteps(s, p, m, targets, payload, newId, PublicationOf(redis, publish));
            var me := AfterPublishing(w.me, w.pid, redis, payload, newId);
            && p in t.workers && t.workers[p] == Worker(w.pid, me)
            && t.handled == s.handled + Runs(m, p, targets)
            && (m in t.channel <==> redis && !publish.Failed? && payload != "")
            && (m in t.channel ==> t.channel[m] == Build(me.id, targets, payload))
  {
    SendStepsDo(s, p, m, targets, payload, newId, PublicationOf(redis, publish));
  }

  function UsersOf(reaction: Option<seq<nat>>): seq<nat> {
    if reaction.None? then [] else reaction.value
  }

  /** The machine's steps for a copy that a process takes. */
  lemma ReceivingSteps(s: State, m: int, p: int, w: Worker, newId: string)
    requires Inv(s) && m in s.channel && p in s.workers && s.workers[p] == w
    requires (m, p) !in s.received && NewIdOk(s, newId)
    ensures var t := ReceiveSteps(s, m, p, newId); var me := Identify(w.me, w.pid, newId);
            && p in t.workers && t.workers[p] == Worker(w.pid, me) && Parse(s.channel[m]).Some?
            && t.handled == s.handled + Runs(m, p, UsersOf(Reaction(s.channel[m], me.id)))
  {
    ReceiveStepsDo(s, m, p, newId);
    SkipsOwnOnly(s, m, p, newId);
    ChannelReads(s, m);
  }

  /** What a listener finds on its connection. */
  datatype BusMessage = BusMessage(isMessage: bool, hasHandler: bool, data: Option<Json>)

  predicate Readable(msg: BusMessage) {
    msg.isMessage && msg.hasHandler && msg.data.Some? && Parse(msg.data.value).Some?
  }

  /** In a state the machine can be in, `data` is the copy of message `m` that process `p` has not taken yet. */
  ghost predicate Arrives(s: State, m: int, p: int, data: Option<Json>) {
    Inv(s) && m in s.channel && data == Some(s.channel[m]) && (m, p) !in s.received
  }

  /** Malformed data is no copy of a message. */
  lemma MustRead(msg: BusMessage)
    requires msg.data.Some? && Parse(msg.data.value).None?
    ensures forall s: State, m, p :: !Arrives(s, m, p, msg.data)
  {
    forall s: State, m, p ensures !Arrives(s, m, p, msg.data) {
      if Arrives(s, m, p, msg.data) { ChannelReads(s, m); }
    }
  }

  lemma ChannelReads(s: State, m: int)
    requires Inv(s) && m in s.channel
    ensures Parse(s.channel[m]).Some?
  {
    assert Authentic(s, m) && MessageOk(s, m);
    RoundTrip(s.origins[m], s.messages[m].targets, s.messages[m].payload);
  }

  class Process {
    const pid: int
    var me: Identity
    var handled: seq<(nat, string)>  // runs of the local handler
    var posted: seq<Json>  // envelopes accepted by Redis

    /** The process is as process `p` in that state of the machine. */
    ghost predicate Shows(s: State, p: int)
      reads this
    {
      p in s.workers && s.workers[p] == Worker(pid, me)
    }

    constructor (pid: int, inherited: Identity)
      ensures this.pid == pid && me == inherited && handled == [] && posted == []
    {
      this.pid := pid;
      me, handled, posted := inherited, [], [];
    }

    method InstanceId(newId: string) returns (id: string)
      modifies this`me
      ensures me == Identify(old(me), pid, newId) && id == me.id
      ensures !NeedsId(me, pid) && (!NeedsId(old(me), pid) ==> id == old(me.id))
    {
      if me.pid != Some(pid) {
        me := me.(pid := Some(pid));
        me := me.(id := newId);
      }
      id := me.id;
    }

    /** `redis` is whether there is a connection, `publish` what becomes of the PUBLISH. */
    method PublishEnvelope(redis: bool, publish: Outcome, targets: seq<nat>, payload: string, newId: string)
      returns (sent: bool)
      modifies this`me, this`posted
      ensures sent <==> redis && publish.Answered? && payload != "" && targets != []
      ensures sent ==> !NeedsId(me, pid)
      ensures if redis && !publish.Failed? && payload != "" && targets != []
              then posted == old(posted) + [Build(me.id, targets, payload)] else posted == old(posted)
      ensures me == if redis && payload != "" && targets != [] then Identify(old(me), pid, newId) else old(me)
    {
      if !redis || payload == "" || targets == [] {
        return false;
      }
      var origin := InstanceId(newId);
      var wire := Build(origin, targets, payload);
      if !publish.Failed? {
        posted := posted + [wire];
      }
      return publish.Answered?;
    }

    /**
    Local sockets first, one by one, then one envelope for everybody else: the machine's steps for a new
    message `m`, with the same handler runs and the same envelope.
    */
    method FanoutDm(peer: nat, sender: nat, wire: string, redis: bool, publish: Outcome, newId: string)
      modifies this
      ensures |handled| >= |old(handled)|
      ensures peer < Uuid.LIMIT && sender < Uuid.LIMIT ==>
                forall s: State, p, m :: old(Shows(s, p)) && Unsent(s, m) && NewIdOk(s, newId) ==>
                  var t := SendSteps(s, p, m, DmTargets(peer, sender), wire, newId, PublicationOf(redis, publish));
                  && Shows(t, p)
                  && t.handled == s.handled + Runs(m, p, Users(handled[|old(handled)|..]))
                  && posted == old(posted) + (if m in t.channel then [t.channel[m]] else [])
      ensures handled == old(handled) + Deliveries(DmTargets(peer, sender), wire)
      ensures if redis && !publish.Failed? && wire != ""
              then posted == old(posted) + [Build(me.id, DmTargets(peer, sender), wire)] else posted == old(posted)
    {
      var targets := if peer == sender then [peer] else [peer, sender];
      for k := 0 to |targets|
        invariant handled == old(handled) + Deliveries(targets, wire)[..k]
        invariant posted == old(posted)
      {
        handled := handled + [(targets[k], wire)];
      }
      assert Deliveries(targets, wire)[..|targets|] == Deliveries(targets, wire);
      var sent := PublishEnvelope(redis, publish, targets, wire, newId);
      if peer < Uuid.LIMIT && sender < Uuid.LIMIT {
        DmTargetsValid(peer, sender);
        DeliveriesTo(targets, wire, old(handled));
        forall s: State, p, m | old(Shows(s, p)) && Unsent(s, m) && NewIdOk(s, newId) {
          SendingSteps(s, p, m, Worker(pid, old(me)), targets, wire, newId, redis, publish);
        }
      }
    }

    /**
    Runs the handler once per target, in order, unless the message is not for it, malformed or its own: the
    machine's steps for a copy of the message `m` that is taken for the first time.
    */
    method DispatchMessage(msg: BusMessage, newId: string)
      modifies this`me, this`handled
      ensures |handled| >= |old(handled)|
      ensures msg.isMessage && msg.hasHandler ==>
                forall s: State, p, m :: old(Shows(s, p)) && Arrives(s, m, p, msg.data) && NewIdOk(s, newId) ==>
                  var t := ReceiveSteps(s, m, p, newId);
                  Shows(t, p) && t.handled == s.handled + Runs(m, p, Users(handled[|old(handled)|..]))
      ensures me == if Readable(msg) then Identify(old(me), pid, newId) else old(me)
      ensures if Readable(msg) && Reaction(msg.data.value, me.id).Some?
              then handled == old(handled) + Deliveries(Reaction(msg.data.value, me.id).value,
                                                        Parse(msg.data.value).value.payload)
              else handled == old(handled)
    {
      if !msg.isMessage || !msg.hasHandler || msg.data.None? {
        return;
      }
      var parsed := Parse(msg.data.value);
      if parsed.None? {
        MustRead(msg);
        return;
      }
      var env := parsed.value;
      var mine := InstanceId(newId);
      if env.origin != Some(mine) {
        Serve(env);
        DeliveriesTo(env.targets, env.payload, old(handled));
      } else {
        DeliveriesTo([], env.payload, old(handled));
      }
      forall s: State, p, m | old(Shows(s, p)) && Arrives(s, m, p, msg.data) && NewIdOk(s, newId) {
        ReceivingSteps(s, m, p, Worker(pid, old(me)), newId);
      }
    }

    /** The dispatch loop. */
    method Serve(env: Envelope)
      modifies this`handled
      ensures handled == old(handled) + Deliveries(env.targets, env.payload)
    {
      for k := 0 to |env.targets|
        invariant handled == old(handled) + Deliveries(env.targets, env.payload)[..k]
      {
        handled := handled + [(env.targets[k], env.payload)];
      }
      assert Deliveries(env.targets, env.payload)[..|env.targets|] == Deliveries(env.targets, env.payload);
    }
  }

  const QUEUE_MAX := 100

  function Pushed(queue: seq<string>, payload: string): seq<string> {
    if |queue| < QUEUE_MAX then queue + [payload] else queue
  }

  /** Room for one more at the end, up to a hundred; a full queue stays as it is. */
  lemma PushedMeans(queue: seq<string>, payload: string)
    ensures |queue| < 100 ==>
              && |Pushed(queue, payload)| == |queue| + 1 && queue <= Pushed(queue, payload)
              && Pushed(queue, payload)[|queue|] == payload
    ensures |queue| >= 100 ==> Pushed(queue, payload) == queue
  {
  }

  /** A worker's open SSE streams: each user's queues, one per tab or device. */
  class SseFanoutManager {
    var byUser: map<nat, set<int>>
    var queues: map<int, seq<string>>

    /** Every stream belongs to one user, no user is kept without streams, and no queue is over its bound. */
    ghost predicate Valid()
      reads this
    {
      && (forall u :: u in byUser ==> byUser[u] != {} && byUser[u] <= queues.Keys)
      && (forall u, v, q :: u in byUser && v in byUser && q in byUser[u] && q in byUser[v] ==> u == v)
      && (forall q :: q in queues ==> |queues[q]| <= QUEUE_MAX)
    }

    constructor ()
      ensures Valid() && byUser == map[] && queues == map[]
    {
      byUser, queues := map[], map[];
    }

    function QueuesOf(user: nat): set<int>
      reads this
    {
      if user in byUser then byUser[user] else {}
    }

    /** `queue` is the new, empty queue. */
    method Register(user: nat, queue: int)
      requires Valid() && queue !in queues
      modifies this
      ensures Valid() && queues == old(queues)[queue := []]
      ensures QueuesOf(user) == old(QueuesOf(user)) + {queue}
      ensures forall u :: u != user ==> QueuesOf(u) == old(QueuesOf(u))
    {
      queues := queues[queue := []];
      var bucket := if user in byUser then byUser[user] else {};
      byUser := byUser[user := bucket + {queue}];
    }

    method Unregister(user: nat, queue: int)
      requires Valid()
      modifies this`byUser
      ensures Valid() && QueuesOf(user) == old(QueuesOf(user)) - {queue}
      ensures forall u :: u != user ==> QueuesOf(u) == old(QueuesOf(u))
    {
      if user !in byUser {
        return;
      }
      var bucket := byUser[user] - {queue};
      byUser := if bucket == {} then byUser - {user} else byUser[user := bucket];
    }

    /** Each open stream of the user gets the payload once, full queues excepted; nobody else gets it. */
    method Deliver(user: nat, payload: string)
      requires Valid()
      modifies this`queues
      ensures Valid() && queues.Keys == old(queues).Keys
      ensures forall q :: q in queues ==>
                queues[q] == if q in QueuesOf(user) then Pushed(old(queues)[q], payload) else old(queues)[q]
      ensures forall q :: q in queues ==>
                var was := old(queues)[q];
                if q in QueuesOf(user) && |was| < 100 then queues[q] == was + [payload] else queues[q] == was
    {
      var todo := QueuesOf(user);
      while todo != {}
        invariant todo <= QueuesOf(user) && queues.Keys == old(queues).Keys
        invariant forall q :: q in queues ==>
                    queues[q] == if q in QueuesOf(user) && q !in todo then Pushed(old(queues)[q], payload)
                                 else old(queues)[q]
        decreases |todo|
      {
        ghost var w := Pick(todo);
        var q :| q in todo;
        todo := todo - {q};
        queues := queues[q := Pushed(queues[q], payload)];
      }
    }
  }
}
