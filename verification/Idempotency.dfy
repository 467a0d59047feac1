/**
Idempotent post creation for one fingerprint: read the stored result, take the in-flight lock with
SET NX, create, store the result, delete the lock. The read and the lock are separate commands, any of
them may fail (the request then goes on without idempotency), the lock is deleted without looking whose
it is, requests may die anywhere, and both keys may expire.
*/
module Idempotency {
  import opened Common

  datatype Phase =
    | Reading
    | Locking
    | Working(locked: bool)
    | Storing(locked: bool, post: int)
    | Unlocking(locked: bool, outcome: Option<int>)
    | Replayed(post: int)
    | Conflict
    | Finished(outcome: Option<int>)
    | Dead

  datatype State = State(
    result: Option<int>,
    lock: Option<int>,  // the request that set it
    requests: map<int, Phase>,
    created: map<int, int>,  // post by post, the request that created it
    stores: nat,  // results stored so far
    seen: map<int, nat>,  // for a request that read and missed: the stores before its read
    bypassed: bool,  // a request went on without the lock, or the lock expired under its holder
    resultExpired: bool)

  const NOTHING := State(None, None, map[], map[], 0, map[], false, false)

  datatype Event =
    | Arrive(r: int)
    | ReadResult(r: int)
    | ReadFails(r: int)
    | TryLock(r: int)
    | LockFails(r: int)
    | LockUnseen(r: int)  // its answer got lost
    | Create(r: int, post: int)
    | CreateFails(r: int)
    | Store(r: int)
    | StoreFails(r: int)
    | Unlock(r: int)
    | UnlockFails(r: int)
    | Die(r: int)
    | LockExpires
    | ResultExpires

  predicate In(s: State, r: int, p: Phase) {
    r in s.requests && s.requests[r] == p
  }

  function Enter(s: State, r: int, p: Phase): State {
    s.(requests := s.requests[r := p])
  }

  /** Between taking the lock and giving it back. */
  predicate Holding(p: Phase) {
    (p.Working? || p.Storing? || p.Unlocking?) && p.locked
  }

  function OnArrive(s: State, r: int): State {
    if r in s.requests then s else Enter(s, r, Reading)
  }

  function OnReadResult(s: State, r: int): State {
    if !In(s, r, Reading) then s
    else if s.result.Some? then Enter(s, r, Replayed(s.result.value))
    else Enter(s, r, Locking).(seen := s.seen[r := s.stores])
  }

  function OnTryLock(s: State, r: int): State {
    if !In(s, r, Locking) then s
    else if s.lock.Some? then Enter(s, r, Conflict)
    else Enter(s, r, Working(true)).(lock := Some(r))
  }

  /** A failing read or lock command lets the request through. */
  function OnRedisFails(s: State, r: int, at: Phase): State {
    if In(s, r, at) then Enter(s, r, Working(false)).(bypassed := true) else s
  }

  /** The lock may have been set for a request that goes on without knowing. */
  function OnLockUnseen(s: State, r: int): State {
    if In(s, r, Locking) then
      Enter(s, r, Working(false)).(bypassed := true, lock := if s.lock.None? then Some(r) else s.lock)
    else s
  }

  function OnCreate(s: State, r: int, post: int): State {
    if r in s.requests && s.requests[r].Working? && post !in s.created then
      Enter(s, r, Storing(s.requests[r].locked, post)).(created := s.created[post := r])
    else s
  }

  function OnCreateFails(s: State, r: int): State {
    if r in s.requests && s.requests[r].Working? then Enter(s, r, Unlocking(s.requests[r].locked, None)) else s
  }

  function OnStore(s: State, r: int, works: bool): State {
    if r !in s.requests || !s.requests[r].Storing? then s
    else
      var p := s.requests[r];
      var t := Enter(s, r, Unlocking(p.locked, Some(p.post)));
      if works then t.(result := Some(p.post), stores := s.stores + 1) else t
  }

  function OnUnlock(s: State, r: int, works: bool): State {
    if r !in s.requests || !s.requests[r].Unlocking? then s
    else
      var t := Enter(s, r, Finished(s.requests[r].outcome));
      if works then t.(lock := None) else t
  }

  function OnDie(s: State, r: int): State {
    if r in s.requests && !s.requests[r].Replayed? && !s.requests[r].Conflict? && !s.requests[r].Finished? then
      Enter(s, r, Dead)
    else s
  }

  function OnLockExpires(s: State): State {
    s.(lock := None,
       bypassed := s.bypassed || (s.lock.Some? && s.lock.value in s.requests && Holding(s.requests[s.lock.value])))
  }

  function OnResultExpires(s: State): State {
    s.(result := None, resultExpired := s.resultExpired || s.result.Some?)
  }

  function Step(s: State, e: Event): State {
    match e
    case Arrive(r) => OnArrive(s, r)
    case ReadResult(r) => OnReadResult(s, r)
    case ReadFails(r) => OnRedisFails(s, r, Reading)
    case TryLock(r) => OnTryLock(s, r)
    case LockFails(r) => OnRedisFails(s, r, Locking)
    case LockUnseen(r) => OnLockUnseen(s, r)
    case Create(r, post) => OnCreate(s, r, post)
    case CreateFails(r) => OnCreateFails(s, r)
    case Store(r) => OnStore(s, r, true)
    case StoreFails(r) => OnStore(s, r, false)
    case Unlock(r) => OnUnlock(s, r, true)
    case UnlockFails(r) => OnUnlock(s, r, false)
    case Die(r) => OnDie(s, r)
    case LockExpires => OnLockExpires(s)
    case ResultExpires => OnResultExpires(s)
  }

  function Continue(s: State, es: seq<Event>): State {
    if es == [] then s else Step(Continue(s, es[..|es| - 1]), es[|es| - 1])
  }

  function Run(es: seq<Event>): State {
    Continue(NOTHING, es)
  }

  // ---- exclusion ----

  /** As long as the lock was not bypassed, a request that is between lock and unlock is the one the lock names. */
  ghost predicate HolderInv(s: State) {
    !s.bypassed ==>
      forall r :: r in s.requests ==>
        && (Holding(s.requests[r]) ==> s.lock == Some(r))
        && (s.requests[r].Working? || s.requests[r].Storing? || s.requests[r].Unlocking? ==> s.requests[r].locked)
  }

  lemma StepKeepsHolder(s: State, e: Event)
    requires HolderInv(s)
    ensures HolderInv(Step(s, e))
  {
  }

  /** The events before the creation. */
  predicate OpeningEvent(e: Event) {
    e.Arrive? || e.ReadResult? || e.ReadFails? || e.TryLock? || e.LockFails? || e.LockUnseen?
  }

  predicate PostKnown(s: State, r: int)
    requires r in s.requests
  {
    && (s.requests[r].Replayed? ==> s.requests[r].post in s.created)
    && (s.requests[r].Storing? ==> s.requests[r].post in s.created && s.created[s.requests[r].post] == r)
  }

  /** A stored result, and whatever is replayed or being stored, is a post created for this fingerprint. */
  ghost predicate PostsInv(s: State) {
    && (s.result.Some? ==> s.result.value in s.created)
    && (forall r :: r in s.requests ==> PostKnown(s, r))
  }

  lemma CreatedStays(s: State, e: Event)
    ensures forall p :: p in s.created ==> p in Step(s, e).created && Step(s, e).created[p] == s.created[p]
  {
  }

  /** An event moves its own request, if any. */
  lemma OwnMove(s: State, e: Event)
    requires !e.LockExpires? && !e.ResultExpires?
    ensures var t := Step(s, e); t == s || (e.r in t.requests && t.requests == s.requests[e.r := t.requests[e.r]])
  {
  }

  lemma OpeningPostKnown(s: State, e: Event)
    requires OpeningEvent(e)
    requires (e.r in s.requests ==> PostKnown(s, e.r)) && (s.result.Some? ==> s.result.value in s.created)
    ensures var t := Step(s, e);
            && (e.r in t.requests ==> PostKnown(t, e.r)) && (t.result.Some? ==> t.result.value in t.created)
  {
  }

  lemma OwnPostKnown(s: State, e: Event)
    requires !e.LockExpires? && !e.ResultExpires?
    requires (e.r in s.requests ==> PostKnown(s, e.r)) && (s.result.Some? ==> s.result.value in s.created)
    ensures var t := Step(s, e);
            && (e.r in t.requests ==> PostKnown(t, e.r)) && (t.result.Some? ==> t.result.value in t.created)
  {
    if OpeningEvent(e) { OpeningPostKnown(s, e); }
  }

  lemma StepKeepsPosts(s: State, e: Event)
    requires PostsInv(s)
    ensures PostsInv(Step(s, e))
  {
    var t := Step(s, e);
    CreatedStays(s, e);
    if !e.LockExpires? && !e.ResultExpires? {
      OwnMove(s, e);
      OwnPostKnown(s, e);
    }
    OthersKnown(s, t, if e.LockExpires? || e.ResultExpires? then None else Some(e.r));
  }

  lemma OthersKnown(s: State, t: State, r: Option<int>)
    requires PostsInv(s) && forall p :: p in s.created ==> p in t.created && t.created[p] == s.created[p]
    requires t.requests == s.requests ||
             (r.Some? && r.value in t.requests && t.requests == s.requests[r.value := t.requests[r.value]])
    ensures forall q :: q in t.requests && r != Some(q) ==> PostKnown(t, q)
  {
    forall q | q in t.requests && r != Some(q) ensures PostKnown(t, q) { assert PostKnown(s, q); }
  }

  predicate BeforeCreation(p: Phase) {
    p.Reading? || p.Locking? || p.Replayed? || p.Conflict?
  }

  /** Posts are created by known requests that passed the lock step. */
  ghost predicate CreatorsInv(s: State) {
    forall p :: p in s.created ==> s.created[p] in s.requests && !BeforeCreation(s.requests[s.created[p]])
  }

  lemma PastOpening(s: State, e: Event, r: int)
    requires r in s.requests && !BeforeCreation(s.requests[r]) && OpeningEvent(e)
    ensures r in Step(s, e).requests && !BeforeCreation(Step(s, e).requests[r])
  {
  }

  lemma PastCreationStays(s: State, e: Event, r: int)
    requires r in s.requests && !BeforeCreation(s.requests[r])
    ensures r in Step(s, e).requests && !BeforeCreation(Step(s, e).requests[r])
  {
    if OpeningEvent(e) { PastOpening(s, e, r); }
  }

  lemma StepKeepsCreators(s: State, e: Event)
    requires CreatorsInv(s)
    ensures CreatorsInv(Step(s, e))
  {
    var t := Step(s, e);
    forall p | p in t.created ensures t.created[p] in t.requests && !BeforeCreation(t.requests[t.created[p]]) {
      if p in s.created { PastCreationStays(s, e, s.created[p]); }
    }
  }

  /** Without bypass and expiry, a request past its read missed before anything was stored. */
  ghost predicate MissInv(s: State) {
    && (!s.resultExpired && s.result.None? ==> s.stores == 0)
    && (s.result.Some? ==> s.stores >= 1)
    && (!s.bypassed && !s.resultExpired ==>
          forall r :: r in s.requests && (s.requests[r].Locking? || s.requests[r].Working?) ==>
            r in s.seen && s.seen[r] == 0)
    && (!s.bypassed && !s.resultExpired ==>
          forall p :: p in s.created ==> s.created[p] in s.seen && s.seen[s.created[p]] == 0)
  }

  lemma OpeningKeepsMiss(s: State, e: Event)
    requires MissInv(s) && CreatorsInv(s) && OpeningEvent(e)
    ensures MissInv(Step(s, e))
  {
  }

  lemma StepKeepsMiss(s: State, e: Event)
    requires MissInv(s) && CreatorsInv(s)
    ensures MissInv(Step(s, e))
  {
    if OpeningEvent(e) { OpeningKeepsMiss(s, e); }
  }

  ghost predicate Inv(s: State) {
    HolderInv(s) && PostsInv(s) && CreatorsInv(s) && MissInv(s)
  }

  lemma {:induction false} RunKeepsInv(es: seq<Event>)
    ensures Inv(Run(es))
    decreases |es|
  {
    if es != [] {
      var s, e := Run(es[..|es| - 1]), es[|es| - 1];
      RunKeepsInv(es[..|es| - 1]);
      StepKeepsHolder(s, e);
      StepKeepsPosts(s, e);
      StepKeepsCreators(s, e);
      StepKeepsMiss(s, e);
    }
  }

  // ---- what holds of every run ----

  /** Two requests are never both between taking and giving back the lock, while nothing bypassed it. */
  lemma MutualExclusion(es: seq<Event>, r: int, q: int)
    requires var s := Run(es);
             && !s.bypassed && r in s.requests && q in s.requests
             && Holding(s.requests[r]) && Holding(s.requests[q])
    ensures r == q
  {
    RunKeepsInv(es);
  }

  lemma ReplayStaysStep(s: State, e: Event, r: int, post: int)
    requires In(s, r, Replayed(post))
    ensures In(Step(s, e), r, Replayed(post))
  {
  }

  lemma {:induction false} ReplayStays(s: State, fs: seq<Event>, r: int, post: int)
    requires In(s, r, Replayed(post))
    ensures In(Continue(s, fs), r, Replayed(post))
    decreases |fs|
  {
    if fs != [] {
      ReplayStays(s, fs[..|fs| - 1], r, post);
      ReplayStaysStep(Continue(s, fs[..|fs| - 1]), fs[|fs| - 1], r, post);
    }
  }

  /**
  A request that reads while a result is stored answers with that post for good: whatever happens
  afterwards it creates nothing, and the post is one that another request created.
  */
  lemma HitReplays(es: seq<Event>, r: int, fs: seq<Event>)
    requires In(Run(es), r, Reading) && Run(es).result.Some?
    ensures var post := Run(es).result.value; var t := Run(es + [ReadResult(r)] + fs);
            && In(t, r, Replayed(post))
            && (forall p :: p in t.created ==> t.created[p] != r)
            && post in Run(es).created && Run(es).created[post] != r
  {
    var s := Run(es);
    var hit := es + [ReadResult(r)];
    assert hit[..|hit| - 1] == es;
    ReplayStays(Run(hit), fs, r, s.result.value);
    ContinueMore(NOTHING, hit, fs);
    RunKeepsInv(es);
    RunKeepsInv(hit + fs);
  }

  /**
  A request that misses can still create after another one did, but only if its read came before the
  first result was stored.
  */
  lemma CreationNeedsEarlyRead(es: seq<Event>, post: int)
    requires var s := Run(es); !s.bypassed && !s.resultExpired && post in s.created
    ensures var s := Run(es); s.created[post] in s.seen && s.seen[s.created[post]] == 0
  {
    RunKeepsInv(es);
  }

  // ---- exactly when a request can still create ----

  predicate Created(s: State, r: int) {
    exists p :: p in s.created && s.created[p] == r
  }

  lemma {:induction false} ContinueMore(s: State, fs: seq<Event>, gs: seq<Event>)
    ensures Continue(Continue(s, fs), gs) == Continue(s, fs + gs)
    decreases |gs|
  {
    if gs == [] {
      assert fs + gs == fs;
    } else {
      ContinueMore(s, fs, gs[..|gs| - 1]);
      assert (fs + gs)[..|fs + gs| - 1] == fs + gs[..|gs| - 1];
    }
  }

  lemma OneMore(s: State, e: Event)
    ensures Continue(s, [e]) == Step(s, e)
  {
    assert [e][..0] == [];
  }

  lemma Then(s: State, fs: seq<Event>, e: Event)
    ensures Continue(s, fs + [e]) == Step(Continue(s, fs), e)
  {
    ContinueMore(s, fs, [e]);
    OneMore(Continue(s, fs), e);
  }

  /** Nothing that other requests have on record, and none of the faults, is changed. */
  ghost predicate Untouched(s: State, t: State, r: int) {
    && r in s.requests && r in t.requests && t.requests[r] == s.requests[r]
    && t.created == s.created && t.bypassed == s.bypassed && t.resultExpired == s.resultExpired
  }

  /** The holder of the lock can always finish, with or without a post. */
  lemma HolderLeaves(s: State, r: int, h: int) returns (fs: seq<Event>)
    requires In(s, r, Locking) && s.lock == Some(h) && h in s.requests && Holding(s.requests[h])
    ensures Untouched(s, Continue(s, fs), r) && Continue(s, fs).lock.None?
  {
    if s.requests[h].Unlocking? {
      OneMore(s, Unlock(h));
      fs := [Unlock(h)];
    } else {
      var e := if s.requests[h].Working? then CreateFails(h) else StoreFails(h);
      OneMore(s, e);
      Then(s, [e], Unlock(h));
      fs := [e] + [Unlock(h)];
    }
  }

  /** And a lock that nobody holds can expire. */
  lemma FreeLock(s: State, r: int) returns (fs: seq<Event>)
    requires In(s, r, Locking)
    ensures Untouched(s, Continue(s, fs), r) && Continue(s, fs).lock.None?
  {
    if s.lock.None? {
      fs := [];
    } else if s.lock.value in s.requests && Holding(s.requests[s.lock.value]) {
      fs := HolderLeaves(s, r, s.lock.value);
    } else {
      OneMore(s, LockExpires);
      fs := [LockExpires];
    }
  }

  /** Whoever has missed can still create, without any fault. */
  lemma MissCanCreate(s: State, r: int) returns (fs: seq<Event>)
    requires In(s, r, Locking)
    ensures var t := Continue(s, fs); Created(t, r) && t.bypassed == s.bypassed && t.resultExpired == s.resultExpired
  {
    fs := FreeLock(s, r);
    var t := Continue(s, fs);
    var post := Unused(t.created.Keys);
    Then(s, fs, TryLock(r));
    Then(s, fs + [TryLock(r)], Create(r, post));
    fs := fs + [TryLock(r)] + [Create(r, post)];
    assert post in Continue(s, fs).created;
  }

  /**
  A read decides for good: after it, the request creates nothing in any continuation exactly when a
  result was stored at that moment.
  */
  lemma ReadDecides(es: seq<Event>, r: int)
    requires In(Run(es), r, Reading)
    ensures (forall fs :: !Created(Run(es + [ReadResult(r)] + fs), r)) <==> Run(es).result.Some?
  {
    var s, read := Run(es), es + [ReadResult(r)];
    Then(NOTHING, es, ReadResult(r));
    if s.result.Some? {
      forall fs ensures !Created(Run(read + fs), r) { HitReplays(es, r, fs); }
    } else {
      var fs := MissCanCreate(Run(read), r);
      ContinueMore(NOTHING, read, fs);
      assert Created(Run(read + fs), r);
    }
  }

  /** Without bypass and expiry that is: exactly when its read comes before the first result is stored. */
  lemma EarlyReadIff(es: seq<Event>, r: int)
    requires In(Run(es), r, Reading) && !Run(es).resultExpired
    ensures (exists fs :: Created(Run(es + [ReadResult(r)] + fs), r)) <==> Run(es).stores == 0
  {
    RunKeepsInv(es);
    ReadDecides(es, r);
  }

  // ---- what a request does while Redis answers ----

  function Opening(es: seq<Event>, r: int): seq<Event> {
    es + [Arrive(r)] + [ReadResult(r)] + [TryLock(r)]
  }

  /** A stored result is replayed, a held lock is a conflict, otherwise the request takes the lock and goes on. */
  lemma OpeningDecides(es: seq<Event>, r: int)
    requires r !in Run(es).requests
    ensures var s := Run(es); var t := Run(Opening(es, r));
            && t.created == s.created && t.result == s.result
            && (if s.result.Some? then In(t, r, Replayed(s.result.value)) && t.lock == s.lock
                else if s.lock.Some? then In(t, r, Conflict) && t.lock == s.lock
                else In(t, r, Working(true)) && t.lock == Some(r))
  {
    ReadingDecides(es, r);
    Then(NOTHING, es + [Arrive(r)] + [ReadResult(r)], TryLock(r));
  }

  lemma ReadingDecides(es: seq<Event>, r: int)
    requires r !in Run(es).requests
    ensures var s := Run(es); var t := Run(es + [Arrive(r)] + [ReadResult(r)]);
            && t.created == s.created && t.result == s.result && t.lock == s.lock
            && In(t, r, if s.result.Some? then Replayed(s.result.value) else Locking)
  {
    Then(NOTHING, es, Arrive(r));
    Then(NOTHING, es + [Arrive(r)], ReadResult(r));
  }

  /** Then it creates its post, leaves it as the stored result and gives the lock back. */
  lemma WorkIsStored(es: seq<Event>, r: int, post: int)
    requires In(Run(es), r, Working(true)) && post !in Run(es).created
    ensures var s := Run(es); var t := Run(es + [Create(r, post)] + [Store(r)] + [Unlock(r)]);
            && t.created == s.created[post := r] && t.result == Some(post) && t.lock.None?
            && In(t, r, Finished(Some(post)))
  {
    var one := es + [Create(r, post)];
    Then(NOTHING, es, Create(r, post));
    Then(NOTHING, one, Store(r));
    Then(NOTHING, one + [Store(r)], Unlock(r));
  }

  /** So one request after the other with the same key creates one post, and the second gets it replayed. */
  lemma SecondIsReplayed(es: seq<Event>, r: int, q: int, post: int)
    requires var s := Run(es);
             && r != q && r !in s.requests && q !in s.requests
             && s.result.None? && s.lock.None? && post !in s.created
    ensures var first := Opening(es, r) + [Create(r, post)] + [Store(r)] + [Unlock(r)];
            var t := Run(Opening(first, q));
            In(t, q, Replayed(post)) && t.created == Run(es).created[post := r]
  {
    var first := Opening(es, r) + [Create(r, post)] + [Store(r)] + [Unlock(r)];
    OpeningDecides(es, r);
    WorkIsStored(Opening(es, r), r, post);
    StillNew(es, Opening(es, r) + [Create(r, post)] + [Store(r)] + [Unlock(r)], r, q, post);
    OpeningDecides(first, q);
  }

  /** A request that dies leaves its keys behind: a lock it took stays until it expires. */
  lemma DeathLeavesLock(es: seq<Event>, r: int)
    requires r in Run(es).requests && Holding(Run(es).requests[r])
    ensures var s := Run(es); var t := Run(es + [Die(r)]);
            In(t, r, Dead) && t == s.(requests := t.requests) && OnLockExpires(t).lock.None?
  {
    Then(NOTHING, es, Die(r));
  }

  /** A request that has not arrived is in no event. */
  lemma StillNew(es: seq<Event>, fs: seq<Event>, r: int, q: int, post: int)
    requires q !in Run(es).requests && r != q
    requires fs == Opening(es, r) + [Create(r, post)] + [Store(r)] + [Unlock(r)]
    ensures q !in Run(fs).requests
  {
    var one := es + [Arrive(r)];
    var two := one + [ReadResult(r)];
    var three := two + [TryLock(r)];
    var four := three + [Create(r, post)];
    var five := four + [Store(r)];
    StillAbsent(es, Arrive(r), q);
    StillAbsent(one, ReadResult(r), q);
    StillAbsent(two, TryLock(r), q);
    StillAbsent(three, Create(r, post), q);
    StillAbsent(four, Store(r), q);
    StillAbsent(five, Unlock(r), q);
  }

  lemma StillAbsent(es: seq<Event>, e: Event, q: int)
    requires q !in Run(es).requests && !e.LockExpires? && !e.ResultExpires? && e.r != q
    ensures q !in Run(es + [e]).requests
  {
    Then(NOTHING, es, e);
    OwnMove(Run(es), e);
  }

  // ---- runs that show the limits ----

  ghost predicate Reachable(s: State) {
    exists es :: Run(es) == s
  }

  lemma Extend(s: State, e: Event)
    requires Reachable(s)
    ensures Reachable(Step(s, e))
  {
    var es :| Run(es) == s;
    Then(NOTHING, es, e);
    assert Run(es + [e]) == Step(s, e);
  }

  /** Two new requests can both read before either goes on. */
  lemma BothMiss() returns (s: State)
    ensures Reachable(s) && In(s, 0, Locking) && In(s, 1, Locking) && s.requests.Keys == {0, 1}
    ensures s.lock.None? && s.created == map[] && !s.bypassed && !s.resultExpired
  {
    assert Run([]) == NOTHING;
    Extend(NOTHING, Arrive(0));
    var s1 := OnArrive(NOTHING, 0);
    Extend(s1, Arrive(1));
    var s2 := OnArrive(s1, 1);
    Extend(s2, ReadResult(0));
    var s3 := OnReadResult(s2, 0);
    Extend(s3, ReadResult(1));
    s := OnReadResult(s3, 1);
  }

  lemma LocksAndCreates(s: State, r: int, post: int) returns (t: State)
    requires Reachable(s) && In(s, r, Locking) && s.lock.None? && post !in s.created
    ensures Reachable(t) && In(t, r, Storing(true, post)) && t.created == s.created[post := r]
    ensures t.bypassed == s.bypassed && t.resultExpired == s.resultExpired
    ensures forall q :: q in s.requests && q != r ==> q in t.requests && t.requests[q] == s.requests[q]
  {
    Extend(s, TryLock(r));
    var s1 := OnTryLock(s, r);
    Extend(s1, Create(r, post));
    t := OnCreate(s1, r, post);
  }

  /** A request that missed creates, stores and unlocks; the others stay where they are. */
  lemma CreatesAndLeaves(s: State, r: int, post: int) returns (t: State)
    requires Reachable(s) && In(s, r, Locking) && s.lock.None? && post !in s.created
    ensures Reachable(t) && t.created == s.created[post := r] && t.lock.None?
    ensures t.bypassed == s.bypassed && t.resultExpired == s.resultExpired
    ensures forall q :: q in s.requests && q != r ==> q in t.requests && t.requests[q] == s.requests[q]
  {
    t := LocksAndCreates(s, r, post);
    Extend(t, Store(r));
    t := OnStore(t, r, true);
    Extend(t, Unlock(r));
    t := OnUnlock(t, r, true);
  }

  /** One key can create twice with Redis healthy throughout: both requests read before either stores. */
  lemma GapDuplicates() returns (t: State)
    ensures Reachable(t) && !t.bypassed && !t.resultExpired && t.created == map[10 := 0, 11 := 1]
  {
    var s := BothMiss();
    t := CreatesAndLeaves(s, 0, 10);
    t := CreatesAndLeaves(t, 1, 11);
  }

  // ---- exactly when exclusion can break ----

  predicate Holds(s: State, r: int) {
    r in s.requests && Holding(s.requests[r])
  }

  /** Whoever is between lock and unlock owns the lock. */
  ghost predicate Safe(s: State) {
    forall r :: Holds(s, r) ==> s.lock == Some(r)
  }

  /** The event takes the lock away from under its holder: an expiry, or the unlock of somebody else. */
  predicate Robs(s: State, e: Event) {
    && s.lock.Some? && Holds(s, s.lock.value)
    && (e.LockExpires? ||
        (e.Unlock? && e.r != s.lock.value && e.r in s.requests && s.requests[e.r].Unlocking?))
  }

  /** That is the one way for a safe state to become unsafe. */
  lemma SafeStepIff(s: State, e: Event)
    requires Safe(s)
    ensures Safe(Step(s, e)) <==> !Robs(s, e)
  {
    if Robs(s, e) { assert Holds(Step(s, e), s.lock.value); }
  }

  ghost predicate NoRobbery(s: State, fs: seq<Event>) {
    forall i :: 0 <= i < |fs| ==> !Robs(Continue(s, fs[..i]), fs[i])
  }

  lemma {:induction false} SafeStays(s: State, fs: seq<Event>)
    requires Safe(s) && NoRobbery(s, fs)
    ensures Safe(Continue(s, fs))
    decreases |fs|
  {
    if fs != [] {
      var init := fs[..|fs| - 1];
      assert forall i :: 0 <= i < |init| ==> init[..i] == fs[..i];
      SafeStays(s, init);
      SafeStepIff(Continue(s, init), fs[|fs| - 1]);
    }
  }

  ghost predicate Exclusive(s: State) {
    forall r, q :: Holds(s, r) && Holds(s, q) ==> r == q
  }

  lemma NewcomerHolds(s: State, x: int)
    requires s.lock.None? && x !in s.requests
    ensures var t := OnReadResult(OnArrive(OnResultExpires(s), x), x);
            && In(t, x, Locking) && t.lock.None?
            && forall r :: r in s.requests ==> r in t.requests && t.requests[r] == s.requests[r]
  {
  }

  /** A newcomer that finds no result and no lock becomes a holder. */
  lemma Newcomer(s: State, x: int) returns (fs: seq<Event>)
    requires s.lock.None? && x !in s.requests
    ensures NoRobbery(s, fs) && Holds(Continue(s, fs), x)
    ensures forall r :: Holds(s, r) ==> Holds(Continue(s, fs), r)
  {
    var a, b, c := [ResultExpires], [ResultExpires] + [Arrive(x)], [ResultExpires] + [Arrive(x)] + [ReadResult(x)];
    fs := c + [TryLock(x)];
    OneMore(s, ResultExpires);
    Then(s, a, Arrive(x));
    Then(s, b, ReadResult(x));
    Then(s, c, TryLock(x));
    NewcomerHolds(s, x);
    assert fs[..0] == [] && fs[..1] == a && fs[..2] == b && fs[..3] == c;
  }

  /**
  Exclusion lasts through every continuation without such a robbery exactly from the states in which
  each holder owns the lock.
  */
  lemma ExclusionIff(s: State)
    ensures (forall fs :: NoRobbery(s, fs) ==> Exclusive(Continue(s, fs))) <==> Safe(s)
  {
    if Safe(s) {
      forall fs | NoRobbery(s, fs) ensures Exclusive(Continue(s, fs)) { SafeStays(s, fs); }
    } else {
      var fs := Breaks(s);
      assert NoRobbery(s, fs) && !Exclusive(Continue(s, fs));
    }
  }

  /** A lock that nobody holds expires without robbing anybody. */
  lemma AfterExpiry(s: State, gs: seq<Event>) returns (fs: seq<Event>)
    requires s.lock.Some? && !Holds(s, s.lock.value) && NoRobbery(OnLockExpires(s), gs)
    ensures NoRobbery(s, fs) && Continue(s, fs) == Continue(OnLockExpires(s), gs)
  {
    fs := [LockExpires] + gs;
    OneMore(s, LockExpires);
    ContinueMore(s, [LockExpires], gs);
    forall i | 0 <= i < |fs| ensures !Robs(Continue(s, fs[..i]), fs[i]) {
      if i > 0 {
        assert fs[..i] == [LockExpires] + gs[..i - 1];
        ContinueMore(s, [LockExpires], gs[..i - 1]);
      } else {
        assert fs[..0] == [];
      }
    }
  }

  lemma Breaks(s: State) returns (fs: seq<Event>)
    requires !Safe(s)
    ensures NoRobbery(s, fs) && !Exclusive(Continue(s, fs))
  {
    var r :| Holds(s, r) && s.lock != Some(r);
    var x := Unused(s.requests.Keys);
    if s.lock.None? {
      fs := Newcomer(s, x);
    } else if Holds(s, s.lock.value) {
      fs := [];
      x := s.lock.value;
    } else {
      assert Holds(OnLockExpires(s), r);
      fs := Newcomer(OnLockExpires(s), x);
      fs := AfterExpiry(s, fs);
    }
    assert Holds(Continue(s, fs), r) && Holds(Continue(s, fs), x);
  }

  /** A request let through without the lock deletes whatever lock there is; nobody else notices. */
  lemma LetThrough(s: State, q: int) returns (t: State)
    requires Reachable(s) && In(s, q, Reading)
    ensures Reachable(t) && t.lock.None?
    ensures forall r :: r in s.requests && r != q ==> r in t.requests && t.requests[r] == s.requests[r]
  {
    Extend(s, ReadFails(q));
    var s1 := OnRedisFails(s, q, Reading);
    Extend(s1, CreateFails(q));
    var s2 := OnCreateFails(s1, q);
    Extend(s2, Unlock(q));
    t := OnUnlock(s2, q, true);
  }

  /** One such request is enough to break exclusion. */
  lemma BypassBreaksExclusion() returns (t: State)
    ensures Reachable(t) && !Exclusive(t)
  {
    var s := BothMiss();
    Extend(s, Arrive(2));
    var s1 := OnArrive(s, 2);
    Extend(s1, TryLock(0));
    t := LetThrough(OnTryLock(s1, 0), 2);
    Extend(t, TryLock(1));
    t := OnTryLock(t, 1);
    assert Holds(t, 0) && Holds(t, 1);
  }

  // ---- the hooks around one request ----

  datatype Before = Replay(post: int) | Busy | Proceed

  /** The steps of the protocol that the first hook takes, and its answer. */
  function BeforeSteps(s: State, r: int, readOk: bool, lock: Outcome): State {
    if !readOk then OnRedisFails(s, r, Reading)
    else
      var t := OnReadResult(s, r);
      if !In(t, r, Locking) then t
      else
        match lock
        case Answered => OnTryLock(t, r)
        case Failed => OnRedisFails(t, r, Locking)
        case AnswerLost => OnLockUnseen(t, r)
  }

  predicate Answers(b: Before, p: Phase) {
    match b
    case Replay(post) => p == Replayed(post)
    case Busy => p == Conflict
    case Proceed => p.Working?
  }

  /** Result and lock keys by fingerprint; `None` stands for a request without a usable key. */
  class Hooks {
    var results: map<string, int>
    var locks: set<string>

    /** The keys of the fingerprint are as in that state of the protocol. */
    ghost predicate Shows(fp: string, s: State)
      reads this
    {
      && (fp in results <==> s.result.Some?)
      && (fp in results ==> s.result == Some(results[fp]))
      && (fp in locks <==> s.lock.Some?)
    }

    /** Does what the protocol does. `readOk` and `lock` are what becomes of the two commands. */
    method PostCreateBefore(fp: Option<string>, redis: bool, readOk: bool, lock: Outcome) returns (b: Before)
      modifies this`locks
      ensures fp.None? || !redis ==> b == Proceed && locks == old(locks)
      ensures fp.Some? && redis ==>
                forall s: State, r :: old(Shows(fp.value, s)) && In(s, r, Reading) ==>
                  var t := BeforeSteps(s, r, readOk, lock);
                  Shows(fp.value, t) && Answers(b, t.requests[r])
      ensures fp.Some? && redis && readOk && fp.value in results ==>
                b == Replay(results[fp.value]) && locks == old(locks)
      ensures fp.Some? && redis && readOk && fp.value !in results && lock.Answered? ==>
                && (b == Busy <==> fp.value in old(locks)) && (b == Proceed <==> fp.value !in old(locks))
                && locks == old(locks) + {fp.value}
    {
      if fp.None? || !redis || !readOk {
        return Proceed;
      }
      if fp.value in results {
        return Replay(results[fp.value]);
      }
      if lock.Failed? {
        return Proceed;
      }
      var got := fp.value !in locks;
      locks := locks + {fp.value};
      return if lock.AnswerLost? || got then Proceed else Busy;
    }

    /** Takes the protocol's store and unlock steps, whichever of them get through. */
    method PostCreateAfterSuccess(fp: Option<string>, redis: bool, post: int, storeOk: bool, unlockOk: bool)
      modifies this
      ensures fp.None? || !redis ==> results == old(results) && locks == old(locks)
      ensures fp.Some? && redis ==>
                forall s: State, r, locked :: old(Shows(fp.value, s)) && In(s, r, Storing(locked, post)) ==>
                  Shows(fp.value, OnUnlock(OnStore(s, r, storeOk), r, unlockOk))
      ensures fp.Some? && redis && storeOk && unlockOk ==>
                results == old(results)[fp.value := post] && locks == old(locks) - {fp.value}
    {
      if fp.None? || !redis {
        return;
      }
      if storeOk {
        results := results[fp.value := post];
      }
      if unlockOk {
        locks := locks - {fp.value};
      }
    }

    /** Takes the protocol's unlock step after a failed creation. */
    method PostCreateAfterFailure(fp: Option<string>, redis: bool, unlockOk: bool)
      modifies this`locks
      ensures fp.None? || !redis ==> locks == old(locks)
      ensures fp.Some? && redis ==>
                forall s: State, r, locked :: old(Shows(fp.value, s)) && In(s, r, Working(locked)) ==>
                  Shows(fp.value, OnUnlock(OnCreateFails(s, r), r, unlockOk))
      ensures fp.Some? && redis && unlockOk ==> locks == old(locks) - {fp.value}
    {
      if fp.None? || !redis {
        return;
      }
      if unlockOk {
        locks := locks - {fp.value};
      }
    }

    /**
    A whole request, uninterrupted: a stored result is replayed and nothing is created; a success leaves
    its post stored and the lock free, so that the next request with this key replays it.
    */
    method CreatePost(fp: string, made: Option<int>) returns (answer: Result<int, string>, create: bool)
      modifies this
      ensures fp in old(results) ==> answer == Ok(old(results)[fp]) && !create && results == old(results)
      ensures fp !in old(results) && fp in old(locks) ==> answer.Err? && !create && results == old(results)
      ensures fp !in old(results) && fp !in old(locks) ==> create && (answer.Ok? <==> made.Some?)
      ensures create && made.Some? ==> answer == Ok(made.value) && results == old(results)[fp := made.value]
      ensures create ==> locks == old(locks)
      ensures create && made.None? ==> results == old(results)
    {
      var b := PostCreateBefore(Some(fp), true, true, Answered);
      match b
      case Replay(post) =>
        return Ok(post), false;
      case Busy =>
        return Err("conflict"), false;
      case Proceed =>
        assert locks - {fp} == old(locks);
        if made.Some? {
          PostCreateAfterSuccess(Some(fp), true, made.value, true, true);
          return Ok(made.value), true;
        }
        PostCreateAfterFailure(Some(fp), true, true);
        return Err("creation failed"), true;
    }
  }
}
