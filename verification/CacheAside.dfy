/**
The cache helper for one key: hit, or recompute under a lock with SET NX while the others poll for at
most two seconds; every Redis failure falls back to the loader. Locks and entries may expire, calls may
die anywhere, and a release deletes the lock only when it still carries the caller's token.
*/
module CacheAside {
  import opened Common

  type Value = int

  /** The serialisation contract of an entry; text that does not validate is a miss. */
  datatype Codec = Codec(enc: Value -> string, dec: string -> Option<Value>)

  ghost predicate Lossless(codec: Codec) {
    forall v :: codec.dec(codec.enc(v)) == Some(v)
  }

  const WAIT_MAX := 2.0
  const WAIT_INTERVAL := 0.1
  const MAX_POLLS := 20

  datatype Phase =
    | Reading
    | Locking
    | Waiting(waited: real, polls: nat)
    | Loading(token: Option<int>)  // with a token: under the lock
    | Writing(held: int, value: Value)
    | Releasing(held: int, outcome: Option<Value>)
    | Returned(value: Value)
    | Raised
    | Dead

  datatype State = State(
    entry: Option<string>,
    source: Value,  // what the present entry was made from
    lock: Option<int>,
    tokens: set<int>,
    lapsed: set<int>,  // tokens whose lock expired
    calls: map<int, Phase>,
    loaded: set<Value>,  // results of loader runs
    loads: map<int, nat>)  // loader runs by call

  const NOTHING := State(None, 0, None, {}, {}, map[], {}, map[])

  datatype Event =
    | Start(c: int, redis: bool)
    | Read(c: int)
    | ReadFails(c: int)
    | TryLock(c: int, token: int)
    | LockFails(c: int)
    | LockUnseen(c: int, token: int)  // set, but the answer got lost
    | Poll(c: int)
    | PollFails(c: int)
    | TimeOut(c: int)
    | Load(c: int, value: Value)
    | LoadFails(c: int)
    | Write(c: int)
    | WriteFails(c: int)
    | Release(c: int)
    | ReleaseFails(c: int)
    | Die(c: int)
    | LockExpires
    | EntryExpires

  predicate In(s: State, c: int, p: Phase) {
    c in s.calls && s.calls[c] == p
  }

  function Enter(s: State, c: int, p: Phase): State {
    s.(calls := s.calls[c := p])
  }

  /** An absent or empty entry is a miss, and so is one that does not validate. */
  function Decode(entry: Option<string>, codec: Codec): Option<Value> {
    if entry.None? || entry.value == "" then None else codec.dec(entry.value)
  }

  function Cached(s: State, codec: Codec): Option<Value> {
    Decode(s.entry, codec)
  }

  /** Without Redis the call goes straight to the loader. */
  function OnStart(s: State, c: int, redis: bool): State {
    if c in s.calls then s
    else Enter(s, c, if redis then Reading else Loading(None)).(loads := s.loads[c := 0])
  }

  function OnRead(s: State, c: int, codec: Codec): State {
    if !In(s, c, Reading) then s
    else
      match Cached(s, codec)
      case Some(v) => Enter(s, c, Returned(v))
      case None => Enter(s, c, Locking)
  }

  function OnReadFails(s: State, c: int): State {
    if In(s, c, Reading) then Enter(s, c, Loading(None)) else s
  }

  function OnTryLock(s: State, c: int, token: int): State {
    if !In(s, c, Locking) || token in s.tokens then s
    else if s.lock.Some? then Enter(s, c, Waiting(0.0, 0))
    else Enter(s, c, Loading(Some(token))).(lock := Some(token), tokens := s.tokens + {token})
  }

  function OnLockFails(s: State, c: int): State {
    if In(s, c, Locking) then Enter(s, c, Loading(None)) else s
  }

  /** The lock may have been set for a call that goes on without knowing, and then stays until it expires. */
  function OnLockUnseen(s: State, c: int, token: int): State {
    if In(s, c, Locking) && s.lock.None? && token !in s.tokens then
      Enter(s, c, Loading(None)).(lock := Some(token), tokens := s.tokens + {token})
    else OnLockFails(s, c)
  }

  function OnPoll(s: State, c: int, codec: Codec): State {
    if c !in s.calls || !s.calls[c].Waiting? || s.calls[c].waited >= WAIT_MAX then s
    else
      match Cached(s, codec)
      case Some(v) => Enter(s, c, Returned(v))
      case None => Enter(s, c, Waiting(s.calls[c].waited + WAIT_INTERVAL, s.calls[c].polls + 1))
  }

  function OnPollFails(s: State, c: int): State {
    if c in s.calls && s.calls[c].Waiting? && s.calls[c].waited < WAIT_MAX then Enter(s, c, Loading(None)) else s
  }

  function OnTimeOut(s: State, c: int): State {
    if c in s.calls && s.calls[c].Waiting? && s.calls[c].waited >= WAIT_MAX then Enter(s, c, Loading(None)) else s
  }

  function Ran(s: State, c: int): State {
    s.(loads := s.loads[c := (if c in s.loads then s.loads[c] else 0) + 1])
  }

  function OnLoad(s: State, c: int, v: Value): State {
    if c !in s.calls || !s.calls[c].Loading? then s
    else
      match s.calls[c].token
      case None => Enter(Ran(s, c), c, Returned(v)).(loaded := s.loaded + {v})
      case Some(t) => Enter(Ran(s, c), c, Writing(t, v)).(loaded := s.loaded + {v})
  }

  function OnLoadFails(s: State, c: int): State {
    if c !in s.calls || !s.calls[c].Loading? then s
    else
      match s.calls[c].token
      case None => Enter(Ran(s, c), c, Raised)
      case Some(t) => Enter(Ran(s, c), c, Releasing(t, None))
  }

  function OnWrite(s: State, c: int, works: bool, codec: Codec): State {
    if c !in s.calls || !s.calls[c].Writing? then s
    else
      var p := s.calls[c];
      var t := Enter(s, c, Releasing(p.held, Some(p.value)));
      if works then t.(entry := Some(codec.enc(p.value)), source := p.value) else t
  }

  /** Compare-and-delete. */
  function OnRelease(s: State, c: int, works: bool): State {
    if c !in s.calls || !s.calls[c].Releasing? then s
    else
      var p := s.calls[c];
      var t := Enter(s, c, if p.outcome.Some? then Returned(p.outcome.value) else Raised);
      if works && s.lock == Some(p.held) then t.(lock := None) else t
  }

  function OnDie(s: State, c: int): State {
    if c in s.calls && !s.calls[c].Returned? then Enter(s, c, Dead) else s
  }

  function OnLockExpires(s: State): State {
    s.(lock := None, lapsed := if s.lock.Some? then s.lapsed + {s.lock.value} else s.lapsed)
  }

  function Step(s: State, e: Event, codec: Codec): State {
    match e
    case Start(c, redis) => OnStart(s, c, redis)
    case Read(c) => OnRead(s, c, codec)
    case ReadFails(c) => OnReadFails(s, c)
    case TryLock(c, token) => OnTryLock(s, c, token)
    case LockFails(c) => OnLockFails(s, c)
    case LockUnseen(c, token) => OnLockUnseen(s, c, token)
    case Poll(c) => OnPoll(s, c, codec)
    case PollFails(c) => OnPollFails(s, c)
    case TimeOut(c) => OnTimeOut(s, c)
    case Load(c, v) => OnLoad(s, c, v)
    case LoadFails(c) => OnLoadFails(s, c)
    case Write(c) => OnWrite(s, c, true, codec)
    case WriteFails(c) => OnWrite(s, c, false, codec)
    case Release(c) => OnRelease(s, c, true)
    case ReleaseFails(c) => OnRelease(s, c, false)
    case Die(c) => OnDie(s, c)
    case LockExpires => OnLockExpires(s)
    case EntryExpires => s.(entry := None)
  }

  function Run(es: seq<Event>, codec: Codec): State {
    if es == [] then NOTHING else Step(Run(es[..|es| - 1], codec), es[|es| - 1], codec)
  }

  // ---- invariants ----

  /** The entry encodes a loader result, and so does whatever a call is about to write or return. */
  ghost predicate SourceInv(s: State, codec: Codec) {
    && (s.entry.Some? ==> s.entry.value == codec.enc(s.source) && s.source in s.loaded)
    && (forall c :: c in s.calls ==>
          && (s.calls[c].Writing? || s.calls[c].Returned? ==> s.calls[c].value in s.loaded)
          && (s.calls[c].Releasing? && s.calls[c].outcome.Some? ==> s.calls[c].outcome.value in s.loaded))
  }

  lemma StepKeepsSource(s: State, e: Event, codec: Codec)
    requires SourceInv(s, codec) && Lossless(codec)
    ensures SourceInv(Step(s, e, codec), codec)
  {
  }

  predicate BeforeLoader(p: Phase) {
    p.Reading? || p.Locking? || p.Waiting? || p.Loading?
  }

  /** A call has run its loader at most once, and not at all while it may still run it. */
  ghost predicate LoadInv(s: State) {
    forall c :: c in s.calls ==> c in s.loads && s.loads[c] <= (if BeforeLoader(s.calls[c]) then 0 else 1)
  }

  lemma StepKeepsLoads(s: State, e: Event, codec: Codec)
    requires LoadInv(s)
    ensures LoadInv(Step(s, e, codec))
  {
  }

  /** The time waited is the number of polls times the interval. */
  ghost predicate WaitInv(s: State) {
    forall c :: c in s.calls && s.calls[c].Waiting? ==>
      s.calls[c].waited == s.calls[c].polls as real * WAIT_INTERVAL && s.calls[c].polls <= MAX_POLLS
  }

  lemma StepKeepsWaits(s: State, e: Event, codec: Codec)
    requires WaitInv(s)
    ensures WaitInv(Step(s, e, codec))
  {
  }

  function TokenOf(p: Phase): Option<int> {
    if p.Loading? then p.token
    else if p.Writing? || p.Releasing? then Some(p.held)
    else None
  }

  /** Every token was handed to one call. */
  ghost predicate TokenInv(s: State) {
    && (s.lock.Some? ==> s.lock.value in s.tokens && s.lock.value !in s.lapsed)
    && s.lapsed <= s.tokens
    && (forall c :: c in s.calls && TokenOf(s.calls[c]).Some? ==> TokenOf(s.calls[c]).value in s.tokens)
    && (forall c, d :: c in s.calls && d in s.calls && c != d && TokenOf(s.calls[c]).Some? ==>
          TokenOf(s.calls[c]) != TokenOf(s.calls[d]))
  }

  predicate GotNew(s: State, e: Event, c: int, p: Phase) {
    e.TryLock? && e.c == c && TokenOf(p) == Some(e.token) && e.token !in s.tokens
  }

  /** A call's token is the one it had, or the new one it has just locked with. */
  lemma TokenMoves(s: State, e: Event, codec: Codec, c: int)
    requires c in Step(s, e, codec).calls
    ensures var t := Step(s, e, codec); var p := t.calls[c];
            TokenOf(p).Some? ==>
              || (c in s.calls && TokenOf(s.calls[c]) == TokenOf(p))
              || (GotNew(s, e, c, p) && TokenOf(p).value in t.tokens)
  {
  }

  lemma StepKeepsTokens(s: State, e: Event, codec: Codec)
    requires TokenInv(s)
    ensures TokenInv(Step(s, e, codec))
  {
    var t := Step(s, e, codec);
    LockTokens(s, e, codec);
    forall c | c in t.calls && TokenOf(t.calls[c]).Some? ensures TokenOf(t.calls[c]).value in t.tokens {
      TokenMoves(s, e, codec, c);
    }
    forall c, d | c in t.calls && d in t.calls && c != d && TokenOf(t.calls[c]).Some?
      ensures TokenOf(t.calls[c]) != TokenOf(t.calls[d])
    {
      TokenMoves(s, e, codec, c);
      TokenMoves(s, e, codec, d);
    }
  }

  lemma LockTokens(s: State, e: Event, codec: Codec)
    requires TokenInv(s)
    ensures var t := Step(s, e, codec);
            && s.tokens <= t.tokens && t.lapsed <= t.tokens
            && (t.lock.Some? ==> t.lock.value in t.tokens && t.lock.value !in t.lapsed)
  {
  }

  /** The lock carries a caller's token until that caller releases it or it expires. */
  ghost predicate LockInv(s: State) {
    forall c :: c in s.calls && TokenOf(s.calls[c]).Some? && TokenOf(s.calls[c]).value !in s.lapsed ==>
      s.lock == TokenOf(s.calls[c])
  }

  lemma StepKeepsLock(s: State, e: Event, codec: Codec)
    requires TokenInv(s) && LockInv(s)
    ensures LockInv(Step(s, e, codec))
  {
  }

  ghost predicate Inv(s: State, codec: Codec) {
    (Lossless(codec) ==> SourceInv(s, codec)) && LoadInv(s) && WaitInv(s) && TokenInv(s) && LockInv(s)
  }

  lemma {:induction false} RunKeepsInv(es: seq<Event>, codec: Codec)
    ensures Inv(Run(es, codec), codec)
    decreases |es|
  {
    if es != [] {
      var s, e := Run(es[..|es| - 1], codec), es[|es| - 1];
      RunKeepsInv(es[..|es| - 1], codec);
      if Lossless(codec) { StepKeepsSource(s, e, codec); }
      StepKeepsLoads(s, e, codec);
      StepKeepsWaits(s, e, codec);
      StepKeepsTokens(s, e, codec);
      StepKeepsLock(s, e, codec);
    }
  }

  // ---- what holds of every run ----

  /** Whatever is returned is the result of some loader run for the key. */
  lemma Provenance(es: seq<Event>, codec: Codec, c: int)
    requires Lossless(codec) && c in Run(es, codec).calls && Run(es, codec).calls[c].Returned?
    ensures Run(es, codec).calls[c].value in Run(es, codec).loaded
  {
    RunKeepsInv(es, codec);
  }

  lemma LoadsAtMostOnce(es: seq<Event>, codec: Codec, c: int)
    requires c in Run(es, codec).calls
    ensures var s := Run(es, codec); c in s.loads && s.loads[c] <= 1
  {
    RunKeepsInv(es, codec);
  }

  /** A waiting call polls at most twenty times; then only the loader is left to it. */
  lemma WaitBounded(es: seq<Event>, codec: Codec, c: int)
    requires c in Run(es, codec).calls && Run(es, codec).calls[c].Waiting?
    ensures var s := Run(es, codec);
            && s.calls[c].polls <= MAX_POLLS
            && (s.calls[c].polls == MAX_POLLS <==> OnPoll(s, c, codec) == s)
            && (s.calls[c].polls == MAX_POLLS ==> In(OnTimeOut(s, c), c, Loading(None)))
  {
    RunKeepsInv(es, codec);
    var s := Run(es, codec);
    if s.calls[c].polls < MAX_POLLS {
      assert OnPoll(s, c, codec).calls[c] != s.calls[c];
    }
  }

  /** Two calls are never both recomputing under locks that have not expired. */
  lemma RecomputesAlone(es: seq<Event>, codec: Codec, c: int, d: int)
    requires c in Run(es, codec).calls && d in Run(es, codec).calls
    requires var s := Run(es, codec); var t, u := TokenOf(s.calls[c]), TokenOf(s.calls[d]);
             t.Some? && u.Some? && t.value !in s.lapsed && u.value !in s.lapsed
    ensures c == d
  {
    RunKeepsInv(es, codec);
  }

  /** A release frees the caller's own lock and never another's, even after the own one expired. */
  lemma ReleaseOwnOnly(es: seq<Event>, codec: Codec, c: int, d: int)
    requires c != d && c in Run(es, codec).calls && d in Run(es, codec).calls
    requires var s := Run(es, codec); s.lock.Some? && s.lock == TokenOf(s.calls[d])
    ensures OnRelease(Run(es, codec), c, true).lock == Run(es, codec).lock
    ensures Run(es, codec).calls[d].Releasing? ==> OnRelease(Run(es, codec), d, true).lock.None?
  {
    RunKeepsInv(es, codec);
  }

  // ---- what a call does while Redis answers ----

  lemma RunMore(es: seq<Event>, e: Event, codec: Codec)
    ensures Run(es + [e], codec) == Step(Run(es, codec), e, codec)
  {
    assert (es + [e])[..|es|] == es;
  }

  /** A present entry is returned at once, without loading. */
  lemma HitReturns(es: seq<Event>, codec: Codec, c: int, v: Value)
    requires var s := Run(es, codec); c !in s.calls && Cached(s, codec) == Some(v)
    ensures var t := Run(es + [Start(c, true)] + [Read(c)], codec);
            In(t, c, Returned(v)) && c in t.loads && t.loads[c] == 0 && t.entry == Run(es, codec).entry
  {
    RunMore(es, Start(c, true), codec);
    RunMore(es + [Start(c, true)], Read(c), codec);
  }

  /** A free lock is taken with the caller's token, a held one makes the caller wait. */
  lemma LockDecides(es: seq<Event>, codec: Codec, c: int, token: int)
    requires In(Run(es, codec), c, Locking) && token !in Run(es, codec).tokens
    ensures var s := Run(es, codec); var t := Run(es + [TryLock(c, token)], codec);
            if s.lock.None? then t.lock == Some(token) && In(t, c, Loading(Some(token)))
            else t.lock == s.lock && In(t, c, Waiting(0.0, 0))
  {
    RunMore(es, TryLock(c, token), codec);
  }

  /** What is written is what any other call then reads, or finds by polling. */
  lemma WrittenIsRead(es: seq<Event>, codec: Codec, c: int, d: int)
    requires Lossless(codec) && c in Run(es, codec).calls && Run(es, codec).calls[c].Writing?
    requires codec.enc(Run(es, codec).calls[c].value) != ""
    requires d != c && d in Run(es, codec).calls
    ensures var s := Run(es, codec); var v := s.calls[c].value; var t := Run(es + [Write(c)], codec);
            && t.entry == Some(codec.enc(v)) && In(t, c, Releasing(s.calls[c].held, Some(v)))
            && (s.calls[d].Reading? ==> In(OnRead(t, d, codec), d, Returned(v)))
            && (s.calls[d].Waiting? && s.calls[d].waited < WAIT_MAX ==> In(OnPoll(t, d, codec), d, Returned(v)))
  {
    RunMore(es, Write(c), codec);
  }

  /** An undisturbed miss. */
  function Filling(es: seq<Event>, c: int, token: int, v: Value): seq<Event> {
    es + [Start(c, true)] + [Read(c)] + [TryLock(c, token)] + [Load(c, v)] + [Write(c)] + [Release(c)]
  }

  lemma MissLocks(es: seq<Event>, codec: Codec, c: int, token: int)
    requires var s := Run(es, codec);
             c !in s.calls && s.lock.None? && token !in s.tokens && Cached(s, codec).None?
    ensures var t := Run(es + [Start(c, true)] + [Read(c)] + [TryLock(c, token)], codec);
            In(t, c, Loading(Some(token))) && t.lock == Some(token) && c in t.loads && t.loads[c] == 0
  {
    var one := es + [Start(c, true)];
    RunMore(es, Start(c, true), codec);
    RunMore(one, Read(c), codec);
    RunMore(one + [Read(c)], TryLock(c, token), codec);
  }

  lemma LoadFills(es: seq<Event>, codec: Codec, c: int, token: int, v: Value)
    requires var s := Run(es, codec);
             In(s, c, Loading(Some(token))) && s.lock == Some(token) && c in s.loads
    ensures var s := Run(es, codec); var t := Run(es + [Load(c, v)] + [Write(c)] + [Release(c)], codec);
            && In(t, c, Returned(v)) && t.entry == Some(codec.enc(v)) && t.lock.None?
            && c in t.loads && t.loads[c] == s.loads[c] + 1
  {
    var one := es + [Load(c, v)];
    RunMore(es, Load(c, v), codec);
    RunMore(one, Write(c), codec);
    RunMore(one + [Write(c)], Release(c), codec);
  }

  /** It loads once, returns what it loaded, leaves exactly that in the cache and the lock free. */
  lemma MissFills(es: seq<Event>, codec: Codec, c: int, token: int, v: Value)
    requires var s := Run(es, codec);
             c !in s.calls && s.lock.None? && token !in s.tokens && Cached(s, codec).None?
    ensures var t := Run(Filling(es, c, token, v), codec);
            In(t, c, Returned(v)) && t.entry == Some(codec.enc(v)) && t.lock.None? && c in t.loads && t.loads[c] == 1
  {
    MissLocks(es, codec, c, token);
    LoadFills(es + [Start(c, true)] + [Read(c)] + [TryLock(c, token)], codec, c, token, v);
  }

  // ---- and when it does not ----

  /** Whichever command fails, the call goes on to its loader, without the lock. */
  lemma FailureLoads(es: seq<Event>, codec: Codec, c: int)
    requires c in Run(es, codec).calls
    ensures var p := Run(es, codec).calls[c];
            && (p.Reading? ==> In(Run(es + [ReadFails(c)], codec), c, Loading(None)))
            && (p.Locking? ==> In(Run(es + [LockFails(c)], codec), c, Loading(None)))
            && (p.Waiting? && p.waited < WAIT_MAX ==> In(Run(es + [PollFails(c)], codec), c, Loading(None)))
  {
    RunMore(es, ReadFails(c), codec);
    RunMore(es, LockFails(c), codec);
    RunMore(es, PollFails(c), codec);
  }

  /** So does a call without Redis, and one whose lock was set without its knowing; that lock stays. */
  lemma GoesOnAlone(es: seq<Event>, codec: Codec, c: int, d: int, token: int)
    requires var s := Run(es, codec);
             c !in s.calls && In(s, d, Locking) && s.lock.None? && token !in s.tokens
    ensures In(Run(es + [Start(c, false)], codec), c, Loading(None))
    ensures var t := Run(es + [LockUnseen(d, token)], codec); In(t, d, Loading(None)) && t.lock == Some(token)
  {
    RunMore(es, Start(c, false), codec);
    RunMore(es, LockUnseen(d, token), codec);
  }

  /** A failing write leaves the entry, a failing release the lock; the call still returns what it loaded. */
  lemma LateFailures(es: seq<Event>, codec: Codec, c: int, token: int, v: Value)
    requires In(Run(es, codec), c, Writing(token, v))
    ensures var s := Run(es, codec); var t := Run(es + [WriteFails(c)] + [ReleaseFails(c)], codec);
            In(t, c, Returned(v)) && t.entry == s.entry && t.lock == s.lock
  {
    RunMore(es, WriteFails(c), codec);
    RunMore(es + [WriteFails(c)], ReleaseFails(c), codec);
  }

  /** There it returns what it loads, or raises, and touches neither entry nor lock. */
  lemma LoadsAlone(es: seq<Event>, codec: Codec, c: int, v: Value)
    requires In(Run(es, codec), c, Loading(None))
    ensures var s := Run(es, codec); var t := Run(es + [Load(c, v)], codec); var u := Run(es + [LoadFails(c)], codec);
            && In(t, c, Returned(v)) && t.entry == s.entry && t.lock == s.lock
            && In(u, c, Raised) && u.entry == s.entry && u.lock == s.lock
  {
    RunMore(es, Load(c, v), codec);
    RunMore(es, LoadFails(c), codec);
  }

  /** A loader that raises under the lock still gives the lock back, and writes nothing. */
  lemma RaisingReleases(es: seq<Event>, codec: Codec, c: int, token: int)
    requires In(Run(es, codec), c, Loading(Some(token))) && Run(es, codec).lock == Some(token)
    ensures var s := Run(es, codec); var t := Run(es + [LoadFails(c)] + [Release(c)], codec);
            In(t, c, Raised) && t.lock.None? && t.entry == s.entry
  {
    RunMore(es, LoadFails(c), codec);
    RunMore(es + [LoadFails(c)], Release(c), codec);
  }

  /** A call that dies leaves entry and lock as they are. */
  lemma DeathChangesNothing(es: seq<Event>, codec: Codec, c: int)
    requires c in Run(es, codec).calls && !Run(es, codec).calls[c].Returned?
    ensures var s := Run(es, codec); var t := Run(es + [Die(c)], codec);
            In(t, c, Dead) && t.entry == s.entry && t.lock == s.lock
  {
    RunMore(es, Die(c), codec);
  }

  /** An expired lock can be taken by the next call. */
  lemma ExpiredLockTaken(es: seq<Event>, codec: Codec, c: int, token: int)
    requires In(Run(es, codec), c, Locking) && token !in Run(es, codec).tokens
    ensures In(Run(es + [LockExpires] + [TryLock(c, token)], codec), c, Loading(Some(token)))
  {
    RunMore(es, LockExpires, codec);
    LockDecides(es + [LockExpires], codec, c, token);
  }

  /** An expired entry is a miss. */
  lemma ExpiredEntryMissed(es: seq<Event>, codec: Codec, c: int)
    requires In(Run(es, codec), c, Reading)
    ensures In(Run(es + [EntryExpires] + [Read(c)], codec), c, Locking)
  {
    RunMore(es, EntryExpires, codec);
    RunMore(es + [EntryExpires], Read(c), codec);
  }

  // ---- the polling loop ----

  /** What a GET answers: an error, or the entry if there is one. */
  datatype Reply = Broken | Got(entry: Option<string>)

  function Decoded(r: Reply, codec: Codec): Option<Value> {
    if r.Broken? then None else Decode(r.entry, codec)
  }

  /** The first entry that decodes, before an error and within the time; `replies` are the answers in store. */
  method WaitForEntry(replies: seq<Reply>, codec: Codec) returns (found: Option<Value>, polls: nat)
    requires |replies| >= MAX_POLLS
    ensures polls <= MAX_POLLS
    ensures forall i :: 0 <= i < polls - 1 ==> replies[i].Got? && Decoded(replies[i], codec).None?
    ensures found.Some? ==> polls > 0 && found == Decoded(replies[polls - 1], codec)
    ensures found.None? ==> polls > 0 && Decoded(replies[polls - 1], codec).None?
    ensures found.None? ==> replies[polls - 1].Broken? || polls == MAX_POLLS
  {
    found, polls := None, 0;
    var waited := 0.0;
    while waited < WAIT_MAX
      invariant polls <= MAX_POLLS && waited == polls as real * WAIT_INTERVAL
      invariant forall i :: 0 <= i < polls ==> replies[i].Got? && Decoded(replies[i], codec).None?
      decreases MAX_POLLS - polls
    {
      waited := waited + WAIT_INTERVAL;
      polls := polls + 1;
      var reply := replies[polls - 1];
      if reply.Broken? {
        return None, polls;
      }
      var decoded := Decode(reply.entry, codec);
      if decoded.Some? {
        return decoded, polls;
      }
    }
  }

  datatype LockReply = LockBroken | LockTaken | LockGot

  /** Some poll finds an entry before any fails. */
  ghost predicate PollHits(replies: seq<Reply>, codec: Codec) {
    exists k :: 0 <= k < |replies| && k < MAX_POLLS && Decoded(replies[k], codec).Some? &&
      forall i :: 0 <= i < k ==> replies[i].Got?
  }

  /**
  One call from start to end, against the answers Redis gives it: the loader runs exactly when neither
  the first read nor a poll finds an entry. `result` is what the loader yields, or nothing if it raises.
  */
  method GetOrCompute(redis: bool, first: Reply, lock: LockReply, replies: seq<Reply>, result: Option<Value>,
                      codec: Codec) returns (r: Option<Value>, runs: nat, writes: bool)
    requires |replies| >= MAX_POLLS
    ensures runs <= 1 && (runs == 1 ==> r == result)
    ensures runs == 0 <==> redis && (Decoded(first, codec).Some? ||
                                     (first.Got? && lock.LockTaken? && PollHits(replies, codec)))
    ensures runs == 0 ==> r.Some? && (r == Decoded(first, codec) ||
                                      exists k :: 0 <= k < MAX_POLLS && r == Decoded(replies[k], codec))
    ensures writes <==> runs == 1 && redis && first.Got? && lock.LockGot? && result.Some?
  {
    if !redis {
      return result, 1, false;
    }
    if first.Broken? {
      return result, 1, false;
    }
    var decoded := Decode(first.entry, codec);
    if decoded.Some? {
      return decoded, 0, false;
    }
    match lock
    case LockBroken =>
      return result, 1, false;
    case LockTaken =>
      var found, polls := WaitForEntry(replies, codec);
      FirstHit(replies, codec, found, polls);
      if found.Some? {
        return found, 0, false;
      }
      return result, 1, false;
    case LockGot =>
      return result, 1, result.Some?;
  }

  lemma FirstHit(replies: seq<Reply>, codec: Codec, found: Option<Value>, polls: nat)
    requires |replies| >= MAX_POLLS && 0 < polls <= MAX_POLLS
    requires forall i :: 0 <= i < polls - 1 ==> replies[i].Got? && Decoded(replies[i], codec).None?
    requires found == Decoded(replies[polls - 1], codec)
    requires found.None? ==> replies[polls - 1].Broken? || polls == MAX_POLLS
    ensures found.Some? <==> PollHits(replies, codec)
  {
  }
}
