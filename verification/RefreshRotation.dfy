/**
Refresh-token rotation. Each user has at most one stored token digest; a refresh replaces it by
compare-and-swap. Making a token and storing it are separate steps, so logins and refreshes of any
number of requests interleave. `wins` and `fallbackWins` count the successful rotations per presented
digest, by the script and by the non-atomic path taken when the script fails; `failed` counts those failures.
*/
module RefreshRotation {
  import opened Common

  type Digest = int

  /** A request in progress, with the digest of the token made for it. */
  datatype Pending =
    | LoggingIn(user: int, made: Digest)
    | Rotating(user: int, made: Digest, incoming: Digest)
    | Falling(user: int, made: Digest, incoming: Digest)  // the script failed: about to GET
    | Setting(user: int, made: Digest, incoming: Digest)  // the GET compared equal: about to SET

  datatype State = State(
    issued: map<Digest, int>,  // to which user
    stored: map<int, Digest>,
    latest: map<int, Digest>,  // the digest stored last, kept when the key goes
    everStored: set<Digest>,
    pending: map<int, Pending>,
    wins: multiset<Digest>,
    fallbackWins: multiset<Digest>,
    failed: multiset<Digest>)

  const NOTHING := State(map[], map[], map[], {}, map[], multiset{}, multiset{}, multiset{})

  datatype Event =
    | StartLogin(request: int, user: int, made: Digest)
    | StoreLogin(request: int)
    | StartRefresh(request: int, made: Digest, incoming: Digest)
    | RunScript(request: int)
    | ScriptFails(request: int, applied: bool)  // applied: it ran, but its answer got lost
    | FallbackGet(request: int)
    | FallbackSet(request: int)
    | GiveUp(request: int)  // a Redis error or a cancelled request
    | DropKey(user: int)  // logout, revocation or expiry

  function Done(s: State, r: int): State {
    s.(pending := s.pending - {r})
  }

  /** SET user_refresh:<user> <d>. */
  function Stored(s: State, user: int, d: Digest): State {
    s.(stored := s.stored[user := d], latest := s.latest[user := d], everStored := s.everStored + {d})
  }

  function OnStartLogin(s: State, r: int, user: int, made: Digest): State {
    if r in s.pending || made in s.issued then s
    else s.(issued := s.issued[made := user], pending := s.pending[r := LoggingIn(user, made)])
  }

  /** With a lifetime of zero or less nothing is stored. */
  function OnStoreLogin(s: State, r: int, ttl: int): State {
    if r !in s.pending || !s.pending[r].LoggingIn? then s
    else if ttl > 0 then Done(Stored(s, s.pending[r].user, s.pending[r].made), r)
    else Done(s, r)
  }

  /** Only a token this server issued passes verification, and it names its user. */
  function OnStartRefresh(s: State, r: int, made: Digest, incoming: Digest): State {
    if r in s.pending || made in s.issued || incoming !in s.issued then s
    else
      var user := s.issued[incoming];
      s.(issued := s.issued[made := user], pending := s.pending[r := Rotating(user, made, incoming)])
  }

  predicate Matches(s: State, p: Pending)
    requires !p.LoggingIn?
  {
    p.user in s.stored && s.stored[p.user] == p.incoming
  }

  function Won(s: State, p: Pending): State
    requires !p.LoggingIn?
  {
    s.(wins := s.wins + multiset{p.incoming})
  }

  /** The script compares and sets in one step; with a lifetime of zero or less it is a plain comparison. */
  function OnRunScript(s: State, r: int, ttl: int): State {
    if r !in s.pending || !s.pending[r].Rotating? then s
    else
      var p := s.pending[r];
      if !Matches(s, p) then Done(s, r)
      else if ttl <= 0 then Done(Won(s, p), r)
      else Done(Stored(Won(s, p), p.user, p.made), r)
  }

  function OnScriptFails(s: State, r: int, applied: bool, ttl: int): State {
    if r !in s.pending || !s.pending[r].Rotating? then s
    else
      var p := s.pending[r];
      var t := s.(failed := s.failed + multiset{p.incoming});
      if ttl <= 0 then Done(t, r)
      else
        var u := t.(pending := s.pending[r := Falling(p.user, p.made, p.incoming)]);
        if applied && Matches(s, p) then Stored(Won(u, p), p.user, p.made) else u
  }

  function OnFallbackGet(s: State, r: int): State {
    if r !in s.pending || !s.pending[r].Falling? then s
    else
      var p := s.pending[r];
      if Matches(s, p) then s.(pending := s.pending[r := Setting(p.user, p.made, p.incoming)]) else Done(s, r)
  }

  function OnFallbackSet(s: State, r: int): State {
    if r !in s.pending || !s.pending[r].Setting? then s
    else
      var p := s.pending[r];
      Done(Stored(s.(fallbackWins := s.fallbackWins + multiset{p.incoming}), p.user, p.made), r)
  }

  function OnDropKey(s: State, user: int): State {
    s.(stored := s.stored - {user})
  }

  function Step(s: State, e: Event, ttl: int): State {
    match e
    case StartLogin(r, user, made) => OnStartLogin(s, r, user, made)
    case StoreLogin(r) => OnStoreLogin(s, r, ttl)
    case StartRefresh(r, made, incoming) => OnStartRefresh(s, r, made, incoming)
    case RunScript(r) => OnRunScript(s, r, ttl)
    case ScriptFails(r, applied) => OnScriptFails(s, r, applied, ttl)
    case FallbackGet(r) => OnFallbackGet(s, r)
    case FallbackSet(r) => OnFallbackSet(s, r)
    case GiveUp(r) => Done(s, r)
    case DropKey(user) => OnDropKey(s, user)
  }

  function Continue(s: State, fs: seq<Event>, ttl: int): State {
    if fs == [] then s else Step(Continue(s, fs[..|fs| - 1], ttl), fs[|fs| - 1], ttl)
  }

  function Run(es: seq<Event>, ttl: int): State {
    Continue(NOTHING, es, ttl)
  }

  ghost predicate NoFallback(es: seq<Event>) {
    forall i :: 0 <= i < |es| ==> !es[i].ScriptFails?
  }

  // ---- the invariant ----

  predicate NeverUsed(s: State, d: Digest) {
    d !in s.wins && d !in s.fallbackWins
  }

  /** What is stored was issued to that user, stored last, and never yet rotated. */
  ghost predicate KeyOk(s: State, u: int)
    requires u in s.stored
  {
    var d := s.stored[u];
    && d in s.issued && s.issued[d] == u
    && d in s.everStored && NeverUsed(s, d)
    && u in s.latest && s.latest[u] == d
  }

  /**
  The token made for a request is nobody else's and was not stored yet, unless by a script whose answer got
  lost; the presented one is its user's.
  */
  ghost predicate PendingOk(s: State, r: int)
    requires r in s.pending
  {
    var p := s.pending[r];
    && p.made in s.issued && s.issued[p.made] == p.user
    && (p.made !in s.everStored || (p.Falling? && p.incoming in s.wins))
    && (!p.LoggingIn? ==> p.incoming in s.issued && s.issued[p.incoming] == p.user)
    && (p.Setting? ==> p.incoming in s.everStored)
    && forall q :: q in s.pending && q != r ==> s.pending[q].made != p.made
  }

  ghost predicate WinsOk(s: State) {
    && (forall d :: s.wins[d] <= 1)
    && (forall d :: d in s.wins ==> d in s.everStored)
    && (forall d :: d in s.fallbackWins ==> d in s.everStored)
    && (forall d :: d in s.everStored ==> d in s.issued)
  }

  ghost predicate Inv(s: State) {
    && (forall u :: u in s.stored ==> KeyOk(s, u))
    && (forall r :: r in s.pending ==> PendingOk(s, r))
    && WinsOk(s)
  }

  /** A request leaves. */
  lemma DoneKeepsInv(s: State, r: int)
    requires Inv(s)
    ensures Inv(Done(s, r))
  {
  }

  /** A request comes with a new token. */
  lemma MadeKeepsInv(s: State, r: int, p: Pending)
    requires Inv(s) && r !in s.pending && p.made !in s.issued && (p.LoggingIn? || p.Rotating?)
    requires p.Rotating? ==> p.incoming in s.issued && s.issued[p.incoming] == p.user
    ensures Inv(s.(issued := s.issued[p.made := p.user], pending := s.pending[r := p]))
  {
  }

  /** A request changes its phase. */
  lemma PhaseKeepsInv(s: State, r: int, p: Pending)
    requires Inv(s) && r in s.pending && !s.pending[r].LoggingIn? && (p.Falling? || p.Setting?)
    requires p.user == s.pending[r].user && p.made == s.pending[r].made && p.incoming == s.pending[r].incoming
    requires p.Setting? ==> p.incoming in s.everStored && p.made !in s.everStored
    ensures Inv(s.(pending := s.pending[r := p]))
  {
  }

  /** The request's token is stored, replacing what was there. */
  lemma StoreKeepsInv(s: State, r: int)
    requires Inv(s) && r in s.pending && s.pending[r].made !in s.everStored
    ensures Inv(Done(Stored(s, s.pending[r].user, s.pending[r].made), r))
  {
  }

  lemma FallbackSetKeepsInv(s: State, r: int)
    requires Inv(s)
    ensures Inv(OnFallbackSet(s, r))
  {
  }

  lemma RunScriptKeepsInv(s: State, r: int, ttl: int)
    requires Inv(s) && ttl > 0
    ensures Inv(OnRunScript(s, r, ttl))
  {
  }

  /** The script stored the token of a request that goes on without knowing. */
  lemma HiddenStoreKeepsInv(s: State, r: int)
    requires Inv(s) && r in s.pending && s.pending[r].Falling? && s.pending[r].made !in s.everStored
    requires Matches(s, s.pending[r])
    ensures var p := s.pending[r]; Inv(Stored(Won(s, p), p.user, p.made))
  {
  }

  lemma ScriptFailsKeepsInv(s: State, r: int, applied: bool, ttl: int)
    requires Inv(s) && ttl > 0
    ensures Inv(OnScriptFails(s, r, applied, ttl))
  {
    if r in s.pending && s.pending[r].Rotating? {
      var p := s.pending[r];
      var t, q := s.(failed := s.failed + multiset{p.incoming}), Falling(p.user, p.made, p.incoming);
      PhaseKeepsInv(t, r, q);
      if applied && Matches(s, p) { HiddenStoreKeepsInv(t.(pending := t.pending[r := q]), r); }
    }
  }

  lemma FallbackGetKeepsInv(s: State, r: int)
    requires Inv(s)
    ensures Inv(OnFallbackGet(s, r))
  {
  }

  lemma DropKeyKeepsInv(s: State, user: int)
    requires Inv(s)
    ensures Inv(OnDropKey(s, user))
  {
  }

  lemma StepKeepsInv(s: State, e: Event, ttl: int)
    requires Inv(s) && ttl > 0
    ensures Inv(Step(s, e, ttl))
  {
    match e
    case StartLogin(r, user, made) =>
      if r !in s.pending && made !in s.issued { MadeKeepsInv(s, r, LoggingIn(user, made)); }
    case StoreLogin(r) =>
      if r in s.pending && s.pending[r].LoggingIn? { StoreKeepsInv(s, r); }
    case StartRefresh(r, made, incoming) =>
      if r !in s.pending && made !in s.issued && incoming in s.issued {
        MadeKeepsInv(s, r, Rotating(s.issued[incoming], made, incoming));
      }
    case RunScript(r) => RunScriptKeepsInv(s, r, ttl);
    case ScriptFails(r, applied) => ScriptFailsKeepsInv(s, r, applied, ttl);
    case FallbackGet(r) => FallbackGetKeepsInv(s, r);
    case FallbackSet(r) => FallbackSetKeepsInv(s, r);
    case GiveUp(r) => DoneKeepsInv(s, r);
    case DropKey(user) => DropKeyKeepsInv(s, user);
  }

  lemma {:induction false} RunKeepsInv(es: seq<Event>, ttl: int)
    requires ttl > 0
    ensures Inv(Run(es, ttl))
    decreases |es|
  {
    if es != [] {
      RunKeepsInv(es[..|es| - 1], ttl);
      StepKeepsInv(Run(es[..|es| - 1], ttl), es[|es| - 1], ttl);
    }
  }

  // ---- what holds of every run ----

  ghost predicate NobodyFalling(s: State) {
    && s.fallbackWins == multiset{}
    && forall r :: r in s.pending ==> !s.pending[r].Falling? && !s.pending[r].Setting?
  }

  lemma NobodyFallsStep(s: State, e: Event, ttl: int)
    requires NobodyFalling(s) && !e.ScriptFails?
    ensures NobodyFalling(Step(s, e, ttl))
  {
  }

  lemma {:induction false} NoFallbackNoWins(es: seq<Event>, ttl: int)
    requires NoFallback(es)
    ensures NobodyFalling(Run(es, ttl))
    decreases |es|
  {
    if es != [] {
      NoFallbackNoWins(es[..|es| - 1], ttl);
      NobodyFallsStep(Run(es[..|es| - 1], ttl), es[|es| - 1], ttl);
    }
  }

  predicate FallenWith(p: Pending, d: Digest) {
    (p.Falling? || p.Setting?) && p.incoming == d
  }

  /** The requests on their way through the non-atomic path with that token. */
  function Fallen(pending: map<int, Pending>, d: Digest): set<int> {
    set r | r in pending && FallenWith(pending[r], d)
  }

  /** Every rotation by the non-atomic path, done or under way, is paid for by its own failure of the script. */
  ghost predicate Paid(s: State, d: Digest) {
    s.fallbackWins[d] + |Fallen(s.pending, d)| <= s.failed[d]
  }

  lemma FallenWithout(pending: map<int, Pending>, r: int, d: Digest)
    ensures Fallen(pending - {r}, d) == Fallen(pending, d) - {r}
  {
  }

  lemma FallenUpdate(pending: map<int, Pending>, r: int, p: Pending, d: Digest)
    ensures Fallen(pending[r := p], d)
         == if FallenWith(p, d) then Fallen(pending, d) + {r} else Fallen(pending, d) - {r}
  {
  }

  lemma NobodyNew(s: State, t: State, d: Digest)
    requires Paid(s, d) && t.fallbackWins == s.fallbackWins && t.failed == s.failed
    requires Fallen(t.pending, d) <= Fallen(s.pending, d)
    ensures Paid(t, d)
  {
    var a, b := Fallen(t.pending, d), Fallen(s.pending, d);
    assert b == a + (b - a);
  }

  lemma PaidDone(s: State, r: int, d: Digest)
    requires Paid(s, d)
    ensures Paid(Done(s, r), d)
  {
    FallenWithout(s.pending, r, d);
    NobodyNew(s, Done(s, r), d);
  }

  lemma PaidFailure(s: State, r: int, applied: bool, ttl: int, d: Digest)
    requires Paid(s, d)
    ensures Paid(OnScriptFails(s, r, applied, ttl), d)
  {
    if r in s.pending && s.pending[r].Rotating? {
      var p := s.pending[r];
      var t := s.(failed := s.failed + multiset{p.incoming});
      assert Paid(t, d);
      if ttl <= 0 { PaidDone(t, r, d); }
      else { FallenUpdate(s.pending, r, Falling(p.user, p.made, p.incoming), d); }
    }
  }

  lemma PaidGet(s: State, r: int, d: Digest)
    requires Paid(s, d)
    ensures Paid(OnFallbackGet(s, r), d)
  {
    if r in s.pending && s.pending[r].Falling? {
      var p := s.pending[r];
      FallenUpdate(s.pending, r, Setting(p.user, p.made, p.incoming), d);
      assert FallenWith(p, d) <==> r in Fallen(s.pending, d);
      if Matches(s, p) { NobodyNew(s, OnFallbackGet(s, r), d); } else { PaidDone(s, r, d); }
    }
  }

  lemma PaidSet(s: State, r: int, d: Digest)
    requires Paid(s, d)
    ensures Paid(OnFallbackSet(s, r), d)
  {
    if r in s.pending && s.pending[r].Setting? {
      FallenWithout(s.pending, r, d);
      assert FallenWith(s.pending[r], d) <==> r in Fallen(s.pending, d);
    }
  }

  /** A request that comes is not on that path yet. */
  lemma PaidArrival(s: State, t: State, r: int, p: Pending, d: Digest)
    requires Paid(s, d) && (p.LoggingIn? || p.Rotating?)
    requires t.pending == s.pending[r := p] && t.fallbackWins == s.fallbackWins && t.failed == s.failed
    ensures Paid(t, d)
  {
    FallenUpdate(s.pending, r, p, d);
    NobodyNew(s, t, d);
  }

  lemma PaidStep(s: State, e: Event, ttl: int, d: Digest)
    requires Paid(s, d)
    ensures Paid(Step(s, e, ttl), d)
  {
    match e
    case StartLogin(r, user, made) =>
      if r !in s.pending && made !in s.issued { PaidArrival(s, Step(s, e, ttl), r, LoggingIn(user, made), d); }
    case StartRefresh(r, made, incoming) =>
      if r !in s.pending && made !in s.issued && incoming in s.issued {
        PaidArrival(s, Step(s, e, ttl), r, Rotating(s.issued[incoming], made, incoming), d);
      }
    case ScriptFails(r, applied) => PaidFailure(s, r, applied, ttl, d);
    case FallbackGet(r) => PaidGet(s, r, d);
    case FallbackSet(r) => PaidSet(s, r, d);
    case DropKey(_) =>
    case _ =>
      FallenWithout(s.pending, e.request, d);
      NobodyNew(s, Step(s, e, ttl), d);
  }

  lemma {:induction false} FailuresPay(es: seq<Event>, ttl: int, d: Digest)
    ensures Paid(Run(es, ttl), d)
    decreases |es|
  {
    if es == [] {
      assert Fallen(NOTHING.pending, d) == {};
    } else {
      FailuresPay(es[..|es| - 1], ttl, d);
      PaidStep(Run(es[..|es| - 1], ttl), es[|es| - 1], ttl, d);
    }
  }

  /**
  A token rotates at most once by the script, in every run, and altogether at most once more than the
  script failed for it; so at most once in every run in which the script never fails.
  */
  lemma RotatesAtMostOnce(es: seq<Event>, ttl: int, d: Digest)
    requires ttl > 0
    ensures Run(es, ttl).wins[d] <= 1
    ensures Run(es, ttl).wins[d] + Run(es, ttl).fallbackWins[d] <= 1 + Run(es, ttl).failed[d]
    ensures NoFallback(es) ==> Run(es, ttl).wins[d] + Run(es, ttl).fallbackWins[d] <= 1
  {
    RunKeepsInv(es, ttl);
    FailuresPay(es, ttl, d);
    if NoFallback(es) { NoFallbackNoWins(es, ttl); }
  }

  /** What is stored was issued to that user, was stored last of all, and has not been rotated by any path. */
  lemma StoredIsCurrent(es: seq<Event>, ttl: int, user: int)
    requires ttl > 0 && user in Run(es, ttl).stored
    ensures var s := Run(es, ttl); var d := s.stored[user];
            && d in s.issued && s.issued[d] == user && user in s.latest && s.latest[user] == d
            && s.wins[d] == 0 && s.fallbackWins[d] == 0
  {
    RunKeepsInv(es, ttl);
    assert KeyOk(Run(es, ttl), user);
  }

  /** A refresh by the script succeeds exactly for the token stored last for its user, while its key lives. */
  lemma OnlyLatestWins(es: seq<Event>, ttl: int, r: int)
    requires ttl > 0 && r in Run(es, ttl).pending && Run(es, ttl).pending[r].Rotating?
    ensures var s := Run(es, ttl); var p := s.pending[r]; var t := OnRunScript(s, r, ttl);
            && (t.wins[p.incoming] == s.wins[p.incoming] + 1 <==>
                  p.user in s.stored && p.user in s.latest && s.latest[p.user] == p.incoming)
            && (t.wins == s.wins || t.wins == s.wins + multiset{p.incoming})
            && (t.wins != s.wins ==> p.user in t.stored && t.stored[p.user] == p.made && s.wins[p.incoming] == 0)
  {
    RunKeepsInv(es, ttl);
    var s := Run(es, ttl);
    var p := s.pending[r];
    assert PendingOk(s, r) && (p.user in s.stored ==> KeyOk(s, p.user));
  }

  /** A token that has been rotated, by whatever path, is refused by the script from then on. */
  lemma UsedTokenRefused(es: seq<Event>, ttl: int, r: int)
    requires ttl > 0 && r in Run(es, ttl).pending && Run(es, ttl).pending[r].Rotating?
    requires !NeverUsed(Run(es, ttl), Run(es, ttl).pending[r].incoming)
    ensures OnRunScript(Run(es, ttl), r, ttl) == Done(Run(es, ttl), r)
  {
    RunKeepsInv(es, ttl);
    var s := Run(es, ttl);
    var p := s.pending[r];
    assert p.user in s.stored ==> KeyOk(s, p.user);
  }

  lemma RunMore(es: seq<Event>, e: Event, ttl: int)
    ensures Run(es + [e], ttl) == Step(Run(es, ttl), e, ttl)
  {
    assert (es + [e])[..|es|] == es;
  }

  /** A login replaces whatever the user had stored, and touches nobody else. */
  lemma LoginStores(es: seq<Event>, ttl: int, r: int, other: int)
    requires ttl > 0 && r in Run(es, ttl).pending && Run(es, ttl).pending[r].LoggingIn?
    ensures var s := Run(es, ttl); var LoggingIn(user, made) := s.pending[r]; var t := Run(es + [StoreLogin(r)], ttl);
            && user in t.stored && t.stored[user] == made && user in t.latest && t.latest[user] == made
            && t.pending == s.pending - {r} && t.issued == s.issued
            && t.wins == s.wins && t.fallbackWins == s.fallbackWins
            && (other != user ==> (other in t.stored <==> other in s.stored)
                                  && (other in s.stored ==> t.stored[other] == s.stored[other]))
  {
    RunMore(es, StoreLogin(r), ttl);
  }

  /** From then on exactly the token of that login passes the script, and no earlier one of the user. */
  lemma LoginDecides(es: seq<Event>, ttl: int, r: int, q: int)
    requires ttl > 0 && r in Run(es, ttl).pending && Run(es, ttl).pending[r].LoggingIn?
    requires var t := Run(es + [StoreLogin(r)], ttl);
             q in t.pending && t.pending[q].Rotating? && t.pending[q].user == Run(es, ttl).pending[r].user
    ensures var s := Run(es, ttl); var LoggingIn(user, made) := s.pending[r];
            var t := Run(es + [StoreLogin(r)], ttl); var p := t.pending[q]; var z := OnRunScript(t, q, ttl);
            if p.incoming == made then z.wins == t.wins + multiset{made} && user in z.stored && z.stored[user] == p.made
            else z == Done(t, q)
  {
    LoginStores(es, ttl, r, 0);
  }

  /** The non-atomic path, once past its GET, replaces the stored token as well. */
  lemma FallbackStores(es: seq<Event>, ttl: int, r: int)
    requires r in Run(es, ttl).pending && Run(es, ttl).pending[r].Setting?
    ensures var s := Run(es, ttl); var Setting(user, made, incoming) := s.pending[r];
            var t := Run(es + [FallbackSet(r)], ttl);
            && user in t.stored && t.stored[user] == made && user in t.latest && t.latest[user] == made
            && t.fallbackWins == s.fallbackWins + multiset{incoming} && t.wins == s.wins
  {
    RunMore(es, FallbackSet(r), ttl);
  }

  /** Before that, the GET lets exactly the stored token pass. */
  lemma FallbackCompares(es: seq<Event>, ttl: int, r: int)
    requires r in Run(es, ttl).pending && Run(es, ttl).pending[r].Falling?
    ensures var s := Run(es, ttl); var Falling(user, made, incoming) := s.pending[r];
            var t := Run(es + [FallbackGet(r)], ttl);
            && t.stored == s.stored && t.wins == s.wins && t.fallbackWins == s.fallbackWins
            && (r in t.pending <==> user in s.stored && s.stored[user] == incoming)
            && (r in t.pending ==> t.pending[r] == Setting(user, made, incoming))
  {
    RunMore(es, FallbackGet(r), ttl);
  }

  /** A refresh presents an issued token for the user it was issued to, and gets a new token made for it. */
  lemma RefreshStarts(es: seq<Event>, ttl: int, r: int, made: Digest, incoming: Digest)
    requires var s := Run(es, ttl); r !in s.pending && made !in s.issued
    ensures var s := Run(es, ttl); var t := Run(es + [StartRefresh(r, made, incoming)], ttl);
            && t.stored == s.stored && (r in t.pending <==> incoming in s.issued)
            && (incoming in s.issued ==>
                  && t.pending[r] == Rotating(s.issued[incoming], made, incoming)
                  && made in t.issued && t.issued[made] == s.issued[incoming])
  {
    RunMore(es, StartRefresh(r, made, incoming), ttl);
  }

  /** A login starts with a new token for its user, and stores nothing yet. */
  lemma LoginStarts(es: seq<Event>, ttl: int, r: int, user: int, made: Digest)
    requires var s := Run(es, ttl); r !in s.pending && made !in s.issued
    ensures var s := Run(es, ttl); var t := Run(es + [StartLogin(r, user, made)], ttl);
            && t.stored == s.stored && r in t.pending && t.pending[r] == LoggingIn(user, made)
            && made in t.issued && t.issued[made] == user
  {
    RunMore(es, StartLogin(r, user, made), ttl);
  }

  /** A request that gives up leaves and changes nothing else. */
  lemma GivingUpChangesNothing(es: seq<Event>, ttl: int, r: int)
    ensures var s := Run(es, ttl); var t := Run(es + [GiveUp(r)], ttl); r !in t.pending && t == s.(pending := t.pending)
  {
    RunMore(es, GiveUp(r), ttl);
  }

  /** A script that rotated without its answer arriving: the new token is stored, and its own request is refused. */
  lemma LostAnswerRefuses(es: seq<Event>, ttl: int, r: int)
    requires ttl > 0 && r in Run(es, ttl).pending && Run(es, ttl).pending[r].Rotating?
    requires Matches(Run(es, ttl), Run(es, ttl).pending[r])
    ensures var s := Run(es, ttl); var Rotating(user, made, incoming) := s.pending[r];
            var t := Run(es + [ScriptFails(r, true)] + [FallbackGet(r)], ttl);
            && user in t.stored && t.stored[user] == made && r !in t.pending
            && t.wins == s.wins + multiset{incoming} && t.fallbackWins == s.fallbackWins
  {
    var s := Run(es, ttl);
    RunMore(es, ScriptFails(r, true), ttl);
    RunMore(es + [ScriptFails(r, true)], FallbackGet(r), ttl);
    RunKeepsInv(es, ttl);
    assert KeyOk(s, s.pending[r].user) && PendingOk(s, r);
  }

  /** The event stores a token for the user out of a login or the fallback. */
  predicate Stores(s: State, e: Event, user: int) {
    && (e.StoreLogin? || e.FallbackSet?)
    && e.request in s.pending && s.pending[e.request].user == user
  }

  ghost predicate NoStoreFor(s: State, fs: seq<Event>, user: int, ttl: int) {
    forall i :: 0 <= i < |fs| ==> !Stores(Continue(s, fs[..i], ttl), fs[i], user)
  }

  /** The token is the user's, and was rotated no more often than before. */
  predicate SameUse(s: State, t: State, user: int, d: Digest) {
    d in s.issued && s.issued[d] == user ==>
      && d in t.issued && t.issued[d] == user
      && t.wins[d] == s.wins[d] && t.fallbackWins[d] == s.fallbackWins[d]
  }

  lemma StaysOutScript(s: State, r: int, user: int, ttl: int, d: Digest)
    requires Inv(s) && user !in s.stored
    ensures var t := OnRunScript(s, r, ttl); user !in t.stored && SameUse(s, t, user, d)
  {
    if r in s.pending { assert PendingOk(s, r); }
  }

  lemma StaysOutFailure(s: State, r: int, applied: bool, user: int, ttl: int, d: Digest)
    requires Inv(s) && user !in s.stored
    ensures var t := OnScriptFails(s, r, applied, ttl); user !in t.stored && SameUse(s, t, user, d)
  {
    if r in s.pending { assert PendingOk(s, r); }
  }

  lemma StaysOutSet(s: State, r: int, user: int, d: Digest)
    requires Inv(s) && user !in s.stored && (r in s.pending ==> s.pending[r].user != user)
    ensures var t := OnFallbackSet(s, r); user !in t.stored && SameUse(s, t, user, d)
  {
    if r in s.pending { assert PendingOk(s, r); }
  }

  lemma StaysOutStep(s: State, e: Event, user: int, ttl: int, d: Digest)
    requires Inv(s) && ttl > 0 && user !in s.stored && !Stores(s, e, user)
    ensures var t := Step(s, e, ttl); user !in t.stored && SameUse(s, t, user, d)
  {
    match e
    case RunScript(r) => StaysOutScript(s, r, user, ttl, d);
    case FallbackSet(r) => StaysOutSet(s, r, user, d);
    case ScriptFails(r, applied) => StaysOutFailure(s, r, applied, user, ttl, d);
    case _ =>
  }

  /**
  After a logout, revocation or expiry no token of the user rotates, by whatever path, until a new one is
  stored for that user.
  */
  lemma {:induction false} DroppedStaysOut(s: State, fs: seq<Event>, user: int, ttl: int, d: Digest)
    requires Inv(s) && ttl > 0 && NoStoreFor(OnDropKey(s, user), fs, user, ttl)
    ensures var t := Continue(OnDropKey(s, user), fs, ttl); Inv(t) && user !in t.stored && SameUse(s, t, user, d)
    decreases |fs|
  {
    if fs == [] {
      DropKeyKeepsInv(s, user);
    } else {
      var init, e := fs[..|fs| - 1], fs[|fs| - 1];
      assert forall i :: 0 <= i < |init| ==> init[..i] == fs[..i];
      DroppedStaysOut(s, init, user, ttl, d);
      var t := Continue(OnDropKey(s, user), init, ttl);
      StepKeepsInv(t, e, ttl);
      StaysOutStep(t, e, user, ttl, d);
    }
  }

  /** With a lifetime of zero or less nothing is ever stored, so no refresh ever succeeds. */
  lemma {:induction false} NoLifetimeNoRotation(es: seq<Event>, ttl: int)
    requires ttl <= 0
    ensures var s := Run(es, ttl); s.stored == map[] && s.wins == multiset{} && NobodyFalling(s)
    decreases |es|
  {
    if es != [] { NoLifetimeNoRotation(es[..|es| - 1], ttl); }
  }

  /** Wherever it stands, a script without a lifetime only compares: it counts a match and stores nothing. */
  lemma NoLifetimeOnlyCompares(s: State, r: int, ttl: int)
    requires ttl <= 0 && r in s.pending && s.pending[r].Rotating?
    ensures var p := s.pending[r]; var t := OnRunScript(s, r, ttl);
            && t.stored == s.stored && r !in t.pending
            && t.wins == if p.user in s.stored && s.stored[p.user] == p.incoming
                         then s.wins + multiset{p.incoming} else s.wins
  {
  }

  /**
  The bound does need the script: wherever two refreshes present the stored token, one failing script
  between them lets it rotate twice.
  */
  lemma OneFailureSuffices(es: seq<Event>, ttl: int, r: int, q: int)
    requires ttl > 0 && r != q && r in Run(es, ttl).pending && q in Run(es, ttl).pending
    requires var s := Run(es, ttl);
             && s.pending[r].Rotating? && s.pending[q].Rotating?
             && s.pending[r].incoming == s.pending[q].incoming && Matches(s, s.pending[r])
    ensures var s := Run(es, ttl); var d := s.pending[r].incoming;
            var t := OnFallbackSet(OnRunScript(OnFallbackGet(OnScriptFails(s, r, false, ttl), r), q, ttl), r);
            t.wins[d] + t.fallbackWins[d] == 2
  {
    RunKeepsInv(es, ttl);
    var s := Run(es, ttl);
    assert KeyOk(s, s.pending[r].user) && PendingOk(s, r) && PendingOk(s, q);
  }

  // ---- exactly how often a stored token can still rotate ----

  function Uses(s: State, d: Digest): nat {
    s.wins[d] + s.fallbackWins[d]
  }

  function FallingWith(pending: map<int, Pending>, d: Digest): set<int> {
    set r | r in pending && pending[r].Falling? && pending[r].incoming == d
  }

  function SettingWith(pending: map<int, Pending>, d: Digest): set<int> {
    set r | r in pending && pending[r].Setting? && pending[r].incoming == d
  }

  predicate Current(s: State, d: Digest) {
    d in s.issued && s.issued[d] in s.stored && s.stored[s.issued[d]] == d
  }

  /**
  What can still come without another failing script: everybody past the GET, and while the token is stored
  everybody before the GET and one script.
  */
  function Potential(s: State, d: Digest): nat {
    Uses(s, d) + |SettingWith(s.pending, d)| + if Current(s, d) then |FallingWith(s.pending, d)| + 1 else 0
  }

  lemma WithoutRequest(pending: map<int, Pending>, r: int, d: Digest)
    ensures FallingWith(pending - {r}, d) == FallingWith(pending, d) - {r}
    ensures SettingWith(pending - {r}, d) == SettingWith(pending, d) - {r}
  {
  }

  lemma WithRequest(pending: map<int, Pending>, r: int, p: Pending, d: Digest)
    ensures FallingWith(pending[r := p], d)
         == if p.Falling? && p.incoming == d then FallingWith(pending, d) + {r} else FallingWith(pending, d) - {r}
    ensures SettingWith(pending[r := p], d)
         == if p.Setting? && p.incoming == d then SettingWith(pending, d) + {r} else SettingWith(pending, d) - {r}
  {
  }

  lemma Fewer<T>(a: set<T>, b: set<T>)
    requires a <= b
    ensures |a| <= |b|
  {
    assert b == a + (b - a);
  }

  /** Nobody new on the way, and the token not stored anew. */
  lemma NoMoreToCome(s: State, t: State, d: Digest)
    requires Uses(t, d) == Uses(s, d) && (Current(t, d) ==> Current(s, d))
    requires FallingWith(t.pending, d) <= FallingWith(s.pending, d)
    requires SettingWith(t.pending, d) <= SettingWith(s.pending, d)
    ensures Potential(t, d) <= Potential(s, d)
  {
    Fewer(FallingWith(t.pending, d), FallingWith(s.pending, d));
    Fewer(SettingWith(t.pending, d), SettingWith(s.pending, d));
  }

  /** A request that arrives leaves a stored token as it is. */
  lemma ArrivalAddsNothing(s: State, t: State, r: int, p: Pending, d: Digest)
    requires Inv(s) && d in s.everStored && r !in s.pending && p.made !in s.issued && (p.LoggingIn? || p.Rotating?)
    requires t == s.(issued := s.issued[p.made := p.user], pending := s.pending[r := p])
    ensures Potential(t, d) <= Potential(s, d) && t.everStored == s.everStored
  {
    WithRequest(s.pending, r, p, d);
    NoMoreToCome(s, t, d);
  }

  lemma ScriptAddsNothing(s: State, r: int, ttl: int, d: Digest)
    requires Inv(s) && ttl > 0 && d in s.everStored && r in s.pending && s.pending[r].Rotating?
    ensures var t := OnRunScript(s, r, ttl); Potential(t, d) <= Potential(s, d) && d in t.everStored
    ensures var t := OnRunScript(s, r, ttl);
            s.pending[r].incoming == d && Current(s, d) ==>
              Potential(t, d) == Potential(s, d) - |FallingWith(s.pending, d)| && !Current(t, d)
  {
    var p := s.pending[r];
    assert PendingOk(s, r);
    WithoutRequest(s.pending, r, d);
    assert r !in FallingWith(s.pending, d) && r !in SettingWith(s.pending, d);
  }

  lemma GetAddsNothing(s: State, r: int, d: Digest)
    requires Inv(s) && r in s.pending && s.pending[r].Falling?
    ensures Potential(OnFallbackGet(s, r), d) <= Potential(s, d)
    ensures s.pending[r].incoming == d && Current(s, d) ==>
              var t := OnFallbackGet(s, r);
              && Potential(t, d) == Potential(s, d) && Current(t, d)
              && FallingWith(t.pending, d) == FallingWith(s.pending, d) - {r}
              && SettingWith(t.pending, d) == SettingWith(s.pending, d) + {r}
  {
    var p := s.pending[r];
    assert PendingOk(s, r);
    WithoutRequest(s.pending, r, d);
    WithRequest(s.pending, r, Setting(p.user, p.made, p.incoming), d);
    if p.incoming == d {
      assert r in FallingWith(s.pending, d) && r !in SettingWith(s.pending, d);
    } else {
      assert r !in FallingWith(s.pending, d) && r !in SettingWith(s.pending, d);
    }
  }

  lemma SetAddsNothing(s: State, r: int, d: Digest)
    requires Inv(s) && d in s.everStored && r in s.pending && s.pending[r].Setting?
    ensures var t := OnFallbackSet(s, r); Potential(t, d) <= Potential(s, d) && d in t.everStored
    ensures s.pending[r].incoming == d && !Current(s, d) ==>
              var t := OnFallbackSet(s, r);
              && Potential(t, d) == Potential(s, d) && !Current(t, d)
              && SettingWith(t.pending, d) == SettingWith(s.pending, d) - {r}
  {
    var p := s.pending[r];
    assert PendingOk(s, r);
    WithoutRequest(s.pending, r, d);
    Fewer(FallingWith(s.pending, d) - {r}, FallingWith(s.pending, d));
    assert r in SettingWith(s.pending, d) <==> p.incoming == d;
  }

  lemma LoginAddsNothing(s: State, r: int, ttl: int, d: Digest)
    requires Inv(s) && d in s.everStored && r in s.pending && s.pending[r].LoggingIn?
    ensures var t := OnStoreLogin(s, r, ttl); Potential(t, d) <= Potential(s, d) && d in t.everStored
  {
    assert PendingOk(s, r);
    WithoutRequest(s.pending, r, d);
    NoMoreToCome(s, OnStoreLogin(s, r, ttl), d);
  }

  lemma LeavingAddsNothing(s: State, e: Event, ttl: int, d: Digest)
    requires d in s.everStored && (e.GiveUp? || e.DropKey?)
    ensures var t := Step(s, e, ttl); Potential(t, d) <= Potential(s, d) && d in t.everStored
  {
    if e.GiveUp? { WithoutRequest(s.pending, e.request, d); }
    NoMoreToCome(s, Step(s, e, ttl), d);
  }

  lemma StepAddsNothing(s: State, e: Event, ttl: int, d: Digest)
    requires Inv(s) && ttl > 0 && d in s.everStored && !e.ScriptFails?
    ensures var t := Step(s, e, ttl); Potential(t, d) <= Potential(s, d) && d in t.everStored
  {
    match e
    case StartLogin(r, user, made) =>
      if r !in s.pending && made !in s.issued {
        ArrivalAddsNothing(s, Step(s, e, ttl), r, LoggingIn(user, made), d);
      }
    case StartRefresh(r, made, incoming) =>
      if r !in s.pending && made !in s.issued && incoming in s.issued {
        ArrivalAddsNothing(s, Step(s, e, ttl), r, Rotating(s.issued[incoming], made, incoming), d);
      }
    case StoreLogin(r) => if r in s.pending && s.pending[r].LoggingIn? { LoginAddsNothing(s, r, ttl, d); }
    case RunScript(r) => if r in s.pending && s.pending[r].Rotating? { ScriptAddsNothing(s, r, ttl, d); }
    case FallbackGet(r) => if r in s.pending && s.pending[r].Falling? { GetAddsNothing(s, r, d); }
    case FallbackSet(r) => if r in s.pending && s.pending[r].Setting? { SetAddsNothing(s, r, d); }
    case _ => LeavingAddsNothing(s, e, ttl, d);
  }

  lemma {:induction false} NeverMore(s: State, fs: seq<Event>, ttl: int, d: Digest)
    requires Inv(s) && ttl > 0 && d in s.everStored && NoFallback(fs)
    ensures var t := Continue(s, fs, ttl);
            Inv(t) && d in t.everStored && Uses(t, d) <= Potential(t, d) <= Potential(s, d)
    decreases |fs|
  {
    if fs != [] {
      var init, e := fs[..|fs| - 1], fs[|fs| - 1];
      NeverMore(s, init, ttl, d);
      StepKeepsInv(Continue(s, init, ttl), e, ttl);
      StepAddsNothing(Continue(s, init, ttl), e, ttl, d);
    }
  }

  lemma {:induction false} ContinueMore(s: State, fs: seq<Event>, gs: seq<Event>, ttl: int)
    ensures Continue(Continue(s, fs, ttl), gs, ttl) == Continue(s, fs + gs, ttl)
    decreases |gs|
  {
    if gs == [] {
      assert fs + gs == fs;
    } else {
      ContinueMore(s, fs, gs[..|gs| - 1], ttl);
      assert (fs + gs)[..|fs + gs| - 1] == fs + gs[..|gs| - 1];
    }
  }

  lemma First(s: State, e: Event, fs: seq<Event>, ttl: int)
    ensures Continue(s, [e] + fs, ttl) == Continue(Step(s, e, ttl), fs, ttl)
  {
    assert [e][..0] == [];
    ContinueMore(s, [e], fs, ttl);
  }

  /** Once the token is replaced, everybody past the GET still sets. */
  lemma {:induction false} AllSet(s: State, ttl: int, d: Digest) returns (fs: seq<Event>)
    requires Inv(s) && ttl > 0 && d in s.everStored && !Current(s, d)
    ensures NoFallback(fs) && Uses(Continue(s, fs, ttl), d) == Potential(s, d)
    decreases |SettingWith(s.pending, d)|
  {
    fs := [];
    if SettingWith(s.pending, d) != {} {
      var r := Pick(SettingWith(s.pending, d));
      SetAddsNothing(s, r, d);
      FallbackSetKeepsInv(s, r);
      var rest := AllSet(OnFallbackSet(s, r), ttl, d);
      First(s, FallbackSet(r), rest, ttl);
      fs := [FallbackSet(r)] + rest;
    }
  }

  lemma Presents(s: State, q: int, made: Digest, d: Digest)
    requires Inv(s) && d in s.everStored && Current(s, d) && q !in s.pending && made !in s.issued
    ensures var t := OnStartRefresh(s, q, made, d);
            && Inv(t) && d in t.everStored && Current(t, d) && Potential(t, d) == Potential(s, d)
            && q in t.pending && t.pending[q] == Rotating(s.issued[d], made, d)
            && FallingWith(t.pending, d) == FallingWith(s.pending, d)
  {
    var p := Rotating(s.issued[d], made, d);
    MadeKeepsInv(s, q, p);
    WithRequest(s.pending, q, p, d);
    assert q !in FallingWith(s.pending, d) && q !in SettingWith(s.pending, d);
  }

  /** While it is stored and nobody is before the GET, one more request wins by the script. */
  lemma OneScript(s: State, ttl: int, d: Digest) returns (fs: seq<Event>)
    requires Inv(s) && ttl > 0 && d in s.everStored && Current(s, d) && FallingWith(s.pending, d) == {}
    ensures NoFallback(fs)
    ensures var t := Continue(s, fs, ttl);
            Inv(t) && d in t.everStored && !Current(t, d) && Potential(t, d) == Potential(s, d)
  {
    var q := Unused(s.pending.Keys);
    var made := Unused(s.issued.Keys);
    var t := OnStartRefresh(s, q, made, d);
    Presents(s, q, made, d);
    ScriptAddsNothing(t, q, ttl, d);
    RunScriptKeepsInv(t, q, ttl);
    First(s, StartRefresh(q, made, d), [RunScript(q)], ttl);
    First(t, RunScript(q), [], ttl);
    assert [RunScript(q)] + [] == [RunScript(q)];
    fs := [StartRefresh(q, made, d)] + [RunScript(q)];
  }

  /** And before that, everybody before the GET passes it. */
  lemma {:induction false} AllPass(s: State, ttl: int, d: Digest) returns (fs: seq<Event>)
    requires Inv(s) && ttl > 0 && d in s.everStored && Current(s, d)
    ensures NoFallback(fs) && Uses(Continue(s, fs, ttl), d) == Potential(s, d)
    decreases |FallingWith(s.pending, d)|
  {
    if FallingWith(s.pending, d) == {} {
      fs := OneScript(s, ttl, d);
      var rest := AllSet(Continue(s, fs, ttl), ttl, d);
      ContinueMore(s, fs, rest, ttl);
      fs := fs + rest;
    } else {
      var r := Pick(FallingWith(s.pending, d));
      GetAddsNothing(s, r, d);
      FallbackGetKeepsInv(s, r);
      var rest := AllPass(OnFallbackGet(s, r), ttl, d);
      First(s, FallbackGet(r), rest, ttl);
      fs := [FallbackGet(r)] + rest;
    }
  }

  ghost predicate Reaches(s: State, fs: seq<Event>, ttl: int, d: Digest, n: nat) {
    NoFallback(fs) && Uses(Continue(s, fs, ttl), d) == n
  }

  /**
  Wherever a run stands: without another failing script, the potential of a token that has been stored is the
  greatest number of rotations it can reach.
  */
  lemma MostUses(es: seq<Event>, ttl: int, d: Digest)
    requires ttl > 0 && d in Run(es, ttl).everStored
    ensures var s := Run(es, ttl);
            && (forall fs :: NoFallback(fs) ==> Uses(Continue(s, fs, ttl), d) <= Potential(s, d))
            && (exists fs :: Reaches(s, fs, ttl, d, Potential(s, d)))
  {
    var s := Run(es, ttl);
    RunKeepsInv(es, ttl);
    forall fs | NoFallback(fs) ensures Uses(Continue(s, fs, ttl), d) <= Potential(s, d) { NeverMore(s, fs, ttl, d); }
    var fs;
    if Current(s, d) { fs := AllPass(s, ttl, d); } else { fs := AllSet(s, ttl, d); }
    assert Reaches(s, fs, ttl, d, Potential(s, d));
  }

  /** So single use lasts exactly when the potential is at most one. */
  lemma SingleUseIff(es: seq<Event>, ttl: int, d: Digest)
    requires ttl > 0 && d in Run(es, ttl).everStored
    ensures var s := Run(es, ttl);
            (forall fs :: NoFallback(fs) ==> Uses(Continue(s, fs, ttl), d) <= 1) <==> Potential(s, d) <= 1
  {
    MostUses(es, ttl, d);
  }

  /** A run after which one failing script lets a token rotate twice. */
  lemma TwoPresent(ttl: int) returns (es: seq<Event>)
    requires ttl > 0
    ensures var s := Run(es, ttl);
            && 1 in s.pending && s.pending[1] == Rotating(7, 101, 100)
            && 2 in s.pending && s.pending[2] == Rotating(7, 102, 100) && Matches(s, s.pending[1])
  {
    var s1 := OnStartLogin(NOTHING, 0, 7, 100);
    var s2 := OnStoreLogin(s1, 0, ttl);
    var s3 := OnStartRefresh(s2, 1, 101, 100);
    var last := [StartRefresh(2, 102, 100)] + [];
    var two := [StartRefresh(1, 101, 100)] + last;
    var three := [StoreLogin(0)] + two;
    First(NOTHING, StartLogin(0, 7, 100), three, ttl);
    First(s1, StoreLogin(0), two, ttl);
    First(s2, StartRefresh(1, 101, 100), last, ttl);
    First(s3, StartRefresh(2, 102, 100), [], ttl);
    es := [StartLogin(0, 7, 100)] + three;
  }

  // ---- the commands of one request, run through ----

  class TokenStore {
    var stored: map<int, Digest>

    /** The keys are as in that state of the protocol. */
    ghost predicate Holds(s: State)
      reads this
    {
      stored == s.stored
    }

    method Login(user: int, made: Digest, ttl: int)
      modifies this
      ensures forall s: State, r :: old(Holds(s)) && r in s.pending && s.pending[r] == LoggingIn(user, made) ==>
                Holds(OnStoreLogin(s, r, ttl))
      ensures ttl > 0 ==> stored == old(stored)[user := made]
      ensures ttl <= 0 ==> stored == old(stored)
    {
      if ttl > 0 {
        stored := stored[user := made];
      }
    }

    /** The compare-and-swap script. */
    method RotateScript(user: int, made: Digest, incoming: Digest, ttl: int) returns (code: int)
      modifies this
      ensures code == 1 <==> user in old(stored) && old(stored)[user] == incoming && ttl > 0
      ensures stored == if code == 1 then old(stored)[user := made] else old(stored)
    {
      if user !in stored {
        return 0;
      }
      if stored[user] != incoming {
        return 0;
      }
      if ttl <= 0 {
        return 0;
      }
      stored := stored[user := made];
      return 1;
    }

    /**
    A refresh that is not interrupted: the script when it runs (a comparison only when the lifetime is
    zero or less), the GET and SET otherwise. `scriptOk`, `getOk` and `setOk` are whether those
    commands get through.
    */
    method TryRotate(user: int, made: Digest, incoming: Digest, ttl: int, scriptOk: bool, getOk: bool, setOk: bool)
      returns (ok: bool)
      modifies this
      ensures ok ==> user in old(stored) && old(stored)[user] == incoming
      ensures ok && ttl > 0 ==> stored == old(stored)[user := made]
      ensures !ok || ttl <= 0 ==> stored == old(stored)
      ensures scriptOk && ttl > 0 ==> (ok <==> user in old(stored) && old(stored)[user] == incoming)
      ensures scriptOk && ttl > 0 ==>
                forall s: State, r ::
                  old(Holds(s)) && r in s.pending && s.pending[r] == Rotating(user, made, incoming) ==>
                    Holds(OnRunScript(s, r, ttl))
    {
      if ttl <= 0 {
        return getOk && user in stored && stored[user] == incoming;
      }
      if scriptOk {
        var code := RotateScript(user, made, incoming, ttl);
        return code == 1;
      }
      if !getOk || user !in stored || stored[user] != incoming {
        return false;
      }
      if !setOk {
        return false;
      }
      stored := stored[user := made];
      return true;
    }
  }
}
