/**
The write-behind view counter: visitors add to a Redis hash, flush runs move that hash into the
posts table. Every Redis command and every database transaction is one event; events of any number
of visitors and flush runs interleave freely, commands may fail, runs may crash between any two
events and the flush lock may lapse at any time.

A command or transaction is carried out, fails without effect, or is carried out while its answer gets
lost, so that the code takes it for failed. Where the code goes on alike in two of these cases the event
has a plain flag. Each flush run draws a fresh lock token and a fresh drain key; the model identifies the
run with both.
*/
module ViewCounter {
  import opened Common
  import opened MapSums

  type PostId = int
  type FlushId = int
  type VisitId = int
  type Viewer = string
  type Hash = map<PostId, int>

  datatype Row = Row(views: nat, deleted: bool)

  /** Where a flush run stands: the value names the last thing it completed. */
  datatype Phase =
    | Started
    | Locked
    | Renamed
    | Loaded(fields: Hash)
    | Committed
    | RolledBack
    | Merging(mergeFields: Hash, todo: set<PostId>)
    | Releasing
    | Finished

  /** Where a request for a post's page stands; `base` is the count it read from the table. */
  datatype Visit =
    | Seen(post: PostId, base: nat)
    | Fresh(post: PostId, base: nat)
    | Unbuffered(post: PostId, base: nat)
    | Applied(post: PostId, base: nat, extra: nat)
    | Gone

  datatype State = State(
    // PostgreSQL
    rows: map<PostId, Row>,
    // Redis
    buffer: Hash,
    drains: map<FlushId, Hash>,
    lock: Option<FlushId>,
    viewed: set<(PostId, Viewer)>,
    // running code
    flushes: map<FlushId, Phase>,
    visits: map<VisitId, Visit>,
    // history
    accepted: map<PostId, set<VisitId>>,      // the requests whose view of the post was counted
    repeated: map<PostId, int>,               // views put down once more because an answer got lost
    admitted: multiset<(PostId, Viewer)>,     // viewer keys newly set
    forgotten: multiset<(PostId, Viewer)>,    // viewer keys expired
    settled: set<(FlushId, PostId)>,  // drain fields already committed, or already merged back
    broken: set<FlushId>,             // runs that crashed or lost Redis and left views in their drain
    lapsed: set<FlushId>)             // runs whose lock has expired

  datatype Event =
    | ReadRow(visit: VisitId, post: PostId, base: nat)
    | CheckViewer(visit: VisitId, viewer: Viewer, consulted: bool)
    | AddToBuffer(visit: VisitId, outcome: Outcome)
    | AddToRow(visit: VisitId, outcome: Outcome)
    | SkipCounting(visit: VisitId)
    | ForgetViewer(post: PostId, viewer: Viewer)
    | BeginFlush(run: FlushId)
    | TakeLock(run: FlushId, outcome: Outcome)
    | RenameBuffer(run: FlushId, outcome: Outcome)
    | LoadDrain(run: FlushId, ok: bool)
    | CommitDrain(run: FlushId, outcome: Outcome)
    | DropDrain(run: FlushId, ok: bool)
    | ReloadDrain(run: FlushId, ok: bool)
    | MergeField(run: FlushId, post: PostId, outcome: Outcome)
    | FinishMerge(run: FlushId, ok: bool)
    | ReleaseLock(run: FlushId, ok: bool)
    | Crash(run: FlushId)
    | LapseLock
    | CreatePost(post: PostId)
    | DeletePost(post: PostId)

  // ----- single effects -----

  function HGet(h: Hash, p: PostId): int {
    if p in h then h[p] else 0
  }

  function HIncrBy(h: Hash, p: PostId, delta: int): Hash {
    h[p := HGet(h, p) + delta]
  }

  /** Two hashes added field by field. */
  function Added(h: Hash, fields: Hash): Hash {
    map p | p in h.Keys + fields.Keys :: HGet(h, p) + HGet(fields, p)
  }

  /** The transaction that folds a drain into the table: live rows gain their positive deltas. */
  function Credit(rows: map<PostId, Row>, fields: Hash): map<PostId, Row> {
    map p | p in rows ::
      if p in fields && fields[p] > 0 && !rows[p].deleted
      then rows[p].(views := rows[p].views + fields[p])
      else rows[p]
  }

  // ----- one function per event; an event that is not enabled changes nothing -----

  function Goto(s: State, f: FlushId, ph: Phase): State {
    s.(flushes := s.flushes[f := ph])
  }

  /** The run leaves its drain behind: Redis failed it, or it died, while the drain was unsettled. */
  function GiveUp(s: State, f: FlushId, ph: Phase): State {
    Goto(s, f, ph).(broken := s.broken + {f})
  }

  function MoveOn(s: State, v: VisitId, visit: Visit): State {
    s.(visits := s.visits[v := visit])
  }

  function Accept(s: State, v: VisitId, p: PostId): State {
    s.(accepted := s.accepted[p := (if p in s.accepted then s.accepted[p] else {}) + {v}])
  }

  /** `delta` views of the post may now be counted once more. */
  function Repeat(s: State, p: PostId, delta: int): State {
    s.(repeated := HIncrBy(s.repeated, p, delta))
  }

  /** A replica may lag, so any count up to the current one can be read. */
  function OnReadRow(s: State, v: VisitId, p: PostId, base: nat): State {
    if v !in s.visits && p in s.rows && !s.rows[p].deleted && base <= s.rows[p].views
    then MoveOn(s, v, Seen(p, base)) else s
  }

  function Admit(s: State, k: (PostId, Viewer)): State {
    s.(viewed := s.viewed + {k}, admitted := s.admitted + multiset{k})
  }

  function OnForgetViewer(s: State, k: (PostId, Viewer)): State {
    if k in s.viewed then s.(viewed := s.viewed - {k}, forgotten := s.forgotten + multiset{k}) else s
  }

  /**
  SET NX of the viewer key. Not consulted: deduplication is off, or Redis is absent or failing. A lost
  answer looks like one of the two: the key was new and is set, or it was there and the viewer passes.
  */
  function OnCheckViewer(s: State, v: VisitId, viewer: Viewer, consulted: bool): State {
    if v in s.visits && s.visits[v].Seen? then
      var Seen(p, base) := s.visits[v];
      if consulted && (p, viewer) in s.viewed then MoveOn(s, v, Applied(p, base, 0))
      else if consulted then Admit(MoveOn(s, v, Fresh(p, base)), (p, viewer))
      else MoveOn(s, v, Fresh(p, base))
    else s
  }

  /** When the answer is lost the view is in the buffer, and yet goes on to the fallback. */
  function OnAddToBuffer(s: State, v: VisitId, outcome: Outcome): State {
    if v in s.visits && s.visits[v].Fresh? then
      var Fresh(p, base) := s.visits[v];
      match outcome
      case Answered => Accept(MoveOn(s, v, Applied(p, base, 0)), v, p).(buffer := HIncrBy(s.buffer, p, 1))
      case Failed => MoveOn(s, v, Unbuffered(p, base))
      case AnswerLost => Repeat(MoveOn(s, v, Unbuffered(p, base)), p, 1).(buffer := HIncrBy(s.buffer, p, 1))
    else s
  }

  function Increment(rows: map<PostId, Row>, p: PostId): map<PostId, Row>
    requires p in rows
  {
    rows[p := rows[p].(views := rows[p].views + 1)]
  }

  /** The fallback transaction. On a deleted post it updates no row yet still reports success. */
  function OnAddToRow(s: State, v: VisitId, outcome: Outcome): State {
    if v in s.visits && s.visits[v].Unbuffered? then
      var Unbuffered(p, base) := s.visits[v];
      var next := if outcome.Answered? then Applied(p, base, 1) else Gone;
      if !outcome.Failed? && p in s.rows && !s.rows[p].deleted
      then Accept(MoveOn(s, v, next), v, p).(rows := Increment(s.rows, p))
      else MoveOn(s, v, next)
    else s
  }

  /** No writer session: the page is shown without counting. */
  function OnSkipCounting(s: State, v: VisitId): State {
    if v in s.visits && s.visits[v].Seen?
    then MoveOn(s, v, Applied(s.visits[v].post, s.visits[v].base, 0)) else s
  }

  function OnBeginFlush(s: State, f: FlushId): State {
    if f !in s.flushes then Goto(s, f, Started) else s
  }

  /** A run whose lock is set without its knowing leaves it to expire. */
  function OnTakeLock(s: State, f: FlushId, outcome: Outcome): State {
    if f in s.flushes && s.flushes[f].Started?
    then if outcome.Failed? || s.lock.Some? then Goto(s, f, Finished)
         else Goto(s, f, if outcome.Answered? then Locked else Finished).(lock := Some(f))
    else s
  }

  /** The script: nothing to do without a buffer, else the buffer becomes this run's drain. */
  function OnRenameBuffer(s: State, f: FlushId, outcome: Outcome): State {
    if f in s.flushes && s.flushes[f].Locked?
    then if outcome.Failed? || s.buffer == map[] then Goto(s, f, Releasing)
         else
           var t := s.(drains := s.drains[f := s.buffer], buffer := map[]);
           if outcome.Answered? then Goto(t, f, Renamed) else GiveUp(t, f, Releasing)
    else s
  }

  function OnLoadDrain(s: State, f: FlushId, ok: bool): State {
    if f in s.flushes && s.flushes[f].Renamed? && f in s.drains
    then if ok then Goto(s, f, Loaded(s.drains[f])) else GiveUp(s, f, Releasing)
    else s
  }

  /** Committing again what a lost answer hid counts every credited view once more. */
  function OnCommitDrain(s: State, f: FlushId, outcome: Outcome): State {
    if f in s.flushes && s.flushes[f].Loaded?
    then var fields := s.flushes[f].fields;
         match outcome
         case Answered => Goto(s, f, Committed).(rows := Credit(s.rows, fields),
                                                 settled := s.settled + set p | p in fields :: (f, p))
         case Failed => Goto(s, f, RolledBack)
         case AnswerLost => Goto(s, f, RolledBack).(rows := Credit(s.rows, fields),
                                                    repeated := Added(s.repeated, fields))
    else s
  }

  /** Best-effort deletion after a commit. */
  function OnDropDrain(s: State, f: FlushId, ok: bool): State {
    if f in s.flushes && s.flushes[f].Committed? then Discard(s, f, ok) else s
  }

  function Discard(s: State, f: FlushId, ok: bool): State {
    Goto(s, f, Releasing).(drains := if ok then s.drains - {f} else s.drains)
  }

  function OnReloadDrain(s: State, f: FlushId, ok: bool): State {
    if f in s.flushes && s.flushes[f].RolledBack? && f in s.drains
    then if ok then Goto(s, f, Merging(s.drains[f], s.drains[f].Keys)) else GiveUp(s, f, Releasing)
    else s
  }

  /** HINCRBY of one drain field into the buffer. */
  function Moved(s: State, f: FlushId, p: PostId, delta: int): State {
    s.(buffer := HIncrBy(s.buffer, p, delta), settled := s.settled + {(f, p)})
  }

  /** One round of the merge loop; a failure, or what looks like one, ends it with the rest still in the drain. */
  function OnMergeField(s: State, f: FlushId, p: PostId, outcome: Outcome): State {
    if f in s.flushes && s.flushes[f].Merging? && p in s.flushes[f].todo && p in s.flushes[f].mergeFields
    then var Merging(fields, todo) := s.flushes[f];
         match outcome
         case Answered => Goto(Moved(s, f, p, fields[p]), f, Merging(fields, todo - {p}))
         case Failed => GiveUp(s, f, Releasing)
         case AnswerLost =>
           if todo == {p} then Goto(Moved(s, f, p, fields[p]), f, Releasing)
           else GiveUp(Moved(s, f, p, fields[p]), f, Releasing)
    else s
  }

  function OnFinishMerge(s: State, f: FlushId, ok: bool): State {
    if f in s.flushes && s.flushes[f].Merging? && s.flushes[f].todo == {} then Discard(s, f, ok) else s
  }

  /** Compare-and-delete. */
  function OnReleaseLock(s: State, f: FlushId, ok: bool): State {
    if f in s.flushes && s.flushes[f].Releasing?
    then Goto(s, f, Finished).(lock := if ok && s.lock == Some(f) then None else s.lock)
    else s
  }

  /** Every field of the run's drain has been committed or merged back. */
  predicate AllSettled(s: State, f: FlushId)
    requires f in s.drains
  {
    forall p :: p in s.drains[f] ==> (f, p) in s.settled
  }

  /** A run that dies; it strands views only if its drain holds unsettled ones. */
  function OnCrash(s: State, f: FlushId): State {
    if f !in s.flushes || s.flushes[f].Finished? then s
    else if f in s.drains && !AllSettled(s, f) then GiveUp(s, f, Finished)
    else Goto(s, f, Finished)
  }

  function OnLapseLock(s: State): State {
    if s.lock.Some? then s.(lock := None, lapsed := s.lapsed + {s.lock.value}) else s
  }

  function OnCreatePost(s: State, p: PostId): State {
    if p in s.rows then s else s.(rows := s.rows[p := Row(0, false)], accepted := s.accepted[p := {}])
  }

  function OnDeletePost(s: State, p: PostId): State {
    if p in s.rows then s.(rows := s.rows[p := s.rows[p].(deleted := true)]) else s
  }

  function Step(s: State, e: Event): State {
    match e
    case ReadRow(v, p, base) => OnReadRow(s, v, p, base)
    case CheckViewer(v, viewer, consulted) => OnCheckViewer(s, v, viewer, consulted)
    case AddToBuffer(v, outcome) => OnAddToBuffer(s, v, outcome)
    case AddToRow(v, outcome) => OnAddToRow(s, v, outcome)
    case SkipCounting(v) => OnSkipCounting(s, v)
    case ForgetViewer(p, viewer) => OnForgetViewer(s, (p, viewer))
    case BeginFlush(f) => OnBeginFlush(s, f)
    case TakeLock(f, outcome) => OnTakeLock(s, f, outcome)
    case RenameBuffer(f, outcome) => OnRenameBuffer(s, f, outcome)
    case LoadDrain(f, ok) => OnLoadDrain(s, f, ok)
    case CommitDrain(f, outcome) => OnCommitDrain(s, f, outcome)
    case DropDrain(f, ok) => OnDropDrain(s, f, ok)
    case ReloadDrain(f, ok) => OnReloadDrain(s, f, ok)
    case MergeField(f, p, outcome) => OnMergeField(s, f, p, outcome)
    case FinishMerge(f, ok) => OnFinishMerge(s, f, ok)
    case ReleaseLock(f, ok) => OnReleaseLock(s, f, ok)
    case Crash(f) => OnCrash(s, f)
    case LapseLock => OnLapseLock(s)
    case CreatePost(p) => OnCreatePost(s, p)
    case DeletePost(p) => OnDeletePost(s, p)
  }

  function Run(s: State, es: seq<Event>): State {
    if es == [] then s else Step(Run(s, es[..|es| - 1]), es[|es| - 1])
  }

  function Boot(rows: map<PostId, Row>): State {
    State(rows, map[], map[], None, {}, map[], map[],
          map p | p in rows :: {}, map[], multiset{}, multiset{}, {}, {}, {})
  }

  // ----- what every reachable state satisfies -----

  predicate InCritical(s: State, f: FlushId) {
    f in s.flushes && !s.flushes[f].Started? && !s.flushes[f].Finished?
  }

  /** Views of `p` sitting in `f`'s drain that have been neither committed nor merged back. */
  ghost function Unsettled(s: State, f: FlushId, p: PostId): int
    requires f in s.drains
  {
    if (f, p) in s.settled then 0 else HGet(s.drains[f], p)
  }

  ghost function InFlightBy(s: State, p: PostId): map<FlushId, int> {
    map f | f in s.drains :: Unsettled(s, f, p)
  }

  ghost function InFlight(s: State, p: PostId): int {
    SumValues(InFlightBy(s, p))
  }

  /** Posts created later start at zero. */
  function Initial(start: map<PostId, Row>, p: PostId): nat {
    if p in start then start[p].views else 0
  }

  /** The accounting identity of one post. */
  ghost predicate Balanced(start: map<PostId, Row>, s: State, p: PostId)
    requires p in s.rows && p in s.accepted
  {
    s.rows[p].views + HGet(s.buffer, p) + InFlight(s, p) == Initial(start, p) + |s.accepted[p]| + HGet(s.repeated, p)
  }

  ghost predicate NoneSettled(s: State, f: FlushId) {
    forall p :: (f, p) !in s.settled
  }

  ghost predicate FlushOk(s: State, f: FlushId)
    requires f in s.flushes
  {
    && (InCritical(s, f) && f !in s.lapsed ==> s.lock == Some(f))
    && PhaseOk(s, f)
    && (f in s.broken <==> Stranded(s, f))
  }

  /** The run is over, or as good as over, and views are left in its drain. */
  ghost predicate Stranded(s: State, f: FlushId)
    requires f in s.flushes
  {
    (s.flushes[f].Releasing? || s.flushes[f].Finished?) && f in s.drains && !AllSettled(s, f)
  }

  ghost predicate PhaseOk(s: State, f: FlushId)
    requires f in s.flushes
  {
    match s.flushes[f]
    case Started => f !in s.drains && NoneSettled(s, f)
    case Locked => f !in s.drains && NoneSettled(s, f)
    case Renamed => f in s.drains && NoneSettled(s, f)
    case Loaded(fields) => f in s.drains && s.drains[f] == fields && NoneSettled(s, f)
    case Committed => f in s.drains && AllSettled(s, f)
    case RolledBack => f in s.drains && NoneSettled(s, f)
    case Merging(fields, todo) =>
      f in s.drains && s.drains[f] == fields && todo <= fields.Keys &&
      forall p :: p in fields ==> ((f, p) in s.settled <==> p !in todo)
    case Releasing => true
    case Finished => true
  }

  ghost predicate VisitOk(s: State, v: VisitId)
    requires v in s.visits
  {
    match s.visits[v]
    case Gone => true
    case Applied(p, base, extra) => p in s.rows && (!s.rows[p].deleted ==> base + extra <= s.rows[p].views)
    case visit =>
      && visit.post in s.rows && visit.base <= s.rows[visit.post].views
      && visit.post in s.accepted && v !in s.accepted[visit.post]
  }

  /** Only positive counts, of known posts. */
  ghost predicate HashOk(h: Hash, ids: set<PostId>) {
    forall p :: p in h ==> h[p] > 0 && p in ids
  }

  ghost predicate HashesOk(s: State) {
    && HashOk(s.buffer, s.rows.Keys)
    && HashOk(s.repeated, s.rows.Keys)
    && (forall f :: f in s.drains ==> f in s.flushes && s.drains[f] != map[] && HashOk(s.drains[f], s.rows.Keys))
    && s.broken <= s.flushes.Keys
    && (forall f, p :: (f, p) in s.settled ==> f in s.flushes)
  }

  /** A viewer key is there exactly while it was set once more often than it expired. */
  ghost predicate KeysOk(admitted: multiset<(PostId, Viewer)>, forgotten: multiset<(PostId, Viewer)>,
                         viewed: set<(PostId, Viewer)>) {
    forall k :: admitted[k] == forgotten[k] + if k in viewed then 1 else 0
  }

  ghost predicate BooksOk(start: map<PostId, Row>, s: State) {
    && start.Keys <= s.rows.Keys == s.accepted.Keys
    && (forall p :: p in s.rows && !s.rows[p].deleted ==> Balanced(start, s, p))
    && (forall p :: p in s.accepted ==> s.accepted[p] <= s.visits.Keys)
    && KeysOk(s.admitted, s.forgotten, s.viewed)
  }

  ghost predicate Inv(start: map<PostId, Row>, s: State) {
    && HashesOk(s)
    && BooksOk(start, s)
    && (forall f :: f in s.flushes ==> FlushOk(s, f))
    && (forall v :: v in s.visits ==> VisitOk(s, v))
  }

  // ----- an event of run `f` can only disturb what concerns `f` -----

  ghost function Own(s: State, f: FlushId, p: PostId): int {
    if f in s.drains then Unsettled(s, f, p) else 0
  }

  ghost predicate SameRun(s: State, s': State, g: FlushId) {
    && (g in s.flushes <==> g in s'.flushes)
    && (g in s.flushes ==> s'.flushes[g] == s.flushes[g])
    && (g in s.drains <==> g in s'.drains)
    && (g in s.drains ==> s'.drains[g] == s.drains[g])
    && (forall p :: (g, p) in s.settled <==> (g, p) in s'.settled)
    && (g in s.broken <==> g in s'.broken)
  }

  ghost predicate RowsGrow(rows: map<PostId, Row>, rows': map<PostId, Row>) {
    && rows.Keys == rows'.Keys
    && forall p :: p in rows ==> rows'[p].deleted == rows[p].deleted && rows[p].views <= rows'[p].views
  }

  ghost predicate SameViewers(s: State, s': State) {
    s'.viewed == s.viewed && s'.admitted == s.admitted && s'.forgotten == s.forgotten
  }

  /** Everything but run `f`, the table's counts, the buffer and a lock no other run holds is as it was. */
  ghost predicate RunMove(s: State, s': State, f: FlushId) {
    && (forall g :: g != f ==> SameRun(s, s', g))
    && RowsGrow(s.rows, s'.rows)
    && s'.visits == s.visits && s'.accepted == s.accepted && SameViewers(s, s') && s'.lapsed == s.lapsed
    && (s'.lock == s.lock || s.lock.None? || s.lock == Some(f))
  }

  /** Moving views between the table, the buffer and `f`'s own drain. */
  ghost predicate Conserves(s: State, s': State, f: FlushId, p: PostId)
    requires p in s.rows && p in s'.rows
  {
    s'.rows[p].views + HGet(s'.buffer, p) + Own(s', f, p) - HGet(s'.repeated, p)
    == s.rows[p].views + HGet(s.buffer, p) + Own(s, f, p) - HGet(s.repeated, p)
  }

  lemma InFlightMoves(s: State, s': State, f: FlushId, p: PostId)
    requires forall g :: g != f ==> SameRun(s, s', g)
    ensures InFlight(s', p) - Own(s', f, p) == InFlight(s, p) - Own(s, f, p)
  {
    var m, m' := InFlightBy(s, p), InFlightBy(s', p);
    forall g | g != f
      ensures g in m <==> g in m'
      ensures g in m ==> m'[g] == m[g]
    {
      assert SameRun(s, s', g);
    }
    assert m - {f} == m' - {f};
    if f in m { SumSplit(m, f); } else { assert m - {f} == m; }
    if f in m' { SumSplit(m', f); } else { assert m' - {f} == m'; }
  }

  lemma RunMoveKeepsInv(start: map<PostId, Row>, s: State, s': State, f: FlushId)
    requires Inv(start, s) && RunMove(s, s', f)
    requires f in s'.flushes && FlushOk(s', f)
    requires HashesOk(s')
    requires forall p :: p in s.rows && !s.rows[p].deleted ==> Conserves(s, s', f, p)
    ensures Inv(start, s')
  {
    forall p | p in s'.rows && !s'.rows[p].deleted
      ensures Balanced(start, s', p)
    {
      InFlightMoves(s, s', f, p);
      assert Conserves(s, s', f, p) && Balanced(start, s, p);
    }
    forall g | g in s'.flushes
      ensures FlushOk(s', g)
    {
      assert g != f ==> SameRun(s, s', g) && FlushOk(s, g);
    }
    forall v | v in s'.visits
      ensures VisitOk(s', v)
    {
      assert VisitOk(s, v);
    }
  }

  /** A run that only changes phase, or gives up, keeps the books. */
  lemma PhaseKeepsInv(start: map<PostId, Row>, s: State, f: FlushId, ph: Phase, lock: Option<FlushId>,
                      broken: set<FlushId>)
    requires Inv(start, s) && s.broken <= broken <= s.broken + {f}
    requires lock == s.lock || s.lock.None? || s.lock == Some(f)
    requires FlushOk(Goto(s, f, ph).(lock := lock, broken := broken), f)
    ensures Inv(start, Goto(s, f, ph).(lock := lock, broken := broken))
  {
    var s' := Goto(s, f, ph).(lock := lock, broken := broken);
    forall p | p in s.rows ensures Conserves(s, s', f, p) { }
    RunMoveKeepsInv(start, s, s', f);
  }

  lemma BeginFlushKeepsInv(start: map<PostId, Row>, s: State, f: FlushId)
    requires Inv(start, s)
    ensures Inv(start, OnBeginFlush(s, f))
  {
    if f !in s.flushes { PhaseKeepsInv(start, s, f, Started, s.lock, s.broken); }
  }

  lemma TakeLockKeepsInv(start: map<PostId, Row>, s: State, f: FlushId, outcome: Outcome)
    requires Inv(start, s)
    ensures Inv(start, OnTakeLock(s, f, outcome))
  {
    if f in s.flushes && s.flushes[f].Started? {
      assert FlushOk(s, f);
      if outcome.Failed? || s.lock.Some? {
        PhaseKeepsInv(start, s, f, Finished, s.lock, s.broken);
      } else {
        PhaseKeepsInv(start, s, f, if outcome.Answered? then Locked else Finished, Some(f), s.broken);
      }
    }
  }

  /** The atomic rename moves the whole buffer into the run's own, still empty, drain. */
  lemma RenameKeepsInv(start: map<PostId, Row>, s: State, f: FlushId, outcome: Outcome)
    requires Inv(start, s) && f in s.flushes && s.flushes[f].Locked? && s.buffer != map[] && !outcome.Failed?
    ensures Inv(start, OnRenameBuffer(s, f, outcome))
  {
    var s' := OnRenameBuffer(s, f, outcome);
    assert FlushOk(s, f);
    forall p | p in s.rows ensures Conserves(s, s', f, p) { assert (f, p) !in s.settled; }
    DrainLeft(s', f);
    RunMoveKeepsInv(start, s, s', f);
  }

  lemma RenameBufferKeepsInv(start: map<PostId, Row>, s: State, f: FlushId, outcome: Outcome)
    requires Inv(start, s)
    ensures Inv(start, OnRenameBuffer(s, f, outcome))
  {
    if f in s.flushes && s.flushes[f].Locked? {
      if outcome.Failed? || s.buffer == map[] {
        assert FlushOk(s, f);
        PhaseKeepsInv(start, s, f, Releasing, s.lock, s.broken);
      } else {
        RenameKeepsInv(start, s, f, outcome);
      }
    }
  }

  lemma DrainLeft(s: State, f: FlushId)
    requires HashesOk(s) && f in s.drains && NoneSettled(s, f)
    ensures !AllSettled(s, f)
  {
    assert s.drains[f].Keys != {};
    var p := Pick(s.drains[f].Keys);
  }

  lemma LoadDrainKeepsInv(start: map<PostId, Row>, s: State, f: FlushId, ok: bool)
    requires Inv(start, s)
    ensures Inv(start, OnLoadDrain(s, f, ok))
  {
    if f in s.flushes && s.flushes[f].Renamed? && f in s.drains {
      assert FlushOk(s, f);
      if ok {
        PhaseKeepsInv(start, s, f, Loaded(s.drains[f]), s.lock, s.broken);
      } else {
        DrainLeft(s, f);
        PhaseKeepsInv(start, s, f, Releasing, s.lock, s.broken + {f});
      }
    }
  }

  /** A committed transaction credits every live row with exactly what its drain field held. */
  lemma CommitKeepsInv(start: map<PostId, Row>, s: State, f: FlushId)
    requires Inv(start, s) && f in s.flushes && s.flushes[f].Loaded?
    ensures Inv(start, OnCommitDrain(s, f, Answered))
  {
    var s' := OnCommitDrain(s, f, Answered);
    assert FlushOk(s, f);
    forall p | p in s.rows && !s.rows[p].deleted
      ensures Conserves(s, s', f, p)
    {
      assert (f, p) !in s.settled;
    }
    RunMoveKeepsInv(start, s, s', f);
  }

  lemma HiddenCommitKeepsHashes(s: State, f: FlushId)
    requires HashesOk(s) && f in s.flushes && s.flushes[f].Loaded? && PhaseOk(s, f)
    ensures HashesOk(OnCommitDrain(s, f, AnswerLost))
  {
    var s' := OnCommitDrain(s, f, AnswerLost);
    assert HashOk(s.drains[f], s.rows.Keys);
    assert HashOk(s'.repeated, s.rows.Keys) && s'.rows.Keys == s.rows.Keys;
  }

  /** If the answer is lost the drain still owes what it has just paid. */
  lemma HiddenCommitKeepsInv(start: map<PostId, Row>, s: State, f: FlushId)
    requires Inv(start, s) && f in s.flushes && s.flushes[f].Loaded?
    ensures Inv(start, OnCommitDrain(s, f, AnswerLost))
  {
    var s' := OnCommitDrain(s, f, AnswerLost);
    assert FlushOk(s, f);
    HiddenCommitKeepsHashes(s, f);
    forall p | p in s.rows && !s.rows[p].deleted ensures Conserves(s, s', f, p) { }
    RunMoveKeepsInv(start, s, s', f);
  }

  lemma CommitDrainKeepsInv(start: map<PostId, Row>, s: State, f: FlushId, outcome: Outcome)
    requires Inv(start, s)
    ensures Inv(start, OnCommitDrain(s, f, outcome))
  {
    if f in s.flushes && s.flushes[f].Loaded? {
      match outcome
      case Answered => CommitKeepsInv(start, s, f);
      case AnswerLost => HiddenCommitKeepsInv(start, s, f);
      case Failed =>
        assert FlushOk(s, f);
        PhaseKeepsInv(start, s, f, RolledBack, s.lock, s.broken);
    }
  }

  /** Deleting a drain whose every field is settled removes no view. */
  lemma DiscardKeepsInv(start: map<PostId, Row>, s: State, f: FlushId, ok: bool)
    requires Inv(start, s) && f in s.drains && InCritical(s, f) && AllSettled(s, f)
    ensures Inv(start, Discard(s, f, ok))
  {
    var s' := Discard(s, f, ok);
    assert FlushOk(s, f);
    forall p | p in s.rows ensures Conserves(s, s', f, p) { }
    RunMoveKeepsInv(start, s, s', f);
  }

  lemma ReloadDrainKeepsInv(start: map<PostId, Row>, s: State, f: FlushId, ok: bool)
    requires Inv(start, s)
    ensures Inv(start, OnReloadDrain(s, f, ok))
  {
    if f in s.flushes && s.flushes[f].RolledBack? && f in s.drains {
      assert FlushOk(s, f);
      if ok {
        PhaseKeepsInv(start, s, f, Merging(s.drains[f], s.drains[f].Keys), s.lock, s.broken);
      } else {
        DrainLeft(s, f);
        PhaseKeepsInv(start, s, f, Releasing, s.lock, s.broken + {f});
      }
    }
  }

  /** After a step of the merge exactly the fields still to do are unsettled. */
  lemma RestOfMerge(s: State, f: FlushId, q: PostId, s': State)
    requires f in s.flushes && s.flushes[f].Merging? && PhaseOk(s, f) && q in s.flushes[f].todo
    requires s'.drains == s.drains && s'.settled == s.settled + {(f, q)}
    ensures AllSettled(s', f) <==> s.flushes[f].todo == {q}
  {
    var todo := s.flushes[f].todo;
    if todo != {q} {
      var p := Pick(todo - {q});
      assert p in s.drains[f] && (f, p) !in s'.settled;
    }
  }

  ghost function AfterMerge(s: State, f: FlushId, q: PostId, ph: Phase, broken: set<FlushId>): State
    requires f in s.drains && q in s.drains[f]
  {
    Goto(Moved(s, f, q, s.drains[f][q]), f, ph).(broken := broken)
  }

  lemma MovedConserves(s: State, f: FlushId, q: PostId, ph: Phase, broken: set<FlushId>, p: PostId)
    requires f in s.drains && q in s.drains[f] && (f, q) !in s.settled && p in s.rows
    ensures Conserves(s, AfterMerge(s, f, q, ph, broken), f, p)
  {
    assert (f, p) in AfterMerge(s, f, q, ph, broken).settled <==> (f, p) in s.settled || p == q;
  }

  lemma MovedKeepsInv(start: map<PostId, Row>, s: State, f: FlushId, q: PostId, ph: Phase, broken: set<FlushId>)
    requires Inv(start, s) && f in s.flushes && f in s.drains && q in s.drains[f] && (f, q) !in s.settled
    requires s.broken <= broken <= s.broken + {f}
    requires FlushOk(AfterMerge(s, f, q, ph, broken), f)
    ensures Inv(start, AfterMerge(s, f, q, ph, broken))
  {
    var s' := AfterMerge(s, f, q, ph, broken);
    assert HashOk(s.drains[f], s.rows.Keys);
    forall p | p in s.rows ensures Conserves(s, s', f, p) { MovedConserves(s, f, q, ph, broken, p); }
    RunMoveKeepsInv(start, s, s', f);
  }

  /** Each merge step moves one field from the drain to the buffer and marks it as moved. */
  lemma MergeKeepsInv(start: map<PostId, Row>, s: State, f: FlushId, q: PostId, outcome: Outcome)
    requires Inv(start, s) && f in s.flushes && s.flushes[f].Merging? && !outcome.Failed?
    requires q in s.flushes[f].todo && q in s.flushes[f].mergeFields
    ensures Inv(start, OnMergeField(s, f, q, outcome))
  {
    var Merging(fields, todo) := s.flushes[f];
    assert FlushOk(s, f);
    if outcome.Answered? {
      MovedKeepsInv(start, s, f, q, Merging(fields, todo - {q}), s.broken);
    } else {
      var broken := if todo == {q} then s.broken else s.broken + {f};
      RestOfMerge(s, f, q, AfterMerge(s, f, q, Releasing, broken));
      MovedKeepsInv(start, s, f, q, Releasing, broken);
    }
  }

  lemma MergeFieldKeepsInv(start: map<PostId, Row>, s: State, f: FlushId, q: PostId, outcome: Outcome)
    requires Inv(start, s)
    ensures Inv(start, OnMergeField(s, f, q, outcome))
  {
    if f in s.flushes && s.flushes[f].Merging? && q in s.flushes[f].todo && q in s.flushes[f].mergeFields {
      if outcome.Failed? {
        PhaseKeepsInv(start, s, f, Releasing, s.lock, s.broken + {f});
      } else {
        MergeKeepsInv(start, s, f, q, outcome);
      }
    }
  }

  lemma DropDrainKeepsInv(start: map<PostId, Row>, s: State, f: FlushId, ok: bool)
    requires Inv(start, s)
    ensures Inv(start, OnDropDrain(s, f, ok))
  {
    if f in s.flushes && s.flushes[f].Committed? {
      assert FlushOk(s, f);
      DiscardKeepsInv(start, s, f, ok);
    }
  }

  lemma FinishMergeKeepsInv(start: map<PostId, Row>, s: State, f: FlushId, ok: bool)
    requires Inv(start, s)
    ensures Inv(start, OnFinishMerge(s, f, ok))
  {
    if f in s.flushes && s.flushes[f].Merging? && s.flushes[f].todo == {} {
      assert FlushOk(s, f);
      DiscardKeepsInv(start, s, f, ok);
    }
  }

  lemma ReleaseLockKeepsInv(start: map<PostId, Row>, s: State, f: FlushId, ok: bool)
    requires Inv(start, s)
    ensures Inv(start, OnReleaseLock(s, f, ok))
  {
    if f in s.flushes && s.flushes[f].Releasing? {
      assert FlushOk(s, f);
      PhaseKeepsInv(start, s, f, Finished, if ok && s.lock == Some(f) then None else s.lock, s.broken);
    }
  }

  lemma CrashKeepsInv(start: map<PostId, Row>, s: State, f: FlushId)
    requires Inv(start, s)
    ensures Inv(start, OnCrash(s, f))
  {
    if f in s.flushes && !s.flushes[f].Finished? {
      assert FlushOk(s, f);
      if f in s.drains && !AllSettled(s, f) {
        PhaseKeepsInv(start, s, f, Finished, s.lock, s.broken + {f});
      } else {
        PhaseKeepsInv(start, s, f, Finished, s.lock, s.broken);
      }
    }
  }

  // ----- requests touch neither drains nor runs -----

  lemma BystanderRuns(start: map<PostId, Row>, s: State, s': State)
    requires Inv(start, s)
    requires s'.flushes == s.flushes && s'.drains == s.drains && s'.settled == s.settled && s'.broken == s.broken
    requires s'.lapsed == s.lapsed && s'.lock == s.lock
    ensures forall f :: f in s'.flushes ==> FlushOk(s', f)
    ensures forall p :: InFlight(s', p) == InFlight(s, p)
  {
    forall f | f in s'.flushes ensures FlushOk(s', f) { assert FlushOk(s, f); }
    forall p ensures InFlight(s', p) == InFlight(s, p) { assert InFlightBy(s', p) == InFlightBy(s, p); }
  }

  lemma OtherVisits(s: State, s': State, v: VisitId)
    requires forall w :: w in s.visits ==> VisitOk(s, w)
    requires RowsGrow(s.rows, s'.rows)
    requires s'.accepted.Keys == s.accepted.Keys
    requires forall p :: p in s.accepted ==> s'.accepted[p] <= s.accepted[p] + {v}
    requires v in s'.visits && s'.visits == s.visits[v := s'.visits[v]] && VisitOk(s', v)
    ensures forall w :: w in s'.visits ==> VisitOk(s', w)
  {
  }

  /** A request that moves on without counting anything. */
  lemma MovingOnKeepsInv(start: map<PostId, Row>, s: State, v: VisitId, visit: Visit)
    requires Inv(start, s)
    requires VisitOk(MoveOn(s, v, visit), v)
    ensures Inv(start, MoveOn(s, v, visit))
  {
    var s' := MoveOn(s, v, visit);
    BystanderRuns(start, s, s');
    OtherVisits(s, s', v);
    forall p | p in s'.rows && !s'.rows[p].deleted ensures Balanced(start, s', p) { assert Balanced(start, s, p); }
  }

  /** What one post has, beside what is in flight. */
  function OnBooks(s: State, p: PostId): int
    requires p in s.rows && p in s.accepted
  {
    s.rows[p].views + HGet(s.buffer, p) - |s.accepted[p]| - HGet(s.repeated, p)
  }

  /** A request that counts: only its own visit moves, and each post gains as much on either side of the books. */
  lemma CountedKeepsInv(start: map<PostId, Row>, s: State, s': State, v: VisitId)
    requires Inv(start, s) && HashesOk(s') && RowsGrow(s.rows, s'.rows) && SameViewers(s, s')
    requires s'.flushes == s.flushes && s'.drains == s.drains && s'.settled == s.settled && s'.broken == s.broken
    requires s'.lapsed == s.lapsed && s'.lock == s.lock
    requires v in s.visits && v in s'.visits && s'.visits == s.visits[v := s'.visits[v]] && VisitOk(s', v)
    requires s'.accepted.Keys == s.accepted.Keys
    requires forall p :: p in s.accepted ==> s'.accepted[p] <= s.accepted[p] + {v}
    requires forall p :: p in s.rows && !s.rows[p].deleted ==> OnBooks(s', p) == OnBooks(s, p)
    ensures Inv(start, s')
  {
    BystanderRuns(start, s, s');
    OtherVisits(s, s', v);
    forall p | p in s'.rows && !s'.rows[p].deleted ensures Balanced(start, s', p) {
      assert Balanced(start, s, p) && OnBooks(s', p) == OnBooks(s, p);
    }
  }

  lemma BufferedOnBooks(s: State, v: VisitId, outcome: Outcome, p: PostId)
    requires v in s.visits && s.visits[v].Fresh? && VisitOk(s, v) && p in s.rows && p in s.accepted && !outcome.Failed?
    ensures var s' := OnAddToBuffer(s, v, outcome); p in s'.accepted && OnBooks(s', p) == OnBooks(s, p)
  {
  }

  /** A view accepted by the buffer adds one to each side of the books, as accepted or as repeated. */
  lemma BufferKeepsInv(start: map<PostId, Row>, s: State, v: VisitId, outcome: Outcome)
    requires Inv(start, s) && v in s.visits && s.visits[v].Fresh? && !outcome.Failed?
    ensures Inv(start, OnAddToBuffer(s, v, outcome))
  {
    var s' := OnAddToBuffer(s, v, outcome);
    assert VisitOk(s, v);
    forall p | p in s.rows ensures OnBooks(s', p) == OnBooks(s, p) { BufferedOnBooks(s, v, outcome, p); }
    assert s'.visits == s.visits[v := s'.visits[v]];
    CountedKeepsInv(start, s, s', v);
  }

  lemma DirectOnBooks(s: State, v: VisitId, outcome: Outcome, p: PostId)
    requires v in s.visits && s.visits[v].Unbuffered? && VisitOk(s, v) && p in s.rows && p in s.accepted
    requires !s.rows[s.visits[v].post].deleted && !outcome.Failed?
    ensures var s' := OnAddToRow(s, v, outcome); p in s'.accepted && p in s'.rows && OnBooks(s', p) == OnBooks(s, p)
  {
  }

  /** So does a view written straight to the table. */
  lemma DirectKeepsInv(start: map<PostId, Row>, s: State, v: VisitId, outcome: Outcome)
    requires Inv(start, s) && v in s.visits && s.visits[v].Unbuffered? && !s.rows[s.visits[v].post].deleted
    requires !outcome.Failed?
    ensures Inv(start, OnAddToRow(s, v, outcome))
  {
    var s' := OnAddToRow(s, v, outcome);
    assert VisitOk(s, v);
    forall p | p in s.rows ensures OnBooks(s', p) == OnBooks(s, p) { DirectOnBooks(s, v, outcome, p); }
    assert s'.visits == s.visits[v := s'.visits[v]];
    CountedKeepsInv(start, s, s', v);
  }

  lemma CountingKeepsInv(start: map<PostId, Row>, s: State, v: VisitId, outcome: Outcome)
    requires Inv(start, s)
    ensures Inv(start, OnAddToBuffer(s, v, outcome)) && Inv(start, OnAddToRow(s, v, outcome))
  {
    if v in s.visits {
      assert VisitOk(s, v);
      match s.visits[v]
      case Fresh(p, base) =>
        if outcome.Failed? { MovingOnKeepsInv(start, s, v, Unbuffered(p, base)); }
        else { BufferKeepsInv(start, s, v, outcome); }
      case Unbuffered(p, base) =>
        if !outcome.Failed? && !s.rows[p].deleted { DirectKeepsInv(start, s, v, outcome); }
        else { MovingOnKeepsInv(start, s, v, if outcome.Answered? then Applied(p, base, 1) else Gone); }
      case _ =>
    }
  }

  /** A viewer key is set only when absent ... */
  lemma AdmitKeepsInv(start: map<PostId, Row>, s: State, k: (PostId, Viewer))
    requires Inv(start, s) && k !in s.viewed
    ensures Inv(start, Admit(s, k))
  {
    BystanderRuns(start, s, Admit(s, k));
  }

  lemma ForgetKeepsKeys(s: State, k: (PostId, Viewer))
    requires KeysOk(s.admitted, s.forgotten, s.viewed)
    ensures var t := OnForgetViewer(s, k); KeysOk(t.admitted, t.forgotten, t.viewed)
  {
  }

  lemma ForgetBalances(start: map<PostId, Row>, s: State, k: (PostId, Viewer), p: PostId)
    requires p in s.rows && p in s.accepted && Balanced(start, s, p)
    ensures Balanced(start, OnForgetViewer(s, k), p)
  {
    assert InFlightBy(OnForgetViewer(s, k), p) == InFlightBy(s, p);
  }

  lemma ForgetKeepsBooks(start: map<PostId, Row>, s: State, k: (PostId, Viewer))
    requires BooksOk(start, s)
    ensures BooksOk(start, OnForgetViewer(s, k))
  {
    var s' := OnForgetViewer(s, k);
    ForgetKeepsKeys(s, k);
    forall p | p in s.rows && !s.rows[p].deleted ensures Balanced(start, s', p) {
      ForgetBalances(start, s, k, p);
    }
  }

  /** ... and expires only when present. */
  lemma ForgetKeepsInv(start: map<PostId, Row>, s: State, k: (PostId, Viewer))
    requires Inv(start, s)
    ensures Inv(start, OnForgetViewer(s, k))
  {
    var s' := OnForgetViewer(s, k);
    BystanderRuns(start, s, s');
    ForgetKeepsBooks(start, s, k);
    forall v | v in s'.visits ensures VisitOk(s', v) { assert VisitOk(s, v); }
  }

  lemma CheckViewerKeepsInv(start: map<PostId, Row>, s: State, v: VisitId, viewer: Viewer, consulted: bool)
    requires Inv(start, s)
    ensures Inv(start, OnCheckViewer(s, v, viewer, consulted)) && Inv(start, OnSkipCounting(s, v))
  {
    if v in s.visits && s.visits[v].Seen? {
      assert VisitOk(s, v);
      var Seen(p, base) := s.visits[v];
      MovingOnKeepsInv(start, s, v, Applied(p, base, 0));
      MovingOnKeepsInv(start, s, v, Fresh(p, base));
      if consulted && (p, viewer) !in s.viewed {
        AdmitKeepsInv(start, MoveOn(s, v, Fresh(p, base)), (p, viewer));
      }
    }
  }

  lemma ReadRowKeepsInv(start: map<PostId, Row>, s: State, v: VisitId, p: PostId, base: nat)
    requires Inv(start, s)
    ensures Inv(start, OnReadRow(s, v, p, base))
  {
    if OnReadRow(s, v, p, base) != s {
      MovingOnKeepsInv(start, s, v, Seen(p, base));
    }
  }

  lemma LapseKeepsRuns(start: map<PostId, Row>, s: State)
    requires Inv(start, s)
    ensures var s' := OnLapseLock(s); HashesOk(s') && forall f :: f in s'.flushes ==> FlushOk(s', f)
  {
    var s' := OnLapseLock(s);
    forall f | f in s'.flushes ensures FlushOk(s', f) { assert FlushOk(s, f); }
  }

  lemma LapseKeepsBooks(start: map<PostId, Row>, s: State)
    requires BooksOk(start, s)
    ensures BooksOk(start, OnLapseLock(s))
  {
    var s' := OnLapseLock(s);
    forall p | p in s'.rows && !s'.rows[p].deleted ensures Balanced(start, s', p) {
      assert InFlightBy(s', p) == InFlightBy(s, p);
      assert Balanced(start, s, p);
    }
  }

  lemma LapseKeepsInv(start: map<PostId, Row>, s: State)
    requires Inv(start, s)
    ensures Inv(start, OnLapseLock(s))
  {
    var s' := OnLapseLock(s);
    LapseKeepsRuns(start, s);
    LapseKeepsBooks(start, s);
    forall v | v in s'.visits ensures VisitOk(s', v) { assert VisitOk(s, v); }
  }

  /** Nothing is buffered or drained for a post that does not exist yet. */
  lemma NothingYet(s: State, p: PostId)
    requires HashesOk(s) && p !in s.rows
    ensures HGet(s.buffer, p) == 0 && InFlight(s, p) == 0
  {
    assert HashOk(s.buffer, s.rows.Keys);
    forall f | f in s.drains ensures Unsettled(s, f, p) == 0 { assert HashOk(s.drains[f], s.rows.Keys); }
    SumOfZeros(InFlightBy(s, p));
  }

  lemma CreatePostKeepsHashes(s: State, p: PostId)
    requires HashesOk(s)
    ensures HashesOk(OnCreatePost(s, p))
  {
    var s' := OnCreatePost(s, p);
    forall f | f in s'.drains ensures HashOk(s'.drains[f], s'.rows.Keys) { assert HashOk(s.drains[f], s.rows.Keys); }
  }

  lemma CreatePostKeepsBooks(start: map<PostId, Row>, s: State, p: PostId)
    requires HashesOk(s) && BooksOk(start, s) && p !in s.rows
    ensures BooksOk(start, OnCreatePost(s, p))
  {
    var s' := OnCreatePost(s, p);
    NothingYet(s, p);
    forall q | q in s'.rows && !s'.rows[q].deleted ensures Balanced(start, s', q) {
      assert InFlightBy(s', q) == InFlightBy(s, q);
      assert q != p ==> Balanced(start, s, q);
    }
  }

  lemma CreatePostKeepsInv(start: map<PostId, Row>, s: State, p: PostId)
    requires Inv(start, s)
    ensures Inv(start, OnCreatePost(s, p))
  {
    var s' := OnCreatePost(s, p);
    CreatePostKeepsHashes(s, p);
    if p !in s.rows { CreatePostKeepsBooks(start, s, p); }
    BystanderRuns(start, s, s');
    forall v | v in s'.visits ensures VisitOk(s', v) { assert VisitOk(s, v); }
  }

  lemma DeletePostKeepsInv(start: map<PostId, Row>, s: State, p: PostId)
    requires Inv(start, s)
    ensures Inv(start, OnDeletePost(s, p))
  {
    var s' := OnDeletePost(s, p);
    BystanderRuns(start, s, s');
    forall v | v in s'.visits ensures VisitOk(s', v) { assert VisitOk(s, v); }
  }

  // ----- whole runs -----

  predicate FromRequest(e: Event) {
    || e.ReadRow? || e.CheckViewer? || e.AddToBuffer? || e.AddToRow? || e.SkipCounting? || e.ForgetViewer?
    || e.CreatePost? || e.DeletePost?
  }

  lemma RequestStepKeepsInv(start: map<PostId, Row>, s: State, e: Event)
    requires Inv(start, s) && FromRequest(e)
    ensures Inv(start, Step(s, e))
  {
    match e
    case ReadRow(v, p, base) => ReadRowKeepsInv(start, s, v, p, base);
    case CheckViewer(v, viewer, consulted) => CheckViewerKeepsInv(start, s, v, viewer, consulted);
    case AddToBuffer(v, outcome) => CountingKeepsInv(start, s, v, outcome);
    case AddToRow(v, outcome) => CountingKeepsInv(start, s, v, outcome);
    case SkipCounting(v) => CheckViewerKeepsInv(start, s, v, "", false);
    case ForgetViewer(p, viewer) => ForgetKeepsInv(start, s, (p, viewer));
    case CreatePost(p) => CreatePostKeepsInv(start, s, p);
    case DeletePost(p) => DeletePostKeepsInv(start, s, p);
  }

  predicate EndsRun(e: Event) {
    e.DropDrain? || e.FinishMerge? || e.ReleaseLock? || e.Crash? || e.LapseLock?
  }

  lemma EndStepKeepsInv(start: map<PostId, Row>, s: State, e: Event)
    requires Inv(start, s) && EndsRun(e)
    ensures Inv(start, Step(s, e))
  {
    match e
    case DropDrain(f, ok) => DropDrainKeepsInv(start, s, f, ok);
    case FinishMerge(f, ok) => FinishMergeKeepsInv(start, s, f, ok);
    case ReleaseLock(f, ok) => ReleaseLockKeepsInv(start, s, f, ok);
    case Crash(f) => CrashKeepsInv(start, s, f);
    case LapseLock => LapseKeepsInv(start, s);
  }

  lemma RunStepKeepsInv(start: map<PostId, Row>, s: State, e: Event)
    requires Inv(start, s) && !FromRequest(e) && !EndsRun(e)
    ensures Inv(start, Step(s, e))
  {
    match e
    case BeginFlush(f) => BeginFlushKeepsInv(start, s, f);
    case TakeLock(f, outcome) => TakeLockKeepsInv(start, s, f, outcome);
    case RenameBuffer(f, outcome) => RenameBufferKeepsInv(start, s, f, outcome);
    case LoadDrain(f, ok) => LoadDrainKeepsInv(start, s, f, ok);
    case CommitDrain(f, outcome) => CommitDrainKeepsInv(start, s, f, outcome);
    case ReloadDrain(f, ok) => ReloadDrainKeepsInv(start, s, f, ok);
    case MergeField(f, p, outcome) => MergeFieldKeepsInv(start, s, f, p, outcome);
  }

  lemma StepKeepsInv(start: map<PostId, Row>, s: State, e: Event)
    requires Inv(start, s)
    ensures Inv(start, Step(s, e))
  {
    if FromRequest(e) {
      RequestStepKeepsInv(start, s, e);
    } else if EndsRun(e) {
      EndStepKeepsInv(start, s, e);
    } else {
      RunStepKeepsInv(start, s, e);
    }
  }

  lemma {:induction false} RunKeepsInv(rows: map<PostId, Row>, es: seq<Event>)
    ensures Inv(rows, Run(Boot(rows), es))
  {
    if es == [] {
      var s := Boot(rows);
      forall p | p in rows ensures Balanced(rows, s, p) { assert InFlightBy(s, p) == map[]; }
    } else {
      RunKeepsInv(rows, es[..|es| - 1]);
      StepKeepsInv(rows, Run(Boot(rows), es[..|es| - 1]), es[|es| - 1]);
    }
  }

  /**
  Conservation: in every interleaving no accepted view is lost from the books, and none is counted twice
  but those that a lost answer made the code put down once more.
  */
  lemma Conservation(rows: map<PostId, Row>, es: seq<Event>, p: PostId)
    ensures var s := Run(Boot(rows), es);
            && (p in rows ==> p in s.rows) && (p in s.rows ==> p in s.accepted)
            && (p in s.rows && !s.rows[p].deleted ==>
                  s.rows[p].views + HGet(s.buffer, p) + InFlight(s, p)
                  == Initial(rows, p) + |s.accepted[p]| + HGet(s.repeated, p))
  {
    RunKeepsInv(rows, es);
    assert var s := Run(Boot(rows), es); p in s.rows && !s.rows[p].deleted ==> Balanced(rows, s, p);
  }

  /** The answer to an increment of the buffer or to a flush transaction got lost. */
  predicate Hides(e: Event) {
    (e.AddToBuffer? || e.CommitDrain?) && e.outcome.AnswerLost?
  }

  /** Nothing of a post is put down twice as long as every such answer arrives. */
  lemma {:induction false} NothingRepeated(rows: map<PostId, Row>, es: seq<Event>, p: PostId)
    requires forall i :: 0 <= i < |es| ==> !Hides(es[i])
    ensures p !in Run(Boot(rows), es).repeated
    decreases |es|
  {
    if es != [] {
      var s, e := Run(Boot(rows), es[..|es| - 1]), es[|es| - 1];
      NothingRepeated(rows, es[..|es| - 1], p);
      if FromRequest(e) { RequestKeepsUnrepeated(s, e, p); }
      else if EndsRun(e) { EndKeepsUnrepeated(s, e, p); }
      else { FlushKeepsUnrepeated(s, e, p); }
    }
  }

  lemma BufferingRepeatsNothing(s: State, v: VisitId, outcome: Outcome, p: PostId)
    requires p !in s.repeated && !outcome.AnswerLost?
    ensures p !in OnAddToBuffer(s, v, outcome).repeated
  {
  }

  lemma FallbackRepeatsNothing(s: State, v: VisitId, outcome: Outcome, p: PostId)
    requires p !in s.repeated
    ensures p !in OnAddToRow(s, v, outcome).repeated
  {
  }

  lemma CheckingRepeatsNothing(s: State, v: VisitId, viewer: Viewer, consulted: bool, p: PostId)
    requires p !in s.repeated
    ensures p !in OnCheckViewer(s, v, viewer, consulted).repeated
  {
  }

  lemma RequestKeepsUnrepeated(s: State, e: Event, p: PostId)
    requires FromRequest(e) && !Hides(e) && p !in s.repeated
    ensures p !in Step(s, e).repeated
  {
    match e
    case CheckViewer(v, viewer, consulted) => CheckingRepeatsNothing(s, v, viewer, consulted, p);
    case AddToBuffer(v, outcome) => BufferingRepeatsNothing(s, v, outcome, p);
    case AddToRow(v, outcome) => FallbackRepeatsNothing(s, v, outcome, p);
    case _ =>
  }

  lemma EndKeepsUnrepeated(s: State, e: Event, p: PostId)
    requires EndsRun(e) && p !in s.repeated
    ensures p !in Step(s, e).repeated
  {
  }

  lemma MergeRepeatsNothing(s: State, f: FlushId, q: PostId, outcome: Outcome, p: PostId)
    requires p !in s.repeated
    ensures p !in OnMergeField(s, f, q, outcome).repeated
  {
  }

  lemma RenameRepeatsNothing(s: State, f: FlushId, outcome: Outcome, p: PostId)
    requires p !in s.repeated
    ensures p !in OnRenameBuffer(s, f, outcome).repeated
  {
  }

  lemma FlushKeepsUnrepeated(s: State, e: Event, p: PostId)
    requires !FromRequest(e) && !EndsRun(e) && !Hides(e) && p !in s.repeated
    ensures p !in Step(s, e).repeated
  {
    match e
    case MergeField(f, q, outcome) => MergeRepeatsNothing(s, f, q, outcome, p);
    case RenameBuffer(f, outcome) => RenameRepeatsNothing(s, f, outcome, p);
    case _ =>
  }

  /** And it is put down twice when one does not: one visit then adds two to what the post has. */
  lemma LostAnswerCountsTwice(rows: map<PostId, Row>, es: seq<Event>, v: VisitId)
    requires var s := Run(Boot(rows), es);
             v in s.visits && s.visits[v].Fresh? && s.visits[v].post in s.rows && !s.rows[s.visits[v].post].deleted
    ensures var s := Run(Boot(rows), es); var p := s.visits[v].post;
            var t := Run(Boot(rows), es + [AddToBuffer(v, AnswerLost)] + [AddToRow(v, Answered)]);
            && p in t.rows && p in s.accepted && p in t.accepted && |t.accepted[p]| == |s.accepted[p]| + 1
            && t.rows[p].views + HGet(t.buffer, p) + InFlight(t, p)
               == s.rows[p].views + HGet(s.buffer, p) + InFlight(s, p) + 2
  {
    var s := Run(Boot(rows), es);
    var p, one := s.visits[v].post, es + [AddToBuffer(v, AnswerLost)];
    assert one[..|one| - 1] == es && (one + [AddToRow(v, Answered)])[..|one|] == one;
    var t := OnAddToRow(OnAddToBuffer(s, v, AnswerLost), v, Answered);
    assert InFlightBy(t, p) == InFlightBy(s, p);
    RunKeepsInv(rows, es);
    assert VisitOk(s, v);
  }

  /** What a page would show if its request read the buffer now (an unreadable buffer counts as 0). */
  function Shown(s: State, v: VisitId, readable: bool): (n: int)
    requires v in s.visits && s.visits[v].Applied?
  {
    s.visits[v].base + s.visits[v].extra + (if readable then HGet(s.buffer, s.visits[v].post) else 0)
  }

  /** The displayed count of a post never exceeds the views put down by the time the buffer is read. */
  lemma NeverOverReports(rows: map<PostId, Row>, es: seq<Event>, v: VisitId, readable: bool)
    requires var s := Run(Boot(rows), es); v in s.visits && s.visits[v].Applied?
    ensures var s := Run(Boot(rows), es);
            var p := s.visits[v].post;
            && p in s.rows && p in s.accepted
            && (!s.rows[p].deleted ==>
                  Shown(s, v, readable) <= Initial(rows, p) + |s.accepted[p]| + HGet(s.repeated, p))
  {
    var s := Run(Boot(rows), es);
    var p := s.visits[v].post;
    RunKeepsInv(rows, es);
    assert VisitOk(s, v);
    if !s.rows[p].deleted {
      assert Balanced(rows, s, p);
      SumNonNegative(InFlightBy(s, p));
    }
  }

  ghost predicate AllOver(s: State) {
    forall f :: f in s.flushes ==> s.flushes[f].Finished?
  }

  /** Once every run has ended, views are stuck in a drain exactly when some run left unsettled ones there. */
  lemma StrandedIff(rows: map<PostId, Row>, es: seq<Event>)
    requires AllOver(Run(Boot(rows), es))
    ensures var s := Run(Boot(rows), es); s.broken == {} <==> forall p :: InFlight(s, p) == 0
  {
    var s := Run(Boot(rows), es);
    RunKeepsInv(rows, es);
    if s.broken == {} {
      forall p ensures InFlight(s, p) == 0 {
        forall f | f in s.drains ensures Unsettled(s, f, p) == 0 { assert FlushOk(s, f); }
        SumOfZeros(InFlightBy(s, p));
      }
    } else {
      var f := Pick(s.broken);
      assert FlushOk(s, f);
      var p :| p in s.drains[f] && (f, p) !in s.settled;
      SumSplit(InFlightBy(s, p), f);
      SumNonNegative(InFlightBy(s, p) - {f});
      assert InFlight(s, p) > 0;
    }
  }

  /** Then the table and the buffer together hold every view. */
  lemma NothingStranded(rows: map<PostId, Row>, es: seq<Event>, p: PostId)
    requires var s := Run(Boot(rows), es); AllOver(s) && s.broken == {}
    ensures var s := Run(Boot(rows), es);
            p in s.rows && !s.rows[p].deleted ==>
              && p in s.accepted
              && s.rows[p].views + HGet(s.buffer, p) == Initial(rows, p) + |s.accepted[p]| + HGet(s.repeated, p)
  {
    Conservation(rows, es, p);
    StrandedIff(rows, es);
  }

  /** While Redis answers, a viewer passes at most once more often than that viewer's key has expired. */
  lemma ViewerCountedOnce(rows: map<PostId, Row>, es: seq<Event>, k: (PostId, Viewer))
    ensures var s := Run(Boot(rows), es); s.admitted[k] <= s.forgotten[k] + 1
  {
    RunKeepsInv(rows, es);
  }

  /** Of the runs whose own lock has not expired, at most one is past the lock: a release never frees another's. */
  lemma OneFlushAtATime(rows: map<PostId, Row>, es: seq<Event>, f: FlushId, g: FlushId)
    requires var s := Run(Boot(rows), es); InCritical(s, f) && InCritical(s, g) && f !in s.lapsed && g !in s.lapsed
    ensures f == g
  {
    var s := Run(Boot(rows), es);
    RunKeepsInv(rows, es);
    assert FlushOk(s, f) && FlushOk(s, g);
  }

  // ----- the two loops over a drain's fields -----

  ghost function Positive(fields: Hash): Hash {
    map p | p in fields && fields[p] > 0 :: fields[p]
  }

  /** UPDATE posts SET view_count = view_count + delta WHERE id = p AND deleted_at IS NULL. */
  function IncrementDelta(rows: map<PostId, Row>, p: PostId, delta: int): map<PostId, Row> {
    if delta > 0 && p in rows && !rows[p].deleted
    then rows[p := rows[p].(views := rows[p].views + delta)]
    else rows
  }

  lemma CreditOneMore(rows: map<PostId, Row>, done: Hash, p: PostId, delta: int)
    requires p !in done
    ensures Credit(rows, done[p := delta]) == IncrementDelta(Credit(rows, done), p, delta)
  {
  }

  lemma PositiveOneMore(done: Hash, p: PostId, delta: int)
    requires p !in done
    ensures SumValues(Positive(done[p := delta])) == SumValues(Positive(done)) + Max(delta, 0)
  {
    if delta > 0 {
      assert Positive(done[p := delta]) == Positive(done)[p := delta];
      SumUpdate(Positive(done), p, delta);
    } else {
      assert Positive(done[p := delta]) == Positive(done);
    }
  }

  /** `order` lists the fields of a hash, each once: what HGETALL returns. */
  ghost predicate Lists(order: seq<PostId>, fields: Hash) {
    && (forall i :: 0 <= i < |order| ==> order[i] in fields)
    && (forall p :: p in fields ==> p in order)
    && (forall i, j :: 0 <= i < j < |order| ==> order[i] != order[j])
  }

  ghost function FirstFields(fields: Hash, order: seq<PostId>, n: nat): Hash
    requires n <= |order| && Lists(order, fields)
  {
    map p | p in order[..n] :: fields[p]
  }

  lemma NoneAndAllFields(fields: Hash, order: seq<PostId>)
    requires Lists(order, fields)
    ensures FirstFields(fields, order, 0) == map[] && FirstFields(fields, order, |order|) == fields
  {
    var all := FirstFields(fields, order, |order|);
    forall p | p in fields ensures p in all { assert p in order && order == order[..|order|]; }
    forall p | p in all ensures p in fields && all[p] == fields[p] { }
  }

  lemma OneMoreField(fields: Hash, order: seq<PostId>, n: nat)
    requires n < |order| && Lists(order, fields)
    ensures order[n] !in FirstFields(fields, order, n)
    ensures FirstFields(fields, order, n + 1) == FirstFields(fields, order, n)[order[n] := fields[order[n]]]
  {
  }

  lemma CommitOneMore(rows: map<PostId, Row>, fields: Hash, order: seq<PostId>, i: nat)
    requires Lists(order, fields) && i < |order|
    ensures var p := order[i]; var done := FirstFields(fields, order, i); var more := FirstFields(fields, order, i + 1);
            && Credit(rows, more) == IncrementDelta(Credit(rows, done), p, fields[p])
            && SumValues(Positive(more)) == SumValues(Positive(done)) + Max(fields[p], 0)
  {
    var p, done := order[i], FirstFields(fields, order, i);
    OneMoreField(fields, order, i);
    CreditOneMore(rows, done, p, fields[p]);
    PositiveOneMore(done, p, fields[p]);
  }

  /** The loop inside the flush transaction, one UPDATE per field. */
  method CommitFields(rows: map<PostId, Row>, fields: Hash, order: seq<PostId>)
    returns (rows': map<PostId, Row>, flushed: int)
    requires Lists(order, fields)
    ensures rows' == Credit(rows, fields)
    ensures flushed == SumValues(Positive(fields))
  {
    rows', flushed := rows, 0;
    NoneAndAllFields(fields, order);
    assert Credit(rows, map[]) == rows && Positive(map[]) == map[];
    for i := 0 to |order|
      invariant rows' == Credit(rows, FirstFields(fields, order, i))
      invariant flushed == SumValues(Positive(FirstFields(fields, order, i)))
    {
      var p, delta := order[i], fields[order[i]];
      CommitOneMore(rows, fields, order, i);
      if delta > 0 {
        flushed := flushed + delta;
      }
      rows' := IncrementDelta(rows', p, delta);
    }
  }

  lemma AddedOneMore(h: Hash, done: Hash, p: PostId, delta: int)
    requires p !in done
    ensures HIncrBy(Added(h, done), p, delta) == Added(h, done[p := delta])
  {
  }

  /** The merge-back loop, undisturbed. */
  method MergeBack(buffer: Hash, fields: Hash, order: seq<PostId>) returns (buffer': Hash)
    requires Lists(order, fields)
    ensures buffer' == Added(buffer, fields)
  {
    buffer' := buffer;
    NoneAndAllFields(fields, order);
    assert Added(buffer, map[]) == buffer;
    for i := 0 to |order|
      invariant buffer' == Added(buffer, FirstFields(fields, order, i))
    {
      OneMoreField(fields, order, i);
      AddedOneMore(buffer, FirstFields(fields, order, i), order[i], fields[order[i]]);
      buffer' := HIncrBy(buffer', order[i], fields[order[i]]);
    }
  }
}
