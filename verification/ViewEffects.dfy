/** What single visits and whole flush runs do to the counts, wherever a run of the view counter stands. */
module ViewEffects {
  import opened Common
  import opened MapSums
  import opened ViewCounter

  /** All views of a post, wherever they are kept. */
  ghost function Total(s: State, p: PostId): int
    requires p in s.rows
  {
    s.rows[p].views + HGet(s.buffer, p) + InFlight(s, p)
  }

  lemma RunMore(b: State, es: seq<Event>, e: Event)
    ensures Run(b, es + [e]) == Step(Run(b, es), e)
  {
    assert (es + [e])[..|es|] == es;
  }

  /** Requests leave what is in flight alone. */
  lemma SameInFlight(s: State, t: State, p: PostId)
    requires t.drains == s.drains && t.settled == s.settled
    ensures InFlight(t, p) == InFlight(s, p)
  {
    assert InFlightBy(t, p) == InFlightBy(s, p);
  }

  ghost predicate OnLivePost(s: State, v: VisitId) {
    && v in s.visits && !s.visits[v].Gone?
    && s.visits[v].post in s.rows && !s.rows[s.visits[v].post].deleted
  }

  // ----- one visit -----

  /** An answered increment puts exactly one view into the buffer, for exactly this visit. */
  lemma BufferedCountsOnce(rows: map<PostId, Row>, es: seq<Event>, v: VisitId, q: PostId)
    requires var s := Run(Boot(rows), es); OnLivePost(s, v) && s.visits[v].Fresh?
    ensures var s := Run(Boot(rows), es); var Fresh(p, base) := s.visits[v];
            var t := Run(Boot(rows), es + [AddToBuffer(v, Answered)]);
            && t.rows == s.rows && Total(t, p) == Total(s, p) + 1 && HGet(t.buffer, p) == HGet(s.buffer, p) + 1
            && p in t.accepted && v in t.accepted[p] && v in t.visits && t.visits[v] == Applied(p, base, 0)
            && (q != p && q in s.rows ==> Total(t, q) == Total(s, q))
  {
    var s := Run(Boot(rows), es);
    RunMore(Boot(rows), es, AddToBuffer(v, Answered));
    var t := OnAddToBuffer(s, v, Answered);
    SameInFlight(s, t, s.visits[v].post);
    SameInFlight(s, t, q);
  }

  /** A failed increment and the fallback after it put exactly one view into the table. */
  lemma FallbackCountsOnce(rows: map<PostId, Row>, es: seq<Event>, v: VisitId, q: PostId)
    requires var s := Run(Boot(rows), es); OnLivePost(s, v) && s.visits[v].Fresh?
    ensures var s := Run(Boot(rows), es); var Fresh(p, base) := s.visits[v];
            var t := Run(Boot(rows), es + [AddToBuffer(v, Failed)] + [AddToRow(v, Answered)]);
            && t.buffer == s.buffer && p in t.rows && Total(t, p) == Total(s, p) + 1
            && t.rows[p].views == s.rows[p].views + 1
            && p in t.accepted && v in t.accepted[p] && v in t.visits && t.visits[v] == Applied(p, base, 1)
            && (q != p && q in s.rows ==> q in t.rows && t.rows[q] == s.rows[q] && Total(t, q) == Total(s, q))
  {
    var s := Run(Boot(rows), es);
    RunMore(Boot(rows), es, AddToBuffer(v, Failed));
    RunMore(Boot(rows), es + [AddToBuffer(v, Failed)], AddToRow(v, Answered));
    var t := OnAddToRow(OnAddToBuffer(s, v, Failed), v, Answered);
    SameInFlight(s, t, s.visits[v].post);
    SameInFlight(s, t, q);
  }

  /** Nothing is counted and no buffer is touched. */
  ghost predicate CountsNothing(s: State, t: State) {
    && t.rows == s.rows && t.accepted == s.accepted && t.buffer == s.buffer
    && t.drains == s.drains && t.settled == s.settled
  }

  lemma ViewerStep(s: State, v: VisitId, viewer: Viewer)
    requires v in s.visits && s.visits[v].Seen?
    ensures var Seen(p, base) := s.visits[v]; var t := OnCheckViewer(s, v, viewer, true);
            && CountsNothing(s, t) && (p, viewer) in t.viewed && v in t.visits
            && t.visits[v] == if (p, viewer) in s.viewed then Applied(p, base, 0) else Fresh(p, base)
  {
    var Seen(p, base) := s.visits[v];
    if (p, viewer) in s.viewed {
      assert OnCheckViewer(s, v, viewer, true) == MoveOn(s, v, Applied(p, base, 0));
    } else {
      assert OnCheckViewer(s, v, viewer, true) == Admit(MoveOn(s, v, Fresh(p, base)), (p, viewer));
    }
  }

  /** A viewer whose key is set is shown the page and not counted; a new one gets a key and is to be counted. */
  lemma ViewerDecides(rows: map<PostId, Row>, es: seq<Event>, v: VisitId, viewer: Viewer, q: PostId)
    requires var s := Run(Boot(rows), es); v in s.visits && s.visits[v].Seen?
    ensures var s := Run(Boot(rows), es); var Seen(p, base) := s.visits[v];
            var t := Run(Boot(rows), es + [CheckViewer(v, viewer, true)]);
            && CountsNothing(s, t) && (q in s.rows ==> Total(t, q) == Total(s, q))
            && (p, viewer) in t.viewed && v in t.visits
            && t.visits[v] == if (p, viewer) in s.viewed then Applied(p, base, 0) else Fresh(p, base)
  {
    var s := Run(Boot(rows), es);
    RunMore(Boot(rows), es, CheckViewer(v, viewer, true));
    ViewerStep(s, v, viewer);
    SameInFlight(s, OnCheckViewer(s, v, viewer, true), q);
  }

  function Visiting(v: VisitId, p: PostId, base: nat, viewer: Viewer): seq<Event> {
    [ReadRow(v, p, base)] + [CheckViewer(v, viewer, true)] + [AddToBuffer(v, Answered)]
  }

  function Visited(s: State, v: VisitId, p: PostId, base: nat, viewer: Viewer): State {
    OnAddToBuffer(OnCheckViewer(OnReadRow(s, v, p, base), v, viewer, true), v, Answered)
  }

  lemma RunVisit(b: State, es: seq<Event>, v: VisitId, p: PostId, base: nat, viewer: Viewer)
    ensures Run(b, es + Visiting(v, p, base, viewer)) == Visited(Run(b, es), v, p, base, viewer)
  {
    var one := es + [ReadRow(v, p, base)];
    RunMore(b, es, ReadRow(v, p, base));
    RunMore(b, one, CheckViewer(v, viewer, true));
    RunMore(b, one + [CheckViewer(v, viewer, true)], AddToBuffer(v, Answered));
    assert es + Visiting(v, p, base, viewer) == one + [CheckViewer(v, viewer, true)] + [AddToBuffer(v, Answered)];
  }

  lemma ReadStep(s: State, v: VisitId, p: PostId, base: nat)
    requires v !in s.visits && p in s.rows && !s.rows[p].deleted && base <= s.rows[p].views
    ensures var t := OnReadRow(s, v, p, base);
            CountsNothing(s, t) && t.viewed == s.viewed && v in t.visits && t.visits[v] == Seen(p, base)
  {
  }

  lemma BufferStep(s: State, v: VisitId)
    requires v in s.visits && s.visits[v].Fresh?
    ensures var Fresh(p, base) := s.visits[v]; var t := OnAddToBuffer(s, v, Answered);
            && t.rows == s.rows && t.drains == s.drains && t.settled == s.settled && t.viewed == s.viewed
            && t.buffer == HIncrBy(s.buffer, p, 1) && v in t.visits && t.visits[v] == Applied(p, base, 0)
  {
  }

  lemma VisitedState(s: State, v: VisitId, p: PostId, base: nat, viewer: Viewer)
    requires v !in s.visits && p in s.rows && !s.rows[p].deleted && base <= s.rows[p].views
    ensures var t := Visited(s, v, p, base, viewer); var gain := if (p, viewer) in s.viewed then 0 else 1;
            && t.rows == s.rows && t.drains == s.drains && t.settled == s.settled && (p, viewer) in t.viewed
            && HGet(t.buffer, p) == HGet(s.buffer, p) + gain
            && v in t.visits && t.visits[v] == Applied(p, base, 0)
  {
    var s1 := OnReadRow(s, v, p, base);
    ReadStep(s, v, p, base);
    ViewerStep(s1, v, viewer);
    if (p, viewer) !in s.viewed { BufferStep(OnCheckViewer(s1, v, viewer, true), v); }
  }

  /**
  A whole visit while Redis answers: it adds one view if the viewer has no key and none otherwise, and the page
  then shows the count it read together with everything that waits in the buffer, this view included.
  */
  lemma VisitCounts(rows: map<PostId, Row>, es: seq<Event>, v: VisitId, p: PostId, base: nat, viewer: Viewer)
    requires var s := Run(Boot(rows), es);
             v !in s.visits && p in s.rows && !s.rows[p].deleted && base <= s.rows[p].views
    ensures var s := Run(Boot(rows), es); var t := Run(Boot(rows), es + Visiting(v, p, base, viewer));
            var gain := if (p, viewer) in s.viewed then 0 else 1;
            && t.rows == s.rows && Total(t, p) == Total(s, p) + gain && (p, viewer) in t.viewed
            && v in t.visits && t.visits[v].Applied? && t.visits[v].post == p
            && Shown(t, v, true) == base + HGet(s.buffer, p) + gain
  {
    var s := Run(Boot(rows), es);
    RunVisit(Boot(rows), es, v, p, base, viewer);
    VisitedState(s, v, p, base, viewer);
    SameInFlight(s, Visited(s, v, p, base, viewer), p);
  }

  /**
  What a page with a readable buffer misses, exactly: the views in flight between buffer and table, and those
  that reached the table after the page read its row.
  */
  lemma ShownExactly(rows: map<PostId, Row>, es: seq<Event>, v: VisitId)
    requires var s := Run(Boot(rows), es); OnLivePost(s, v) && s.visits[v].Applied?
    ensures var s := Run(Boot(rows), es); var Applied(p, base, extra) := s.visits[v];
            && p in s.accepted
            && Initial(rows, p) + |s.accepted[p]| + HGet(s.repeated, p) - Shown(s, v, true)
               == InFlight(s, p) + (s.rows[p].views - base - extra)
            && InFlight(s, p) >= 0 && s.rows[p].views - base - extra >= 0
            && (InFlight(s, p) == 0 && s.rows[p].views == base + extra ==>
                  Shown(s, v, true) == Initial(rows, p) + |s.accepted[p]| + HGet(s.repeated, p))
            && Shown(s, v, false) == Shown(s, v, true) - HGet(s.buffer, p)
  {
    var s := Run(Boot(rows), es);
    var p := s.visits[v].post;
    Conservation(rows, es, p);
    RunKeepsInv(rows, es);
    assert VisitOk(s, v);
    SumNonNegative(InFlightBy(s, p));
  }

  // ----- when something fails, expires or is skipped -----

  /** Once a viewer's key has expired, the next visit counts again. */
  lemma ExpiredViewerCounts(rows: map<PostId, Row>, es: seq<Event>, v: VisitId, p: PostId, base: nat, viewer: Viewer)
    requires var s := Run(Boot(rows), es);
             v !in s.visits && p in s.rows && !s.rows[p].deleted && base <= s.rows[p].views
    ensures var s := Run(Boot(rows), es);
            var t := Run(Boot(rows), es + [ForgetViewer(p, viewer)] + Visiting(v, p, base, viewer));
            t.rows == s.rows && Total(t, p) == Total(s, p) + 1
  {
    var s, gone := Run(Boot(rows), es), es + [ForgetViewer(p, viewer)];
    RunMore(Boot(rows), es, ForgetViewer(p, viewer));
    var u := OnForgetViewer(s, (p, viewer));
    assert (p, viewer) !in u.viewed && CountsNothing(s, u) && u.visits == s.visits;
    SameInFlight(s, u, p);
    VisitCounts(rows, gone, v, p, base, viewer);
  }

  /** Without deduplication every visit is to be counted; without a writer none is. */
  lemma UncheckedVisits(rows: map<PostId, Row>, es: seq<Event>, v: VisitId, viewer: Viewer)
    requires var s := Run(Boot(rows), es); v in s.visits && s.visits[v].Seen?
    ensures var s := Run(Boot(rows), es); var Seen(p, base) := s.visits[v];
            && (var t := Run(Boot(rows), es + [CheckViewer(v, viewer, false)]);
                CountsNothing(s, t) && t.viewed == s.viewed && v in t.visits && t.visits[v] == Fresh(p, base))
            && (var t := Run(Boot(rows), es + [SkipCounting(v)]);
                CountsNothing(s, t) && t.viewed == s.viewed && v in t.visits && t.visits[v] == Applied(p, base, 0))
  {
    RunMore(Boot(rows), es, CheckViewer(v, viewer, false));
    RunMore(Boot(rows), es, SkipCounting(v));
  }

  /** A fallback whose answer is lost has counted the view although its page fails. */
  lemma HiddenFallbackCounts(rows: map<PostId, Row>, es: seq<Event>, v: VisitId)
    requires var s := Run(Boot(rows), es); OnLivePost(s, v) && s.visits[v].Unbuffered?
    ensures var s := Run(Boot(rows), es); var p := s.visits[v].post;
            var t := Run(Boot(rows), es + [AddToRow(v, AnswerLost)]);
            && p in t.rows && Total(t, p) == Total(s, p) + 1 && p in t.accepted && v in t.accepted[p]
            && v in t.visits && t.visits[v] == Gone
            && Run(Boot(rows), es + [AddToRow(v, Failed)]) == MoveOn(s, v, Gone)
  {
    var s := Run(Boot(rows), es);
    RunMore(Boot(rows), es, AddToRow(v, AnswerLost));
    RunMore(Boot(rows), es, AddToRow(v, Failed));
    SameInFlight(s, OnAddToRow(s, v, AnswerLost), s.visits[v].post);
  }

  /** A flush transaction whose answer is lost is in the table and still in the drain: all its views are there twice. */
  lemma HiddenCommitDoubles(rows: map<PostId, Row>, es: seq<Event>, f: FlushId, p: PostId)
    requires var s := Run(Boot(rows), es);
             f in s.flushes && s.flushes[f].Loaded? && p in s.rows && !s.rows[p].deleted
    ensures var s := Run(Boot(rows), es); var t := Run(Boot(rows), es + [CommitDrain(f, AnswerLost)]);
            && p in t.rows && Total(t, p) == Total(s, p) + HGet(s.flushes[f].fields, p)
            && t.drains == s.drains && f in t.flushes && t.flushes[f] == RolledBack
  {
    var s := Run(Boot(rows), es);
    RunKeepsInv(rows, es);
    assert FlushOk(s, f) && PhaseOk(s, f);
    RunMore(Boot(rows), es, CommitDrain(f, AnswerLost));
    HiddenCommitStep(s, f, p);
  }

  lemma HiddenCommitStep(s: State, f: FlushId, p: PostId)
    requires f in s.flushes && s.flushes[f].Loaded? && p in s.rows && !s.rows[p].deleted
    requires HashOk(s.flushes[f].fields, s.rows.Keys)
    ensures var t := OnCommitDrain(s, f, AnswerLost);
            && p in t.rows && Total(t, p) == Total(s, p) + HGet(s.flushes[f].fields, p)
            && t.drains == s.drains && f in t.flushes && t.flushes[f] == RolledBack
  {
    CreditedRow(s.rows, s.flushes[f].fields, p);
    SameInFlight(s, OnCommitDrain(s, f, AnswerLost), p);
  }

  /** A command of run `f` that fails, or finds the lock held or nothing to do, where it is that command's turn. */
  predicate Fails(s: State, f: FlushId, e: Event) {
    f in s.flushes &&
    match e
    case TakeLock(g, outcome) => g == f && s.flushes[f].Started? && (outcome.Failed? || s.lock.Some?)
    case RenameBuffer(g, outcome) => g == f && s.flushes[f].Locked? && (outcome.Failed? || s.buffer == map[])
    case LoadDrain(g, ok) => g == f && s.flushes[f].Renamed? && !ok
    case ReloadDrain(g, ok) => g == f && s.flushes[f].RolledBack? && !ok
    case MergeField(g, p, outcome) => g == f && s.flushes[f].Merging? && p in s.flushes[f].todo && outcome.Failed?
    case ReleaseLock(g, ok) => g == f && s.flushes[f].Releasing? && (!ok || s.lock != Some(f))
    case _ => false
  }

  lemma PhaseHolds(rows: map<PostId, Row>, es: seq<Event>, f: FlushId)
    requires f in Run(Boot(rows), es).flushes
    ensures PhaseOk(Run(Boot(rows), es), f)
  {
    RunKeepsInv(rows, es);
    assert FlushOk(Run(Boot(rows), es), f);
  }

  /** It changes nothing but takes the run to the release of its lock, or to its end when it has none to release. */
  lemma FailureEnds(rows: map<PostId, Row>, es: seq<Event>, f: FlushId, e: Event)
    requires Fails(Run(Boot(rows), es), f, e)
    ensures var s := Run(Boot(rows), es); var t := Run(Boot(rows), es + [e]);
            && t.rows == s.rows && t.buffer == s.buffer && t.drains == s.drains && t.lock == s.lock
            && f in t.flushes && t.flushes[f] == if e.TakeLock? || e.ReleaseLock? then Finished else Releasing
  {
    PhaseHolds(rows, es, f);
    RunMore(Boot(rows), es, e);
    FailureStep(Run(Boot(rows), es), f, e);
  }

  lemma FailureStep(s: State, f: FlushId, e: Event)
    requires Fails(s, f, e) && PhaseOk(s, f)
    ensures var t := Step(s, e);
            && t.rows == s.rows && t.buffer == s.buffer && t.drains == s.drains && t.lock == s.lock
            && f in t.flushes && t.flushes[f] == if e.TakeLock? || e.ReleaseLock? then Finished else Releasing
  {
    match e
    case TakeLock(_, _) => assert Step(s, e) == Goto(s, f, Finished);
    case RenameBuffer(_, _) => assert Step(s, e) == Goto(s, f, Releasing);
    case LoadDrain(_, _) => assert Step(s, e) == GiveUp(s, f, Releasing);
    case ReloadDrain(_, _) => assert Step(s, e) == GiveUp(s, f, Releasing);
    case MergeField(_, _, _) => assert Step(s, e) == GiveUp(s, f, Releasing);
    case ReleaseLock(_, _) => assert Step(s, e) == Goto(s, f, Finished);
    case _ =>
  }

  /** A merge whose answer is lost is in the buffer all the same, and also ends the run. */
  lemma HiddenMergeCounts(rows: map<PostId, Row>, es: seq<Event>, f: FlushId, p: PostId)
    requires var s := Run(Boot(rows), es); f in s.flushes && s.flushes[f].Merging? && p in s.flushes[f].todo
    ensures var s := Run(Boot(rows), es); var t := Run(Boot(rows), es + [MergeField(f, p, AnswerLost)]);
            && p in s.flushes[f].mergeFields && HGet(t.buffer, p) == HGet(s.buffer, p) + s.flushes[f].mergeFields[p]
            && t.rows == s.rows && t.drains == s.drains && f in t.flushes && t.flushes[f] == Releasing
  {
    PhaseHolds(rows, es, f);
    RunMore(Boot(rows), es, MergeField(f, p, AnswerLost));
    HiddenMergeStep(Run(Boot(rows), es), f, p);
  }

  lemma HiddenMergeStep(s: State, f: FlushId, p: PostId)
    requires f in s.flushes && s.flushes[f].Merging? && p in s.flushes[f].todo && p in s.flushes[f].mergeFields
    ensures var t := OnMergeField(s, f, p, AnswerLost); var delta := s.flushes[f].mergeFields[p];
            && HGet(t.buffer, p) == HGet(s.buffer, p) + delta
            && t.rows == s.rows && t.drains == s.drains && f in t.flushes && t.flushes[f] == Releasing
  {
    var moved := Moved(s, f, p, s.flushes[f].mergeFields[p]);
    if s.flushes[f].todo == {p} {
      assert OnMergeField(s, f, p, AnswerLost) == Goto(moved, f, Releasing);
    } else {
      assert OnMergeField(s, f, p, AnswerLost) == GiveUp(moved, f, Releasing);
    }
  }

  /** A lock that was set without its run knowing stays: the run has ended and will not release it. */
  lemma HiddenLockStays(rows: map<PostId, Row>, es: seq<Event>, f: FlushId)
    requires var s := Run(Boot(rows), es); f in s.flushes && s.flushes[f].Started? && s.lock.None?
    ensures var t := Run(Boot(rows), es + [TakeLock(f, AnswerLost)]);
            t.lock == Some(f) && f in t.flushes && t.flushes[f] == Finished
  {
    RunMore(Boot(rows), es, TakeLock(f, AnswerLost));
    HiddenLockStep(Run(Boot(rows), es), f);
  }

  lemma HiddenLockStep(s: State, f: FlushId)
    requires f in s.flushes && s.flushes[f].Started? && s.lock.None?
    ensures var t := OnTakeLock(s, f, AnswerLost); t.lock == Some(f) && f in t.flushes && t.flushes[f] == Finished
  {
    assert OnTakeLock(s, f, AnswerLost) == Goto(s, f, Finished).(lock := Some(f));
  }

  /** So does the lock of a run that crashes, with all that Redis and the table hold. */
  lemma CrashLeavesAll(rows: map<PostId, Row>, es: seq<Event>, f: FlushId)
    requires f in Run(Boot(rows), es).flushes
    ensures var s := Run(Boot(rows), es); var t := Run(Boot(rows), es + [Crash(f)]);
            && t.lock == s.lock && t.rows == s.rows && t.buffer == s.buffer && t.drains == s.drains
            && f in t.flushes && t.flushes[f] == Finished
  {
    RunMore(Boot(rows), es, Crash(f));
    CrashStep(Run(Boot(rows), es), f);
  }

  lemma CrashStep(s: State, f: FlushId)
    requires f in s.flushes
    ensures var t := OnCrash(s, f);
            && t.lock == s.lock && t.rows == s.rows && t.buffer == s.buffer && t.drains == s.drains
            && f in t.flushes && t.flushes[f] == Finished
  {
    if s.flushes[f].Finished? {
      assert OnCrash(s, f) == s;
    } else if f in s.drains && !AllSettled(s, f) {
      assert OnCrash(s, f) == GiveUp(s, f, Finished);
    } else {
      assert OnCrash(s, f) == Goto(s, f, Finished);
    }
  }

  /** Until it lapses, which changes nothing else. */
  lemma LapseFreesLock(rows: map<PostId, Row>, es: seq<Event>)
    ensures var s := Run(Boot(rows), es); var t := Run(Boot(rows), es + [LapseLock]);
            && t.lock.None? && t.rows == s.rows && t.buffer == s.buffer && t.drains == s.drains
            && t.flushes == s.flushes
  {
    RunMore(Boot(rows), es, LapseLock);
  }

  /** A new post starts at zero. */
  lemma PostAppears(rows: map<PostId, Row>, es: seq<Event>, p: PostId, q: PostId)
    requires p !in Run(Boot(rows), es).rows
    ensures var s := Run(Boot(rows), es); var t := Run(Boot(rows), es + [CreatePost(p)]);
            && p in t.rows && t.rows[p] == Row(0, false) && Total(t, p) == 0
            && (q in s.rows ==> q in t.rows && t.rows[q] == s.rows[q])
  {
    var s := Run(Boot(rows), es);
    RunKeepsInv(rows, es);
    RunMore(Boot(rows), es, CreatePost(p));
    NothingYet(s, p);
    SameInFlight(s, OnCreatePost(s, p), p);
  }

  /** A deleted one keeps its row and its count, and nobody can visit it any more. */
  lemma PostDisappears(rows: map<PostId, Row>, es: seq<Event>, p: PostId, q: PostId, v: VisitId, base: nat)
    requires p in Run(Boot(rows), es).rows
    ensures var s := Run(Boot(rows), es); var t := Run(Boot(rows), es + [DeletePost(p)]);
            && p in t.rows && t.rows[p].deleted && t.rows[p].views == s.rows[p].views
            && (q in s.rows && q != p ==> q in t.rows && t.rows[q] == s.rows[q])
            && OnReadRow(t, v, p, base) == t
  {
    RunMore(Boot(rows), es, DeletePost(p));
  }

  // ----- one flush run, undisturbed -----

  /** Nobody holds the lock, there is something to flush, and the run is new. */
  predicate MayFlush(s: State, f: FlushId) {
    s.lock.None? && s.buffer != map[] && f !in s.flushes && f !in s.drains
  }

  /** Run `f` holds the lock in that phase, over these rows, this buffer and these drains. */
  ghost predicate Stands(t: State, f: FlushId, ph: Phase, rows: map<PostId, Row>, buffer: Hash,
                         drains: map<FlushId, Hash>) {
    && f in t.flushes && t.flushes[f] == ph && t.lock == Some(f)
    && t.rows == rows && t.buffer == buffer && t.drains == drains
  }

  lemma RunLocks(b: State, es: seq<Event>, f: FlushId)
    requires MayFlush(Run(b, es), f)
    ensures var s := Run(b, es);
            Stands(Run(b, es + [BeginFlush(f)] + [TakeLock(f, Answered)]), f, Locked, s.rows, s.buffer, s.drains)
  {
    var s := Run(b, es);
    RunMore(b, es, BeginFlush(f));
    RunMore(b, es + [BeginFlush(f)], TakeLock(f, Answered));
    LockStep(s, f);
  }

  lemma LockStep(s: State, f: FlushId)
    requires MayFlush(s, f)
    ensures var t := Step(Step(s, BeginFlush(f)), TakeLock(f, Answered));
            Stands(t, f, Locked, s.rows, s.buffer, s.drains)
  {
  }

  lemma RunRenames(b: State, es: seq<Event>, s: State, f: FlushId)
    requires Stands(Run(b, es), f, Locked, s.rows, s.buffer, s.drains) && s.buffer != map[]
    ensures Stands(Run(b, es + [RenameBuffer(f, Answered)]), f, Renamed, s.rows, map[], s.drains[f := s.buffer])
  {
    RunMore(b, es, RenameBuffer(f, Answered));
  }

  lemma RunLoads(b: State, es: seq<Event>, s: State, f: FlushId)
    requires Stands(Run(b, es), f, Renamed, s.rows, map[], s.drains[f := s.buffer])
    ensures Stands(Run(b, es + [LoadDrain(f, true)]), f, Loaded(s.buffer), s.rows, map[], s.drains[f := s.buffer])
  {
    RunMore(b, es, LoadDrain(f, true));
  }

  function Opening(f: FlushId): seq<Event> {
    [BeginFlush(f)] + [TakeLock(f, Answered)] + [RenameBuffer(f, Answered)] + [LoadDrain(f, true)]
  }

  lemma RunOpening(b: State, es: seq<Event>, f: FlushId)
    requires MayFlush(Run(b, es), f)
    ensures var s := Run(b, es);
            Stands(Run(b, es + Opening(f)), f, Loaded(s.buffer), s.rows, map[], s.drains[f := s.buffer])
  {
    var s, two := Run(b, es), es + [BeginFlush(f)] + [TakeLock(f, Answered)];
    RunLocks(b, es, f);
    RunRenames(b, two, s, f);
    RunLoads(b, two + [RenameBuffer(f, Answered)], s, f);
    assert es + Opening(f) == two + [RenameBuffer(f, Answered)] + [LoadDrain(f, true)];
  }

  function Landing(f: FlushId): seq<Event> {
    [CommitDrain(f, Answered)] + [DropDrain(f, true)] + [ReleaseLock(f, true)]
  }

  lemma RunCommits(b: State, es: seq<Event>, s: State, f: FlushId)
    requires Stands(Run(b, es), f, Loaded(s.buffer), s.rows, map[], s.drains[f := s.buffer])
    ensures Stands(Run(b, es + [CommitDrain(f, Answered)]), f, Committed, Credit(s.rows, s.buffer), map[],
                   s.drains[f := s.buffer])
  {
    RunMore(b, es, CommitDrain(f, Answered));
  }

  lemma RunDrops(b: State, es: seq<Event>, s: State, f: FlushId, rows: map<PostId, Row>)
    requires Stands(Run(b, es), f, Committed, rows, map[], s.drains[f := s.buffer]) && f !in s.drains
    ensures Stands(Run(b, es + [DropDrain(f, true)]), f, Releasing, rows, map[], s.drains)
  {
    RunMore(b, es, DropDrain(f, true));
    assert s.drains[f := s.buffer] - {f} == s.drains;
  }

  lemma RunReleases(b: State, es: seq<Event>, s: State, f: FlushId, rows: map<PostId, Row>, buffer: Hash)
    requires Stands(Run(b, es), f, Releasing, rows, buffer, s.drains)
    ensures var t := Run(b, es + [ReleaseLock(f, true)]);
            t.lock.None? && t.rows == rows && t.buffer == buffer && t.drains == s.drains
  {
    RunMore(b, es, ReleaseLock(f, true));
  }

  lemma RunLanding(b: State, es: seq<Event>, s: State, f: FlushId)
    requires Stands(Run(b, es), f, Loaded(s.buffer), s.rows, map[], s.drains[f := s.buffer]) && f !in s.drains
    ensures var t := Run(b, es + Landing(f));
            t.lock.None? && t.rows == Credit(s.rows, s.buffer) && t.buffer == map[] && t.drains == s.drains
  {
    var one := es + [CommitDrain(f, Answered)];
    RunCommits(b, es, s, f);
    RunDrops(b, one, s, f, Credit(s.rows, s.buffer));
    RunReleases(b, one + [DropDrain(f, true)], s, f, Credit(s.rows, s.buffer), map[]);
    assert es + Landing(f) == one + [DropDrain(f, true)] + [ReleaseLock(f, true)];
  }

  lemma CreditedRow(rows: map<PostId, Row>, fields: Hash, p: PostId)
    requires p in rows && HashOk(fields, rows.Keys)
    ensures var r := Credit(rows, fields);
            && p in r && r[p].deleted == rows[p].deleted
            && r[p].views == rows[p].views + if rows[p].deleted then 0 else HGet(fields, p)
  {
  }

  /**
  A flush that gets through moves the whole buffer into the table: every undeleted row gains exactly what waited
  for it, no other drain changes, its own is gone and the lock is free again.
  */
  lemma FlushLands(rows: map<PostId, Row>, es: seq<Event>, f: FlushId, p: PostId)
    requires var s := Run(Boot(rows), es); s.lock.None? && s.buffer != map[] && f !in s.flushes && p in s.rows
    ensures var s := Run(Boot(rows), es); var t := Run(Boot(rows), es + Opening(f) + Landing(f));
            && t.buffer == map[] && t.drains == s.drains && t.lock.None? && p in t.rows
            && t.rows[p].deleted == s.rows[p].deleted
            && t.rows[p].views == s.rows[p].views + if s.rows[p].deleted then 0 else HGet(s.buffer, p)
  {
    var s := Run(Boot(rows), es);
    RunKeepsInv(rows, es);
    RunOpening(Boot(rows), es, f);
    RunLanding(Boot(rows), es + Opening(f), s, f);
    CreditedRow(s.rows, s.buffer, p);
  }

  // ----- one flush run whose transaction rolls back -----

  function Merges(f: FlushId, order: seq<PostId>): seq<Event> {
    if order == [] then []
    else Merges(f, order[..|order| - 1]) + [MergeField(f, order[|order| - 1], Answered)]
  }

  function Rest(fields: Hash, order: seq<PostId>, n: nat): set<PostId>
    requires n <= |order|
  {
    fields.Keys - set i | 0 <= i < n :: order[i]
  }

  lemma RunRollsBack(b: State, es: seq<Event>, s: State, f: FlushId)
    requires Stands(Run(b, es), f, Loaded(s.buffer), s.rows, map[], s.drains[f := s.buffer])
    ensures Stands(Run(b, es + [CommitDrain(f, Failed)]), f, RolledBack, s.rows, map[], s.drains[f := s.buffer])
  {
    RunMore(b, es, CommitDrain(f, Failed));
  }

  lemma RunReloads(b: State, es: seq<Event>, s: State, f: FlushId)
    requires Stands(Run(b, es), f, Loaded(s.buffer), s.rows, map[], s.drains[f := s.buffer])
    ensures Stands(Run(b, es + [CommitDrain(f, Failed)] + [ReloadDrain(f, true)]), f,
                   Merging(s.buffer, s.buffer.Keys), s.rows, map[], s.drains[f := s.buffer])
  {
    RunRollsBack(b, es, s, f);
    RunMore(b, es + [CommitDrain(f, Failed)], ReloadDrain(f, true));
  }

  lemma RunMerge(b: State, es: seq<Event>, s: State, f: FlushId, todo: set<PostId>, buffer: Hash, p: PostId)
    requires Stands(Run(b, es), f, Merging(s.buffer, todo), s.rows, buffer, s.drains[f := s.buffer])
    requires p in todo && p in s.buffer
    ensures Stands(Run(b, es + [MergeField(f, p, Answered)]), f, Merging(s.buffer, todo - {p}), s.rows,
                   HIncrBy(buffer, p, s.buffer[p]), s.drains[f := s.buffer])
  {
    RunMore(b, es, MergeField(f, p, Answered));
  }

  lemma NoMerges(es: seq<Event>, fields: Hash, f: FlushId, order: seq<PostId>)
    requires Lists(order, fields)
    ensures es + Merges(f, order[..0]) == es && FirstFields(fields, order, 0) == map[]
    ensures Rest(fields, order, 0) == fields.Keys
  {
  }

  lemma MergesMore(es: seq<Event>, fields: Hash, f: FlushId, order: seq<PostId>, n: nat)
    requires Lists(order, fields) && 0 < n <= |order|
    ensures var p, done := order[n - 1], FirstFields(fields, order, n - 1);
            && es + Merges(f, order[..n]) == es + Merges(f, order[..n - 1]) + [MergeField(f, p, Answered)]
            && Rest(fields, order, n) == Rest(fields, order, n - 1) - {p} && p in Rest(fields, order, n - 1)
            && FirstFields(fields, order, n) == HIncrBy(done, p, fields[p])
  {
    assert order[..n][..n - 1] == order[..n - 1];
    OneMoreField(fields, order, n - 1);
  }

  lemma {:induction false} RunMerges(b: State, es: seq<Event>, s: State, f: FlushId, order: seq<PostId>, n: nat)
    requires Stands(Run(b, es), f, Merging(s.buffer, s.buffer.Keys), s.rows, map[], s.drains[f := s.buffer])
    requires Lists(order, s.buffer) && n <= |order|
    ensures Stands(Run(b, es + Merges(f, order[..n])), f, Merging(s.buffer, Rest(s.buffer, order, n)), s.rows,
                   FirstFields(s.buffer, order, n), s.drains[f := s.buffer])
  {
    if n == 0 {
      NoMerges(es, s.buffer, f, order);
    } else {
      var p, done := order[n - 1], FirstFields(s.buffer, order, n - 1);
      RunMerges(b, es, s, f, order, n - 1);
      MergesMore(es, s.buffer, f, order, n);
      RunMerge(b, es + Merges(f, order[..n - 1]), s, f, Rest(s.buffer, order, n - 1), done, p);
    }
  }

  lemma RunFinishes(b: State, es: seq<Event>, s: State, f: FlushId)
    requires Stands(Run(b, es), f, Merging(s.buffer, {}), s.rows, s.buffer, s.drains[f := s.buffer])
    requires f !in s.drains
    ensures Stands(Run(b, es + [FinishMerge(f, true)]), f, Releasing, s.rows, s.buffer, s.drains)
  {
    RunMore(b, es, FinishMerge(f, true));
    assert s.drains[f := s.buffer] - {f} == s.drains;
  }

  /** The run goes on with a failing transaction and puts its drain back, field by field. */
  function RollingBack(es: seq<Event>, f: FlushId, order: seq<PostId>): seq<Event> {
    es + [CommitDrain(f, Failed)] + [ReloadDrain(f, true)] + Merges(f, order)
    + [FinishMerge(f, true)] + [ReleaseLock(f, true)]
  }

  lemma RunRollingBack(b: State, es: seq<Event>, s: State, f: FlushId, order: seq<PostId>)
    requires Stands(Run(b, es), f, Loaded(s.buffer), s.rows, map[], s.drains[f := s.buffer]) && f !in s.drains
    requires Lists(order, s.buffer)
    ensures var t := Run(b, RollingBack(es, f, order));
            t.lock.None? && t.rows == s.rows && t.buffer == s.buffer && t.drains == s.drains
  {
    var two := es + [CommitDrain(f, Failed)] + [ReloadDrain(f, true)];
    RunReloads(b, es, s, f);
    RunMergesAll(b, two, s, f, order);
    RunCloses(b, two + Merges(f, order), s, f);
  }

  lemma RunMergesAll(b: State, es: seq<Event>, s: State, f: FlushId, order: seq<PostId>)
    requires Stands(Run(b, es), f, Merging(s.buffer, s.buffer.Keys), s.rows, map[], s.drains[f := s.buffer])
    requires Lists(order, s.buffer)
    ensures Stands(Run(b, es + Merges(f, order)), f, Merging(s.buffer, {}), s.rows, s.buffer, s.drains[f := s.buffer])
  {
    RunMerges(b, es, s, f, order, |order|);
    AllMerged(s.buffer, order);
  }

  lemma RunCloses(b: State, es: seq<Event>, s: State, f: FlushId)
    requires Stands(Run(b, es), f, Merging(s.buffer, {}), s.rows, s.buffer, s.drains[f := s.buffer])
    requires f !in s.drains
    ensures var t := Run(b, es + [FinishMerge(f, true)] + [ReleaseLock(f, true)]);
            t.lock.None? && t.rows == s.rows && t.buffer == s.buffer && t.drains == s.drains
  {
    RunFinishes(b, es, s, f);
    RunReleases(b, es + [FinishMerge(f, true)], s, f, s.rows, s.buffer);
  }

  lemma AllMerged(fields: Hash, order: seq<PostId>)
    requires Lists(order, fields)
    ensures order[..|order|] == order && FirstFields(fields, order, |order|) == fields
    ensures Rest(fields, order, |order|) == {}
  {
    NoneAndAllFields(fields, order);
  }

  /** A flush whose transaction fails puts everything back: table, buffer, drains and lock are as before it. */
  lemma FlushUndone(rows: map<PostId, Row>, es: seq<Event>, f: FlushId, order: seq<PostId>)
    requires var s := Run(Boot(rows), es);
             s.lock.None? && s.buffer != map[] && f !in s.flushes && Lists(order, s.buffer)
    ensures var s := Run(Boot(rows), es); var t := Run(Boot(rows), RollingBack(es + Opening(f), f, order));
            t.rows == s.rows && t.buffer == s.buffer && t.drains == s.drains && t.lock.None?
  {
    RunKeepsInv(rows, es);
    RunOpening(Boot(rows), es, f);
    RunRollingBack(Boot(rows), es + Opening(f), Run(Boot(rows), es), f, order);
  }
}
