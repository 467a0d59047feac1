/**
Like and report rows of one kind of content (posts, or comments) beside the denormalised like_count
and report_count columns. `lostLikes` and `lostReports` record how many rows went away without the
column being changed.
*/
module Ledgers {
  import opened Common

  datatype Report = Report(reporter: int, target: int, deleted: bool)

  datatype Ledger = Ledger(
    likeCount: map<int, int>,
    reportCount: map<int, int>,
    likes: set<(int, int)>,  // (target, user), a primary key
    reports: map<int, Report>,
    lostLikes: map<int, int>,
    lostReports: map<int, int>)

  const EMPTY := Ledger(map[], map[], {}, map[], map[], map[])

  function LikesOf(l: Ledger, t: int): set<(int, int)> {
    set r | r in l.likes && r.0 == t
  }

  function LiveReports(l: Ledger, t: int): set<int> {
    set r | r in l.reports && l.reports[r].target == t && !l.reports[r].deleted
  }

  ghost predicate Covers(l: Ledger, ids: set<int>) {
    && l.likeCount.Keys == ids
    && l.reportCount.Keys == ids
    && l.lostLikes.Keys == ids
    && l.lostReports.Keys == ids
  }

  ghost predicate LikesAgree(l: Ledger, t: int)
    requires t in l.likeCount && t in l.lostLikes
  {
    l.likeCount[t] == |LikesOf(l, t)| + l.lostLikes[t] && l.lostLikes[t] >= 0
  }

  ghost predicate ReportsAgree(l: Ledger, t: int)
    requires t in l.reportCount && t in l.lostReports
  {
    l.reportCount[t] == |LiveReports(l, t)| + l.lostReports[t] && l.lostReports[t] >= 0
  }

  /** Both columns count their live rows, plus the rows known to be lost; rows only refer to known targets. */
  ghost predicate Agrees(l: Ledger, ids: set<int>) {
    && Covers(l, ids)
    && (forall r :: r in l.likes ==> r.0 in ids)
    && (forall r :: r in l.reports ==> l.reports[r].target in ids)
    && (forall t :: t in ids ==> LikesAgree(l, t))
    && (forall t :: t in ids ==> ReportsAgree(l, t))
  }

  function At(m: map<int, int>, t: int): int {
    if t in m then m[t] else 0
  }

  function AddTarget(l: Ledger, t: int): Ledger {
    l.(likeCount := l.likeCount[t := 0], reportCount := l.reportCount[t := 0],
       lostLikes := l.lostLikes[t := 0], lostReports := l.lostReports[t := 0])
  }

  /** INSERT the like, then like_count + 1. */
  function AddLike(l: Ledger, t: int, u: int): Ledger
  {
    l.(likes := l.likes + {(t, u)}, likeCount := l.likeCount[t := At(l.likeCount, t) + 1])
  }

  /** DELETE the like, then greatest(like_count - 1, 0). */
  function RemoveLike(l: Ledger, t: int, u: int): Ledger
  {
    l.(likes := l.likes - {(t, u)}, likeCount := l.likeCount[t := Max(At(l.likeCount, t) - 1, 0)])
  }

  /** INSERT the report, then report_count + 1. */
  function AddReport(l: Ledger, id: int, t: int, u: int): Ledger
  {
    l.(reports := l.reports[id := Report(u, t, false)], reportCount := l.reportCount[t := At(l.reportCount, t) + 1])
  }

  function SoftDeleteReports(reports: map<int, Report>, t: int): map<int, Report> {
    map r | r in reports :: if reports[r].target == t then reports[r].(deleted := true) else reports[r]
  }

  /** Soft-delete the live reports on `t`; the column is zeroed only while the target is undeleted. */
  function ResetReports(l: Ledger, t: int, zero: bool): Ledger
  {
    var cleared := l.(reports := SoftDeleteReports(l.reports, t));
    if zero then
      cleared.(reportCount := l.reportCount[t := 0], lostReports := l.lostReports[t := 0])
    else
      cleared.(lostReports := l.lostReports[t := At(l.lostReports, t) + |LiveReports(l, t)|])
  }

  /** DELETE every like on `t`, leaving its column alone. */
  function DropLikes(l: Ledger, t: int): Ledger
  {
    l.(likes := l.likes - LikesOf(l, t), lostLikes := l.lostLikes[t := At(l.lostLikes, t) + |LikesOf(l, t)|])
  }

  function LikesBy(l: Ledger, users: set<int>): set<(int, int)> {
    set r | r in l.likes && r.1 in users
  }

  function ReportsBy(l: Ledger, users: set<int>): set<int> {
    set r | r in l.reports && l.reports[r].reporter in users
  }

  /** The ON DELETE CASCADE of the given users. */
  function Purge(l: Ledger, users: set<int>): Ledger {
    l.(likes := l.likes - LikesBy(l, users),
       reports := l.reports - ReportsBy(l, users),
       lostLikes := map t | t in l.lostLikes :: l.lostLikes[t] + |LikesOf(l, t) * LikesBy(l, users)|,
       lostReports := map t | t in l.lostReports :: l.lostReports[t] + |LiveReports(l, t) * ReportsBy(l, users)|)
  }

  // ---- every operation keeps the columns in agreement with the rows ----

  lemma AddTargetAgrees(l: Ledger, ids: set<int>, t: int)
    requires Agrees(l, ids) && t !in ids
    ensures Agrees(AddTarget(l, t), ids + {t})
  {
    var m := AddTarget(l, t);
    assert LikesOf(m, t) == {};
    assert LiveReports(m, t) == {} by {
      forall r | r in l.reports ensures l.reports[r].target != t { assert l.reports[r].target in ids; }
    }
    forall x | x in ids ensures LikesAgree(m, x) && ReportsAgree(m, x) {
      assert LikesAgree(l, x) && ReportsAgree(l, x);
      assert LikesOf(m, x) == LikesOf(l, x) && LiveReports(m, x) == LiveReports(l, x);
    }
  }

  /** Operations on likes leave the report side alone. */
  lemma SameReports(l: Ledger, m: Ledger, ids: set<int>)
    requires Agrees(l, ids)
    requires m.reportCount == l.reportCount && m.reports == l.reports && m.lostReports == l.lostReports
    ensures forall t :: t in ids ==> ReportsAgree(m, t)
  {
  }

  lemma SameLikes(l: Ledger, m: Ledger, ids: set<int>)
    requires Agrees(l, ids)
    requires m.likeCount == l.likeCount && m.likes == l.likes && m.lostLikes == l.lostLikes
    ensures forall t :: t in ids ==> LikesAgree(m, t)
  {
  }

  lemma AddLikeAgrees(l: Ledger, ids: set<int>, t: int, u: int)
    requires Agrees(l, ids) && t in ids && (t, u) !in l.likes
    ensures Agrees(AddLike(l, t, u), ids)
  {
    var m := AddLike(l, t, u);
    forall x | x in ids ensures LikesAgree(m, x) {
      assert LikesAgree(l, x);
      assert LikesOf(m, x) == if x == t then LikesOf(l, x) + {(t, u)} else LikesOf(l, x);
    }
    SameReports(l, m, ids);
  }

  /** A like that is there is counted, so the clamp at zero does not fire. */
  lemma LikeCounted(l: Ledger, ids: set<int>, t: int, u: int)
    requires Agrees(l, ids) && (t, u) in l.likes
    ensures t in ids && l.likeCount[t] >= 1 && Max(l.likeCount[t] - 1, 0) == l.likeCount[t] - 1
  {
    assert (t, u) in LikesOf(l, t) && (t, u).0 in ids;
    assert LikesAgree(l, t);
  }

  lemma RemoveLikeAgrees(l: Ledger, ids: set<int>, t: int, u: int)
    requires Agrees(l, ids) && t in ids && (t, u) in l.likes
    ensures Agrees(RemoveLike(l, t, u), ids)
  {
    var m := RemoveLike(l, t, u);
    LikeCounted(l, ids, t, u);
    forall x | x in ids ensures LikesAgree(m, x) {
      assert LikesAgree(l, x);
      assert LikesOf(m, x) == if x == t then LikesOf(l, x) - {(t, u)} else LikesOf(l, x);
    }
    SameReports(l, m, ids);
  }

  lemma RemoveAfterAdd(l: Ledger, ids: set<int>, t: int, u: int)
    requires Agrees(l, ids) && t in ids && (t, u) !in l.likes
    ensures RemoveLike(AddLike(l, t, u), t, u) == l
  {
  }

  /** One row more, or one less, among the likes of its target. */
  lemma LikeRows(l: Ledger, m: Ledger, t: int, u: int)
    ensures m.likes == l.likes + {(t, u)} ==> LikesOf(m, t) == LikesOf(l, t) + {(t, u)}
    ensures m.likes == l.likes - {(t, u)} ==> LikesOf(m, t) == LikesOf(l, t) - {(t, u)}
  {
  }

  lemma ReportAdded(l: Ledger, id: int, t: int, u: int, x: int)
    requires id !in l.reports
    ensures LiveReports(AddReport(l, id, t, u), x) == if x == t then LiveReports(l, x) + {id} else LiveReports(l, x)
  {
  }

  lemma AddReportAgrees(l: Ledger, ids: set<int>, id: int, t: int, u: int)
    requires Agrees(l, ids) && t in ids && id !in l.reports
    ensures Agrees(AddReport(l, id, t, u), ids)
  {
    var m := AddReport(l, id, t, u);
    forall x | x in ids ensures ReportsAgree(m, x) {
      assert ReportsAgree(l, x);
      ReportAdded(l, id, t, u, x);
    }
    SameLikes(l, m, ids);
  }

  lemma ResetReportsAgrees(l: Ledger, ids: set<int>, t: int, zero: bool)
    requires Agrees(l, ids) && t in ids
    ensures Agrees(ResetReports(l, t, zero), ids)
    ensures LiveReports(ResetReports(l, t, zero), t) == {}
  {
    var m := ResetReports(l, t, zero);
    forall x | x in ids ensures ReportsAgree(m, x) {
      assert ReportsAgree(l, x);
      assert LiveReports(m, x) == if x == t then {} else LiveReports(l, x);
    }
    SameLikes(l, m, ids);
  }

  lemma DropLikesAgrees(l: Ledger, ids: set<int>, t: int)
    requires Agrees(l, ids) && t in ids
    ensures Agrees(DropLikes(l, t), ids) && LikesOf(DropLikes(l, t), t) == {}
  {
    var m := DropLikes(l, t);
    forall x | x in ids ensures LikesAgree(m, x) {
      assert LikesAgree(l, x);
      assert LikesOf(m, x) == if x == t then {} else LikesOf(l, x);
    }
    SameReports(l, m, ids);
  }

  lemma Split<T>(a: set<T>, b: set<T>)
    ensures |a| == |a - b| + |a * b|
  {
  }

  lemma PurgeLikesAgree(l: Ledger, ids: set<int>, users: set<int>, t: int)
    requires Agrees(l, ids) && t in ids
    ensures LikesAgree(Purge(l, users), t)
  {
    assert LikesAgree(l, t);
    assert LikesOf(Purge(l, users), t) == LikesOf(l, t) - LikesBy(l, users);
    Split(LikesOf(l, t), LikesBy(l, users));
  }

  lemma PurgeReportsAgree(l: Ledger, ids: set<int>, users: set<int>, t: int)
    requires Agrees(l, ids) && t in ids
    ensures ReportsAgree(Purge(l, users), t)
  {
    assert ReportsAgree(l, t);
    assert LiveReports(Purge(l, users), t) == LiveReports(l, t) - ReportsBy(l, users);
    Split(LiveReports(l, t), ReportsBy(l, users));
  }

  lemma PurgeWidens(l: Ledger, ids: set<int>, users: set<int>, t: int)
    requires Agrees(l, ids) && t in ids
    ensures var m := Purge(l, users);
            && At(m.likeCount, t) - |LikesOf(m, t)|
               == At(l.likeCount, t) - |LikesOf(l, t)| + |LikesOf(l, t) * LikesBy(l, users)|
            && At(m.reportCount, t) - |LiveReports(m, t)|
               == At(l.reportCount, t) - |LiveReports(l, t)| + |LiveReports(l, t) * ReportsBy(l, users)|
  {
    assert LikesAgree(l, t) && ReportsAgree(l, t);
    PurgeLikesAgree(l, ids, users, t);
    PurgeReportsAgree(l, ids, users, t);
  }

  lemma PurgeAgrees(l: Ledger, ids: set<int>, users: set<int>)
    requires Agrees(l, ids)
    ensures Agrees(Purge(l, users), ids)
  {
    var m := Purge(l, users);
    assert Covers(m, ids);
    forall t | t in ids ensures LikesAgree(m, t) { PurgeLikesAgree(l, ids, users, t); }
    forall t | t in ids ensures ReportsAgree(m, t) { PurgeReportsAgree(l, ids, users, t); }
    forall r | r in m.reports ensures m.reports[r].target in ids { assert l.reports[r].target in ids; }
  }
}
