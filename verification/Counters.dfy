/**
Posts, comments, likes and reports with their denormalised counters, moved by one event per
database transaction. `pardoned` holds the targets an administrator unblinded after their last
report, `hidden` those blinded by hand since they were last shown; both, and `purged`, are history.
*/
module Counters {
  import opened Common
  import opened Ledgers

  datatype Post = Post(author: Option<int>, deleted: bool, blinded: bool, commentCount: int)

  datatype Comment = Comment(post: int, parent: Option<int>, author: Option<int>, content: string,
                             deleted: bool, blinded: bool)

  datatype State = State(
    posts: map<int, Post>,
    comments: map<int, Comment>,
    postLedger: Ledger,
    commentLedger: Ledger,
    pardonedPosts: set<int>,
    pardonedComments: set<int>,
    hiddenPosts: set<int>,
    hiddenComments: set<int>,
    purged: bool)

  const NOTHING := State(map[], map[], EMPTY, EMPTY, {}, {}, {}, {}, false)

  datatype Event =
    | CreatePost(post: int, author: int)
    | CreateComment(comment: int, post: int, parent: Option<int>, author: int, content: string, blocked: set<int>)
    | LikePost(post: int, user: int)
    | UnlikePost(post: int, user: int)
    | LikeComment(comment: int, user: int)
    | UnlikeComment(comment: int, user: int)
    | DeleteComment(post: int, comment: int)
    | DeletePost(post: int)
    | ReportPost(report: int, post: int, user: int)
    | ReportComment(report: int, comment: int, user: int)
    | UnblindPost(post: int)
    | UnblindComment(comment: int)
    | BlindPost(post: int)
    | BlindComment(comment: int)
    | ResetPost(post: int)
    | ResetComment(comment: int)
    | PurgeUsers(users: set<int>)

  // ---- what the guards read ----

  predicate LivePost(s: State, p: int) {
    p in s.posts && !s.posts[p].deleted
  }

  predicate VisiblePost(s: State, p: int) {
    LivePost(s, p) && !s.posts[p].blinded
  }

  predicate LiveComment(s: State, c: int) {
    c in s.comments && !s.comments[c].deleted
  }

  predicate NotBlocked(blocked: set<int>, author: Option<int>) {
    author.None? || author.value !in blocked
  }

  /** A reply needs an undeleted root comment of the same post. */
  predicate MayReply(comments: map<int, Comment>, post: int, parent: Option<int>) {
    parent.Some? ==>
      && parent.value in comments
      && comments[parent.value].post == post
      && !comments[parent.value].deleted
      && comments[parent.value].parent.None?
  }

  predicate MayComment(s: State, e: Event)
    requires e.CreateComment?
  {
    && e.comment !in s.comments
    && VisiblePost(s, e.post)
    && NotBlocked(e.blocked, s.posts[e.post].author)
    && MayReply(s.comments, e.post, e.parent)
  }

  // ---- one function per transaction ----

  function OnCreatePost(s: State, p: int, author: int): State {
    if p in s.posts then s else
      s.(posts := s.posts[p := Post(Some(author), false, false, 0)], postLedger := AddTarget(s.postLedger, p),
         pardonedPosts := s.pardonedPosts - {p}, hiddenPosts := s.hiddenPosts - {p})
  }

  function OnCreateComment(s: State, e: Event): State
    requires e.CreateComment?
  {
    if !MayComment(s, e) then s else
      s.(posts := s.posts[e.post := s.posts[e.post].(commentCount := s.posts[e.post].commentCount + 1)],
         comments := s.comments[e.comment := Comment(e.post, e.parent, Some(e.author), e.content, false, false)],
         commentLedger := AddTarget(s.commentLedger, e.comment),
         pardonedComments := s.pardonedComments - {e.comment}, hiddenComments := s.hiddenComments - {e.comment})
  }

  function OnLikePost(s: State, p: int, u: int): State {
    if VisiblePost(s, p) && (p, u) !in s.postLedger.likes then
      s.(postLedger := AddLike(s.postLedger, p, u))
    else s
  }

  function OnUnlikePost(s: State, p: int, u: int): State {
    if VisiblePost(s, p) && (p, u) in s.postLedger.likes then
      s.(postLedger := RemoveLike(s.postLedger, p, u))
    else s
  }

  function OnLikeComment(s: State, c: int, u: int): State {
    if LiveComment(s, c) && (c, u) !in s.commentLedger.likes then
      s.(commentLedger := AddLike(s.commentLedger, c, u))
    else s
  }

  function OnUnlikeComment(s: State, c: int, u: int): State {
    if LiveComment(s, c) && (c, u) in s.commentLedger.likes then
      s.(commentLedger := RemoveLike(s.commentLedger, c, u))
    else s
  }

  function OnDeleteComment(s: State, p: int, c: int): State {
    if LiveComment(s, c) && s.comments[c].post == p then
      s.(comments := s.comments[c := s.comments[c].(deleted := true)],
         posts := if p in s.posts then
                    s.posts[p := s.posts[p].(commentCount := Max(s.posts[p].commentCount - 1, 0))]
                  else s.posts)
    else s
  }

  function DeleteCommentsOf(comments: map<int, Comment>, p: int): map<int, Comment> {
    map c | c in comments :: if comments[c].post == p then comments[c].(deleted := true) else comments[c]
  }

  function OnDeletePost(s: State, p: int): State {
    if LivePost(s, p) then
      s.(posts := s.posts[p := s.posts[p].(deleted := true)],
         comments := DeleteCommentsOf(s.comments, p),
         postLedger := DropLikes(s.postLedger, p))
    else s
  }

  function OnReportPost(s: State, r: int, p: int, u: int, threshold: int): State {
    if LivePost(s, p) && s.posts[p].author.Some? && r !in s.postLedger.reports then
      var ledger := AddReport(s.postLedger, r, p, u);
      s.(postLedger := ledger, pardonedPosts := s.pardonedPosts - {p},
         posts := if ledger.reportCount[p] >= threshold then s.posts[p := s.posts[p].(blinded := true)] else s.posts)
    else s
  }

  function OnReportComment(s: State, r: int, c: int, u: int, threshold: int): State {
    if LiveComment(s, c) && r !in s.commentLedger.reports then
      var ledger := AddReport(s.commentLedger, r, c, u);
      s.(commentLedger := ledger, pardonedComments := s.pardonedComments - {c},
         comments := if ledger.reportCount[c] >= threshold then s.comments[c := s.comments[c].(blinded := true)]
                     else s.comments)
    else s
  }

  function OnUnblindPost(s: State, p: int): State {
    if LivePost(s, p) then
      s.(posts := s.posts[p := s.posts[p].(blinded := false)],
         pardonedPosts := s.pardonedPosts + {p}, hiddenPosts := s.hiddenPosts - {p})
    else s
  }

  function OnUnblindComment(s: State, c: int): State {
    if LiveComment(s, c) then
      s.(comments := s.comments[c := s.comments[c].(blinded := false)],
         pardonedComments := s.pardonedComments + {c}, hiddenComments := s.hiddenComments - {c})
    else s
  }

  function OnBlindPost(s: State, p: int): State {
    if LivePost(s, p) then
      s.(posts := s.posts[p := s.posts[p].(blinded := true)], hiddenPosts := s.hiddenPosts + {p})
    else s
  }

  /** Unlike a post, a deleted comment can still be blinded. */
  function OnBlindComment(s: State, c: int): State {
    if c in s.comments then
      s.(comments := s.comments[c := s.comments[c].(blinded := true)], hiddenComments := s.hiddenComments + {c})
    else s
  }

  /** The reports go even when the post is deleted; the columns are reset only when it is not. */
  function OnResetPost(s: State, p: int): State {
    if p !in s.posts then s
    else if s.posts[p].deleted then s.(postLedger := ResetReports(s.postLedger, p, false))
    else
      s.(postLedger := ResetReports(s.postLedger, p, true),
         posts := s.posts[p := s.posts[p].(blinded := false)], hiddenPosts := s.hiddenPosts - {p})
  }

  function OnResetComment(s: State, c: int): State {
    if c !in s.comments then s
    else if s.comments[c].deleted then s.(commentLedger := ResetReports(s.commentLedger, c, false))
    else
      s.(commentLedger := ResetReports(s.commentLedger, c, true),
         comments := s.comments[c := s.comments[c].(blinded := false)], hiddenComments := s.hiddenComments - {c})
  }

  function Anonymous(author: Option<int>, users: set<int>): Option<int> {
    if author.Some? && author.value in users then None else author
  }

  function AnonymousPosts(posts: map<int, Post>, users: set<int>): map<int, Post> {
    map p | p in posts :: posts[p].(author := Anonymous(posts[p].author, users))
  }

  function AnonymousComments(comments: map<int, Comment>, users: set<int>): map<int, Comment> {
    map c | c in comments :: comments[c].(author := Anonymous(comments[c].author, users))
  }

  /** Likes and reports go with their users; posts and comments stay, without an author. */
  function OnPurgeUsers(s: State, users: set<int>): State {
    s.(posts := AnonymousPosts(s.posts, users), comments := AnonymousComments(s.comments, users),
       postLedger := Purge(s.postLedger, users), commentLedger := Purge(s.commentLedger, users),
       purged := true)
  }

  function Step(s: State, e: Event, threshold: int): State {
    match e
    case CreatePost(p, a) => OnCreatePost(s, p, a)
    case CreateComment(_, _, _, _, _, _) => OnCreateComment(s, e)
    case LikePost(p, u) => OnLikePost(s, p, u)
    case UnlikePost(p, u) => OnUnlikePost(s, p, u)
    case LikeComment(c, u) => OnLikeComment(s, c, u)
    case UnlikeComment(c, u) => OnUnlikeComment(s, c, u)
    case DeleteComment(p, c) => OnDeleteComment(s, p, c)
    case DeletePost(p) => OnDeletePost(s, p)
    case ReportPost(r, p, u) => OnReportPost(s, r, p, u, threshold)
    case ReportComment(r, c, u) => OnReportComment(s, r, c, u, threshold)
    case UnblindPost(p) => OnUnblindPost(s, p)
    case UnblindComment(c) => OnUnblindComment(s, c)
    case BlindPost(p) => OnBlindPost(s, p)
    case BlindComment(c) => OnBlindComment(s, c)
    case ResetPost(p) => OnResetPost(s, p)
    case ResetComment(c) => OnResetComment(s, c)
    case PurgeUsers(users) => OnPurgeUsers(s, users)
  }

  function Run(es: seq<Event>, threshold: int): State {
    if es == [] then NOTHING else Step(Run(es[..|es| - 1], threshold), es[|es| - 1], threshold)
  }

  // ---- the invariant ----

  function LiveCommentsOf(comments: map<int, Comment>, p: int): set<int> {
    set c | c in comments && comments[c].post == p && !comments[c].deleted
  }

  /** comment_count is the number of live comments; a deleted post has none. */
  ghost predicate CountsComments(posts: map<int, Post>, comments: map<int, Comment>) {
    forall p :: p in posts ==>
      if posts[p].deleted then LiveCommentsOf(comments, p) == {}
      else posts[p].commentCount == |LiveCommentsOf(comments, p)|
  }

  ghost predicate ThreadOk(posts: map<int, Post>, comments: map<int, Comment>, c: int)
    requires c in comments
  {
    && comments[c].post in posts
    && var parent := comments[c].parent;
       parent.Some? ==>
         && parent.value in comments
         && comments[parent.value].post == comments[c].post
         && comments[parent.value].parent.None?
  }

  /** Comments hang under existing posts, and replies under roots of the same post. */
  ghost predicate Threads(posts: map<int, Post>, comments: map<int, Comment>) {
    forall c :: c in comments ==> ThreadOk(posts, comments, c)
  }

  /** Blinded exactly when reports reached the threshold and nobody pardoned, or an administrator hid it. */
  predicate BlindRight(blinded: bool, reports: int, threshold: int, pardoned: bool, hidden: bool) {
    blinded == ((reports >= threshold && !pardoned) || hidden)
  }

  ghost predicate PostsBlindRight(posts: map<int, Post>, reportCount: map<int, int>, pardoned: set<int>,
                                  hidden: set<int>, threshold: int) {
    forall p :: p in posts ==>
      BlindRight(posts[p].blinded, At(reportCount, p), threshold, p in pardoned, p in hidden)
  }

  ghost predicate CommentsBlindRight(comments: map<int, Comment>, reportCount: map<int, int>, pardoned: set<int>,
                                     hidden: set<int>, threshold: int) {
    forall c :: c in comments ==>
      BlindRight(comments[c].blinded, At(reportCount, c), threshold, c in pardoned, c in hidden)
  }

  ghost predicate PostsLossless(posts: map<int, Post>, lost: map<int, int>) {
    forall p :: p in posts && !posts[p].deleted ==> At(lost, p) == 0
  }

  ghost predicate CommentsLossless(comments: map<int, Comment>, lost: map<int, int>) {
    forall c :: c in comments && !comments[c].deleted ==> At(lost, c) == 0
  }

  ghost predicate BlindInv(s: State, threshold: int) {
    && PostsBlindRight(s.posts, s.postLedger.reportCount, s.pardonedPosts, s.hiddenPosts, threshold)
    && CommentsBlindRight(s.comments, s.commentLedger.reportCount, s.pardonedComments, s.hiddenComments, threshold)
  }

  ghost predicate PostLossInv(s: State) {
    !s.purged ==> PostsLossless(s.posts, s.postLedger.lostLikes) && PostsLossless(s.posts, s.postLedger.lostReports)
  }

  ghost predicate CommentLossInv(s: State) {
    !s.purged ==>
      && CommentsLossless(s.comments, s.commentLedger.lostLikes)
      && CommentsLossless(s.comments, s.commentLedger.lostReports)
  }

  ghost predicate LedgerInv(s: State) {
    Agrees(s.postLedger, s.posts.Keys) && Agrees(s.commentLedger, s.comments.Keys)
  }

  ghost predicate CountInv(s: State) {
    CountsComments(s.posts, s.comments) && Threads(s.posts, s.comments)
  }

  ghost predicate Inv(s: State, threshold: int) {
    LedgerInv(s) && CountInv(s) && PostLossInv(s) && CommentLossInv(s) && BlindInv(s, Max(1, threshold))
  }

  // ---- like and report columns agree with their rows ----

  lemma CreatePostKeepsLedgers(s: State, p: int, author: int)
    requires LedgerInv(s)
    ensures LedgerInv(OnCreatePost(s, p, author))
  {
    if p !in s.posts {
      AddTargetAgrees(s.postLedger, s.posts.Keys, p);
      assert OnCreatePost(s, p, author).posts.Keys == s.posts.Keys + {p};
    }
  }

  lemma CreateCommentKeepsLedgers(s: State, e: Event)
    requires LedgerInv(s) && e.CreateComment?
    ensures LedgerInv(OnCreateComment(s, e))
  {
    if MayComment(s, e) {
      AddTargetAgrees(s.commentLedger, s.comments.Keys, e.comment);
      assert OnCreateComment(s, e).comments.Keys == s.comments.Keys + {e.comment};
      assert OnCreateComment(s, e).posts.Keys == s.posts.Keys;
    }
  }

  lemma LikesKeepPostLedger(s: State, p: int, u: int)
    requires LedgerInv(s)
    ensures LedgerInv(OnLikePost(s, p, u)) && LedgerInv(OnUnlikePost(s, p, u))
  {
    if p in s.posts {
      if (p, u) in s.postLedger.likes { RemoveLikeAgrees(s.postLedger, s.posts.Keys, p, u); }
      else { AddLikeAgrees(s.postLedger, s.posts.Keys, p, u); }
    }
  }

  lemma LikesKeepCommentLedger(s: State, c: int, u: int)
    requires LedgerInv(s)
    ensures LedgerInv(OnLikeComment(s, c, u)) && LedgerInv(OnUnlikeComment(s, c, u))
  {
    if c in s.comments {
      if (c, u) in s.commentLedger.likes { RemoveLikeAgrees(s.commentLedger, s.comments.Keys, c, u); }
      else { AddLikeAgrees(s.commentLedger, s.comments.Keys, c, u); }
    }
  }

  lemma DeleteCommentKeepsLedgers(s: State, p: int, c: int)
    requires LedgerInv(s)
    ensures LedgerInv(OnDeleteComment(s, p, c))
  {
  }

  lemma DeletePostKeepsLedgers(s: State, p: int)
    requires LedgerInv(s)
    ensures LedgerInv(OnDeletePost(s, p))
  {
    if p in s.posts { DropLikesAgrees(s.postLedger, s.posts.Keys, p); }
    assert OnDeletePost(s, p).posts.Keys == s.posts.Keys;
    assert OnDeletePost(s, p).comments.Keys == s.comments.Keys;
  }

  lemma ReportKeepsPostLedger(s: State, r: int, p: int, u: int, threshold: int)
    requires LedgerInv(s)
    ensures LedgerInv(OnReportPost(s, r, p, u, threshold))
  {
    if p in s.posts && r !in s.postLedger.reports { AddReportAgrees(s.postLedger, s.posts.Keys, r, p, u); }
    assert OnReportPost(s, r, p, u, threshold).posts.Keys == s.posts.Keys;
  }

  lemma ReportKeepsCommentLedger(s: State, r: int, c: int, u: int, threshold: int)
    requires LedgerInv(s)
    ensures LedgerInv(OnReportComment(s, r, c, u, threshold))
  {
    if c in s.comments && r !in s.commentLedger.reports {
      AddReportAgrees(s.commentLedger, s.comments.Keys, r, c, u);
    }
    assert OnReportComment(s, r, c, u, threshold).comments.Keys == s.comments.Keys;
  }

  lemma ResetKeepsPostLedger(s: State, p: int)
    requires LedgerInv(s)
    ensures LedgerInv(OnResetPost(s, p))
  {
    if p in s.posts { ResetReportsAgrees(s.postLedger, s.posts.Keys, p, !s.posts[p].deleted); }
    assert OnResetPost(s, p).posts.Keys == s.posts.Keys;
  }

  lemma ResetKeepsCommentLedger(s: State, c: int)
    requires LedgerInv(s)
    ensures LedgerInv(OnResetComment(s, c))
  {
    if c in s.comments { ResetReportsAgrees(s.commentLedger, s.comments.Keys, c, !s.comments[c].deleted); }
    assert OnResetComment(s, c).comments.Keys == s.comments.Keys;
  }

  lemma FlagsKeepPostLedger(s: State, p: int)
    requires LedgerInv(s)
    ensures LedgerInv(OnUnblindPost(s, p)) && LedgerInv(OnBlindPost(s, p))
  {
  }

  lemma FlagsKeepCommentLedger(s: State, c: int)
    requires LedgerInv(s)
    ensures LedgerInv(OnUnblindComment(s, c)) && LedgerInv(OnBlindComment(s, c))
  {
  }

  lemma PurgeKeepsLedgers(s: State, users: set<int>)
    requires LedgerInv(s)
    ensures LedgerInv(OnPurgeUsers(s, users))
  {
    PurgeAgrees(s.postLedger, s.posts.Keys, users);
    PurgeAgrees(s.commentLedger, s.comments.Keys, users);
    assert OnPurgeUsers(s, users).posts.Keys == s.posts.Keys;
    assert OnPurgeUsers(s, users).comments.Keys == s.comments.Keys;
  }

  lemma CommentStepKeepsLedgers(s: State, e: Event, threshold: int)
    requires LedgerInv(s) && (AboutComments(e) || e.DeleteComment? || e.LikeComment? || e.UnlikeComment?)
    ensures LedgerInv(Step(s, e, threshold))
  {
    match e
    case CreateComment(_, _, _, _, _, _) => CreateCommentKeepsLedgers(s, e);
    case LikeComment(c, u) => LikesKeepCommentLedger(s, c, u);
    case UnlikeComment(c, u) => LikesKeepCommentLedger(s, c, u);
    case DeleteComment(p, c) => DeleteCommentKeepsLedgers(s, p, c);
    case ReportComment(r, c, u) => ReportKeepsCommentLedger(s, r, c, u, threshold);
    case UnblindComment(c) => FlagsKeepCommentLedger(s, c);
    case BlindComment(c) => FlagsKeepCommentLedger(s, c);
    case ResetComment(c) => ResetKeepsCommentLedger(s, c);
  }

  lemma StepKeepsLedgers(s: State, e: Event, threshold: int)
    requires LedgerInv(s)
    ensures LedgerInv(Step(s, e, threshold))
  {
    match e
    case CreatePost(p, a) => CreatePostKeepsLedgers(s, p, a);
    case LikePost(p, u) => LikesKeepPostLedger(s, p, u);
    case UnlikePost(p, u) => LikesKeepPostLedger(s, p, u);
    case DeletePost(p) => DeletePostKeepsLedgers(s, p);
    case ReportPost(r, p, u) => ReportKeepsPostLedger(s, r, p, u, threshold);
    case UnblindPost(p) => FlagsKeepPostLedger(s, p);
    case BlindPost(p) => FlagsKeepPostLedger(s, p);
    case ResetPost(p) => ResetKeepsPostLedger(s, p);
    case PurgeUsers(users) => PurgeKeepsLedgers(s, users);
    case _ => CommentStepKeepsLedgers(s, e, threshold);
  }

  // ---- comment_count is the number of live comments ----

  lemma CommentAdded(comments: map<int, Comment>, id: int, c: Comment, p: int)
    requires id !in comments && !c.deleted
    ensures LiveCommentsOf(comments[id := c], p)
         == if c.post == p then LiveCommentsOf(comments, p) + {id} else LiveCommentsOf(comments, p)
  {
  }

  lemma CreatePostKeepsCounts(s: State, p: int, author: int)
    requires CountInv(s)
    ensures CountInv(OnCreatePost(s, p, author))
  {
    if p !in s.posts {
      var t := OnCreatePost(s, p, author);
      forall c | c in s.comments ensures ThreadOk(t.posts, t.comments, c) {
        assert ThreadOk(s.posts, s.comments, c);
      }
      assert LiveCommentsOf(s.comments, p) == {} by {
        forall c | c in s.comments ensures s.comments[c].post != p { assert ThreadOk(s.posts, s.comments, c); }
      }
    }
  }

  lemma CreateCommentKeepsThreads(s: State, e: Event)
    requires Threads(s.posts, s.comments) && e.CreateComment? && MayComment(s, e)
    ensures var t := OnCreateComment(s, e); Threads(t.posts, t.comments)
  {
  }

  lemma CreateCommentKeepsCounts(s: State, e: Event)
    requires CountInv(s) && e.CreateComment?
    ensures CountInv(OnCreateComment(s, e))
  {
    if MayComment(s, e) {
      var t := OnCreateComment(s, e);
      forall p | p in s.posts
        ensures if t.posts[p].deleted then LiveCommentsOf(t.comments, p) == {}
                else t.posts[p].commentCount == |LiveCommentsOf(t.comments, p)|
      {
        CommentAdded(s.comments, e.comment, t.comments[e.comment], p);
      }
      assert t.posts.Keys == s.posts.Keys;
      CreateCommentKeepsThreads(s, e);
    }
  }

  lemma SameLive(a: map<int, Comment>, b: map<int, Comment>, p: int)
    requires a.Keys == b.Keys
    requires forall c :: c in a ==> a[c].deleted == b[c].deleted && a[c].post == b[c].post
    ensures LiveCommentsOf(a, p) == LiveCommentsOf(b, p)
  {
    forall c ensures c in LiveCommentsOf(a, p) <==> c in LiveCommentsOf(b, p) {
      assert c in a.Keys <==> c in b.Keys;
    }
  }

  lemma CommentDeleted(comments: map<int, Comment>, id: int, p: int)
    requires id in comments
    ensures LiveCommentsOf(comments[id := comments[id].(deleted := true)], p) == LiveCommentsOf(comments, p) - {id}
  {
  }

  /** A live comment is counted, so the clamp at zero does not fire. */
  lemma CommentCounted(s: State, c: int)
    requires CountInv(s) && LiveComment(s, c)
    ensures var p := s.comments[c].post; LivePost(s, p) && s.posts[p].commentCount >= 1
  {
    assert ThreadOk(s.posts, s.comments, c);
    assert c in LiveCommentsOf(s.comments, s.comments[c].post);
  }

  lemma DeleteCommentKeepsCounts(s: State, p: int, c: int)
    requires CountInv(s)
    ensures CountInv(OnDeleteComment(s, p, c))
  {
    if LiveComment(s, c) && s.comments[c].post == p {
      var t := OnDeleteComment(s, p, c);
      CommentCounted(s, c);
      forall q | q in s.posts
        ensures if t.posts[q].deleted then LiveCommentsOf(t.comments, q) == {}
                else t.posts[q].commentCount == |LiveCommentsOf(t.comments, q)|
      {
        CommentDeleted(s.comments, c, q);
        assert q != p ==> c !in LiveCommentsOf(s.comments, q);
        assert q == p ==> c in LiveCommentsOf(s.comments, q);
      }
      SameThreads(s, t);
    }
  }

  predicate SamePlace(a: Comment, b: Comment) {
    a.post == b.post && a.parent == b.parent
  }

  lemma RowStays(s: State, t: State, c: int)
    requires c in s.comments && s.comments.Keys == t.comments.Keys
    requires forall x :: x in s.comments ==> SamePlace(s.comments[x], t.comments[x])
    ensures c in t.comments && SamePlace(s.comments[c], t.comments[c])
  {
  }

  lemma SameThreads(s: State, t: State)
    requires Threads(s.posts, s.comments) && t.posts.Keys == s.posts.Keys && t.comments.Keys == s.comments.Keys
    requires forall c :: c in s.comments ==> SamePlace(s.comments[c], t.comments[c])
    ensures Threads(t.posts, t.comments)
  {
    forall c | c in t.comments ensures ThreadOk(t.posts, t.comments, c) {
      assert c in s.comments.Keys && ThreadOk(s.posts, s.comments, c);
      assert SamePlace(s.comments[c], t.comments[c]);
      var parent := s.comments[c].parent;
      if parent.Some? {
        RowStays(s, t, parent.value);
      }
    }
  }

  lemma DeletePostKeepsCounts(s: State, p: int)
    requires CountInv(s)
    ensures CountInv(OnDeletePost(s, p))
  {
    if LivePost(s, p) {
      var t := OnDeletePost(s, p);
      forall q | q in s.posts
        ensures LiveCommentsOf(t.comments, q) == if q == p then {} else LiveCommentsOf(s.comments, q)
      {
      }
      SameThreads(s, t);
    }
  }

  /** Changes to flags and authors move no comment in or out. */
  lemma SameCounts(s: State, t: State)
    requires CountInv(s)
    requires t.posts.Keys == s.posts.Keys && t.comments.Keys == s.comments.Keys
    requires forall p :: p in s.posts ==>
               t.posts[p].deleted == s.posts[p].deleted && t.posts[p].commentCount == s.posts[p].commentCount
    requires forall c :: c in s.comments ==>
               t.comments[c].deleted == s.comments[c].deleted && SamePlace(s.comments[c], t.comments[c])
    ensures CountInv(t)
  {
    SameThreads(s, t);
    forall p | p in s.posts ensures LiveCommentsOf(t.comments, p) == LiveCommentsOf(s.comments, p) {
      SameLive(s.comments, t.comments, p);
    }
    assert forall p :: p in t.posts ==> p in s.posts;
  }

  lemma PostFlagsKeepCounts(s: State, p: int)
    requires CountInv(s)
    ensures CountInv(OnUnblindPost(s, p)) && CountInv(OnBlindPost(s, p)) && CountInv(OnResetPost(s, p))
  {
  }

  lemma CommentFlagsKeepCounts(s: State, c: int)
    requires CountInv(s)
    ensures CountInv(OnUnblindComment(s, c)) && CountInv(OnBlindComment(s, c)) && CountInv(OnResetComment(s, c))
  {
    SameCounts(s, OnUnblindComment(s, c));
    SameCounts(s, OnBlindComment(s, c));
    SameCounts(s, OnResetComment(s, c));
  }

  lemma ReportKeepsCounts(s: State, e: Event, threshold: int)
    requires CountInv(s) && (e.ReportPost? || e.ReportComment?)
    ensures CountInv(Step(s, e, threshold))
  {
    SameCounts(s, Step(s, e, threshold));
  }

  lemma StepKeepsCounts(s: State, e: Event, threshold: int)
    requires CountInv(s)
    ensures CountInv(Step(s, e, threshold))
  {
    match e
    case CreatePost(p, a) => CreatePostKeepsCounts(s, p, a);
    case CreateComment(_, _, _, _, _, _) => CreateCommentKeepsCounts(s, e);
    case DeleteComment(p, c) => DeleteCommentKeepsCounts(s, p, c);
    case DeletePost(p) => DeletePostKeepsCounts(s, p);
    case ReportPost(_, _, _) => ReportKeepsCounts(s, e, threshold);
    case ReportComment(_, _, _) => ReportKeepsCounts(s, e, threshold);
    case UnblindPost(p) => PostFlagsKeepCounts(s, p);
    case BlindPost(p) => PostFlagsKeepCounts(s, p);
    case ResetPost(p) => PostFlagsKeepCounts(s, p);
    case UnblindComment(c) => CommentFlagsKeepCounts(s, c);
    case BlindComment(c) => CommentFlagsKeepCounts(s, c);
    case ResetComment(c) => CommentFlagsKeepCounts(s, c);
    case PurgeUsers(users) => SameCounts(s, OnPurgeUsers(s, users));
    case _ =>
  }

  // ---- blinding ----

  predicate AboutComments(e: Event) {
    e.CreateComment? || e.ReportComment? || e.UnblindComment? || e.BlindComment? || e.ResetComment?
  }

  lemma CommentStepKeepsBlinding(s: State, e: Event, threshold: int)
    requires BlindInv(s, threshold) && threshold >= 1 && AboutComments(e)
    ensures BlindInv(Step(s, e, threshold), threshold)
  {
  }

  predicate AboutPosts(e: Event) {
    e.CreatePost? || e.ReportPost? || e.UnblindPost? || e.BlindPost? || e.ResetPost?
  }

  lemma PostStepKeepsBlinding(s: State, e: Event, threshold: int)
    requires BlindInv(s, threshold) && threshold >= 1 && AboutPosts(e)
    ensures BlindInv(Step(s, e, threshold), threshold)
  {
  }

  lemma StepKeepsBlinding(s: State, e: Event, threshold: int)
    requires BlindInv(s, threshold) && threshold >= 1
    ensures BlindInv(Step(s, e, threshold), threshold)
  {
    if AboutComments(e) { CommentStepKeepsBlinding(s, e, threshold); }
    if AboutPosts(e) { PostStepKeepsBlinding(s, e, threshold); }
  }

  // ---- rows are lost only by a purge or with their target ----

  lemma StepKeepsPostLosses(s: State, e: Event, threshold: int)
    requires PostLossInv(s)
    ensures PostLossInv(Step(s, e, threshold))
  {
  }

  lemma StepKeepsCommentLosses(s: State, e: Event, threshold: int)
    requires CommentLossInv(s)
    ensures CommentLossInv(Step(s, e, threshold))
  {
  }

  // ---- a transaction touches its own rows only ----

  /** The post a transaction is about, if it is about one. */
  function PostOf(e: Event): Option<int> {
    match e
    case CreatePost(p, _) => Some(p)
    case CreateComment(_, p, _, _, _, _) => Some(p)
    case LikePost(p, _) => Some(p)
    case UnlikePost(p, _) => Some(p)
    case DeleteComment(p, _) => Some(p)
    case DeletePost(p) => Some(p)
    case ReportPost(_, p, _) => Some(p)
    case UnblindPost(p) => Some(p)
    case BlindPost(p) => Some(p)
    case ResetPost(p) => Some(p)
    case _ => None
  }

  /** The comment it is about. */
  function CommentOf(e: Event): Option<int> {
    match e
    case CreateComment(c, _, _, _, _, _) => Some(c)
    case LikeComment(c, _) => Some(c)
    case UnlikeComment(c, _) => Some(c)
    case DeleteComment(_, c) => Some(c)
    case ReportComment(_, c, _) => Some(c)
    case UnblindComment(c) => Some(c)
    case BlindComment(c) => Some(c)
    case ResetComment(c) => Some(c)
    case _ => None
  }

  /** Its row, its likes, its live reports and its counters are as before. */
  ghost predicate SameTarget(l: Ledger, m: Ledger, t: int) {
    && LikesOf(m, t) == LikesOf(l, t) && LiveReports(m, t) == LiveReports(l, t)
    && At(m.likeCount, t) == At(l.likeCount, t) && At(m.reportCount, t) == At(l.reportCount, t)
  }

  lemma TargetApart(l: Ledger, t: int, q: int)
    requires q != t
    ensures SameTarget(l, AddTarget(l, t), q)
  {
  }

  lemma LikesApart(l: Ledger, t: int, u: int, q: int)
    requires q != t
    ensures SameTarget(l, AddLike(l, t, u), q) && SameTarget(l, RemoveLike(l, t, u), q)
  {
  }

  lemma ReportApart(l: Ledger, id: int, t: int, u: int, q: int)
    requires q != t && id !in l.reports
    ensures SameTarget(l, AddReport(l, id, t, u), q)
  {
  }

  lemma DroppedApart(l: Ledger, t: int, q: int)
    requires q != t
    ensures SameTarget(l, DropLikes(l, t), q)
  {
  }

  lemma ResetApart(l: Ledger, t: int, zero: bool, q: int)
    requires q != t
    ensures SameTarget(l, ResetReports(l, t, zero), q)
  {
  }

  /** Purges aside, no other post changes in any way. */
  lemma OtherPostsStay(s: State, e: Event, threshold: int, q: int)
    requires q in s.posts && !e.PurgeUsers? && PostOf(e) != Some(q)
    ensures var t := Step(s, e, threshold);
            q in t.posts && t.posts[q] == s.posts[q] && SameTarget(s.postLedger, t.postLedger, q)
  {
    match e
    case CreatePost(p, _) => TargetApart(s.postLedger, p, q);
    case LikePost(p, u) => LikesApart(s.postLedger, p, u, q);
    case UnlikePost(p, u) => LikesApart(s.postLedger, p, u, q);
    case DeletePost(p) => DroppedApart(s.postLedger, p, q);
    case ReportPost(r, p, u) => if r !in s.postLedger.reports { ReportApart(s.postLedger, r, p, u, q); }
    case ResetPost(p) =>
      ResetApart(s.postLedger, p, true, q);
      ResetApart(s.postLedger, p, false, q);
    case _ =>
  }

  /** Nor does any other comment, but that a deleted post takes its comments along. */
  lemma OtherCommentsStay(s: State, e: Event, threshold: int, k: int)
    requires k in s.comments && !e.PurgeUsers? && CommentOf(e) != Some(k)
    ensures var t := Step(s, e, threshold);
            && k in t.comments && SameTarget(s.commentLedger, t.commentLedger, k)
            && t.comments[k] == if e.DeletePost? && LivePost(s, e.post) && s.comments[k].post == e.post
                                then s.comments[k].(deleted := true) else s.comments[k]
  {
    match e
    case CreateComment(c, _, _, _, _, _) => TargetApart(s.commentLedger, c, k);
    case LikeComment(c, u) => LikesApart(s.commentLedger, c, u, k);
    case UnlikeComment(c, u) => LikesApart(s.commentLedger, c, u, k);
    case ReportComment(r, c, u) => if r !in s.commentLedger.reports { ReportApart(s.commentLedger, r, c, u, k); }
    case ResetComment(c) =>
      ResetApart(s.commentLedger, c, true, k);
      ResetApart(s.commentLedger, c, false, k);
    case _ =>
  }

  // ---- whole runs ----

  /** A threshold below one acts like one: a report has always been counted before it is compared. */
  lemma EffectiveThreshold(s: State, e: Event, threshold: int)
    requires LedgerInv(s)
    ensures Step(s, e, threshold) == Step(s, e, Max(1, threshold))
  {
    if e.ReportPost? && e.post in s.posts { assert ReportsAgree(s.postLedger, e.post); }
    if e.ReportComment? && e.comment in s.comments { assert ReportsAgree(s.commentLedger, e.comment); }
  }

  lemma StepKeepsInv(s: State, e: Event, threshold: int)
    requires Inv(s, threshold)
    ensures Inv(Step(s, e, threshold), threshold)
  {
    StepKeepsLedgers(s, e, threshold);
    StepKeepsCounts(s, e, threshold);
    EffectiveThreshold(s, e, threshold);
    StepKeepsBlinding(s, e, Max(1, threshold));
    StepKeepsPostLosses(s, e, threshold);
    StepKeepsCommentLosses(s, e, threshold);
  }

  lemma {:induction false} RunKeepsInv(es: seq<Event>, threshold: int)
    ensures Inv(Run(es, threshold), threshold)
    decreases |es|
  {
    if es != [] {
      RunKeepsInv(es[..|es| - 1], threshold);
      StepKeepsInv(Run(es[..|es| - 1], threshold), es[|es| - 1], threshold);
    }
  }

  lemma RunMore(es: seq<Event>, e: Event, threshold: int)
    ensures Run(es + [e], threshold) == Step(Run(es, threshold), e, threshold)
  {
    assert (es + [e])[..|es|] == es;
  }

  ghost predicate NoPurge(es: seq<Event>) {
    forall i :: 0 <= i < |es| ==> !es[i].PurgeUsers?
  }

  lemma {:induction false} UnpurgedRun(es: seq<Event>, threshold: int)
    requires NoPurge(es)
    ensures !Run(es, threshold).purged
    decreases |es|
  {
    if es != [] {
      UnpurgedRun(es[..|es| - 1], threshold);
    }
  }

  /** On every undeleted post, comment_count is the number of live comments. */
  lemma CommentCountExact(es: seq<Event>, threshold: int, p: int)
    ensures var s := Run(es, threshold);
            LivePost(s, p) ==> s.posts[p].commentCount == |LiveCommentsOf(s.comments, p)|
  {
    RunKeepsInv(es, threshold);
  }

  /** Columns never fall below the live rows, and match them on undeleted content when no user was purged. */
  lemma PostColumnsAgree(es: seq<Event>, threshold: int, p: int)
    ensures var s := Run(es, threshold); var l := s.postLedger;
            p in s.posts ==>
              && At(l.likeCount, p) >= |LikesOf(l, p)| && At(l.reportCount, p) >= |LiveReports(l, p)|
              && (NoPurge(es) && LivePost(s, p) ==>
                    At(l.likeCount, p) == |LikesOf(l, p)| && At(l.reportCount, p) == |LiveReports(l, p)|)
  {
    var s := Run(es, threshold);
    RunKeepsInv(es, threshold);
    if NoPurge(es) { UnpurgedRun(es, threshold); }
    if p in s.posts { assert LikesAgree(s.postLedger, p) && ReportsAgree(s.postLedger, p); }
  }

  lemma CommentColumnsAgree(es: seq<Event>, threshold: int, c: int)
    ensures var s := Run(es, threshold); var l := s.commentLedger;
            c in s.comments ==>
              && At(l.likeCount, c) >= |LikesOf(l, c)| && At(l.reportCount, c) >= |LiveReports(l, c)|
              && (NoPurge(es) && LiveComment(s, c) ==>
                    At(l.likeCount, c) == |LikesOf(l, c)| && At(l.reportCount, c) == |LiveReports(l, c)|)
  {
    var s := Run(es, threshold);
    RunKeepsInv(es, threshold);
    if NoPurge(es) { UnpurgedRun(es, threshold); }
    if c in s.comments { assert LikesAgree(s.commentLedger, c) && ReportsAgree(s.commentLedger, c); }
  }

  /** Wherever a run stands, no decrement of a row that is there reaches the clamp at zero. */
  lemma ClampNeverFires(es: seq<Event>, threshold: int, t: int, u: int)
    ensures var s := Run(es, threshold);
            && ((t, u) in s.postLedger.likes ==> At(s.postLedger.likeCount, t) - 1 >= 0)
            && ((t, u) in s.commentLedger.likes ==> At(s.commentLedger.likeCount, t) - 1 >= 0)
            && (LiveComment(s, t) ==>
                  LivePost(s, s.comments[t].post) && s.posts[s.comments[t].post].commentCount - 1 >= 0)
  {
    var s := Run(es, threshold);
    RunKeepsInv(es, threshold);
    if (t, u) in s.postLedger.likes { LikeCounted(s.postLedger, s.posts.Keys, t, u); }
    if (t, u) in s.commentLedger.likes { LikeCounted(s.commentLedger, s.comments.Keys, t, u); }
    if LiveComment(s, t) { CommentCounted(s, t); }
  }

  /**
  Reports at or above the threshold (of at least one) keep content blinded unless an administrator unblinded it after
  the last report; and nothing else but an administrator's hand blinds it.
  */
  lemma BlindedExactly(es: seq<Event>, threshold: int, t: int)
    ensures var s := Run(es, threshold);
            && (t in s.posts ==>
                  (s.posts[t].blinded <==>
                    (At(s.postLedger.reportCount, t) >= Max(1, threshold) && t !in s.pardonedPosts)
                    || t in s.hiddenPosts))
            && (t in s.comments ==>
                  (s.comments[t].blinded <==>
                    (At(s.commentLedger.reportCount, t) >= Max(1, threshold) && t !in s.pardonedComments)
                    || t in s.hiddenComments))
  {
    var s := Run(es, threshold);
    RunKeepsInv(es, threshold);
    if t in s.posts {
      assert BlindRight(s.posts[t].blinded, At(s.postLedger.reportCount, t), Max(1, threshold),
                        t in s.pardonedPosts, t in s.hiddenPosts);
    }
    if t in s.comments {
      assert BlindRight(s.comments[t].blinded, At(s.commentLedger.reportCount, t), Max(1, threshold),
                        t in s.pardonedComments, t in s.hiddenComments);
    }
  }

  /** Taking a like back leaves the state as it was before the like. */
  lemma UnlikeUndoesLike(es: seq<Event>, threshold: int, t: int, u: int)
    ensures var s := Run(es, threshold);
            && ((t, u) !in s.postLedger.likes ==> OnUnlikePost(OnLikePost(s, t, u), t, u) == s)
            && ((t, u) !in s.commentLedger.likes ==> OnUnlikeComment(OnLikeComment(s, t, u), t, u) == s)
  {
    var s := Run(es, threshold);
    RunKeepsInv(es, threshold);
    if VisiblePost(s, t) && (t, u) !in s.postLedger.likes { RemoveAfterAdd(s.postLedger, s.posts.Keys, t, u); }
    if LiveComment(s, t) && (t, u) !in s.commentLedger.likes {
      RemoveAfterAdd(s.commentLedger, s.comments.Keys, t, u);
    }
  }

  /**
  What a purge does to the agreement, exactly: the column of a post moves ahead of its rows by the
  number of purged likers, and by the number of live reports the purged users had made.
  */
  lemma PurgeGap(es: seq<Event>, threshold: int, users: set<int>, p: int)
    requires p in Run(es, threshold).posts
    ensures var l := Run(es, threshold).postLedger; var m := OnPurgeUsers(Run(es, threshold), users).postLedger;
            && At(m.likeCount, p) - |LikesOf(m, p)|
               == At(l.likeCount, p) - |LikesOf(l, p)| + |LikesOf(l, p) * LikesBy(l, users)|
            && At(m.reportCount, p) - |LiveReports(m, p)|
               == At(l.reportCount, p) - |LiveReports(l, p)| + |LiveReports(l, p) * ReportsBy(l, users)|
  {
    var s := Run(es, threshold);
    RunKeepsInv(es, threshold);
    PurgeWidens(s.postLedger, s.posts.Keys, users, p);
  }

  predicate Mentions(author: Option<int>, users: set<int>) {
    author.Some? && author.value in users
  }

  /** A purge leaves no like, report or authorship of the purged users, and takes nothing from anybody else. */
  lemma PurgeLeavesNoTrace(s: State, users: set<int>)
    ensures var t := OnPurgeUsers(s, users);
            && (forall r :: r in t.postLedger.likes <==> r in s.postLedger.likes && r.1 !in users)
            && (forall r :: r in t.commentLedger.likes <==> r in s.commentLedger.likes && r.1 !in users)
            && (forall r :: r in t.postLedger.reports <==>
                  r in s.postLedger.reports && s.postLedger.reports[r].reporter !in users)
            && (forall r :: r in t.commentLedger.reports <==>
                  r in s.commentLedger.reports && s.commentLedger.reports[r].reporter !in users)
            && (forall p :: p in s.posts ==>
                  && p in t.posts && !Mentions(t.posts[p].author, users)
                  && (Mentions(s.posts[p].author, users) || t.posts[p] == s.posts[p]))
            && (forall k :: k in s.comments ==>
                  && k in t.comments && !Mentions(t.comments[k].author, users)
                  && (Mentions(s.comments[k].author, users) || t.comments[k] == s.comments[k]))
  {
  }
}
