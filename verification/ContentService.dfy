/**
The like, comment, report and administration services, statement by statement inside each transaction.
Every database is where some run of the events of `Counters` leads, so what holds of every run holds of
it; the methods say what that means for their callers in terms of rows.
*/
module ContentService {
  import opened Common
  import opened Ledgers
  import opened Counters
  import opened CommentPaging

  datatype Error = PostNotFound | CommentNotFound

  /** A count is never below its rows, and equal to them when no user was ever purged. */
  ghost predicate CountsRows(count: int, rows: int, es: seq<Event>) {
    count >= rows && (NoPurge(es) ==> count == rows)
  }

  lemma ReportsGone(l: Ledger, t: int, zero: bool, q: int)
    ensures LiveReports(ResetReports(l, t, zero), q) == if q == t then {} else LiveReports(l, q)
  {
  }

  // ---- what one more event means in rows ----

  lemma PostReported(es: seq<Event>, threshold: int, id: int, t: int, u: int)
    requires var s := Run(es, threshold); LivePost(s, t) && s.posts[t].author.Some? && id !in s.postLedger.reports
    ensures var s := Run(es, threshold); var after := es + [Event.ReportPost(id, t, u)];
            var z := Run(after, threshold);
            && LiveReports(z.postLedger, t) == LiveReports(s.postLedger, t) + {id}
            && At(z.postLedger.reportCount, t) == At(s.postLedger.reportCount, t) + 1
            && CountsRows(At(z.postLedger.reportCount, t), |LiveReports(z.postLedger, t)|, after)
  {
    var s := Run(es, threshold);
    RunMore(es, Event.ReportPost(id, t, u), threshold);
    ReportAdded(s.postLedger, id, t, u, t);
    PostColumnsAgree(es + [Event.ReportPost(id, t, u)], threshold, t);
  }

  lemma PostReportsReset(es: seq<Event>, threshold: int, t: int, q: int)
    ensures var s := Run(es, threshold).postLedger;
            var z := Run(es + [Event.ResetPost(t)], threshold).postLedger;
            LiveReports(z, q) == if q == t then {} else LiveReports(s, q)
  {
    var s := Run(es, threshold);
    RunMore(es, Event.ResetPost(t), threshold);
    RunKeepsInv(es, threshold);
    if t in s.posts { ReportsGone(s.postLedger, t, !s.posts[t].deleted, q); }
    else { assert forall r :: r in s.postLedger.reports ==> s.postLedger.reports[r].target != t; }
  }

  lemma CommentReported(es: seq<Event>, threshold: int, id: int, t: int, u: int)
    requires var s := Run(es, threshold); LiveComment(s, t) && id !in s.commentLedger.reports
    ensures var s := Run(es, threshold); var after := es + [Event.ReportComment(id, t, u)];
            var z := Run(after, threshold);
            && LiveReports(z.commentLedger, t) == LiveReports(s.commentLedger, t) + {id}
            && At(z.commentLedger.reportCount, t) == At(s.commentLedger.reportCount, t) + 1
            && CountsRows(At(z.commentLedger.reportCount, t), |LiveReports(z.commentLedger, t)|, after)
  {
    var s := Run(es, threshold);
    RunMore(es, Event.ReportComment(id, t, u), threshold);
    ReportAdded(s.commentLedger, id, t, u, t);
    CommentColumnsAgree(es + [Event.ReportComment(id, t, u)], threshold, t);
  }

  lemma CommentReportsReset(es: seq<Event>, threshold: int, t: int, q: int)
    ensures var s := Run(es, threshold).commentLedger;
            var z := Run(es + [Event.ResetComment(t)], threshold).commentLedger;
            LiveReports(z, q) == if q == t then {} else LiveReports(s, q)
  {
    var s := Run(es, threshold);
    RunMore(es, Event.ResetComment(t), threshold);
    RunKeepsInv(es, threshold);
    if t in s.comments { ReportsGone(s.commentLedger, t, !s.comments[t].deleted, q); }
    else { assert forall r :: r in s.commentLedger.reports ==> s.commentLedger.reports[r].target != t; }
  }

  /** A row as it was written is what readers who have not blocked its author find, under its parent if it has one. */
  lemma CreatedIsFound(t: map<int, Comment>, id: int, reader: set<int>)
    requires id in t && !t[id].deleted && !t[id].blinded && t[id].author.Some? && t[id].author.value !in reader
    ensures t[id].parent.Some? ==> id in Replies(t, t[id].parent.value, reader)
    ensures t[id].parent.None? ==>
              forall q: Query :: q.post == t[id].post && q.blocked == reader ==> id in VisibleRoots(t, q)
  {
  }

  /** The new row is exactly what was asked for, no other comment changes, and the counters follow. */
  lemma CommentCreated(es: seq<Event>, threshold: int, e: Event)
    requires e.CreateComment? && MayComment(Run(es, threshold), e)
    ensures var s := Run(es, threshold); var z := Run(es + [e], threshold);
            && z.comments == s.comments[e.comment := Comment(e.post, e.parent, Some(e.author), e.content, false, false)]
            && LiveCommentsOf(z.comments, e.post) == LiveCommentsOf(s.comments, e.post) + {e.comment}
            && LivePost(z, e.post) && z.posts[e.post].commentCount == |LiveCommentsOf(z.comments, e.post)|
            && e.comment in z.comments && ThreadOk(z.posts, z.comments, e.comment)
  {
    var s := Run(es, threshold);
    RunMore(es, e, threshold);
    CommentAdded(s.comments, e.comment, OnCreateComment(s, e).comments[e.comment], e.post);
    RunKeepsInv(es + [e], threshold);
  }

  class Database {
    const threshold: int
    var posts: map<int, Post>
    var comments: map<int, Comment>
    var postLedger: Ledger
    var commentLedger: Ledger
    ghost var pardonedPosts: set<int>
    ghost var pardonedComments: set<int>
    ghost var hiddenPosts: set<int>
    ghost var hiddenComments: set<int>
    ghost var purged: bool
    ghost var history: seq<Event>

    ghost function View(): State
      reads this
    {
      State(posts, comments, postLedger, commentLedger,
            pardonedPosts, pardonedComments, hiddenPosts, hiddenComments, purged)
    }

    ghost predicate Valid()
      reads this
    {
      View() == Run(history, threshold)
    }

    /** The method is one more event of the run. */
    twostate predicate Follows(e: Event)
      reads this
    {
      Valid() && history == old(history) + [e]
    }

    constructor (threshold: int)
      ensures Valid() && history == [] && this.threshold == threshold
    {
      this.threshold := threshold;
      posts, comments, postLedger, commentLedger := map[], map[], EMPTY, EMPTY;
      pardonedPosts, pardonedComments, hiddenPosts, hiddenComments, purged := {}, {}, {}, {}, false;
      history := [];
    }

    /** Books the event that a transaction amounts to. */
    ghost method Book(e: Event)
      requires View() == Step(Run(history, threshold), e, threshold)
      modifies this`history
      ensures Valid() && history == old(history) + [e]
    {
      RunMore(history, e, threshold);
      history := history + [e];
    }

    /** `id` is the fresh primary key; the new post has no rows of any kind and every counter says so. */
    method CreatePost(id: int, author: int)
      requires Valid() && id !in posts
      modifies this
      ensures Follows(Event.CreatePost(id, author)) && VisiblePost(View(), id)
      ensures posts == old(posts)[id := Post(Some(author), false, false, 0)] && comments == old(comments)
      ensures LikesOf(postLedger, id) == {} && LiveReports(postLedger, id) == {} && LiveCommentsOf(comments, id) == {}
      ensures At(postLedger.likeCount, id) == At(postLedger.reportCount, id) == posts[id].commentCount == 0
    {
      posts := posts[id := Post(Some(author), false, false, 0)];
      postLedger := AddTarget(postLedger, id);
      pardonedPosts, hiddenPosts := pardonedPosts - {id}, hiddenPosts - {id};
      Book(Event.CreatePost(id, author));
      PostColumnsAgree(history, threshold, id);
      CommentCountExact(history, threshold, id);
    }

    /** Afterwards the user likes the post, and the count returned counts its likes. */
    method LikePost(post: int, user: int) returns (r: Result<(int, bool), Error>)
      requires Valid()
      modifies this
      ensures Follows(Event.LikePost(post, user))
      ensures r.Ok? <==> post in old(posts) && !old(posts)[post].deleted && !old(posts)[post].blinded
      ensures r.Ok? ==> postLedger.likes == old(postLedger.likes) + {(post, user)}
      ensures r.Ok? ==> LikesOf(postLedger, post) == old(LikesOf(postLedger, post)) + {(post, user)}
      ensures posts == old(posts) && comments == old(comments) && postLedger.reports == old(postLedger.reports)
      ensures r.Ok? ==> (r.value.1 <==> (post, user) !in old(postLedger.likes))
      ensures r.Ok? ==> CountsRows(r.value.0, |LikesOf(postLedger, post)|, history)
      ensures r.Err? ==> r.error == PostNotFound && View() == old(View())
    {
      if post !in posts || posts[post].deleted || posts[post].blinded {
        Book(Event.LikePost(post, user));
        return Err(PostNotFound);
      }
      var inserted := (post, user) !in postLedger.likes;
      if inserted {
        postLedger := postLedger.(likes := postLedger.likes + {(post, user)});
        var more := At(postLedger.likeCount, post) + 1;
        postLedger := postLedger.(likeCount := postLedger.likeCount[post := more]);
      } else {
        assert postLedger.likes + {(post, user)} == postLedger.likes;
      }
      LikeRows(old(postLedger), postLedger, post, user);
      Book(Event.LikePost(post, user));
      PostColumnsAgree(history, threshold, post);
      return Ok((At(postLedger.likeCount, post), inserted));
    }

    /** Afterwards the user does not like the post; a like that was there takes exactly one off the count. */
    method UnlikePost(post: int, user: int) returns (r: Result<int, Error>)
      requires Valid()
      modifies this
      ensures Follows(Event.UnlikePost(post, user))
      ensures r.Ok? <==> post in old(posts) && !old(posts)[post].deleted && !old(posts)[post].blinded
      ensures r.Ok? ==> postLedger.likes == old(postLedger.likes) - {(post, user)}
      ensures r.Ok? ==> LikesOf(postLedger, post) == old(LikesOf(postLedger, post)) - {(post, user)}
      ensures posts == old(posts) && comments == old(comments) && postLedger.reports == old(postLedger.reports)
      ensures r.Ok? ==> old(At(postLedger.likeCount, post))
                        == r.value + if (post, user) in old(postLedger.likes) then 1 else 0
      ensures r.Ok? ==> CountsRows(r.value, |LikesOf(postLedger, post)|, history)
      ensures r.Err? ==> r.error == PostNotFound && View() == old(View())
    {
      ClampNeverFires(history, threshold, post, user);
      if post !in posts || posts[post].deleted || posts[post].blinded {
        Book(Event.UnlikePost(post, user));
        return Err(PostNotFound);
      }
      if (post, user) in postLedger.likes {
        postLedger := postLedger.(likes := postLedger.likes - {(post, user)});
        var fewer := At(postLedger.likeCount, post) - 1;
        postLedger := postLedger.(likeCount := postLedger.likeCount[post := Max(fewer, 0)]);
      } else {
        assert postLedger.likes - {(post, user)} == postLedger.likes;
      }
      LikeRows(old(postLedger), postLedger, post, user);
      Book(Event.UnlikePost(post, user));
      PostColumnsAgree(history, threshold, post);
      return Ok(At(postLedger.likeCount, post));
    }

    /** Afterwards the user likes the comment, and the count returned counts its likes. */
    method LikeComment(comment: int, user: int) returns (r: Result<(int, bool), Error>)
      requires Valid()
      modifies this
      ensures Follows(Event.LikeComment(comment, user))
      ensures r.Ok? <==> comment in old(comments) && !old(comments)[comment].deleted
      ensures r.Ok? ==> commentLedger.likes == old(commentLedger.likes) + {(comment, user)}
      ensures r.Ok? ==> LikesOf(commentLedger, comment) == old(LikesOf(commentLedger, comment)) + {(comment, user)}
      ensures posts == old(posts) && comments == old(comments) && commentLedger.reports == old(commentLedger.reports)
      ensures r.Ok? ==> (r.value.1 <==> (comment, user) !in old(commentLedger.likes))
      ensures r.Ok? ==> CountsRows(r.value.0, |LikesOf(commentLedger, comment)|, history)
      ensures r.Err? ==> r.error == CommentNotFound && View() == old(View())
    {
      if comment !in comments || comments[comment].deleted {
        Book(Event.LikeComment(comment, user));
        return Err(CommentNotFound);
      }
      var inserted := (comment, user) !in commentLedger.likes;
      if inserted {
        commentLedger := commentLedger.(likes := commentLedger.likes + {(comment, user)});
        var more := At(commentLedger.likeCount, comment) + 1;
        commentLedger := commentLedger.(likeCount := commentLedger.likeCount[comment := more]);
      } else {
        assert commentLedger.likes + {(comment, user)} == commentLedger.likes;
      }
      LikeRows(old(commentLedger), commentLedger, comment, user);
      Book(Event.LikeComment(comment, user));
      CommentColumnsAgree(history, threshold, comment);
      return Ok((At(commentLedger.likeCount, comment), inserted));
    }

    /** Afterwards the user does not like the comment; a like that was there takes exactly one off the count. */
    method UnlikeComment(comment: int, user: int) returns (r: Result<int, Error>)
      requires Valid()
      modifies this
      ensures Follows(Event.UnlikeComment(comment, user))
      ensures r.Ok? <==> comment in old(comments) && !old(comments)[comment].deleted
      ensures r.Ok? ==> commentLedger.likes == old(commentLedger.likes) - {(comment, user)}
      ensures r.Ok? ==> LikesOf(commentLedger, comment) == old(LikesOf(commentLedger, comment)) - {(comment, user)}
      ensures posts == old(posts) && comments == old(comments) && commentLedger.reports == old(commentLedger.reports)
      ensures r.Ok? ==> old(At(commentLedger.likeCount, comment))
                        == r.value + if (comment, user) in old(commentLedger.likes) then 1 else 0
      ensures r.Ok? ==> CountsRows(r.value, |LikesOf(commentLedger, comment)|, history)
      ensures r.Err? ==> r.error == CommentNotFound && View() == old(View())
    {
      ClampNeverFires(history, threshold, comment, user);
      if comment !in comments || comments[comment].deleted {
        Book(Event.UnlikeComment(comment, user));
        return Err(CommentNotFound);
      }
      if (comment, user) in commentLedger.likes {
        commentLedger := commentLedger.(likes := commentLedger.likes - {(comment, user)});
        var fewer := At(commentLedger.likeCount, comment) - 1;
        commentLedger := commentLedger.(likeCount := commentLedger.likeCount[comment := Max(fewer, 0)]);
      } else {
        assert commentLedger.likes - {(comment, user)} == commentLedger.likes;
      }
      LikeRows(old(commentLedger), commentLedger, comment, user);
      Book(Event.UnlikeComment(comment, user));
      CommentColumnsAgree(history, threshold, comment);
      return Ok(At(commentLedger.likeCount, comment));
    }

    /**
    `id` is the fresh primary key of the comment, `blocked` the users the author has blocked. The new comment
    is live, one level deep at most, and comment_count counts it.
    */
    method CreateComment(id: int, post: int, parent: Option<int>, author: int, content: string, blocked: set<int>)
      returns (r: Result<int, Error>)
      requires Valid() && id !in comments
      modifies this
      ensures Follows(Event.CreateComment(id, post, parent, author, content, blocked))
      ensures r.Ok? <==> && post in old(posts) && !old(posts)[post].deleted && !old(posts)[post].blinded
                         && (old(posts)[post].author.None? || old(posts)[post].author.value !in blocked)
                         && (parent.Some? ==> && parent.value in old(comments)
                                              && old(comments)[parent.value].post == post
                                              && !old(comments)[parent.value].deleted
                                              && old(comments)[parent.value].parent.None?)
      ensures r.Ok? ==> comments == old(comments)[id := Comment(post, parent, Some(author), content, false, false)]
      ensures r.Ok? && parent.Some? ==>
                forall reader: set<int> :: author !in reader ==> id in Replies(comments, parent.value, reader)
      ensures r.Ok? ==> r.value == id && LiveComment(View(), id) && ThreadOk(posts, comments, id)
      ensures r.Ok? ==> LiveCommentsOf(comments, post) == old(LiveCommentsOf(comments, post)) + {id}
      ensures r.Ok? ==> posts[post].commentCount == |LiveCommentsOf(comments, post)|
      ensures r.Err? ==> View() == old(View())
    {
      ghost var e := Event.CreateComment(id, post, parent, author, content, blocked);
      if post !in posts || posts[post].deleted || posts[post].blinded || !NotBlocked(blocked, posts[post].author) {
        Book(e);
        return Err(PostNotFound);
      }
      if parent.Some? {
        var p := parent.value;
        if p !in comments || comments[p].deleted || comments[p].post != post {
          Book(e);
          return Err(CommentNotFound);
        }
        if comments[p].parent.Some? {
          Book(e);
          return Err(CommentNotFound);
        }
      }
      comments := comments[id := Comment(post, parent, Some(author), content, false, false)];
      commentLedger := AddTarget(commentLedger, id);
      pardonedComments, hiddenComments := pardonedComments - {id}, hiddenComments - {id};
      posts := posts[post := posts[post].(commentCount := posts[post].commentCount + 1)];
      assert View() == OnCreateComment(old(View()), e);
      Book(e);
      CommentCreated(old(history), threshold, e);
      forall reader: set<int> | author !in reader { CreatedIsFound(comments, id, reader); }
      return Ok(id);
    }

    /** UPDATE comments SET deleted_at ... and the decrement that follows it, whose clamp does not fire. */
    method DeleteLiveComment(post: int, comment: int)
      requires Valid() && LiveComment(View(), comment) && comments[comment].post == post
      modifies this
      ensures Follows(Event.DeleteComment(post, comment))
      ensures comments == old(comments)[comment := old(comments)[comment].(deleted := true)]
      ensures LiveCommentsOf(comments, post) == old(LiveCommentsOf(comments, post)) - {comment}
      ensures LivePost(View(), post) && posts[post].commentCount == |LiveCommentsOf(comments, post)|
      ensures posts[post].commentCount == old(posts)[post].commentCount - 1
    {
      ClampNeverFires(history, threshold, comment, 0);
      comments := comments[comment := comments[comment].(deleted := true)];
      if post in posts {
        posts := posts[post := posts[post].(commentCount := Max(posts[post].commentCount - 1, 0))];
      }
      Book(Event.DeleteComment(post, comment));
      CommentCountExact(history, threshold, post);
    }

    /** The author's deletion is idempotent: a comment already deleted is not an error. */
    method DeleteComment(post: int, comment: int) returns (r: Result<(), Error>)
      requires Valid()
      modifies this
      ensures Follows(Event.DeleteComment(post, comment))
      ensures r.Ok? <==> comment in old(comments) && old(comments)[comment].post == post
      ensures r.Ok? ==> comments == old(comments)[comment := old(comments)[comment].(deleted := true)]
      ensures r.Ok? ==> LiveCommentsOf(comments, post) == old(LiveCommentsOf(comments, post)) - {comment}
      ensures LivePost(View(), post) ==> posts[post].commentCount == |LiveCommentsOf(comments, post)|
      ensures r.Err? ==> View() == old(View())
    {
      CommentCountExact(history, threshold, post);
      if comment !in comments || comments[comment].post != post {
        Book(Event.DeleteComment(post, comment));
        return Err(CommentNotFound);
      }
      if comments[comment].deleted {
        Book(Event.DeleteComment(post, comment));
        return Ok(());
      }
      DeleteLiveComment(post, comment);
      return Ok(());
    }

    /** The administrator's deletion is not: it has to find a live comment. */
    method AdminDeleteComment(post: int, comment: int) returns (r: Result<(), Error>)
      requires Valid()
      modifies this
      ensures Follows(Event.DeleteComment(post, comment))
      ensures r.Ok? <==> comment in old(LiveCommentsOf(comments, post))
      ensures r.Ok? ==> comments == old(comments)[comment := old(comments)[comment].(deleted := true)]
      ensures LiveCommentsOf(comments, post) == old(LiveCommentsOf(comments, post)) - {comment}
      ensures LivePost(View(), post) ==> posts[post].commentCount == |LiveCommentsOf(comments, post)|
      ensures r.Err? ==> View() == old(View())
    {
      CommentCountExact(history, threshold, post);
      if comment !in comments || comments[comment].deleted {
        Book(Event.DeleteComment(post, comment));
        return Err(CommentNotFound);
      }
      if comments[comment].post != post {
        Book(Event.DeleteComment(post, comment));
        return Err(CommentNotFound);
      }
      DeleteLiveComment(post, comment);
      return Ok(());
    }

    /** Nothing under a deleted post is left, and nothing of another post is touched. */
    method DeletePost(post: int) returns (r: Result<(), Error>)
      requires Valid()
      modifies this
      ensures Follows(Event.DeletePost(post))
      ensures r.Ok? <==> post in old(posts) && !old(posts)[post].deleted
      ensures r.Ok? ==>
                !LivePost(View(), post) && LiveCommentsOf(comments, post) == {} && LikesOf(postLedger, post) == {}
      ensures r.Ok? ==> posts == old(posts)[post := old(posts)[post].(deleted := true)]
      ensures comments.Keys == old(comments).Keys
      ensures r.Ok? ==> forall c :: c in comments ==>
                var was := old(comments)[c]; comments[c] == if was.post == post then was.(deleted := true) else was
      ensures forall q :: q != post ==>
                && LiveCommentsOf(comments, q) == old(LiveCommentsOf(comments, q))
                && LikesOf(postLedger, q) == old(LikesOf(postLedger, q))
      ensures r.Err? ==> View() == old(View())
    {
      if post !in posts || posts[post].deleted {
        Book(Event.DeletePost(post));
        return Err(PostNotFound);
      }
      posts := posts[post := posts[post].(deleted := true)];
      comments := DeleteCommentsOf(comments, post);
      postLedger := DropLikes(postLedger, post);
      Book(Event.DeletePost(post));
      return Ok(());
    }

    /** The insert, the increment, and the blinding once the new count reaches the threshold. */
    method FilePostReport(id: int, post: int, reporter: int) returns (blinded: bool)
      requires Valid() && id !in postLedger.reports && LivePost(View(), post) && posts[post].author.Some?
      modifies this
      ensures Follows(Event.ReportPost(id, post, reporter))
      ensures postLedger.reports == old(postLedger.reports)[id := Report(reporter, post, false)]
      ensures LiveReports(postLedger, post) == old(LiveReports(postLedger, post)) + {id}
      ensures blinded <==> At(postLedger.reportCount, post) >= threshold
      ensures CountsRows(At(postLedger.reportCount, post), |LiveReports(postLedger, post)|, history)
      ensures post in old(posts) && comments == old(comments)
      ensures var was := old(posts)[post]; posts == old(posts)[post := was.(blinded := blinded || was.blinded)]
    {
      postLedger := postLedger.(reports := postLedger.reports[id := Report(reporter, post, false)]);
      var count := At(postLedger.reportCount, post) + 1;
      postLedger := postLedger.(reportCount := postLedger.reportCount[post := count]);
      assert postLedger == AddReport(old(postLedger), id, post, reporter);
      blinded := count >= threshold;
      if blinded {
        posts := posts[post := posts[post].(blinded := true)];
      } else {
        assert posts == posts[post := posts[post]];
      }
      pardonedPosts := pardonedPosts - {post};
      Book(Event.ReportPost(id, post, reporter));
      PostReported(old(history), threshold, id, post, reporter);
    }

    /**
    `id` is the fresh primary key of the report row. Exactly that report joins the live ones. The post is
    announced as blinded when they reach the threshold, and if nobody was ever purged only then.
    */
    method ReportPost(id: int, post: int, reporter: int) returns (r: Result<bool, Error>)
      requires Valid() && id !in postLedger.reports
      modifies this
      ensures Follows(Event.ReportPost(id, post, reporter))
      ensures r.Ok? <==> post in old(posts) && !old(posts)[post].deleted && old(posts)[post].author.Some?
      ensures r.Ok? ==> postLedger.reports == old(postLedger.reports)[id := Report(reporter, post, false)]
      ensures r.Ok? ==> LiveReports(postLedger, post) == old(LiveReports(postLedger, post)) + {id}
      ensures r.Ok? && |LiveReports(postLedger, post)| >= threshold ==> r.value
      ensures r.Ok? && r.value && NoPurge(history) ==> |LiveReports(postLedger, post)| >= threshold
      ensures r.Ok? ==> post in old(posts) && comments == old(comments)
      ensures r.Ok? ==> var p := old(posts)[post]; posts == old(posts)[post := p.(blinded := r.value || p.blinded)]
      ensures r.Err? ==> r.error == PostNotFound && View() == old(View())
    {
      if post !in posts || posts[post].deleted || posts[post].author.None? {
        Book(Event.ReportPost(id, post, reporter));
        return Err(PostNotFound);
      }
      var blinded := FilePostReport(id, post, reporter);
      return Ok(blinded);
    }

    /** The insert, the increment, and the blinding once the new count reaches the threshold. */
    method FileCommentReport(id: int, comment: int, reporter: int) returns (blinded: bool)
      requires Valid() && id !in commentLedger.reports && LiveComment(View(), comment)
      modifies this
      ensures Follows(Event.ReportComment(id, comment, reporter))
      ensures commentLedger.reports == old(commentLedger.reports)[id := Report(reporter, comment, false)]
      ensures LiveReports(commentLedger, comment) == old(LiveReports(commentLedger, comment)) + {id}
      ensures blinded <==> At(commentLedger.reportCount, comment) >= threshold
      ensures CountsRows(At(commentLedger.reportCount, comment), |LiveReports(commentLedger, comment)|, history)
      ensures comment in old(comments) && posts == old(posts)
      ensures var was := old(comments)[comment];
              comments == old(comments)[comment := was.(blinded := blinded || was.blinded)]
    {
      commentLedger := commentLedger.(reports := commentLedger.reports[id := Report(reporter, comment, false)]);
      var count := At(commentLedger.reportCount, comment) + 1;
      commentLedger := commentLedger.(reportCount := commentLedger.reportCount[comment := count]);
      assert commentLedger == AddReport(old(commentLedger), id, comment, reporter);
      blinded := count >= threshold;
      if blinded {
        comments := comments[comment := comments[comment].(blinded := true)];
      } else {
        assert comments == comments[comment := comments[comment]];
      }
      pardonedComments := pardonedComments - {comment};
      Book(Event.ReportComment(id, comment, reporter));
      CommentReported(old(history), threshold, id, comment, reporter);
    }

    /**
    `id` is the fresh primary key of the report row. Exactly that report joins the live ones. The comment is
    announced as blinded when they reach the threshold, and if nobody was ever purged only then.
    */
    method ReportComment(id: int, comment: int, reporter: int) returns (r: Result<bool, Error>)
      requires Valid() && id !in commentLedger.reports
      modifies this
      ensures Follows(Event.ReportComment(id, comment, reporter))
      ensures r.Ok? <==> comment in old(comments) && !old(comments)[comment].deleted
      ensures r.Ok? ==> commentLedger.reports == old(commentLedger.reports)[id := Report(reporter, comment, false)]
      ensures r.Ok? ==> LiveReports(commentLedger, comment) == old(LiveReports(commentLedger, comment)) + {id}
      ensures r.Ok? && |LiveReports(commentLedger, comment)| >= threshold ==> r.value
      ensures r.Ok? && r.value && NoPurge(history) ==> |LiveReports(commentLedger, comment)| >= threshold
      ensures r.Ok? ==> comment in old(comments) && posts == old(posts)
      ensures r.Ok? ==> var c := old(comments)[comment];
                        comments == old(comments)[comment := c.(blinded := r.value || c.blinded)]
      ensures r.Err? ==> r.error == CommentNotFound && View() == old(View())
    {
      if comment !in comments || comments[comment].deleted {
        Book(Event.ReportComment(id, comment, reporter));
        return Err(CommentNotFound);
      }
      var blinded := FileCommentReport(id, comment, reporter);
      return Ok(blinded);
    }

    /** The post is shown again although its reports stay, whatever their number. */
    method UnblindPost(post: int) returns (r: Result<(), Error>)
      requires Valid()
      modifies this
      ensures Follows(Event.UnblindPost(post))
      ensures r.Ok? <==> post in old(posts) && !old(posts)[post].deleted
      ensures r.Ok? ==> VisiblePost(View(), post) && comments == old(comments)
      ensures r.Ok? ==> posts == old(posts)[post := old(posts)[post].(blinded := false)]
      ensures LiveReports(postLedger, post) == old(LiveReports(postLedger, post))
      ensures r.Err? ==> r.error == PostNotFound && View() == old(View())
    {
      if post !in posts || posts[post].deleted {
        Book(Event.UnblindPost(post));
        return Err(PostNotFound);
      }
      posts := posts[post := posts[post].(blinded := false)];
      pardonedPosts, hiddenPosts := pardonedPosts + {post}, hiddenPosts - {post};
      Book(Event.UnblindPost(post));
      return Ok(());
    }

    /** The post is hidden whatever the number of its reports. */
    method BlindPost(post: int) returns (r: Result<(), Error>)
      requires Valid()
      modifies this
      ensures Follows(Event.BlindPost(post))
      ensures r.Ok? <==> post in old(posts) && !old(posts)[post].deleted
      ensures r.Ok? ==> posts == old(posts)[post := old(posts)[post].(blinded := true)] && comments == old(comments)
      ensures LiveReports(postLedger, post) == old(LiveReports(postLedger, post))
      ensures r.Err? ==> r.error == PostNotFound && View() == old(View())
    {
      if post !in posts || posts[post].deleted {
        Book(Event.BlindPost(post));
        return Err(PostNotFound);
      }
      posts := posts[post := posts[post].(blinded := true)];
      hiddenPosts := hiddenPosts + {post};
      Book(Event.BlindPost(post));
      return Ok(());
    }

    /** No live report is left on the post, not even when it is deleted and the caller is told it was not found. */
    method ResetPostReports(post: int) returns (r: Result<(), Error>)
      requires Valid()
      modifies this
      ensures Follows(Event.ResetPost(post))
      ensures r.Ok? <==> post in old(posts) && !old(posts)[post].deleted
      ensures r.Ok? ==> VisiblePost(View(), post) && At(postLedger.reportCount, post) == 0
      ensures r.Ok? ==> posts == old(posts)[post := old(posts)[post].(blinded := false)]
      ensures r.Err? ==> posts == old(posts)
      ensures LiveReports(postLedger, post) == {}
    {
      if post !in posts {
        Book(Event.ResetPost(post));
        PostReportsReset(old(history), threshold, post, post);
        return Err(PostNotFound);
      }
      var live := |LiveReports(postLedger, post)|;
      postLedger := postLedger.(reports := SoftDeleteReports(postLedger.reports, post));
      if posts[post].deleted {
        var lost := At(postLedger.lostReports, post) + live;
        postLedger := postLedger.(lostReports := postLedger.lostReports[post := lost]);
        assert postLedger == ResetReports(old(postLedger), post, false);
        Book(Event.ResetPost(post));
        PostReportsReset(old(history), threshold, post, post);
        return Err(PostNotFound);
      }
      postLedger := postLedger.(reportCount := postLedger.reportCount[post := 0]);
      postLedger := postLedger.(lostReports := postLedger.lostReports[post := 0]);
      assert postLedger == ResetReports(old(postLedger), post, true);
      posts := posts[post := posts[post].(blinded := false)];
      hiddenPosts := hiddenPosts - {post};
      Book(Event.ResetPost(post));
      PostReportsReset(old(history), threshold, post, post);
      return Ok(());
    }

    /** The comment is shown again although its reports stay, whatever their number. */
    method UnblindComment(comment: int) returns (r: Result<(), Error>)
      requires Valid()
      modifies this
      ensures Follows(Event.UnblindComment(comment))
      ensures r.Ok? <==> comment in old(comments) && !old(comments)[comment].deleted
      ensures r.Ok? ==> LiveComment(View(), comment) && posts == old(posts)
      ensures r.Ok? ==> comments == old(comments)[comment := old(comments)[comment].(blinded := false)]
      ensures LiveReports(commentLedger, comment) == old(LiveReports(commentLedger, comment))
      ensures r.Err? ==> r.error == CommentNotFound && View() == old(View())
    {
      if comment !in comments || comments[comment].deleted {
        Book(Event.UnblindComment(comment));
        return Err(CommentNotFound);
      }
      comments := comments[comment := comments[comment].(blinded := false)];
      pardonedComments, hiddenComments := pardonedComments + {comment}, hiddenComments - {comment};
      Book(Event.UnblindComment(comment));
      return Ok(());
    }

    /** The comment is hidden whatever the number of its reports, and even when it is deleted. */
    method BlindComment(comment: int) returns (r: Result<(), Error>)
      requires Valid()
      modifies this
      ensures Follows(Event.BlindComment(comment))
      ensures r.Ok? <==> comment in old(comments)
      ensures r.Ok? ==> comments == old(comments)[comment := old(comments)[comment].(blinded := true)]
      ensures posts == old(posts)
      ensures LiveReports(commentLedger, comment) == old(LiveReports(commentLedger, comment))
      ensures r.Err? ==> r.error == CommentNotFound && View() == old(View())
    {
      if comment !in comments {
        Book(Event.BlindComment(comment));
        return Err(CommentNotFound);
      }
      comments := comments[comment := comments[comment].(blinded := true)];
      hiddenComments := hiddenComments + {comment};
      Book(Event.BlindComment(comment));
      return Ok(());
    }

    /** No live report is left on the comment, not even when it is deleted and the caller is told it was not found. */
    method ResetCommentReports(comment: int) returns (r: Result<(), Error>)
      requires Valid()
      modifies this
      ensures Follows(Event.ResetComment(comment))
      ensures r.Ok? <==> comment in old(comments) && !old(comments)[comment].deleted
      ensures r.Ok? ==> LiveComment(View(), comment) && !comments[comment].blinded
      ensures r.Ok? ==> At(commentLedger.reportCount, comment) == 0
      ensures r.Ok? ==> comments == old(comments)[comment := old(comments)[comment].(blinded := false)]
      ensures r.Err? ==> comments == old(comments)
      ensures LiveReports(commentLedger, comment) == {}
    {
      if comment !in comments {
        Book(Event.ResetComment(comment));
        CommentReportsReset(old(history), threshold, comment, comment);
        return Err(CommentNotFound);
      }
      var live := |LiveReports(commentLedger, comment)|;
      commentLedger := commentLedger.(reports := SoftDeleteReports(commentLedger.reports, comment));
      if comments[comment].deleted {
        var lost := At(commentLedger.lostReports, comment) + live;
        commentLedger := commentLedger.(lostReports := commentLedger.lostReports[comment := lost]);
        assert commentLedger == ResetReports(old(commentLedger), comment, false);
        Book(Event.ResetComment(comment));
        CommentReportsReset(old(history), threshold, comment, comment);
        return Err(CommentNotFound);
      }
      commentLedger := commentLedger.(reportCount := commentLedger.reportCount[comment := 0]);
      commentLedger := commentLedger.(lostReports := commentLedger.lostReports[comment := 0]);
      assert commentLedger == ResetReports(old(commentLedger), comment, true);
      comments := comments[comment := comments[comment].(blinded := false)];
      hiddenComments := hiddenComments - {comment};
      Book(Event.ResetComment(comment));
      CommentReportsReset(old(history), threshold, comment, comment);
      return Ok(());
    }

    /**
    Of the purged users no like, report or authorship is left, all others keep theirs, and comment_count still
    counts the live comments of every live post.
    */
    method PurgeUsers(users: set<int>)
      requires Valid()
      modifies this
      ensures Follows(Event.PurgeUsers(users))
      ensures forall r :: r in postLedger.likes <==> r in old(postLedger.likes) && r.1 !in users
      ensures forall r :: r in commentLedger.likes <==> r in old(commentLedger.likes) && r.1 !in users
      ensures ReportsBy(postLedger, users) == {} && ReportsBy(commentLedger, users) == {}
      ensures forall p :: p in posts ==> !Mentions(posts[p].author, users)
      ensures forall c :: c in comments ==> !Mentions(comments[c].author, users)
      ensures forall p :: LivePost(View(), p) ==> posts[p].commentCount == |LiveCommentsOf(comments, p)|
    {
      posts, comments := AnonymousPosts(posts, users), AnonymousComments(comments, users);
      postLedger, commentLedger := Purge(postLedger, users), Purge(commentLedger, users);
      purged := true;
      assert View() == OnPurgeUsers(old(View()), users);
      Book(Event.PurgeUsers(users));
      PurgeLeavesNoTrace(old(View()), users);
      forall p ensures LivePost(View(), p) ==> posts[p].commentCount == |LiveCommentsOf(comments, p)| {
        CommentCountExact(history, threshold, p);
      }
    }
  }
}
