/**
Reading a post's comments page by page: root comments by keyset in id order, their visible replies
attached to them. A table is a snapshot of the comments; ids grow with creation time.
*/
module CommentPaging {
  import opened Common
  import opened Ordering
  import opened Counters

  type Table = map<int, Comment>

  /** What a reader asks for: whose comments, hiding whom, newest first or oldest first, and how many. */
  datatype Query = Query(post: int, blocked: set<int>, latest: bool, size: nat)

  const PLACEHOLDER := "삭제된 댓글입니다."

  // ---- visibility ----

  predicate VisibleReply(c: Comment, blocked: set<int>) {
    !c.deleted && !c.blinded && NotBlocked(blocked, c.author)
  }

  /** The visible replies under `root`. */
  function Replies(t: Table, root: int, blocked: set<int>): set<int> {
    set c | c in t && t[c].parent == Some(root) && VisibleReply(t[c], blocked)
  }

  predicate VisibleRoot(t: Table, c: int, q: Query)
    requires c in t
  {
    && t[c].post == q.post
    && t[c].parent.None?
    && !t[c].blinded
    && NotBlocked(q.blocked, t[c].author)
    && (!t[c].deleted || Replies(t, c, q.blocked) != {})
  }

  function VisibleRoots(t: Table, q: Query): set<int> {
    set c | c in t && VisibleRoot(t, c, q)
  }

  /** The visible roots past the cursor. */
  function Left(t: Table, q: Query, cursor: Option<int>): set<int> {
    if cursor.None? then VisibleRoots(t, q) else After(q.latest, VisibleRoots(t, q), cursor.value)
  }

  // ---- one page ----

  datatype Shown = Shown(id: int, content: string, deleted: bool, liked: bool)

  datatype Thread = Thread(root: Shown, replies: seq<Shown>)

  function Show(t: Table, liked: set<int>, c: int): Shown
    requires c in t
  {
    Shown(c, if t[c].deleted then PLACEHOLDER else t[c].content, t[c].deleted, c in liked)
  }

  function Ids(shown: seq<Shown>): seq<int> {
    seq(|shown|, i requires 0 <= i < |shown| => shown[i].id)
  }

  /** Every entry shows its own row. */
  ghost predicate Faithful(t: Table, liked: set<int>, shown: seq<Shown>) {
    forall i :: 0 <= i < |shown| ==> shown[i].id in t && shown[i] == Show(t, liked, shown[i].id)
  }

  /** A root of `t` in its place, with its visible replies of `u` in order. */
  ghost predicate ThreadFor(t: Table, u: Table, q: Query, liked: set<int>, root: int, h: Thread) {
    && root in t
    && h.root == Show(t, liked, root)
    && Faithful(u, liked, h.replies)
    && Ids(h.replies) == Listing(q.latest, Replies(u, root, q.blocked))
  }

  /** The entry says what the row says: its text unless it is deleted, and the reader's own like. */
  predicate Written(t: Table, liked: set<int>, e: Shown) {
    && e.id in t && e.deleted == t[e.id].deleted && (e.liked <==> e.id in liked)
    && (!t[e.id].deleted ==> e.content == t[e.id].content)
    && (t[e.id].deleted ==> e.content == "삭제된 댓글입니다.")
  }

  /** A reply of that root which is neither deleted nor blinded nor by a blocked author. */
  predicate Under(t: Table, blocked: set<int>, root: int, c: int) {
    && c in t && t[c].parent == Some(root) && !t[c].deleted && !t[c].blinded
    && (t[c].author.None? || t[c].author.value !in blocked)
  }

  method ShowAll(t: Table, liked: set<int>, ids: seq<int>) returns (shown: seq<Shown>)
    requires forall i :: 0 <= i < |ids| ==> ids[i] in t
    ensures Faithful(t, liked, shown) && Ids(shown) == ids
    ensures forall i :: 0 <= i < |shown| ==>
              && shown[i].id == ids[i] && shown[i].deleted == t[ids[i]].deleted
              && shown[i].content == (if t[ids[i]].deleted then "삭제된 댓글입니다." else t[ids[i]].content)
              && (shown[i].liked <==> ids[i] in liked)
  {
    shown := [];
    for k := 0 to |ids|
      invariant |shown| == k
      invariant forall i :: 0 <= i < k ==> shown[i].id == ids[i] && shown[i] == Show(t, liked, ids[i])
    {
      shown := shown + [Show(t, liked, ids[k])];
    }
  }

  function UnderRoot(t: Table, replies: set<int>, root: int): set<int> {
    set c | c in replies && c in t && t[c].parent == Some(root)
  }

  /**
  Attaches each reply, in whatever order the rows come, to its root by a lookup on the parent id.
  Replies whose parent is not on the page are dropped.
  */
  method Attach(t: Table, roots: seq<int>, replies: set<int>) returns (byId: map<int, set<int>>)
    requires replies <= t.Keys
    ensures byId.Keys == Elements(roots)
    ensures forall r :: r in byId ==> byId[r] == UnderRoot(t, replies, r)
  {
    byId := map r | r in roots :: {};
    var todo := replies;
    while todo != {}
      invariant todo <= replies && byId.Keys == Elements(roots)
      invariant forall r :: r in byId ==> byId[r] == UnderRoot(t, replies - todo, r)
      decreases |todo|
    {
      ghost var w := Pick(todo);
      var c :| c in todo;
      AttachOne(t, replies, todo, c);
      if t[c].parent.Some? && t[c].parent.value in byId {
        var p := t[c].parent.value;
        byId := byId[p := byId[p] + {c}];
      }
      todo := todo - {c};
    }
    assert replies - todo == replies;
  }

  /** The root order is kept; each root's replies are sorted. */
  method BuildTree(t: Table, u: Table, latest: bool, liked: set<int>, roots: seq<int>, replies: set<int>)
    returns (tree: seq<Thread>)
    requires forall i :: 0 <= i < |roots| ==> roots[i] in t
    requires replies <= u.Keys
    ensures |tree| == |roots|
    ensures forall i :: 0 <= i < |roots| ==> Assembled(t, u, latest, liked, roots[i], replies, tree[i])
  {
    var byId := Attach(u, roots, replies);
    tree := [];
    for k := 0 to |roots|
      invariant |tree| == k
      invariant forall i :: 0 <= i < k ==> Assembled(t, u, latest, liked, roots[i], replies, tree[i])
    {
      assert roots[k] in byId.Keys;
      var sorted := OrderBy(latest, byId[roots[k]]);
      ListedInTable(u, latest, UnderRoot(u, replies, roots[k]));
      var shown := ShowAll(u, liked, sorted);
      tree := tree + [Thread(Show(t, liked, roots[k]), shown)];
    }
  }

  /** A root with those of the given replies that are its own, in order. */
  ghost predicate Assembled(t: Table, u: Table, latest: bool, liked: set<int>, root: int, replies: set<int>,
                            h: Thread) {
    && root in t
    && h.root == Show(t, liked, root)
    && Faithful(u, liked, h.replies)
    && Ids(h.replies) == Listing(latest, UnderRoot(u, replies, root))
  }

  lemma AttachOne(t: Table, replies: set<int>, todo: set<int>, c: int)
    requires c in todo && todo <= replies <= t.Keys
    ensures forall r :: UnderRoot(t, replies - (todo - {c}), r)
                     == UnderRoot(t, replies - todo, r) + (if t[c].parent == Some(r) then {c} else {})
  {
  }

  lemma ListedInTable(t: Table, down: bool, ids: set<int>)
    requires ids <= t.Keys
    ensures var l := Listing(down, ids); forall i :: 0 <= i < |l| ==> l[i] in t
  {
  }

  datatype Page = Page(tree: seq<Thread>, hasMore: bool)

  /** The replies fetched for a page: those of all its roots at once. */
  function RepliesFor(t: Table, roots: seq<int>, blocked: set<int>): set<int> {
    set c | c in t && t[c].parent.Some? && t[c].parent.value in roots && VisibleReply(t[c], blocked)
  }

  lemma OwnReplies(t: Table, roots: seq<int>, blocked: set<int>, root: int)
    requires root in roots
    ensures UnderRoot(t, RepliesFor(t, roots, blocked), root) == Replies(t, root, blocked)
  {
  }

  /**
  One page: the next visible roots in order, one more looked up to know whether there is a next page,
  and under each root exactly its visible replies. The roots are read from the snapshot `t`, the replies
  by a later statement from `u`. `visible` is whether the reader may see the post.
  */
  method GetComments(t: Table, u: Table, q: Query, cursor: Option<int>, liked: set<int>, visible: bool)
    returns (r: Result<Page, string>)
    ensures r.Ok? <==> visible
    ensures r.Ok? ==> |r.value.tree| == |PageOf(t, q, cursor)|
    ensures r.Ok? ==> forall i :: 0 <= i < |r.value.tree| ==>
              ThreadFor(t, u, q, liked, PageOf(t, q, cursor)[i], r.value.tree[i])
    ensures r.Ok? ==> r.value.hasMore == !LastPage(t, q, cursor)
    ensures r.Ok? ==> forall i :: 0 <= i < |r.value.tree| ==>
              && Written(t, liked, r.value.tree[i].root)
              && forall j :: 0 <= j < |r.value.tree[i].replies| ==>
                   Written(u, liked, r.value.tree[i].replies[j])
                   && Under(u, q.blocked, r.value.tree[i].root.id, r.value.tree[i].replies[j].id)
    ensures r.Ok? ==> forall i, j :: 0 <= i < j < |r.value.tree| ==>
              if q.latest then r.value.tree[i].root.id > r.value.tree[j].root.id
              else r.value.tree[i].root.id < r.value.tree[j].root.id
  {
    if !visible {
      return Err("post not found");
    }
    var left := Left(t, q, cursor);
    var listed := OrderBy(q.latest, left);
    ListedInTable(t, q.latest, left);
    var fetched := Take(listed, q.size + 1);
    var hasMore := |fetched| > q.size;
    var roots := Take(fetched, q.size);
    assert roots == PageOf(t, q, cursor);
    var replies := RepliesFor(u, roots, q.blocked);
    var tree := BuildTree(t, u, q.latest, liked, roots, replies);
    forall i | 0 <= i < |roots| ensures ThreadFor(t, u, q, liked, roots[i], tree[i]) {
      assert Assembled(t, u, q.latest, liked, roots[i], replies, tree[i]);
      OwnReplies(u, roots, q.blocked, roots[i]);
    }
    TreeWritten(t, u, q, cursor, liked, tree);
    return Ok(Page(tree, hasMore));
  }

  lemma ThreadWritten(t: Table, u: Table, q: Query, liked: set<int>, root: int, h: Thread)
    requires ThreadFor(t, u, q, liked, root, h)
    ensures h.root.id == root && Written(t, liked, h.root)
    ensures forall j :: 0 <= j < |h.replies| ==>
              Written(u, liked, h.replies[j]) && Under(u, q.blocked, root, h.replies[j].id)
  {
    var replies := Replies(u, root, q.blocked);
    ListingOrdered(q.latest, replies);
    forall j | 0 <= j < |h.replies|
      ensures Written(u, liked, h.replies[j]) && Under(u, q.blocked, root, h.replies[j].id)
    {
      assert h.replies[j].id == Ids(h.replies)[j] && Ids(h.replies)[j] in Elements(Listing(q.latest, replies));
    }
  }

  lemma TreeWritten(t: Table, u: Table, q: Query, cursor: Option<int>, liked: set<int>, tree: seq<Thread>)
    requires |tree| == |PageOf(t, q, cursor)|
    requires forall i :: 0 <= i < |tree| ==> ThreadFor(t, u, q, liked, PageOf(t, q, cursor)[i], tree[i])
    ensures forall i :: 0 <= i < |tree| ==>
              && Written(t, liked, tree[i].root)
              && forall j :: 0 <= j < |tree[i].replies| ==>
                   Written(u, liked, tree[i].replies[j])
                   && Under(u, q.blocked, tree[i].root.id, tree[i].replies[j].id)
    ensures forall i, j :: 0 <= i < j < |tree| ==>
              if q.latest then tree[i].root.id > tree[j].root.id else tree[i].root.id < tree[j].root.id
  {
    var page := PageOf(t, q, cursor);
    forall i | 0 <= i < |tree| ensures tree[i].root.id == page[i] { ThreadWritten(t, u, q, liked, page[i], tree[i]); }
    forall i | 0 <= i < |tree|
      ensures Written(t, liked, tree[i].root)
      ensures forall j :: 0 <= j < |tree[i].replies| ==>
                Written(u, liked, tree[i].replies[j]) && Under(u, q.blocked, tree[i].root.id, tree[i].replies[j].id)
    {
      ThreadWritten(t, u, q, liked, page[i], tree[i]);
    }
    PageOrdered(t, q, cursor, page);
  }

  /** The listed roots: not blinded, not by a blocked author, and deleted only with a reply to show. */
  lemma ListedRootIff(t: Table, q: Query, c: int)
    ensures c in VisibleRoots(t, q) <==>
              && c in t && t[c].post == q.post && t[c].parent.None? && !t[c].blinded
              && (t[c].author.None? || t[c].author.value !in q.blocked)
              && (!t[c].deleted || exists d :: Under(t, q.blocked, c, d))
  {
    if c in t && t[c].deleted {
      if d :| Under(t, q.blocked, c, d) { assert d in Replies(t, c, q.blocked); }
      if Replies(t, c, q.blocked) != {} {
        var d := Pick(Replies(t, c, q.blocked));
        assert Under(t, q.blocked, c, d);
      }
    }
  }

  /** The ids of a page's roots. */
  ghost function PageOf(t: Table, q: Query, cursor: Option<int>): seq<int> {
    Take(Listing(q.latest, Left(t, q, cursor)), q.size)
  }

  ghost predicate LastPage(t: Table, q: Query, cursor: Option<int>) {
    |Listing(q.latest, Left(t, q, cursor))| <= q.size
  }

  /**
  The text of a deleted root is not shown, and unless its last visible reply went away between the two
  statements it is only shown together with a reply.
  */
  lemma DeletedRootHasReplies(t: Table, u: Table, q: Query, cursor: Option<int>, liked: set<int>, i: nat, h: Thread)
    requires i < |PageOf(t, q, cursor)| && ThreadFor(t, u, q, liked, PageOf(t, q, cursor)[i], h)
    ensures h.root.deleted ==> h.root.content == PLACEHOLDER && Replies(t, PageOf(t, q, cursor)[i], q.blocked) != {}
    ensures h.replies == [] <==> Replies(u, PageOf(t, q, cursor)[i], q.blocked) == {}
    ensures h.root.deleted && (u == t || Grows(t, u)) ==> h.replies != []
  {
    var left := Left(t, q, cursor);
    var root := PageOf(t, q, cursor)[i];
    ListingOrdered(q.latest, left);
    assert root in Elements(Listing(q.latest, left));
    assert root in VisibleRoots(t, q);
    ListingOrdered(q.latest, Replies(u, root, q.blocked));
    assert |h.replies| == |Ids(h.replies)|;
    if Grows(t, u) && t[root].deleted { GrowthKeepsReplies(t, u, q, root); }
  }

  /**
  With replies only under roots, every visible comment is a root or the reply of one, shown unless that
  root is hidden.
  */
  lemma EveryCommentPlaced(posts: map<int, Post>, t: Table, q: Query, c: int)
    requires Threads(posts, t) && c in t && t[c].post == q.post && VisibleReply(t[c], q.blocked)
    ensures match t[c].parent
            case None => c in VisibleRoots(t, q)
            case Some(r) => r in t && c in Replies(t, r, q.blocked)
                            && (r in VisibleRoots(t, q) <==> !t[r].blinded && NotBlocked(q.blocked, t[r].author))
  {
  }

  // ---- following the cursor ----

  /** The roots a reader collects over the snapshots `ts`, one per page, from `cursor` on. */
  ghost function Walk(ts: seq<Table>, q: Query, cursor: Option<int>): seq<int>
    decreases |ts|
  {
    if ts == [] then [] else
      var page := PageOf(ts[0], q, cursor);
      if LastPage(ts[0], q, cursor) || page == [] then page
      else page + Walk(ts[1..], q, Some(page[|page| - 1]))
  }

  /** `ts` are the snapshots of exactly the pages read, the last of them without a next page. */
  ghost predicate ReadToEnd(ts: seq<Table>, q: Query, cursor: Option<int>)
    decreases |ts|
  {
    && ts != []
    && if LastPage(ts[0], q, cursor) then |ts| == 1
       else
         var page := PageOf(ts[0], q, cursor);
         page != [] && ReadToEnd(ts[1..], q, Some(page[|page| - 1]))
  }

  lemma LeftMember(t: Table, q: Query, cursor: Option<int>, x: int)
    ensures x in Left(t, q, cursor) <==> x in VisibleRoots(t, q) && Beyond(q, cursor, x)
  {
  }

  lemma PageSplits(t: Table, q: Query, cursor: Option<int>)
    requires PageOf(t, q, cursor) != []
    ensures var page := PageOf(t, q, cursor); var last := page[|page| - 1];
            && Left(t, q, Some(last)) == Left(t, q, cursor) - Elements(page)
            && page + Listing(q.latest, Left(t, q, Some(last))) == Listing(q.latest, Left(t, q, cursor))
            && last in Left(t, q, cursor) && Elements(page) <= Left(t, q, cursor)
  {
    var left, page := Left(t, q, cursor), PageOf(t, q, cursor);
    var last := page[|page| - 1];
    HeadOfListing(q.latest, left, q.size, page);
    assert Left(t, q, Some(last)) == After(q.latest, left, last);
  }

  /** Past the cursor. */
  predicate Beyond(q: Query, cursor: Option<int>, x: int) {
    cursor.Some? ==> Before(q.latest, cursor.value, x)
  }

  lemma PageOrdered(t: Table, q: Query, cursor: Option<int>, page: seq<int>)
    requires page == PageOf(t, q, cursor)
    ensures Sorted(q.latest, page) && Elements(page) <= Left(t, q, cursor)
    ensures LastPage(t, q, cursor) ==> Elements(page) == Left(t, q, cursor)
    ensures page != [] ==> forall x :: x in Elements(page) ==> !Before(q.latest, page[|page| - 1], x)
  {
    var left := Left(t, q, cursor);
    ListingOrdered(q.latest, left);
    if page != [] { HeadOfListing(q.latest, left, q.size, page); }
  }

  lemma PageVisible(t: Table, q: Query, cursor: Option<int>, page: seq<int>)
    requires page == PageOf(t, q, cursor)
    ensures forall x :: x in Elements(page) ==> x in VisibleRoots(t, q) && Beyond(q, cursor, x)
  {
    PageOrdered(t, q, cursor, page);
    forall x | x in Elements(page) ensures x in VisibleRoots(t, q) && Beyond(q, cursor, x) {
      LeftMember(t, q, cursor, x);
    }
  }

  /** In order, past the cursor, visible when read, and without a root missing that was there throughout. */
  ghost predicate GoodWalk(ts: seq<Table>, q: Query, cursor: Option<int>, walk: seq<int>) {
    && Sorted(q.latest, walk)
    && (forall x :: x in Elements(walk) ==> Beyond(q, cursor, x) && SeenIn(ts, q, x))
    && (forall x :: AlwaysLeft(ts, q, cursor, x) ==> x in Elements(walk))
  }

  lemma LastPageGood(ts: seq<Table>, q: Query, cursor: Option<int>, page: seq<int>)
    requires ts != [] && page == PageOf(ts[0], q, cursor) && LastPage(ts[0], q, cursor)
    ensures GoodWalk(ts, q, cursor, page)
  {
    PageOrdered(ts[0], q, cursor, page);
    PageVisible(ts[0], q, cursor, page);
    forall x | x in Elements(page) ensures SeenIn(ts, q, x) { assert x in VisibleRoots(ts[0], q); }
    forall x | AlwaysLeft(ts, q, cursor, x) ensures x in Elements(page) { assert x in Left(ts[0], q, cursor); }
  }

  lemma NextPageGood(ts: seq<Table>, q: Query, cursor: Option<int>, page: seq<int>, rest: seq<int>)
    requires ts != [] && page == PageOf(ts[0], q, cursor) && page != []
    requires GoodWalk(ts[1..], q, Some(page[|page| - 1]), rest)
    ensures GoodWalk(ts, q, cursor, page + rest)
  {
    PageVisible(ts[0], q, cursor, page);
    JoinPage(ts[0], q, cursor, page, rest);
    forall x | x in Elements(page + rest) ensures Beyond(q, cursor, x) && SeenIn(ts, q, x) {
      if x in Elements(page) { assert x in VisibleRoots(ts[0], q); } else { SeenLater(ts, q, x); }
    }
    forall x | AlwaysLeft(ts, q, cursor, x) ensures x in Elements(page + rest) {
      if x !in Elements(page) { NotYetListed(ts, q, cursor, x, page); }
    }
  }

  /**
  Whatever happens to the comments between pages, nothing is listed twice or out of order, nothing is
  listed that was not visible when its page was read, and a root visible throughout is not missed.
  */
  lemma {:induction false} WalkUnderEdits(ts: seq<Table>, q: Query, cursor: Option<int>)
    requires ReadToEnd(ts, q, cursor)
    ensures Sorted(q.latest, Walk(ts, q, cursor))
    ensures forall x :: x in Elements(Walk(ts, q, cursor)) ==> Beyond(q, cursor, x) && SeenIn(ts, q, x)
    ensures forall x :: AlwaysLeft(ts, q, cursor, x) ==> x in Elements(Walk(ts, q, cursor))
    decreases |ts|
  {
    var page := PageOf(ts[0], q, cursor);
    if LastPage(ts[0], q, cursor) {
      LastPageGood(ts, q, cursor, page);
    } else {
      var next := Some(page[|page| - 1]);
      WalkUnderEdits(ts[1..], q, next);
      NextPageGood(ts, q, cursor, page, Walk(ts[1..], q, next));
    }
  }

  ghost predicate SeenIn(ts: seq<Table>, q: Query, x: int) {
    exists k :: 0 <= k < |ts| && x in VisibleRoots(ts[k], q)
  }

  ghost predicate AlwaysLeft(ts: seq<Table>, q: Query, cursor: Option<int>, x: int) {
    forall k :: 0 <= k < |ts| ==> x in Left(ts[k], q, cursor)
  }

  lemma SeenLater(ts: seq<Table>, q: Query, x: int)
    requires ts != [] && SeenIn(ts[1..], q, x)
    ensures SeenIn(ts, q, x)
  {
  }

  /** A root past the page's last one is past the next cursor in every later snapshot. */
  lemma StillLeft(ts: seq<Table>, q: Query, cursor: Option<int>, x: int, next: Option<int>)
    requires ts != [] && x in Left(ts[0], q, next)
    requires AlwaysLeft(ts, q, cursor, x)
    ensures AlwaysLeft(ts[1..], q, next, x)
  {
  }

  lemma NotYetListed(ts: seq<Table>, q: Query, cursor: Option<int>, x: int, page: seq<int>)
    requires ts != [] && page == PageOf(ts[0], q, cursor) && page != []
    requires AlwaysLeft(ts, q, cursor, x) && x !in Elements(page)
    ensures AlwaysLeft(ts[1..], q, Some(page[|page| - 1]), x)
  {
    PageSplits(ts[0], q, cursor);
    assert x in Left(ts[0], q, cursor);
    StillLeft(ts, q, cursor, x, Some(page[|page| - 1]));
  }

  lemma JoinPage(t: Table, q: Query, cursor: Option<int>, page: seq<int>, rest: seq<int>)
    requires page == PageOf(t, q, cursor) && page != []
    requires Sorted(q.latest, rest) && forall x :: x in Elements(rest) ==> Before(q.latest, page[|page| - 1], x)
    ensures Sorted(q.latest, page + rest) && Elements(page + rest) == Elements(page) + Elements(rest)
    ensures forall x :: x in Elements(rest) ==> Beyond(q, cursor, x)
  {
    PageOrdered(t, q, cursor, page);
    PageVisible(t, q, cursor, page);
    var last := page[|page| - 1];
    forall x, y | x in Elements(page) && y in Elements(rest) ensures Before(q.latest, x, y) {
      assert !Before(q.latest, last, x) && Before(q.latest, last, y);
    }
    SortedConcat(q.latest, page, rest);
    assert last in Elements(page);
  }

  // ---- only new comments between pages ----

  predicate SameVisibility(a: Comment, b: Comment) {
    SamePlace(a, b) && a.author == b.author && a.deleted == b.deleted && a.blinded == b.blinded
  }

  /** Comments were only added (or their text edited): newer ids, and no reply to a deleted comment. */
  ghost predicate Grows(t: Table, u: Table) {
    && t.Keys <= u.Keys
    && (forall c :: c in t ==> SameVisibility(t[c], u[c]))
    && (forall c, d :: c in t && d in u.Keys - t.Keys ==> c < d)
    && (forall d :: d in u.Keys - t.Keys && u[d].parent.Some? && u[d].parent.value in t ==>
          !t[u[d].parent.value].deleted)
  }

  ghost predicate Growing(ts: seq<Table>) {
    forall k :: 0 < k < |ts| ==> Grows(ts[k - 1], ts[k])
  }

  /** The creation transaction is such a step. */
  lemma CreationGrows(s: State, e: Event)
    requires e.CreateComment? && forall c :: c in s.comments ==> c < e.comment
    ensures Grows(s.comments, OnCreateComment(s, e).comments)
  {
  }

  lemma NewReplyUnderLive(t: Table, u: Table, d: int, c: int)
    requires Grows(t, u) && d in u.Keys - t.Keys && u[d].parent == Some(c) && c in t
    ensures !t[c].deleted
  {
  }

  lemma GrowthKeepsReplies(t: Table, u: Table, q: Query, c: int)
    requires Grows(t, u) && c in t && t[c].deleted
    ensures Replies(u, c, q.blocked) == Replies(t, c, q.blocked)
  {
    forall d | d in Replies(u, c, q.blocked) ensures d in Replies(t, c, q.blocked) {
      if d !in t { NewReplyUnderLive(t, u, d, c); } else { assert SameVisibility(t[d], u[d]); }
    }
    forall d | d in Replies(t, c, q.blocked) ensures d in Replies(u, c, q.blocked) {
      assert d in u.Keys && SameVisibility(t[d], u[d]);
    }
  }

  /** Growth neither shows nor hides an existing root. */
  lemma GrowthKeepsRoots(t: Table, u: Table, q: Query)
    requires Grows(t, u)
    ensures forall c :: c in t ==> (c in VisibleRoots(u, q) <==> c in VisibleRoots(t, q))
    ensures forall c, d :: c in VisibleRoots(t, q) && d in VisibleRoots(u, q) - VisibleRoots(t, q) ==> c < d
  {
    forall c | c in t ensures c in VisibleRoots(u, q) <==> c in VisibleRoots(t, q) {
      assert c in u.Keys && SameVisibility(t[c], u[c]);
      if t[c].deleted { GrowthKeepsReplies(t, u, q, c); }
    }
    forall c, d | c in VisibleRoots(t, q) && d in VisibleRoots(u, q) - VisibleRoots(t, q) ensures c < d {
      assert d in u.Keys - t.Keys;
    }
  }

  /** Newest first: newer comments never disturb the pages still to come. */
  lemma {:induction false} LatestWalkExact(ts: seq<Table>, q: Query, cursor: Option<int>)
    requires ReadToEnd(ts, q, cursor) && Growing(ts) && q.latest
    ensures Walk(ts, q, cursor) == Listing(true, Left(ts[0], q, cursor))
    decreases |ts|
  {
    if !LastPage(ts[0], q, cursor) {
      var page := PageOf(ts[0], q, cursor);
      var next := Some(page[|page| - 1]);
      assert Grows(ts[0], ts[1]);
      LatestWalkExact(ts[1..], q, next);
      PageSplits(ts[0], q, cursor);
      SameLeftLater(ts[0], ts[1], q, page[|page| - 1]);
    }
  }

  lemma SameLeftLater(t: Table, u: Table, q: Query, last: int)
    requires Grows(t, u) && q.latest && last in VisibleRoots(t, q)
    ensures Left(u, q, Some(last)) == Left(t, q, Some(last))
  {
    GrowthKeepsRoots(t, u, q);
    forall x ensures x in Left(u, q, Some(last)) <==> x in Left(t, q, Some(last)) {
      LeftMember(t, q, Some(last), x);
      LeftMember(u, q, Some(last), x);
      assert x in VisibleRoots(t, q) ==> x in t;
      if x in VisibleRoots(u, q) && x !in VisibleRoots(t, q) {
        assert x in VisibleRoots(u, q) - VisibleRoots(t, q);
      }
    }
  }

  lemma GrowsTransitive(t: Table, u: Table, v: Table)
    requires Grows(t, u) && Grows(u, v)
    ensures Grows(t, v)
  {
    forall c, d | c in t && d in v.Keys - t.Keys ensures c < d {
      if d in u { assert d in u.Keys - t.Keys; } else { assert c in u && d in v.Keys - u.Keys; }
    }
    forall d | d in v.Keys - t.Keys && v[d].parent.Some? && v[d].parent.value in t
      ensures !t[v[d].parent.value].deleted
    {
      var p := v[d].parent.value;
      assert p in u && SameVisibility(t[p], u[p]);
      if d in u { assert d in u.Keys - t.Keys && SameVisibility(u[d], v[d]); } else { assert d in v.Keys - u.Keys; }
    }
    forall c | c in t ensures SameVisibility(t[c], v[c]) { assert c in u && SameVisibility(t[c], u[c]); }
  }

  lemma {:induction false} GrownSince(ts: seq<Table>)
    requires Growing(ts) && |ts| > 1
    ensures Grows(ts[0], ts[|ts| - 1])
    decreases |ts|
  {
    assert Grows(ts[0], ts[1]);
    if |ts| > 2 {
      GrownSince(ts[1..]);
      GrowsTransitive(ts[0], ts[1], ts[|ts| - 1]);
    }
  }

  /** Oldest first: newer comments join at the end, so the walk lists all that the last snapshot shows. */
  lemma {:induction false} OldestWalkExact(ts: seq<Table>, q: Query, cursor: Option<int>)
    requires ReadToEnd(ts, q, cursor) && Growing(ts) && !q.latest
    ensures Walk(ts, q, cursor) == Listing(false, Left(ts[|ts| - 1], q, cursor))
    decreases |ts|
  {
    if !LastPage(ts[0], q, cursor) {
      var page, final := PageOf(ts[0], q, cursor), ts[|ts| - 1];
      var next := Some(page[|page| - 1]);
      assert ts[1..] != [];
      OldestWalkExact(ts[1..], q, next);
      GrownSince(ts);
      SamePageLater(ts[0], final, q, cursor);
      PageSplits(final, q, cursor);
    }
  }

  lemma SamePageLater(t: Table, u: Table, q: Query, cursor: Option<int>)
    requires Grows(t, u) && !q.latest && !LastPage(t, q, cursor)
    ensures PageOf(u, q, cursor) == PageOf(t, q, cursor)
  {
    var now, later := Left(t, q, cursor), Left(u, q, cursor) - Left(t, q, cursor);
    GrowthKeepsRoots(t, u, q);
    forall x | x in now ensures x in Left(u, q, cursor) {
      LeftMember(t, q, cursor, x);
      LeftMember(u, q, cursor, x);
    }
    assert Left(u, q, cursor) == now + later;
    forall x, y | x in now && y in later ensures x < y {
      LeftMember(t, q, cursor, x);
      LeftMember(t, q, cursor, y);
      LeftMember(u, q, cursor, y);
      assert y in VisibleRoots(u, q) - VisibleRoots(t, q);
    }
    ListingOfUnion(false, now, later);
  }
}
