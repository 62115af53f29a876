/**
 * The posts page controller (frontend/app/posts/page.tsx): a paginated feed with id-based de-duplication, the
 * comment panel of the selected post, and the comment form's guards. Each awaited request is an input to the
 * handler that awaits it.
 */
module PostsFeed {
  import opened Wrappers
  import opened Text
  import opened FrontendTypes

  const PAGE_SIZE := 20
  const COMMENT_STEP := 5
  const LOAD_POSTS_FALLBACK := "无法加载帖子，请稍后再试"
  const LOAD_COMMENTS_FALLBACK := "无法加载评论"
  const COMMENT_FALLBACK := "评论失败，请稍后再试"

  // ---------------------------------------------------------------------------
  // De-duplication

  /** The ids occurring in a list of posts. */
  function Ids(s: seq<Post>): set<string> {
    set i | 0 <= i < |s| :: s[i].id
  }

  predicate UniqueIds(s: seq<Post>) {
    forall i, j :: 0 <= i < j < |s| ==> s[i].id != s[j].id
  }

  /** What `dedupePosts` computes, one item at a time: an item is kept unless its id was already kept. */
  function Dedupe(list: seq<Post>): seq<Post> {
    if list == [] then []
    else
      var kept := Dedupe(list[..|list| - 1]);
      var item := list[|list| - 1];
      if item.id in Ids(kept) then kept else kept + [item]
  }

  /** Position `k` holds the first occurrence of its id. */
  predicate IsFirst(list: seq<Post>, k: nat)
    requires k < |list|
  {
    forall i :: 0 <= i < k ==> list[i].id != list[k].id
  }

  /** An independent description: the items at first-occurrence positions, in input order. */
  function FirstOccurrences(list: seq<Post>): seq<Post> {
    if list == [] then []
    else FirstOccurrences(list[..|list| - 1]) + (if IsFirst(list, |list| - 1) then [list[|list| - 1]] else [])
  }

  /** `dedupePosts`: the loop over the list with a `seen` set. */
  method DedupePosts(list: seq<Post>) returns (result: seq<Post>)
    ensures result == Dedupe(list)
  {
    var seen: set<string> := {};
    result := [];
    var i := 0;
    while i < |list|
      invariant 0 <= i <= |list|
      invariant result == Dedupe(list[..i])
      invariant seen == Ids(result)
    {
      var item := list[i];
      assert list[..i + 1][..i] == list[..i];
      if item.id !in seen {
        seen := seen + {item.id};
        result := result + [item];
        IdsAppend(result[..|result| - 1], item);
        assert result[..|result| - 1] + [item] == result;
      }
      i := i + 1;
    }
    assert list[..|list|] == list;
  }

  /** Appending one item to a list extends its id set by that item's id. */
  lemma IdsAppend(s: seq<Post>, p: Post)
    ensures Ids(s + [p]) == Ids(s) + {p.id}
  {
    var t := s + [p];
    forall x | x in Ids(t)
      ensures x in Ids(s) + {p.id}
    {
      var k :| 0 <= k < |t| && t[k].id == x;
      if k < |s| {
        assert t[k] == s[k];
      }
    }
    forall x | x in Ids(s) + {p.id}
      ensures x in Ids(t)
    {
      if x in Ids(s) {
        var k :| 0 <= k < |s| && s[k].id == x;
        assert t[k] == s[k];
      } else {
        assert t[|s|] == p;
      }
    }
  }

  /** The de-duplicated list has exactly the ids of the input. */
  lemma {:induction false} DedupeIds(list: seq<Post>)
    ensures Ids(Dedupe(list)) == Ids(list)
  {
    if list != [] {
      var front := list[..|list| - 1];
      var item := list[|list| - 1];
      DedupeIds(front);
      assert list == front + [item];
      IdsAppend(front, item);
      if item.id !in Ids(Dedupe(front)) {
        IdsAppend(Dedupe(front), item);
      }
    }
  }

  /** No two items of the de-duplicated list share an id. */
  lemma {:induction false} DedupeUnique(list: seq<Post>)
    ensures UniqueIds(Dedupe(list))
  {
    if list != [] {
      var front := list[..|list| - 1];
      var item := list[|list| - 1];
      DedupeUnique(front);
      var kept := Dedupe(front);
      if item.id !in Ids(kept) {
        var r := kept + [item];
        forall i, j | 0 <= i < j < |r|
          ensures r[i].id != r[j].id
        {
          if j < |kept| {
            assert r[i] == kept[i] && r[j] == kept[j];
          } else {
            assert r[i] == kept[i];
          }
        }
      }
    }
  }

  /** De-duplication keeps exactly the first occurrence of each id, in input order. */
  lemma {:induction false} DedupeKeepsFirst(list: seq<Post>)
    ensures Dedupe(list) == FirstOccurrences(list)
  {
    if list != [] {
      var front := list[..|list| - 1];
      var item := list[|list| - 1];
      DedupeKeepsFirst(front);
      DedupeIds(front);
      assert IsFirst(list, |list| - 1) <==> item.id !in Ids(front) by {
        if !IsFirst(list, |list| - 1) {
          var i :| 0 <= i < |list| - 1 && list[i].id == item.id;
          assert front[i] == list[i];
        }
        if item.id in Ids(front) {
          var i :| 0 <= i < |front| && front[i].id == item.id;
          assert list[i] == front[i];
        }
      }
    }
  }

  /** A list that already has unique ids is left as it is. */
  lemma {:induction false} DedupeOfUnique(list: seq<Post>)
    requires UniqueIds(list)
    ensures Dedupe(list) == list
  {
    if list != [] {
      var front := list[..|list| - 1];
      var item := list[|list| - 1];
      assert UniqueIds(front);
      DedupeOfUnique(front);
      forall i | 0 <= i < |front|
        ensures front[i].id != item.id
      {
        assert front[i] == list[i];
      }
      assert list == front + [item];
    }
  }

  /** The first item always survives de-duplication, at the front. */
  lemma {:induction false} DedupeKeepsHead(list: seq<Post>)
    requires list != []
    ensures Dedupe(list) != [] && Dedupe(list)[0] == list[0]
  {
    if |list| > 1 {
      var front := list[..|list| - 1];
      DedupeKeepsHead(front);
      assert front[0] == list[0];
    }
  }

  // ---------------------------------------------------------------------------
  // The page state

  class Feed {
    var posts: seq<Post>
    var page: int
    var hasMore: bool
    var loading: bool
    var errorMessage: Option<string>
    var selectedPost: Option<Post>
    var allComments: seq<Comment>
    var displayedComments: seq<Comment>
    var commentText: string
    var commentsToShow: int

    /** The shown posts have unique ids, pages count from 1, and the comment window is a prefix of the comments. */
    predicate Valid()
      reads this
    {
      && UniqueIds(posts)
      && page >= 1
      && commentsToShow >= COMMENT_STEP
      && displayedComments == Take(allComments, commentsToShow)
    }

    /** The state of a freshly mounted page, before the first load. */
    constructor ()
      ensures Valid()
      ensures posts == [] && page == 1 && hasMore && !loading && errorMessage.None?
      ensures selectedPost.None? && allComments == [] && commentText == [] && commentsToShow == COMMENT_STEP
    {
      posts := [];
      page := 1;
      hasMore := true;
      loading := false;
      errorMessage := None;
      selectedPost := None;
      allComments := [];
      displayedComments := [];
      commentText := [];
      commentsToShow := COMMENT_STEP;
    }

    /**
     * The start of `loadPosts`: nothing happens while a load is running or when the last page was reached;
     * otherwise the page is marked loading, the error cleared, and the returned path is requested.
     */
    method BeginLoadPosts() returns (started: bool, path: string)
      requires Valid()
      modifies this
      ensures Valid()
      ensures started <==> !old(loading) && old(hasMore)
      ensures !started ==> unchanged(this)
      ensures started ==> (loading && errorMessage.None?
        && path == "/posts?page=" + IntToDecimal(page) + "&page_size=" + IntToDecimal(PAGE_SIZE))
      ensures started ==> (posts == old(posts) && page == old(page) && hasMore == old(hasMore)
        && selectedPost == old(selectedPost) && allComments == old(allComments)
        && displayedComments == old(displayedComments) && commentText == old(commentText)
        && commentsToShow == old(commentsToShow))
    {
      if loading || !hasMore {
        return false, [];
      }
      loading := true;
      errorMessage := None;
      started, path := true, "/posts?page=" + IntToDecimal(page) + "&page_size=" + IntToDecimal(PAGE_SIZE);
    }

    /**
     * The end of `loadPosts` once the request settled: a page appends its items (de-duplicated), takes the
     * server's `has_more` and advances the page by one; a failure only records the message. Either way the
     * page stops loading.
     */
    method CompleteLoadPosts(outcome: Result<PaginatedPosts, string>)
      requires Valid()
      modifies this
      ensures Valid()
      ensures !loading
      ensures outcome.Ok? ==> (posts == Dedupe(old(posts) + outcome.value.items)
        && hasMore == outcome.value.hasMore && page == old(page) + 1 && errorMessage == old(errorMessage))
      ensures outcome.Err? ==> (posts == old(posts) && hasMore == old(hasMore) && page == old(page)
        && errorMessage == Some(MessageOr(outcome.error, LOAD_POSTS_FALLBACK)))
      ensures selectedPost == old(selectedPost) && allComments == old(allComments)
        && displayedComments == old(displayedComments) && commentText == old(commentText)
        && commentsToShow == old(commentsToShow)
    {
      match outcome {
        case Ok(data) =>
          posts := DedupePosts(posts + data.items);
          DedupeUnique(old(posts) + data.items);
          hasMore := data.hasMore;
          page := page + 1;
        case Err(message) =>
          errorMessage := Some(MessageOr(message, LOAD_POSTS_FALLBACK));
      }
      loading := false;
    }

    /** `handlePostCreated`: the new post goes first, and it becomes the selected post with no comments. */
    method HandlePostCreated(post: Post)
      requires Valid()
      modifies this
      ensures Valid()
      ensures posts == Dedupe([post] + old(posts))
      ensures selectedPost == Some(post) && allComments == [] && displayedComments == []
      ensures page == old(page) && hasMore == old(hasMore) && loading == old(loading)
        && errorMessage == old(errorMessage) && commentText == old(commentText)
        && commentsToShow == old(commentsToShow)
    {
      posts := DedupePosts([post] + posts);
      DedupeUnique([post] + old(posts));
      selectedPost := Some(post);
      allComments := [];
      displayedComments := [];
    }

    /**
     * `handleSelectPost`: select the post, reset the form and the window to 5, then show the fetched comments
     * (the first 5 of them), or alert on failure and leave the panel empty.
     */
    method HandleSelectPost(post: Post, fetched: Result<seq<Comment>, string>) returns (alert: Alert)
      requires Valid()
      modifies this
      ensures Valid()
      ensures selectedPost == Some(post) && commentText == [] && commentsToShow == COMMENT_STEP
      ensures fetched.Ok? ==> (allComments == fetched.value && displayedComments == Take(fetched.value, COMMENT_STEP)
        && alert == NoAlert)
      ensures fetched.Err? ==> (allComments == [] && displayedComments == []
        && alert == AlertText(MessageOr(fetched.error, LOAD_COMMENTS_FALLBACK)))
      ensures posts == old(posts) && page == old(page) && hasMore == old(hasMore) && loading == old(loading)
        && errorMessage == old(errorMessage)
    {
      selectedPost := Some(post);
      commentText := [];
      commentsToShow := COMMENT_STEP;
      allComments := [];
      displayedComments := [];
      match fetched
      case Ok(comments) =>
        allComments := comments;
        displayedComments := Take(comments, COMMENT_STEP);
        alert := NoAlert;
      case Err(message) =>
        alert := AlertText(MessageOr(message, LOAD_COMMENTS_FALLBACK));
    }

    /** `handleCloseComments`: nothing selected, no comments, an empty form. */
    method HandleCloseComments()
      requires Valid()
      modifies this
      ensures Valid()
      ensures selectedPost.None? && allComments == [] && displayedComments == [] && commentText == []
      ensures posts == old(posts) && page == old(page) && hasMore == old(hasMore) && loading == old(loading)
        && errorMessage == old(errorMessage) && commentsToShow == old(commentsToShow)
    {
      selectedPost := None;
      allComments := [];
      displayedComments := [];
      commentText := [];
    }

    /** `loadMoreComments`: the window grows by 5 and shows that many comments, or all of them. */
    method LoadMoreComments()
      requires Valid()
      modifies this
      ensures Valid()
      ensures commentsToShow == old(commentsToShow) + COMMENT_STEP
      ensures displayedComments == allComments[..Min(old(commentsToShow) + COMMENT_STEP, |allComments|)]
      ensures |displayedComments| >= |old(displayedComments)|
      ensures allComments == old(allComments) && posts == old(posts) && page == old(page)
        && hasMore == old(hasMore) && loading == old(loading) && errorMessage == old(errorMessage)
        && selectedPost == old(selectedPost) && commentText == old(commentText)
    {
      var nextCount := commentsToShow + COMMENT_STEP;
      displayedComments := Take(allComments, nextCount);
      commentsToShow := nextCount;
    }

    /** Types into the comment box. */
    method SetCommentText(text: string)
      requires Valid()
      modifies this
      ensures Valid()
      ensures commentText == text
      ensures posts == old(posts) && page == old(page) && hasMore == old(hasMore) && loading == old(loading)
        && errorMessage == old(errorMessage) && selectedPost == old(selectedPost)
        && allComments == old(allComments) && displayedComments == old(displayedComments)
        && commentsToShow == old(commentsToShow)
    {
      commentText := text;
    }

    /**
     * `handleSubmitComment`. A blank comment or no selected post does nothing; a missing user or token alerts
     * and sends nothing. Otherwise the trimmed text is posted (returned as `sent`); on success the box is
     * cleared and the refetched comments replace the panel, keeping the current window size.
     */
    method HandleSubmitComment(user: Option<User>, token: Option<string>,
                               posted: Result<Comment, string>, refetched: Result<seq<Comment>, string>)
      returns (sent: Option<(string, string)>, alert: Alert)
      requires Valid()
      modifies this
      ensures Valid()
      ensures !JsHasText(old(commentText)) || old(selectedPost).None? ==> unchanged(this) && sent.None? && alert == NoAlert
      ensures JsHasText(old(commentText)) && old(selectedPost).Some? && (user.None? || token.None? || token.value == []) ==>
        unchanged(this) && sent.None? && alert == AlertKey("loginRequired")
      ensures sent.Some? <==> JsHasText(old(commentText)) && old(selectedPost).Some? && user.Some? && token.Some? && token.value != []
      ensures sent.Some? ==> sent.value == (old(selectedPost).value.id, JsTrim(old(commentText)))
      ensures sent.Some? && posted.Err? ==> unchanged(this) && alert == AlertText(MessageOr(posted.error, COMMENT_FALLBACK))
      ensures sent.Some? && posted.Ok? ==> commentText == []
      ensures sent.Some? && posted.Ok? && refetched.Ok? ==> (allComments == refetched.value
        && displayedComments == Take(refetched.value, old(commentsToShow)) && alert == NoAlert)
      ensures sent.Some? && posted.Ok? && refetched.Err? ==> (allComments == old(allComments)
        && displayedComments == old(displayedComments) && alert == AlertText(MessageOr(refetched.error, COMMENT_FALLBACK)))
      ensures posts == old(posts) && page == old(page) && hasMore == old(hasMore) && loading == old(loading)
        && errorMessage == old(errorMessage) && selectedPost == old(selectedPost) && commentsToShow == old(commentsToShow)
    {
      if !JsHasText(commentText) || selectedPost.None? {
        return None, NoAlert;
      }
      if user.None? || token.None? || token.value == [] {
        return None, AlertKey("loginRequired");
      }
      sent := Some((selectedPost.value.id, JsTrim(commentText)));
      if posted.Err? {
        return sent, AlertText(MessageOr(posted.error, COMMENT_FALLBACK));
      }
      commentText := [];
      match refetched
      case Ok(updated) =>
        allComments := updated;
        displayedComments := Take(updated, commentsToShow);
        alert := NoAlert;
      case Err(message) =>
        alert := AlertText(MessageOr(message, COMMENT_FALLBACK));
    }
  }

  /** Loading a page never loses a post already shown, and every post of the page ends up shown. */
  lemma LoadKeepsPosts(prev: seq<Post>, items: seq<Post>)
    ensures Ids(Dedupe(prev + items)) == Ids(prev) + Ids(items)
    ensures UniqueIds(prev) ==> |Dedupe(prev + items)| >= |prev| && Dedupe(prev + items)[..|prev|] == prev
  {
    DedupeIds(prev + items);
    IdsConcat(prev, items);
    if UniqueIds(prev) {
      DedupePrefix(prev, items);
    }
  }

  lemma IdsConcat(a: seq<Post>, b: seq<Post>)
    ensures Ids(a + b) == Ids(a) + Ids(b)
  {
    var t := a + b;
    forall x | x in Ids(t)
      ensures x in Ids(a) + Ids(b)
    {
      var k :| 0 <= k < |t| && t[k].id == x;
      if k < |a| {
        assert t[k] == a[k];
      } else {
        assert t[k] == b[k - |a|];
      }
    }
    forall x | x in Ids(a) + Ids(b)
      ensures x in Ids(t)
    {
      if x in Ids(a) {
        var k :| 0 <= k < |a| && a[k].id == x;
        assert t[k] == a[k];
      } else {
        var k :| 0 <= k < |b| && b[k].id == x;
        assert t[k + |a|] == b[k];
      }
    }
  }

  /** De-duplicating an extension of a duplicate-free list keeps that list as the prefix. */
  lemma {:induction false} DedupePrefix(prev: seq<Post>, items: seq<Post>)
    requires UniqueIds(prev)
    ensures |Dedupe(prev + items)| >= |prev| && Dedupe(prev + items)[..|prev|] == prev
  {
    if items == [] {
      assert prev + items == prev;
      DedupeOfUnique(prev);
    } else {
      var front := items[..|items| - 1];
      DedupePrefix(prev, front);
      assert (prev + items)[..|prev + items| - 1] == prev + front;
    }
  }

  /** A created post shows first; with a duplicate-free feed that lacked it, it is simply prepended. */
  lemma CreatedPostFirst(post: Post, prev: seq<Post>)
    ensures Dedupe([post] + prev) != [] && Dedupe([post] + prev)[0] == post
    ensures UniqueIds(prev) && post.id !in Ids(prev) ==> Dedupe([post] + prev) == [post] + prev
  {
    DedupeKeepsHead([post] + prev);
    if UniqueIds(prev) && post.id !in Ids(prev) {
      var t := [post] + prev;
      forall i, j | 0 <= i < j < |t|
        ensures t[i].id != t[j].id
      {
        if i == 0 {
          assert t[j] == prev[j - 1];
        } else {
          assert t[i] == prev[i - 1] && t[j] == prev[j - 1];
        }
      }
      DedupeOfUnique(t);
    }
  }
}
