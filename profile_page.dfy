/**
 * The profile page (frontend/app/profile/page.tsx): the redirect for signed-out visitors, the fetch of the
 * signed-in user's own posts with its cancellation flag, and the role names shown.
 */
module ProfilePage {
  import opened Wrappers
  import opened FrontendTypes

  /** The request the page makes; the page size is above what the backend accepts. */
  const MY_POSTS_PATH := "/posts?page=1&page_size=100"

  /** The first effect: once the session is settled and nobody is signed in, go to `/login`. */
  predicate ShouldRedirect(sessionLoading: bool, user: Option<User>) {
    !sessionLoading && user.None?
  }

  /** The text shown instead of the profile while there is no user. */
  function SignedOutText(sessionLoading: bool): (text: string)
    ensures text == (if sessionLoading then "加载中..." else "请登录后查看个人资料")
  {
    if sessionLoading then "加载中..." else "请登录后查看个人资料"
  }

  /** `items.filter(post => post.author_id === id)`. */
  function FilterByAuthor(items: seq<Post>, id: string): (r: seq<Post>)
    ensures |r| <= |items|
    ensures forall p :: p in r <==> p in items && p.authorId == id
    ensures (forall p :: p in items ==> p.authorId == id) ==> r == items
  {
    if items == [] then []
    else if items[0].authorId == id then [items[0]] + FilterByAuthor(items[1..], id)
    else FilterByAuthor(items[1..], id)
  }

  /** The filter keeps the order: filtering a concatenation filters each part. */
  lemma {:induction false} FilterByAuthorAppend(a: seq<Post>, b: seq<Post>, id: string)
    ensures FilterByAuthor(a + b, id) == FilterByAuthor(a, id) + FilterByAuthor(b, id)
    decreases |a|
  {
    if a == [] {
      assert a + b == b;
    } else {
      assert (a + b)[1..] == a[1..] + b;
      FilterByAuthorAppend(a[1..], b, id);
    }
  }

  /** `getRoleName`: the four roles by name, anything else as unknown. */
  function RoleName(role: string): (name: string)
    ensures role == "visitor" ==> name == "游客"
    ensures role == "user" ==> name == "普通用户"
    ensures role == "admin" ==> name == "管理员"
    ensures role == "super_admin" ==> name == "超级管理员"
    ensures role !in {"visitor", "user", "admin", "super_admin"} ==> name == "未知"
  {
    match role
    case "visitor" => "游客"
    case "user" => "普通用户"
    case "admin" => "管理员"
    case "super_admin" => "超级管理员"
    case _ => "未知"
  }

  class Page {
    var myPosts: seq<Post>
    var postsLoading: bool
    /** Effect runs so far; a run's ticket is its number. */
    var generation: nat
    /** The ticket of the run whose `cancelled` flag is still false, if any. */
    var live: Option<nat>
    /** The user id captured by the live run. */
    var ownerId: string

    /** Only the newest run can be live. */
    predicate Valid()
      reads this
    {
      live.Some? ==> live.value == generation
    }

    constructor ()
      ensures Valid()
      ensures myPosts == [] && !postsLoading && generation == 0 && live.None?
    {
      myPosts := [];
      postsLoading := false;
      generation := 0;
      live := None;
      ownerId := [];
    }

    /**
     * The second effect, run when the user changes: the previous run is cancelled; without a user the list is
     * emptied and nothing is fetched; with one a new run starts loading and requests `MY_POSTS_PATH`.
     */
    method UserChanged(user: Option<User>) returns (ticket: Option<nat>, path: Option<string>)
      requires Valid()
      modifies this
      ensures Valid()
      ensures user.None? ==> (myPosts == [] && live.None? && ticket.None? && path.None?
        && postsLoading == old(postsLoading) && generation == old(generation))
      ensures user.Some? ==> (generation == old(generation) + 1 && ticket == Some(generation) && live == ticket
        && ownerId == user.value.id && postsLoading && myPosts == old(myPosts) && path == Some(MY_POSTS_PATH))
    {
      live := None;
      if user.None? {
        myPosts := [];
        return None, None;
      }
      generation := generation + 1;
      live := Some(generation);
      ownerId := user.value.id;
      postsLoading := true;
      ticket := Some(generation);
      path := Some(MY_POSTS_PATH);
    }

    /**
     * The awaited request of run `ticket` settles. A cancelled run changes nothing; otherwise the list becomes
     * the user's own posts from the page, or empty on failure, and loading ends.
     */
    method Complete(ticket: nat, outcome: Result<PaginatedPosts, string>)
      requires Valid()
      modifies this
      ensures Valid()
      ensures live != Some(ticket) ==> unchanged(this) && old(live) != Some(ticket)
      ensures old(live) == Some(ticket) ==> !postsLoading && live == old(live) && ownerId == old(ownerId)
      ensures old(live) == Some(ticket) && outcome.Ok? ==> myPosts == FilterByAuthor(outcome.value.items, ownerId)
      ensures old(live) == Some(ticket) && outcome.Err? ==> myPosts == []
      ensures old(live) == Some(ticket) ==> forall p :: p in myPosts ==> p.authorId == ownerId
      ensures generation == old(generation)
    {
      if live != Some(ticket) {
        return;
      }
      match outcome {
        case Ok(data) =>
          myPosts := FilterByAuthor(data.items, ownerId);
        case Err(_) =>
          myPosts := [];
      }
      postsLoading := false;
    }

    /** Leaving the page runs the cleanup: the live run is cancelled. */
    method Unmount()
      requires Valid()
      modifies this
      ensures Valid()
      ensures live.None? && myPosts == old(myPosts) && postsLoading == old(postsLoading)
      ensures generation == old(generation)
    {
      live := None;
    }
  }

  /** A run cancelled by a user change never overwrites the list of the run that replaced it. */
  method StaleCompletionIgnored(page: Page, first: User, second: User, outcome: Result<PaginatedPosts, string>)
    requires page.Valid()
    modifies page
    ensures page.Valid()
    ensures page.ownerId == second.id && page.postsLoading
  {
    var t1, _ := page.UserChanged(Some(first));
    var t2, _ := page.UserChanged(Some(second));
    page.Complete(t1.value, outcome);
  }
}
