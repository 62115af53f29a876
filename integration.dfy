/**
 * How the frontend and the backend meet: the profile page's request against the listing's bounds, the
 * frontend's guest rule against the backend's member gate, the role names, and how promoting a user to super
 * admin interacts with start-up seeding.
 */
module Integration {
  import opened Wrappers
  import opened Models
  import opened Schemas
  import Auth
  import Handlers
  import Initialization
  import ProfilePage
  import PostComposer
  import FrontendTypes
  import Config

  // ---------------------------------------------------------------------------
  // The profile page asks for more posts per page than the listing allows

  /** The `page_size` in `ProfilePage.MY_POSTS_PATH`. */
  const PROFILE_PAGE_SIZE := 100

  /** The profile page's request, `page=1&page_size=100` without an author, is always a validation error. */
  lemma ProfileRequestRejected(posts: seq<PostRow>)
    ensures ProfilePage.MY_POSTS_PATH == "/posts?page=1&page_size=100"
    ensures Handlers.ListPosts(posts, 1, PROFILE_PAGE_SIZE, None) == Err(VALIDATION_FAILED)
    ensures PROFILE_PAGE_SIZE > Handlers.MAX_PAGE_SIZE
  {
  }

  /** What the frontend's `apiFetch` hands the page: the converted page, or the error message. */
  function Delivered(reply: Result<PaginatedPosts, HttpError>, convert: PostRow -> FrontendTypes.Post, message: string)
    : (r: Result<FrontendTypes.PaginatedPosts, string>)
    ensures reply.Err? <==> r.Err?
    ensures r.Err? ==> r.error == message
    ensures r.Ok? ==> |r.value.items| == |reply.value.items| && r.value.total == reply.value.total
  {
    match reply
    case Err(_) => Err(message)
    case Ok(p) =>
      Ok(FrontendTypes.PaginatedPosts(seq(|p.items|, i requires 0 <= i < |p.items| => convert(p.items[i])),
                                      p.page, p.pageSize, p.total, p.hasMore))
  }

  /**
   * A signed-in user opens the profile page and the backend answers its request: whatever posts are stored,
   * the page ends up showing none of them, and stops loading.
   */
  method ProfileShowsNoPosts(page: ProfilePage.Page, user: FrontendTypes.User, posts: seq<PostRow>,
                             convert: PostRow -> FrontendTypes.Post, message: string)
    requires page.Valid()
    modifies page
    ensures page.Valid() && page.myPosts == [] && !page.postsLoading
  {
    var ticket, path := page.UserChanged(Some(user));
    ProfileRequestRejected(posts);
    var reply := Handlers.ListPosts(posts, 1, PROFILE_PAGE_SIZE, None);
    page.Complete(ticket.value, Delivered(reply, convert, message));
  }

  // ---------------------------------------------------------------------------
  // Who may post: the frontend's guest rule and the backend's gate

  /** The user record the frontend receives for a stored user; the role travels as its value. */
  function AsFrontendUser(u: UserRow, idText: string, createdText: string): (f: FrontendTypes.User)
    ensures f.role == u.role.Value() && f.username == u.username && f.email == u.email
    ensures f.isActive == u.isActive && f.emailVerified == u.emailVerified
  {
    FrontendTypes.User(idText, u.username, u.email, u.role.Value(), u.preferredLocale, u.preferredTheme,
                       u.emailVerified, u.isActive, createdText)
  }

  /** The composer treats a signed-in user as a guest exactly when the backend would refuse their post or upload. */
  lemma GuestIffRefused(u: UserRow, idText: string, createdText: string)
    ensures PostComposer.IsGuest(Some(AsFrontendUser(u, idText, createdText)))
      <==> Auth.RequireRoles(Handlers.MEMBER_ROLES, u).Err?
  {
  }

  /** The profile page names every role the backend stores; "unknown" never shows for a real account. */
  lemma EveryRoleNamed(role: UserRole)
    ensures ProfilePage.RoleName(role.Value()) != "未知"
  {
  }

  // ---------------------------------------------------------------------------
  // Promoting a second super admin, and the next start-up

  /**
   * The role route lets a super admin promote anyone to super admin; the start-up check written with
   * `scalar_one_or_none` then finds two rows and fails.
   */
  lemma PromotionBreaksStartup(users: seq<UserRow>, i: nat, s: Config.Settings, hash: string -> string,
                               adminId: Uuid.Uuid, now: Instant, later: Instant)
    requires SuperAdminCount(users) == 1 && i < |users| && users[i].role != SuperAdmin
    ensures Handlers.RoleChangeAllowed(users[i].role, SuperAdmin)
    ensures var promoted := users[i := Handlers.WithRole(users[i], SuperAdmin, now)];
      Initialization.EnsureSuperAdmin(promoted, s, hash, adminId, later) == Err(Initialization.MultipleSuperAdmins)
  {
    Handlers.RoleChangeKeepsSuperAdmins(users, i, SuperAdmin, now);
  }

  /** With the intended check, no role change the route allows can stop a later start-up or make it add a user. */
  lemma PromotionKeepsStartup(users: seq<UserRow>, i: nat, role: UserRole, s: Config.Settings, hash: string -> string,
                              adminId: Uuid.Uuid, now: Instant, later: Instant)
    requires SuperAdminCount(users) >= 1 && i < |users| && Handlers.RoleChangeAllowed(users[i].role, role)
    ensures var changed := users[i := Handlers.WithRole(users[i], role, now)];
      Initialization.EnsureSuperAdminFixed(changed, s, hash, adminId, later) == changed
  {
    Handlers.RoleChangeKeepsSuperAdmins(users, i, role, now);
  }
}
