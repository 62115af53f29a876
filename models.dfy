/**
 * The backend's tables (backend/app/models.py): the user roles, one record type per table, the column lengths
 * and unique/check constraints the database enforces, and the column defaults of a new user. Instants are
 * integers (seconds); who supplies them is the caller's business.
 */
module Models {
  import opened Wrappers
  import opened Uuid

  /** `UserRole`, stored and sent as its string value. */
  datatype UserRole = Visitor | User | Admin | SuperAdmin {
    function Value(): (s: string)
      ensures s in ROLE_VALUES
    {
      match this
      case Visitor => "visitor"
      case User => "user"
      case Admin => "admin"
      case SuperAdmin => "super_admin"
    }
  }

  const ROLE_VALUES: set<string> := {"visitor", "user", "admin", "super_admin"}

  /** `UserRole(s)`: the role whose value is `s`, if there is one. */
  function ParseRole(s: string): (r: Option<UserRole>)
    ensures r.Some? <==> s in ROLE_VALUES
    ensures r.Some? ==> r.value.Value() == s
  {
    match s
    case "visitor" => Some(Visitor)
    case "user" => Some(User)
    case "admin" => Some(Admin)
    case "super_admin" => Some(SuperAdmin)
    case _ => None
  }

  /** Exactly four roles, each with its own value. */
  lemma RoleValuesRoundTrip(role: UserRole)
    ensures ParseRole(role.Value()) == Some(role)
  {
  }

  type Instant = int

  datatype UserRow = UserRow(
    id: Uuid, username: string, email: string, hashedPassword: string, role: UserRole,
    preferredLocale: string, preferredTheme: string, emailVerified: bool, isActive: bool,
    createdAt: Instant, updatedAt: Instant)

  datatype CodeRow = CodeRow(id: nat, email: string, code: string, expiresAt: Instant, used: bool, createdAt: Instant)

  datatype PostRow = PostRow(
    id: Uuid, title: string, content: string, imageUrl: Option<string>, authorId: Uuid,
    createdAt: Instant, updatedAt: Instant)

  datatype CommentRow = CommentRow(id: Uuid, content: string, authorId: Uuid, postId: Uuid, createdAt: Instant)

  datatype SectionRow = SectionRow(
    id: nat, slug: string, title: string, bodyMarkdown: string, updatedBy: Option<Uuid>, updatedAt: Instant)

  const USERNAME_MAX := 50
  const EMAIL_MAX := 255
  const PASSWORD_HASH_MAX := 255
  const LOCALE_MAX := 32
  const THEME_MAX := 16
  const CODE_MAX := 6
  const POST_TITLE_MAX := 150
  const IMAGE_URL_MAX := 500
  const SLUG_MAX := 64
  const SECTION_TITLE_MAX := 128

  const DEFAULT_LOCALE := "zh-CN"
  const DEFAULT_THEME := "system"

  /**
   * A user row as the ORM fills it when only the required columns are given: role USER, locale zh-CN, theme
   * system, email not verified, active, both timestamps now.
   */
  function NewUser(id: Uuid, username: string, email: string, hashedPassword: string, now: Instant): (u: UserRow)
    ensures u.id == id && u.username == username && u.email == email && u.hashedPassword == hashedPassword
    ensures u.role == User && u.preferredLocale == DEFAULT_LOCALE && u.preferredTheme == DEFAULT_THEME
    ensures !u.emailVerified && u.isActive && u.createdAt == now && u.updatedAt == now
  {
    UserRow(id, username, email, hashedPassword, User, DEFAULT_LOCALE, DEFAULT_THEME, false, true, now, now)
  }

  // ---------------------------------------------------------------------------
  // What the database accepts at commit

  predicate UserFits(u: UserRow) {
    |u.username| <= USERNAME_MAX && |u.email| <= EMAIL_MAX && |u.hashedPassword| <= PASSWORD_HASH_MAX
    && |u.preferredLocale| <= LOCALE_MAX && |u.preferredTheme| <= THEME_MAX
  }

  /** Primary keys, usernames and emails are unique (exact comparison, as the unique constraints compare). */
  predicate UsersOk(users: seq<UserRow>) {
    && (forall i :: 0 <= i < |users| ==> UserFits(users[i]))
    && (forall i, j :: 0 <= i < j < |users| ==>
          users[i].id != users[j].id && users[i].username != users[j].username && users[i].email != users[j].email)
  }

  predicate CodesOk(codes: seq<CodeRow>) {
    && (forall i :: 0 <= i < |codes| ==> |codes[i].email| <= EMAIL_MAX && |codes[i].code| <= CODE_MAX)
    && (forall i, j :: 0 <= i < j < |codes| ==> codes[i].id != codes[j].id)
  }

  predicate IsUserId(users: seq<UserRow>, id: Uuid) {
    exists i :: 0 <= i < |users| && users[i].id == id
  }

  predicate IsPostId(posts: seq<PostRow>, id: Uuid) {
    exists i :: 0 <= i < |posts| && posts[i].id == id
  }

  /** Bounded title and image URL, unique keys, and an author that exists. */
  predicate PostsOk(posts: seq<PostRow>, users: seq<UserRow>) {
    && (forall i :: 0 <= i < |posts| ==>
          |posts[i].title| <= POST_TITLE_MAX
          && (posts[i].imageUrl.Some? ==> |posts[i].imageUrl.value| <= IMAGE_URL_MAX)
          && IsUserId(users, posts[i].authorId))
    && (forall i, j :: 0 <= i < j < |posts| ==> posts[i].id != posts[j].id)
  }

  predicate CommentsOk(comments: seq<CommentRow>, posts: seq<PostRow>, users: seq<UserRow>) {
    && (forall i :: 0 <= i < |comments| ==>
          IsUserId(users, comments[i].authorId) && IsPostId(posts, comments[i].postId))
    && (forall i, j :: 0 <= i < j < |comments| ==> comments[i].id != comments[j].id)
  }

  /** Slugs are non-blank, at most 64 characters and unique; titles at most 128; the editor, if any, exists. */
  predicate SectionsOk(sections: seq<SectionRow>, users: seq<UserRow>) {
    && (forall i :: 0 <= i < |sections| ==>
          sections[i].slug != [] && |sections[i].slug| <= SLUG_MAX && |sections[i].title| <= SECTION_TITLE_MAX
          && (sections[i].updatedBy.Some? ==> IsUserId(users, sections[i].updatedBy.value)))
    && (forall i, j :: 0 <= i < j < |sections| ==>
          sections[i].id != sections[j].id && sections[i].slug != sections[j].slug)
  }

  /** All five tables as the database stores them. */
  datatype Tables = Tables(
    users: seq<UserRow>, codes: seq<CodeRow>, posts: seq<PostRow>, comments: seq<CommentRow>,
    sections: seq<SectionRow>)

  /** Every constraint of every table holds: a transaction whose result breaks one is rolled back. */
  predicate Consistent(t: Tables) {
    UsersOk(t.users) && CodesOk(t.codes) && PostsOk(t.posts, t.users)
    && CommentsOk(t.comments, t.posts, t.users) && SectionsOk(t.sections, t.users)
  }

  /** The empty database is consistent. */
  lemma EmptyConsistent()
    ensures Consistent(Tables([], [], [], [], []))
  {
  }

  /** Adding a user whose keys are new and whose columns fit keeps the users table consistent. */
  lemma {:induction false} AddUserOk(users: seq<UserRow>, u: UserRow)
    requires UsersOk(users) && UserFits(u)
    requires forall i :: 0 <= i < |users| ==> users[i].id != u.id && users[i].username != u.username && users[i].email != u.email
    ensures UsersOk(users + [u])
  {
    var us := users + [u];
    forall i, j | 0 <= i < j < |us|
      ensures us[i].id != us[j].id && us[i].username != us[j].username && us[i].email != us[j].email
    {
      if j < |users| {
        assert us[i] == users[i] && us[j] == users[j];
      } else {
        assert us[i] == users[i] && us[j] == u;
      }
    }
  }

  /** How many users hold the super-admin role (what `select(User).where(User.role == SUPERADMIN)` returns). */
  function SuperAdminCount(users: seq<UserRow>): (n: nat)
    ensures n <= |users|
  {
    if users == [] then 0
    else
      var k := |users| - 1;
      SuperAdminCount(users[..k]) + (if users[k].role == SuperAdmin then 1 else 0)
  }

  /** There are no super admins exactly when no user holds the role. */
  lemma {:induction false} NoSuperAdmins(users: seq<UserRow>)
    ensures SuperAdminCount(users) == 0 <==> forall i :: 0 <= i < |users| ==> users[i].role != SuperAdmin
  {
    if users != [] {
      var k := |users| - 1;
      NoSuperAdmins(users[..k]);
      assert forall i :: 0 <= i < k ==> users[..k][i] == users[i];
    }
  }

  /** Replacing one row changes the count by what the old row and the new one contribute. */
  lemma {:induction false} SuperAdminCountUpdate(users: seq<UserRow>, i: nat, u: UserRow)
    requires i < |users|
    ensures SuperAdminCount(users[i := u]) + (if users[i].role == SuperAdmin then 1 else 0)
      == SuperAdminCount(users) + (if u.role == SuperAdmin then 1 else 0)
  {
    var us := users[i := u];
    var k := |users| - 1;
    if i == k {
      assert us[..k] == users[..k];
    } else {
      assert us[..k] == users[..k][i := u];
      SuperAdminCountUpdate(users[..k], i, u);
    }
  }
}
