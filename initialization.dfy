/**
 * Start-up seeding (backend/app/initialization.py): make sure a super admin exists and every default About
 * section exists, in one transaction. Creating the tables is left to the database.
 */
module Initialization {
  import opened Wrappers
  import opened Text
  import opened Uuid
  import opened Models
  import opened Store
  import Config

  /** Why start-up stops: the super-admin query found several rows, or the database rejected the commit. */
  datatype StartupError = MultipleSuperAdmins | RejectedCommit

  // ---------------------------------------------------------------------------
  // The super admin

  /** The account `_ensure_super_admin` creates from the settings: a verified, active super admin. */
  function ConfiguredSuperAdmin(s: Config.Settings, hash: string -> string, id: Uuid, now: Instant): (u: UserRow)
    ensures u.id == id && u.username == s.superadminUsername && u.email == s.superadminEmail
    ensures u.hashedPassword == hash(s.superadminPassword) && u.role == SuperAdmin
    ensures u.preferredLocale == s.defaultLocale && u.preferredTheme == s.defaultTheme
    ensures u.emailVerified && u.isActive && u.createdAt == now && u.updatedAt == now
  {
    UserRow(id, s.superadminUsername, s.superadminEmail, hash(s.superadminPassword), SuperAdmin,
            s.defaultLocale, s.defaultTheme, true, true, now, now)
  }

  /**
   * `_ensure_super_admin` as written: `scalar_one_or_none()` over the super admins adds one when there is
   * none, does nothing when there is exactly one, and raises when there are several.
   */
  function EnsureSuperAdmin(users: seq<UserRow>, s: Config.Settings, hash: string -> string, id: Uuid, now: Instant)
    : (r: Result<seq<UserRow>, StartupError>)
    ensures r.Err? <==> SuperAdminCount(users) >= 2
    ensures r.Err? ==> r.error == MultipleSuperAdmins
    ensures SuperAdminCount(users) == 1 ==> r == Ok(users)
    ensures SuperAdminCount(users) == 0 ==> r == Ok(users + [ConfiguredSuperAdmin(s, hash, id, now)])
  {
    var n := SuperAdminCount(users);
    if n >= 2 then Err(MultipleSuperAdmins)
    else if n == 1 then Ok(users)
    else Ok(users + [ConfiguredSuperAdmin(s, hash, id, now)])
  }

  /**
   * `_ensure_super_admin` as evidently intended: the configured account is added only when no super admin
   * exists, and any number of existing super admins is accepted.
   */
  function EnsureSuperAdminFixed(users: seq<UserRow>, s: Config.Settings, hash: string -> string, id: Uuid, now: Instant)
    : (r: seq<UserRow>)
    ensures SuperAdminCount(users) == 0 ==> r == users + [ConfiguredSuperAdmin(s, hash, id, now)]
    ensures SuperAdminCount(users) > 0 ==> r == users
    ensures SuperAdminCount(r) >= 1
  {
    if SuperAdminCount(users) == 0 then
      var r := users + [ConfiguredSuperAdmin(s, hash, id, now)];
      assert r[..|users|] == users;
      r
    else users
  }

  /** Where the written check does not fail, the intended one agrees with it. */
  lemma EnsureSuperAdminFixedAgrees(users: seq<UserRow>, s: Config.Settings, hash: string -> string, id: Uuid, now: Instant)
    requires SuperAdminCount(users) <= 1
    ensures EnsureSuperAdmin(users, s, hash, id, now) == Ok(EnsureSuperAdminFixed(users, s, hash, id, now))
  {
  }

  /** Seeding the super admin twice is seeding it once, whatever identifier the second run would use. */
  lemma EnsureSuperAdminIdempotent(users: seq<UserRow>, s: Config.Settings, hash: string -> string,
                                   id: Uuid, id2: Uuid, now: Instant, later: Instant)
    ensures var once := EnsureSuperAdminFixed(users, s, hash, id, now);
      EnsureSuperAdminFixed(once, s, hash, id2, later) == once
  {
  }

  // ---------------------------------------------------------------------------
  // The About sections

  /** The fixed titles of the three default sections. */
  const TITLE_MAP: map<string, string> := map[
    "about_rabbits" := "关于兔兔们", "about_care_team" := "关于兔兔护理队", "about_feeding" := "关于喂兔"]

  /** `title_map.get(slug, slug.replace("_", " ").title())`. */
  function DefaultTitle(slug: string): (t: string)
    ensures slug in TITLE_MAP ==> t == TITLE_MAP[slug]
    ensures slug !in TITLE_MAP ==> t == TitleCase(ReplaceChar(slug, '_', ' '))
  {
    if slug in TITLE_MAP then TITLE_MAP[slug] else TitleCase(ReplaceChar(slug, '_', ' '))
  }

  /** A slug without a fixed title gets one of its own length, with spaces exactly where the slug has underscores or spaces. */
  lemma DerivedTitleShape(slug: string)
    requires slug !in TITLE_MAP
    ensures |DefaultTitle(slug)| == |slug|
    ensures forall i :: 0 <= i < |slug| ==> (DefaultTitle(slug)[i] == ' ' <==> slug[i] == '_' || slug[i] == ' ')
  {
    var r := ReplaceChar(slug, '_', ' ');
    var t := TitleFrom(r, false);
    forall i | 0 <= i < |slug|
      ensures t[i] == ' ' <==> slug[i] == '_' || slug[i] == ' '
    {
      if IsAsciiLetter(r[i]) {
        assert LowerChar(r[i]) != ' ' && UpperChar(r[i]) != ' ';
      }
    }
  }

  /** The slugs already stored. */
  function SlugSet(sections: seq<SectionRow>): (r: set<string>)
    ensures forall i :: 0 <= i < |sections| ==> sections[i].slug in r
    ensures forall slug :: slug in r ==> exists i :: 0 <= i < |sections| && sections[i].slug == slug
  {
    set i | 0 <= i < |sections| :: sections[i].slug
  }

  /** The defaults whose slug is not among `existing`, in their order. */
  function Missing(defaults: seq<(string, string)>, existing: set<string>): (r: seq<(string, string)>)
    ensures |r| <= |defaults|
  {
    if defaults == [] then []
    else
      var n := |defaults| - 1;
      var front := Missing(defaults[..n], existing);
      if defaults[n].0 in existing then front else front + [defaults[n]]
  }

  /** The missing defaults are exactly the defaults whose slug is not among `existing`. */
  lemma {:induction false} MissingMembers(defaults: seq<(string, string)>, existing: set<string>)
    ensures forall d :: d in Missing(defaults, existing) <==> d in defaults && d.0 !in existing
  {
    if defaults != [] {
      var n := |defaults| - 1;
      MissingMembers(defaults[..n], existing);
      assert defaults == defaults[..n] + [defaults[n]];
    }
  }

  /** The rows added for the missing defaults, numbered on from `firstId` in order. */
  function SectionRows(missing: seq<(string, string)>, firstId: nat, now: Instant): (rows: seq<SectionRow>)
    ensures |rows| == |missing|
  {
    if missing == [] then []
    else
      var n := |missing| - 1;
      var front := SectionRows(missing[..n], firstId, now);
      front + [SectionRow(firstId + n, missing[n].0, DefaultTitle(missing[n].0), missing[n].1, None, now)]
  }

  /** Row `k` is the `k`-th missing default's section, numbered `firstId + k`. */
  lemma {:induction false} SectionRowsAt(missing: seq<(string, string)>, firstId: nat, now: Instant)
    ensures forall k :: 0 <= k < |missing| ==>
      SectionRows(missing, firstId, now)[k] == SectionRow(firstId + k, missing[k].0, DefaultTitle(missing[k].0), missing[k].1, None, now)
  {
    if missing != [] {
      var n := |missing| - 1;
      SectionRowsAt(missing[..n], firstId, now);
      forall k | 0 <= k < n
        ensures SectionRows(missing, firstId, now)[k] == SectionRows(missing[..n], firstId, now)[k]
      {
      }
      assert forall k :: 0 <= k < n ==> missing[..n][k] == missing[k];
    }
  }

  /** One more default either is skipped or joins the missing ones at the end. */
  lemma MissingStep(defaults: seq<(string, string)>, i: nat, existing: set<string>)
    requires i < |defaults|
    ensures Missing(defaults[..i + 1], existing)
      == if defaults[i].0 in existing then Missing(defaults[..i], existing) else Missing(defaults[..i], existing) + [defaults[i]]
  {
    assert defaults[..i + 1][..i] == defaults[..i];
  }

  /** The row for one more missing default is numbered right after the others. */
  lemma SectionRowsStep(missing: seq<(string, string)>, d: (string, string), firstId: nat, now: Instant)
    ensures SectionRows(missing + [d], firstId, now)
      == SectionRows(missing, firstId, now) + [SectionRow(firstId + |missing|, d.0, DefaultTitle(d.0), d.1, None, now)]
  {
    assert (missing + [d])[..|missing|] == missing;
  }

  /**
   * The loop of `_ensure_about_sections`: for each default in order, skips a slug that already exists and
   * otherwise numbers and adds a section (the numbers come from the sequence as the rows are flushed).
   */
  method AddDefaultSections(db: Database, defaults: seq<(string, string)>, existing: set<string>, now: Instant)
    returns (added: seq<SectionRow>)
    requires db.Valid()
    modifies db
    ensures db.Valid() && db.Snapshot() == old(db.Snapshot()) && db.nextCodeId == old(db.nextCodeId)
    ensures added == SectionRows(Missing(defaults, existing), old(db.nextSectionId), now)
    ensures db.nextSectionId == old(db.nextSectionId) + |added|
  {
    added := [];
    var i := 0;
    ghost var first := db.nextSectionId;
    while i < |defaults|
      invariant 0 <= i <= |defaults|
      invariant db.Valid() && db.Snapshot() == old(db.Snapshot()) && db.nextCodeId == old(db.nextCodeId)
      invariant added == SectionRows(Missing(defaults[..i], existing), first, now)
      invariant db.nextSectionId == first + |added|
    {
      added := AddDefaultSection(db, defaults, i, existing, now, first, added);
      i := i + 1;
    }
    assert defaults[..i] == defaults;
  }

  /** One pass of that loop: a present slug adds no row, a missing one adds the next-numbered row. */
  method AddDefaultSection(db: Database, defaults: seq<(string, string)>, i: nat, existing: set<string>,
                           now: Instant, ghost first: nat, added: seq<SectionRow>)
    returns (added': seq<SectionRow>)
    requires db.Valid() && i < |defaults|
    requires added == SectionRows(Missing(defaults[..i], existing), first, now)
    requires db.nextSectionId == first + |added|
    modifies db
    ensures db.Valid() && db.Snapshot() == old(db.Snapshot()) && db.nextCodeId == old(db.nextCodeId)
    ensures added' == SectionRows(Missing(defaults[..i + 1], existing), first, now)
    ensures db.nextSectionId == first + |added'|
  {
    ghost var missing := Missing(defaults[..i], existing);
    MissingStep(defaults, i, existing);
    var (slug, body) := defaults[i];
    if slug !in existing {
      var id := db.NextSectionId();
      SectionRowsStep(missing, defaults[i], first, now);
      added' := added + [SectionRow(id, slug, DefaultTitle(slug), body, None, now)];
    } else {
      added' := added;
    }
  }

  /** The tables `run_initialization` commits: the intended super-admin step, then the missing sections. */
  function Seeded(t: Tables, s: Config.Settings, hash: string -> string, adminId: Uuid, firstSectionId: nat, now: Instant)
    : (r: Tables)
    ensures r.codes == t.codes && r.posts == t.posts && r.comments == t.comments
    ensures r.users == EnsureSuperAdminFixed(t.users, s, hash, adminId, now)
    ensures r.sections == t.sections + SectionRows(Missing(s.aboutDefaultSections, SlugSet(t.sections)), firstSectionId, now)
  {
    t.(users := EnsureSuperAdminFixed(t.users, s, hash, adminId, now),
       sections := t.sections + SectionRows(Missing(s.aboutDefaultSections, SlugSet(t.sections)), firstSectionId, now))
  }

  /** New section numbers are above every stored one, so the seeded tables keep the numbering. */
  lemma SeededNumbered(t: Tables, s: Config.Settings, hash: string -> string, adminId: Uuid, nextCodeId: nat,
                       nextSectionId: nat, now: Instant)
    requires Numbered(t, nextCodeId, nextSectionId)
    ensures var added := |Missing(s.aboutDefaultSections, SlugSet(t.sections))|;
      Numbered(Seeded(t, s, hash, adminId, nextSectionId, now), nextCodeId, nextSectionId + added)
  {
    var r := Seeded(t, s, hash, adminId, nextSectionId, now);
    var missing := Missing(s.aboutDefaultSections, SlugSet(t.sections));
    var added := |missing|;
    SectionRowsAt(missing, nextSectionId, now);
    forall i | 0 <= i < |r.sections|
      ensures r.sections[i].id < nextSectionId + added
    {
      if i < |t.sections| {
        assert r.sections[i] == t.sections[i];
      }
    }
  }

  /**
   * The tables once the super-admin step is flushed: the session flushes pending rows before it runs the
   * query for the stored section slugs, so a rejected account fails there, before any section is numbered.
   */
  function AdminFlushed(t: Tables, s: Config.Settings, hash: string -> string, adminId: Uuid, now: Instant)
    : (r: Tables)
    ensures r.codes == t.codes && r.posts == t.posts && r.comments == t.comments && r.sections == t.sections
    ensures r.users == EnsureSuperAdminFixed(t.users, s, hash, adminId, now)
  {
    t.(users := EnsureSuperAdminFixed(t.users, s, hash, adminId, now))
  }

  /** The seeded tables only add sections to the flushed ones, so they can only break what the flush passed. */
  lemma SeededNeedsFlush(t: Tables, s: Config.Settings, hash: string -> string, adminId: Uuid, first: nat,
                         now: Instant)
    ensures Consistent(Seeded(t, s, hash, adminId, first, now)) ==> Consistent(AdminFlushed(t, s, hash, adminId, now))
  {
    var seeded := Seeded(t, s, hash, adminId, first, now);
    var flushed := AdminFlushed(t, s, hash, adminId, now);
    forall i | 0 <= i < |flushed.sections|
      ensures seeded.sections[i] == flushed.sections[i]
    {
    }
  }

  /**
   * `run_initialization`: the super admin and the missing sections in one transaction, committed together or
   * not at all (a clash with an existing user's name or address, or a value too long for its column, rejects
   * it). A rejected account fails at the flush before the section query and draws no section number.
   */
  method RunInitialization(db: Database, s: Config.Settings, hash: string -> string, adminId: Uuid, now: Instant)
    returns (r: Result<(), StartupError>)
    requires db.Valid()
    modifies db
    ensures db.Valid() && db.nextCodeId == old(db.nextCodeId)
    ensures var added := Missing(s.aboutDefaultSections, SlugSet(old(db.sections)));
      var flushed := AdminFlushed(old(db.Snapshot()), s, hash, adminId, now);
      var seeded := Seeded(old(db.Snapshot()), s, hash, adminId, old(db.nextSectionId), now);
      && (!Consistent(flushed) ==> db.nextSectionId == old(db.nextSectionId))
      && (Consistent(flushed) ==> db.nextSectionId == old(db.nextSectionId) + |added|)
      && (r.Ok? <==> Consistent(seeded))
      && (r.Ok? ==> db.Snapshot() == seeded)
      && (r.Err? ==> r.error == RejectedCommit && db.Snapshot() == old(db.Snapshot()))
  {
    var flushed := AdminFlushed(db.Snapshot(), s, hash, adminId, now);
    SeededNeedsFlush(db.Snapshot(), s, hash, adminId, db.nextSectionId, now);
    if !Consistent(flushed) {
      r := Err(RejectedCommit);
      return;
    }
    var existing := SlugSet(db.sections);
    ghost var t0 := db.Snapshot();
    ghost var first := db.nextSectionId;
    var added := AddDefaultSections(db, s.aboutDefaultSections, existing, now);
    SeededNumbered(t0, s, hash, adminId, db.nextCodeId, first, now);
    var ok := db.Commit(db.Snapshot().(users := flushed.users, sections := db.sections + added));
    r := if ok then Ok(()) else Err(RejectedCommit);
  }

  /** After seeding, every default slug is stored. */
  lemma SeededHasDefaults(t: Tables, s: Config.Settings, hash: string -> string, adminId: Uuid, first: nat, now: Instant)
    ensures forall k :: 0 <= k < |s.aboutDefaultSections| ==>
      s.aboutDefaultSections[k].0 in SlugSet(Seeded(t, s, hash, adminId, first, now).sections)
  {
    var missing := Missing(s.aboutDefaultSections, SlugSet(t.sections));
    var rows := SectionRows(missing, first, now);
    var after := Seeded(t, s, hash, adminId, first, now).sections;
    MissingMembers(s.aboutDefaultSections, SlugSet(t.sections));
    SectionRowsAt(missing, first, now);
    forall k | 0 <= k < |s.aboutDefaultSections|
      ensures s.aboutDefaultSections[k].0 in SlugSet(after)
    {
      var d := s.aboutDefaultSections[k];
      if d.0 in SlugSet(t.sections) {
        var j :| 0 <= j < |t.sections| && t.sections[j].slug == d.0;
        assert after[j] == t.sections[j];
      } else {
        assert d in s.aboutDefaultSections;
        var m :| 0 <= m < |missing| && missing[m] == d;
        assert after[|t.sections| + m] == rows[m];
      }
    }
  }

  /** With every default slug stored, there is nothing to add. */
  lemma {:induction false} NothingMissing(defaults: seq<(string, string)>, existing: set<string>)
    requires forall k :: 0 <= k < |defaults| ==> defaults[k].0 in existing
    ensures Missing(defaults, existing) == []
  {
    if defaults != [] {
      var n := |defaults| - 1;
      NothingMissing(defaults[..n], existing);
    }
  }

  /** A second start-up, on what the first committed, adds no user and no section. */
  lemma SecondRunAddsNothing(t: Tables, s: Config.Settings, hash: string -> string, adminId: Uuid, adminId2: Uuid,
                             first: nat, first2: nat, now: Instant, later: Instant)
    ensures var once := Seeded(t, s, hash, adminId, first, now);
      Seeded(once, s, hash, adminId2, first2, later) == once
  {
    var once := Seeded(t, s, hash, adminId, first, now);
    SeededHasDefaults(t, s, hash, adminId, first, now);
    NothingMissing(s.aboutDefaultSections, SlugSet(once.sections));
    assert once.sections + SectionRows([], first2, later) == once.sections;
  }

  /** Nothing is stored yet: every default is missing. */
  lemma {:induction false} AllMissing(defaults: seq<(string, string)>)
    ensures Missing(defaults, {}) == defaults
  {
    if defaults != [] {
      var n := |defaults| - 1;
      AllMissing(defaults[..n]);
      assert defaults[..n] + [defaults[n]] == defaults;
    }
  }

  /** The three default sections, numbered from 1, satisfy every section constraint. */
  lemma DefaultRowsOk(users: seq<UserRow>, now: Instant)
    ensures SectionsOk(SectionRows(Config.ABOUT_DEFAULT_SECTIONS, 1, now), users)
  {
    var rows := SectionRows(Config.ABOUT_DEFAULT_SECTIONS, 1, now);
    SectionRowsAt(Config.ABOUT_DEFAULT_SECTIONS, 1, now);
    assert |rows| == 3;
    assert rows[0].slug == "about_rabbits" && rows[1].slug == "about_care_team" && rows[2].slug == "about_feeding";
    assert rows[0].title == "关于兔兔们" && rows[1].title == "关于兔兔护理队" && rows[2].title == "关于喂兔";
    assert |rows[0].slug| != |rows[1].slug| && |rows[1].slug| != |rows[2].slug|;
    assert rows[0].slug[6] != rows[2].slug[6];
    forall i | 0 <= i < |rows|
      ensures rows[i].slug != [] && |rows[i].slug| <= SLUG_MAX && |rows[i].title| <= SECTION_TITLE_MAX
      ensures rows[i].updatedBy.None?
    {
    }
    forall i, j | 0 <= i < j < |rows|
      ensures rows[i].id != rows[j].id && rows[i].slug != rows[j].slug
    {
      assert rows[i].id == 1 + i && rows[j].id == 1 + j;
    }
  }

  /** What the first start-up prepares on an empty database: the configured account and the three defaults. */
  lemma SeededEmpty(s: Config.Settings, hash: string -> string, adminId: Uuid, now: Instant)
    requires s.aboutDefaultSections == Config.ABOUT_DEFAULT_SECTIONS
    ensures Seeded(Tables([], [], [], [], []), s, hash, adminId, 1, now)
      == Tables([ConfiguredSuperAdmin(s, hash, adminId, now)], [], [], [], SectionRows(Config.ABOUT_DEFAULT_SECTIONS, 1, now))
  {
    assert SlugSet([]) == {};
    AllMissing(Config.ABOUT_DEFAULT_SECTIONS);
  }

  /** On an empty database the first start-up commits, provided the configured account fits its columns. */
  lemma FreshInstallSucceeds(s: Config.Settings, hash: string -> string, adminId: Uuid, now: Instant)
    requires s.aboutDefaultSections == Config.ABOUT_DEFAULT_SECTIONS
    requires UserFits(ConfiguredSuperAdmin(s, hash, adminId, now))
    ensures Consistent(Seeded(Tables([], [], [], [], []), s, hash, adminId, 1, now))
  {
    var admin := ConfiguredSuperAdmin(s, hash, adminId, now);
    SeededEmpty(s, hash, adminId, now);
    DefaultRowsOk([admin], now);
    assert UsersOk([admin]);
  }
}
