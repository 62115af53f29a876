/**
 * The about page controller (frontend/app/about/page.tsx): the list of sections, which one is shown, and the
 * single-section markdown editor with its dirty check. `window.confirm` answers and request outcomes are inputs;
 * each method reports whether it asked for confirmation.
 */
module AboutEditor {
  import opened Wrappers
  import opened Text
  import opened Sorting
  import opened FrontendTypes

  const FETCH_FALLBACK := "无法加载内容，请稍后再试"
  const SAVE_FALLBACK := "更新失败，请稍后再试"

  /** JavaScript truthiness of a nullable string. */
  predicate Truthy(s: Option<string>) {
    s.Some? && s.value != []
  }

  /** `sections.find(section => section.slug === slug)`. */
  function FindBySlug(sections: seq<AboutSection>, slug: string): (r: Option<AboutSection>)
    ensures r.Some? <==> exists i :: 0 <= i < |sections| && sections[i].slug == slug
    ensures r.Some? ==> r.value.slug == slug && r.value in sections
    ensures r.Some? ==> exists i :: (0 <= i < |sections| && sections[i] == r.value
                                      && forall j :: 0 <= j < i ==> sections[j].slug != slug)
  {
    if sections == [] then None
    else if sections[0].slug == slug then Some(sections[0])
    else FindBySlug(sections[1..], slug)
  }

  /** `find` returns the first match: when the first section has the slug, it is found. */
  lemma FindFirst(sections: seq<AboutSection>)
    requires sections != []
    ensures FindBySlug(sections, sections[0].slug) == Some(sections[0])
  {
  }

  predicate HasSlug(sections: seq<AboutSection>, slug: string) {
    exists i :: 0 <= i < |sections| && sections[i].slug == slug
  }

  function SectionId(s: AboutSection): int { s.id }

  /** `prev.map(section => section.id === updated.id ? updated : section)`. */
  function ReplaceById(sections: seq<AboutSection>, updated: AboutSection): (r: seq<AboutSection>)
    ensures |r| == |sections|
    ensures forall i :: 0 <= i < |r| ==> r[i] == (if sections[i].id == updated.id then updated else sections[i])
  {
    seq(|sections|, i requires 0 <= i < |sections| => if sections[i].id == updated.id then updated else sections[i])
  }

  /** `prev.filter(item => item.slug !== slug)`. */
  function RemoveSlug(sections: seq<AboutSection>, slug: string): (r: seq<AboutSection>)
    ensures |r| <= |sections|
    ensures forall i :: 0 <= i < |r| ==> r[i].slug != slug && r[i] in sections
  {
    if sections == [] then []
    else (if sections[0].slug == slug then [] else [sections[0]]) + RemoveSlug(sections[1..], slug)
  }

  /** Deleting drops exactly the sections with that slug; without one the list is untouched. */
  lemma RemoveSlugKeepsOthers(sections: seq<AboutSection>, slug: string)
    ensures !HasSlug(RemoveSlug(sections, slug), slug)
    ensures forall s :: s in sections && s.slug != slug ==> s in RemoveSlug(sections, slug)
    ensures !HasSlug(sections, slug) ==> RemoveSlug(sections, slug) == sections
  {
    forall s | s in sections && s.slug != slug
      ensures s in RemoveSlug(sections, slug)
    {
      RemoveSlugKeeps(sections, slug, s);
    }
    if !HasSlug(sections, slug) {
      RemoveSlugAbsent(sections, slug);
    }
  }

  /** A section with another slug survives the deletion. */
  lemma {:induction false} RemoveSlugKeeps(sections: seq<AboutSection>, slug: string, s: AboutSection)
    requires s in sections && s.slug != slug
    ensures s in RemoveSlug(sections, slug)
  {
    if s != sections[0] {
      assert s in sections[1..];
      RemoveSlugKeeps(sections[1..], slug, s);
    }
  }

  /** Deleting a slug no section has changes nothing. */
  lemma {:induction false} RemoveSlugAbsent(sections: seq<AboutSection>, slug: string)
    requires !HasSlug(sections, slug)
    ensures RemoveSlug(sections, slug) == sections
  {
    if sections != [] {
      assert sections[0].slug != slug;
      assert !HasSlug(sections[1..], slug) by {
        forall i | 0 <= i < |sections[1..]|
          ensures sections[1..][i].slug != slug
        {
          assert sections[1..][i] == sections[i + 1];
        }
      }
      RemoveSlugAbsent(sections[1..], slug);
      assert [sections[0]] + sections[1..] == sections;
    }
  }

  /** The new-section defaults by interface language. */
  function NewSectionTitle(language: string): string {
    if language == "zh" then "新章节" else "New section"
  }

  function NewSectionBody(language: string): string {
    if language == "zh" then "## 新章节\n\n" else "## New section\n\n"
  }

  function CreateFallback(language: string): string {
    if language == "zh" then "新增失败" else "Failed to create section"
  }

  function DeleteFallback(language: string): string {
    if language == "zh" then "删除失败" else "Failed to delete section"
  }

  class Editor {
    var sections: seq<AboutSection>
    var loading: bool
    var error: Option<string>
    var activeSlug: Option<string>
    var editingSlug: Option<string>
    var editTitle: string
    var editBody: string
    var originalTitle: string
    var originalBody: string

    /** The page as first rendered: loading, nothing selected, not editing. */
    constructor ()
      ensures sections == [] && loading && error.None? && activeSlug.None? && editingSlug.None?
      ensures editTitle == [] && editBody == [] && originalTitle == [] && originalBody == []
    {
      sections := [];
      loading := true;
      error := None;
      activeSlug := None;
      editingSlug := None;
      editTitle := [];
      editBody := [];
      originalTitle := [];
      originalBody := [];
    }

    /** `activeSection`: the section named by `activeSlug`, else the first one; none without sections. */
    function ActiveSection(): (r: Option<AboutSection>)
      reads this
      ensures r.None? <==> sections == []
      ensures r.Some? ==> r.value in sections
      ensures r.Some? && Truthy(activeSlug) && HasSlug(sections, activeSlug.value) ==> r.value.slug == activeSlug.value
      ensures r.Some? && !(Truthy(activeSlug) && HasSlug(sections, activeSlug.value)) ==> r.value == sections[0]
    {
      if sections == [] then None
      else if Truthy(activeSlug) && FindBySlug(sections, activeSlug.value).Some? then FindBySlug(sections, activeSlug.value)
      else Some(sections[0])
    }

    /** `hasUnsavedChanges`: editing, and the draft differs from what was opened. */
    function HasUnsavedChanges(): (r: bool)
      reads this
      ensures !Truthy(editingSlug) ==> !r
      ensures Truthy(editingSlug) ==> (r <==> editTitle != originalTitle || editBody != originalBody)
    {
      Truthy(editingSlug) && (editTitle != originalTitle || editBody != originalBody)
    }

    /** `resetEditingState`. */
    method ResetEditingState()
      modifies this
      ensures editingSlug.None? && editTitle == [] && editBody == [] && originalTitle == [] && originalBody == []
      ensures !HasUnsavedChanges()
      ensures sections == old(sections) && loading == old(loading) && error == old(error) && activeSlug == old(activeSlug)
    {
      editingSlug := None;
      editTitle := [];
      editBody := [];
      originalTitle := [];
      originalBody := [];
    }

    /** `fetchSections` once the request settled: the sections, or an error message; loading ends. */
    method FetchSections(outcome: Result<seq<AboutSection>, string>)
      modifies this
      ensures !loading
      ensures outcome.Ok? ==> sections == outcome.value && error.None?
      ensures outcome.Err? ==> sections == old(sections) && error == Some(MessageOr(outcome.error, FETCH_FALLBACK))
      ensures activeSlug == old(activeSlug) && editingSlug == old(editingSlug) && editTitle == old(editTitle)
        && editBody == old(editBody) && originalTitle == old(originalTitle) && originalBody == old(originalBody)
    {
      loading := true;
      error := None;
      match outcome {
        case Ok(data) => sections := data;
        case Err(message) => error := Some(MessageOr(message, FETCH_FALLBACK));
      }
      loading := false;
    }

    /** The effect run when `sections` changes: keep an `activeSlug` naming a loaded section, else take the first. */
    method SyncActiveSlug()
      modifies this
      ensures old(sections) == [] ==> unchanged(this)
      ensures old(sections) != [] && Truthy(old(activeSlug)) && HasSlug(sections, old(activeSlug).value) ==>
        activeSlug == old(activeSlug)
      ensures old(sections) != [] && !(Truthy(old(activeSlug)) && HasSlug(sections, old(activeSlug).value)) ==>
        activeSlug == Some(old(sections)[0].slug)
      ensures old(sections) != [] ==> activeSlug.Some? && HasSlug(sections, activeSlug.value)
      ensures ActiveSection() == old(ActiveSection())
      ensures sections == old(sections) && loading == old(loading) && error == old(error)
        && editingSlug == old(editingSlug) && editTitle == old(editTitle) && editBody == old(editBody)
        && originalTitle == old(originalTitle) && originalBody == old(originalBody)
    {
      if sections == [] {
        return;
      }
      if !Truthy(activeSlug) || FindBySlug(sections, activeSlug.value).None? {
        FindFirst(sections);
        activeSlug := Some(sections[0].slug);
      }
    }

    /**
     * Leaving a dirty draft for another slug needs confirmation: declined, nothing changes; accepted, the
     * editing state is reset first. Shared by `handleSelectSection` and the hash listener.
     */
    method SwitchTo(slug: string, confirmed: bool) returns (asked: bool)
      modifies this
      ensures asked <==> old(HasUnsavedChanges()) && slug != old(editingSlug).value
      ensures asked && !confirmed ==> unchanged(this)
      ensures !(asked && !confirmed) ==> activeSlug == Some(slug)
      ensures asked && confirmed ==> (editingSlug.None? && editTitle == [] && editBody == []
        && originalTitle == [] && originalBody == [])
      ensures !asked ==> (editingSlug == old(editingSlug) && editTitle == old(editTitle) && editBody == old(editBody)
        && originalTitle == old(originalTitle) && originalBody == old(originalBody))
      ensures sections == old(sections) && loading == old(loading) && error == old(error)
    {
      asked := HasUnsavedChanges() && slug != editingSlug.value;
      if asked {
        if !confirmed {
          return;
        }
        ResetEditingState();
      }
      activeSlug := Some(slug);
    }

    /** `handleSelectSection`. */
    method HandleSelectSection(slug: string, confirmed: bool) returns (asked: bool)
      modifies this
      ensures asked <==> old(HasUnsavedChanges()) && slug != old(editingSlug).value
      ensures asked && !confirmed ==> unchanged(this)
      ensures !(asked && !confirmed) ==> activeSlug == Some(slug)
      ensures asked && confirmed ==> (editingSlug.None? && editTitle == [] && editBody == []
        && originalTitle == [] && originalBody == [])
      ensures asked && confirmed ==> !HasUnsavedChanges()
      ensures !asked ==> (editingSlug == old(editingSlug) && editTitle == old(editTitle) && editBody == old(editBody)
        && originalTitle == old(originalTitle) && originalBody == old(originalBody))
      ensures sections == old(sections) && loading == old(loading) && error == old(error)
    {
      asked := SwitchTo(slug, confirmed);
    }

    /**
     * `applyHash`: with sections loaded, a non-empty `#slug` naming one of them is selected as by a click;
     * any other hash changes nothing.
     */
    method ApplyHash(locationHash: string, confirmed: bool) returns (asked: bool)
      modifies this
      ensures var h := if StartsWith(locationHash, "#") then locationHash[1..] else locationHash;
        sections == [] || h == [] || !HasSlug(sections, h) ==> unchanged(this) && !asked
      ensures var h := if StartsWith(locationHash, "#") then locationHash[1..] else locationHash;
        sections != [] && h != [] && HasSlug(sections, h) ==>
          && (asked <==> old(HasUnsavedChanges()) && h != old(editingSlug).value)
          && (!(asked && !confirmed) ==> activeSlug == Some(h))
          && (asked && confirmed ==> (editingSlug.None? && editTitle == [] && editBody == []
                && originalTitle == [] && originalBody == []))
          && (!asked ==> (editingSlug == old(editingSlug) && editTitle == old(editTitle)
                && editBody == old(editBody) && originalTitle == old(originalTitle)
                && originalBody == old(originalBody)))
      ensures asked && !confirmed ==> unchanged(this)
      ensures sections == old(sections) && loading == old(loading) && error == old(error)
    {
      if sections == [] {
        return false;
      }
      var h := if StartsWith(locationHash, "#") then locationHash[1..] else locationHash;
      if h == [] || FindBySlug(sections, h).None? {
        return false;
      }
      asked := SwitchTo(h, confirmed);
    }

    /** `openEditor`: the draft and the original both start as the section's title and body. */
    method OpenEditor(section: AboutSection)
      modifies this
      ensures editingSlug == Some(section.slug)
      ensures editTitle == section.title && originalTitle == section.title
      ensures editBody == section.bodyMarkdown && originalBody == section.bodyMarkdown
      ensures !HasUnsavedChanges()
      ensures sections == old(sections) && loading == old(loading) && error == old(error) && activeSlug == old(activeSlug)
    {
      editingSlug := Some(section.slug);
      editTitle := section.title;
      editBody := section.bodyMarkdown;
      originalTitle := section.title;
      originalBody := section.bodyMarkdown;
    }

    /** Typing into the editor. */
    method EditDraft(title: string, body: string)
      modifies this
      ensures editTitle == title && editBody == body
      ensures HasUnsavedChanges() <==> Truthy(editingSlug) && (title != originalTitle || body != originalBody)
      ensures sections == old(sections) && loading == old(loading) && error == old(error)
        && activeSlug == old(activeSlug) && editingSlug == old(editingSlug)
        && originalTitle == old(originalTitle) && originalBody == old(originalBody)
    {
      editTitle := title;
      editBody := body;
    }

    /**
     * `handleSave`: without an edited slug or a token nothing happens. Otherwise the draft is sent; the server's
     * section replaces the one with its id and editing ends, or the failure is alerted and nothing changes.
     */
    method HandleSave(token: Option<string>, outcome: Result<AboutSection, string>)
      returns (sent: Option<(string, string, string)>, alert: Alert)
      modifies this
      ensures sent.Some? <==> Truthy(old(editingSlug)) && Truthy(token)
      ensures sent.None? ==> unchanged(this) && alert == NoAlert
      ensures sent.Some? ==> sent.value == (old(editingSlug).value, old(editTitle), old(editBody))
      ensures sent.Some? && outcome.Ok? ==> (sections == ReplaceById(old(sections), outcome.value)
        && editingSlug.None? && alert == NoAlert)
      ensures sent.Some? && outcome.Err? ==> unchanged(this) && alert == AlertText(MessageOr(outcome.error, SAVE_FALLBACK))
      ensures loading == old(loading) && error == old(error) && activeSlug == old(activeSlug)
        && editTitle == old(editTitle) && editBody == old(editBody)
        && originalTitle == old(originalTitle) && originalBody == old(originalBody)
    {
      if !Truthy(editingSlug) || !Truthy(token) {
        return None, NoAlert;
      }
      sent := Some((editingSlug.value, editTitle, editBody));
      match outcome {
        case Ok(updated) =>
          sections := ReplaceById(sections, updated);
          editingSlug := None;
          alert := NoAlert;
        case Err(message) =>
          alert := AlertText(MessageOr(message, SAVE_FALLBACK));
      }
    }

    /** `cancelEditing`: a dirty draft is discarded only once confirmed; otherwise editing is reset at once. */
    method CancelEditing(confirmed: bool) returns (asked: bool)
      modifies this
      ensures asked <==> old(HasUnsavedChanges())
      ensures asked && !confirmed ==> unchanged(this)
      ensures !(asked && !confirmed) ==> (editingSlug.None? && editTitle == [] && editBody == []
        && originalTitle == [] && originalBody == [])
      ensures sections == old(sections) && loading == old(loading) && error == old(error) && activeSlug == old(activeSlug)
    {
      asked := HasUnsavedChanges();
      if asked && !confirmed {
        return;
      }
      ResetEditingState();
    }

    /**
     * `handleCreateSection`: needs a token; a dirty draft needs confirmation and is then discarded. The created
     * section is added, the list re-sorted by id, and the new section shown and opened in the editor.
     */
    method HandleCreateSection(token: Option<string>, language: string, confirmed: bool,
                               outcome: Result<AboutSection, string>)
      returns (asked: bool, sent: Option<(string, string)>, alert: Alert)
      modifies this
      ensures !Truthy(token) ==> unchanged(this) && !asked && sent.None? && alert == NoAlert
      ensures asked <==> Truthy(token) && old(HasUnsavedChanges())
      ensures asked && !confirmed ==> unchanged(this) && sent.None? && alert == NoAlert
      ensures sent.Some? <==> Truthy(token) && !(asked && !confirmed)
      ensures sent.Some? ==> sent.value == (NewSectionTitle(language), NewSectionBody(language))
      ensures sent.Some? && outcome.Ok? ==> (sections == SortBy(old(sections) + [outcome.value], SectionId)
        && activeSlug == Some(outcome.value.slug) && editingSlug == Some(outcome.value.slug)
        && editTitle == outcome.value.title && editBody == outcome.value.bodyMarkdown
        && originalTitle == outcome.value.title && originalBody == outcome.value.bodyMarkdown
        && !HasUnsavedChanges() && alert == NoAlert)
      ensures sent.Some? && outcome.Err? ==> (sections == old(sections) && activeSlug == old(activeSlug)
        && alert == AlertText(MessageOr(outcome.error, CreateFallback(language))))
      ensures sent.Some? && outcome.Err? && asked ==> (editingSlug.None? && editTitle == [] && editBody == []
        && originalTitle == [] && originalBody == [])
      ensures sent.Some? && outcome.Err? && !asked ==> (editingSlug == old(editingSlug) && editTitle == old(editTitle)
        && editBody == old(editBody) && originalTitle == old(originalTitle) && originalBody == old(originalBody))
      ensures loading == old(loading) && error == old(error)
    {
      if !Truthy(token) {
        return false, None, NoAlert;
      }
      asked := HasUnsavedChanges();
      if asked {
        if !confirmed {
          return asked, None, NoAlert;
        }
        ResetEditingState();
      }
      sent := Some((NewSectionTitle(language), NewSectionBody(language)));
      match outcome {
        case Ok(created) =>
          ShowCreated(created);
          alert := NoAlert;
        case Err(message) =>
          alert := AlertText(MessageOr(message, CreateFallback(language)));
      }
    }

    /** A created section joins the list in id order and opens in the editor. */
    method ShowCreated(created: AboutSection)
      modifies this
      ensures sections == SortBy(old(sections) + [created], SectionId)
      ensures activeSlug == Some(created.slug) && editingSlug == Some(created.slug)
      ensures editTitle == created.title && editBody == created.bodyMarkdown
      ensures originalTitle == created.title && originalBody == created.bodyMarkdown && !HasUnsavedChanges()
      ensures loading == old(loading) && error == old(error)
    {
      sections := SortBy(sections + [created], SectionId);
      activeSlug := Some(created.slug);
      OpenEditor(created);
    }

    /**
     * `handleDeleteSection`: needs a token and always asks. Declined or failed, the sections stay; deleted,
     * every section with that slug goes, and editing is reset if that slug was being edited.
     */
    method HandleDeleteSection(token: Option<string>, language: string, section: AboutSection, confirmed: bool,
                               outcome: Result<(), string>)
      returns (asked: bool, sent: Option<string>, alert: Alert)
      modifies this
      ensures asked <==> Truthy(token)
      ensures !(asked && confirmed) ==> unchanged(this) && sent.None? && alert == NoAlert
      ensures sent.Some? <==> asked && confirmed
      ensures sent.Some? ==> sent.value == section.slug
      ensures sent.Some? && outcome.Ok? ==> sections == RemoveSlug(old(sections), section.slug) && alert == NoAlert
      ensures sent.Some? && outcome.Ok? && old(editingSlug) == Some(section.slug) ==> (editingSlug.None?
        && editTitle == [] && editBody == [] && originalTitle == [] && originalBody == [])
      ensures sent.Some? && outcome.Ok? && old(editingSlug) != Some(section.slug) ==> (editingSlug == old(editingSlug)
        && editTitle == old(editTitle) && editBody == old(editBody)
        && originalTitle == old(originalTitle) && originalBody == old(originalBody))
      ensures sent.Some? && outcome.Err? ==> unchanged(this) && alert == AlertText(MessageOr(outcome.error, DeleteFallback(language)))
      ensures loading == old(loading) && error == old(error) && activeSlug == old(activeSlug)
    {
      if !Truthy(token) {
        return false, None, NoAlert;
      }
      if !confirmed {
        return true, None, NoAlert;
      }
      asked, sent := true, Some(section.slug);
      match outcome {
        case Ok(_) =>
          if editingSlug == Some(section.slug) {
            ResetEditingState();
          }
          sections := RemoveSlug(sections, section.slug);
          alert := NoAlert;
        case Err(message) =>
          alert := AlertText(MessageOr(message, DeleteFallback(language)));
      }
    }
  }

  /** After a create the list is ordered by id and holds the created section alongside all the old ones. */
  lemma CreatedSectionsSorted(prev: seq<AboutSection>, created: AboutSection)
    ensures SortedBy(SortBy(prev + [created], SectionId), SectionId)
    ensures multiset(SortBy(prev + [created], SectionId)) == multiset(prev) + multiset{created}
    ensures SortedBy(prev, SectionId) && (forall i :: 0 <= i < |prev| ==> prev[i].id <= created.id) ==>
      SortBy(prev + [created], SectionId) == prev + [created]
  {
    SortBySorted(prev + [created], SectionId);
    if SortedBy(prev, SectionId) && (forall i :: 0 <= i < |prev| ==> prev[i].id <= created.id) {
      AppendLargestSorted(prev, created, SectionId);
    }
  }

  /** A save touches only the sections carrying the saved id. */
  lemma SaveReplacesOnlyThatId(prev: seq<AboutSection>, updated: AboutSection)
    ensures forall i :: 0 <= i < |prev| && prev[i].id != updated.id ==> ReplaceById(prev, updated)[i] == prev[i]
    ensures forall i :: 0 <= i < |prev| && prev[i].id == updated.id ==> ReplaceById(prev, updated)[i] == updated
    ensures (forall i :: 0 <= i < |prev| ==> prev[i].id != updated.id) ==> ReplaceById(prev, updated) == prev
  {
  }
}
