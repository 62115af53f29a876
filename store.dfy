/**
 * The database the handlers work on, in memory: the five tables, and the two integer sequences that number
 * verification codes and About sections. A handler prepares the tables it wants and commits them; the commit
 * succeeds only if every constraint of backend/app/models.py holds, and otherwise nothing changes (the
 * integrity or data error rolls the transaction back and surfaces as a server error). As in PostgreSQL, a
 * number drawn from a sequence stays used even when its transaction is rolled back.
 */
module Store {
  import opened Models

  /** Every numbered row has a number below the next one its sequence hands out. */
  predicate Numbered(t: Tables, nextCodeId: nat, nextSectionId: nat) {
    && (forall i :: 0 <= i < |t.codes| ==> t.codes[i].id < nextCodeId)
    && (forall i :: 0 <= i < |t.sections| ==> t.sections[i].id < nextSectionId)
  }

  class Database {
    var users: seq<UserRow>
    var codes: seq<CodeRow>
    var posts: seq<PostRow>
    var comments: seq<CommentRow>
    var sections: seq<SectionRow>
    var nextCodeId: nat
    var nextSectionId: nat

    /** The committed tables. */
    function Snapshot(): Tables
      reads this
    {
      Tables(users, codes, posts, comments, sections)
    }

    predicate Valid()
      reads this
    {
      Consistent(Snapshot()) && Numbered(Snapshot(), nextCodeId, nextSectionId)
    }

    /** A fresh, empty database. */
    constructor ()
      ensures Valid()
      ensures Snapshot() == Tables([], [], [], [], []) && nextCodeId == 1 && nextSectionId == 1
    {
      users, codes, posts, comments, sections := [], [], [], [], [];
      nextCodeId, nextSectionId := 1, 1;
    }

    /** The next verification-code number. */
    method NextCodeId() returns (id: nat)
      requires Valid()
      modifies this
      ensures Valid()
      ensures id == old(nextCodeId) && nextCodeId == id + 1
      ensures Snapshot() == old(Snapshot()) && nextSectionId == old(nextSectionId)
    {
      id := nextCodeId;
      nextCodeId := nextCodeId + 1;
    }

    /** The next About-section number. */
    method NextSectionId() returns (id: nat)
      requires Valid()
      modifies this
      ensures Valid()
      ensures id == old(nextSectionId) && nextSectionId == id + 1
      ensures Snapshot() == old(Snapshot()) && nextCodeId == old(nextCodeId)
    {
      id := nextSectionId;
      nextSectionId := nextSectionId + 1;
    }

    /** `session.commit()` of the prepared tables: stored iff they satisfy every constraint, else rolled back. */
    method Commit(t: Tables) returns (ok: bool)
      requires Valid()
      requires Numbered(t, nextCodeId, nextSectionId)
      modifies this
      ensures Valid()
      ensures ok == Consistent(t)
      ensures ok ==> Snapshot() == t
      ensures !ok ==> Snapshot() == old(Snapshot())
      ensures nextCodeId == old(nextCodeId) && nextSectionId == old(nextSectionId)
    {
      ok := Consistent(t);
      if ok {
        users, codes, posts, comments, sections := t.users, t.codes, t.posts, t.comments, t.sections;
      }
    }
  }
}
