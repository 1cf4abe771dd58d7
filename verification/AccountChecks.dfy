/**
 * The checks of the tables on the columns that a deletion rewrites (backend/app/models/user.py, recipe_draft.py and
 * catalog.py). No statement of a deletion writes a row that they refuse.
 */
module AccountChecks {
  import opened Outcomes
  import opened Timestamps
  import opened AccountTables
  import opened AccountErasure

  predicate Blank(s: string) {
    forall i :: 0 <= i < |s| ==> s[i] == ' '
  }

  predicate Space(c: char) {
    c == ' ' || '\t' <= c <= '\r'
  }

  /** `btrim` takes spaces only, and the class of the description check the other space characters too. */
  lemma BlankMeans(s: string, c: char)
    ensures Blank(s) <==> s == seq(|s|, _ => ' ')
    ensures Space(c) <==> c as int in [32, 9, 10, 11, 12, 13]
  {}

  predicate LetterOrDigit(c: char) {
    'a' <= c <= 'z' || '0' <= c <= '9'
  }

  lemma LettersAndDigits(c: char)
    ensures LetterOrDigit(c) <==> c in "abcdefghijklmnopqrstuvwxyz" || c in "0123456789"
  {
    var letters, digits := "abcdefghijklmnopqrstuvwxyz", "0123456789";
    assert forall i :: 0 <= i < 26 ==> letters[i] == 'a' + i as char;
    assert forall i :: 0 <= i < 10 ==> digits[i] == '0' + i as char;
    if 'a' <= c <= 'z' { assert letters[c as int - 'a' as int] == c; }
    if '0' <= c <= '9' { assert digits[c as int - '0' as int] == c; }
  }

  predicate HandleAllowed(h: string) {
    && 3 <= |h| <= 30 && LetterOrDigit(h[0]) && LetterOrDigit(h[|h| - 1])
    && forall i :: 0 <= i < |h| ==> LetterOrDigit(h[i]) || h[i] in "_-"
  }

  /** A text that is not left out is no longer than this and not blank. */
  predicate TextAllowed(text: Option<string>, limit: nat) {
    text.Some? ==> |text.value| <= limit && !Blank(text.value)
  }

  predicate UserAllowed(u: User) {
    && TextAllowed(u.email, 320) && !Blank(u.displayName)
    && (u.handle.Some? ==> HandleAllowed(u.handle.value))
    && (u.profileDescription.Some? ==>
          |u.profileDescription.value| <= 500 && exists c :: c in u.profileDescription.value && !Space(c))
    && if u.kind == Member && u.status == DeletedAccount then
         && u.email.None? && u.handle.None? && u.displayName == DELETED_COOK_DISPLAY_NAME
         && u.profileDescription.None? && u.deletedAt.Some?
       else u.email.Some? && u.deletedAt.None?
  }

  predicate DraftAllowed(d: Draft) {
    && d.revision >= 1 && |d.title| <= 200 && TextAllowed(d.description, 2000) && TextAllowed(d.notes, 5000)
    && (d.totalTimeMinutes.Some? ==> d.totalTimeMinutes.value > 0)
    && (d.activeTimeMinutes.Some? ==> d.activeTimeMinutes.value > 0)
    && (d.totalTimeMinutes.Some? && d.activeTimeMinutes.Some? ==>
          d.activeTimeMinutes.value <= d.totalTimeMinutes.value)
  }

  predicate RequestAllowed(id: Id, r: Request) {
    && TextAllowed(r.context, 500) && r.duplicateOf != Some(id)
    && (r.status != Duplicate ==> r.duplicateOf.None?)
  }

  predicate EventAllowed(e: AuditEvent) {
    e.eventType in [SUBMITTED, "approved", "rejected", "duplicate"]
  }

  // ---- the same checks by what they refuse ----

  /** Letters and digits, with underscores and hyphens between the first and the last. */
  lemma HandleMeans(h: string)
    ensures HandleAllowed(h) <==>
              && 3 <= |h| <= 30
              && forall i :: 0 <= i < |h| ==>
                   LetterOrDigit(h[i]) || (0 < i < |h| - 1 && (h[i] == '_' || h[i] == '-'))
  {}

  lemma UserRefused(u: User)
    ensures !UserAllowed(u) <==>
              || (u.email.Some? && (|u.email.value| > 320 || Blank(u.email.value))) || Blank(u.displayName)
              || (u.handle.Some? && !HandleAllowed(u.handle.value))
              || (u.profileDescription.Some? && |u.profileDescription.value| > 500)
              || (u.profileDescription.Some? && forall c :: c in u.profileDescription.value ==> Space(c))
              || (u.kind == Member && u.status == DeletedAccount
                  && (u.email.Some? || u.handle.Some? || u.profileDescription.Some? || u.deletedAt.None?
                      || u.displayName != "Deleted cook"))
              || (!(u.kind == Member && u.status == DeletedAccount) && (u.email.None? || u.deletedAt.Some?))
  {
    hide HandleAllowed, Blank, Space;
  }

  lemma DraftRefused(d: Draft)
    ensures !DraftAllowed(d) <==>
              || d.revision == 0 || |d.title| > 200
              || (d.description.Some? && (|d.description.value| > 2000 || Blank(d.description.value)))
              || (d.notes.Some? && (|d.notes.value| > 5000 || Blank(d.notes.value)))
              || d.totalTimeMinutes == Some(0) || d.activeTimeMinutes == Some(0)
              || (d.totalTimeMinutes.Some? && d.activeTimeMinutes.Some?
                  && d.activeTimeMinutes.value > d.totalTimeMinutes.value)
  {
    hide Blank;
  }

  lemma RequestRefused(id: Id, r: Request, e: AuditEvent)
    ensures !RequestAllowed(id, r) <==>
              || (r.context.Some? && (|r.context.value| > 500 || Blank(r.context.value)))
              || r.duplicateOf == Some(id) || (r.duplicateOf.Some? && r.status != Duplicate)
    ensures !EventAllowed(e) <==>
              && e.eventType != "submitted" && e.eventType != "approved" && e.eventType != "rejected"
              && e.eventType != "duplicate"
  {
    hide Blank;
  }

  ghost predicate ChecksHold(db: Tables) {
    && (forall k :: k in db.users ==> UserAllowed(db.users[k]))
    && (forall k :: k in db.drafts ==> DraftAllowed(db.drafts[k]))
    && (forall k :: k in db.requests ==> RequestAllowed(k, db.requests[k]))
    && (forall k :: k in db.auditEvents ==> EventAllowed(db.auditEvents[k]))
  }

  lemma ErasedDraftsAllowed(drafts: map<Id, Draft>, who: Deletions)
    requires forall k :: k in drafts ==> DraftAllowed(drafts[k])
    ensures forall k :: k in ErasedDrafts(drafts, who) ==> DraftAllowed(ErasedDrafts(drafts, who)[k])
  {
    hide TextAllowed;
    assert TextAllowed(None, 2000) && TextAllowed(None, 5000) by { NoTextAllowed(); }
  }

  lemma NoTextAllowed()
    ensures forall limit :: TextAllowed(None, limit)
  {}

  lemma ErasedRequestsAllowed(requests: map<Id, Request>, who: set<Id>, now: Timestamp)
    requires forall k :: k in requests ==> RequestAllowed(k, requests[k])
    ensures forall k :: k in ErasedRequests(requests, who, now) ==>
              RequestAllowed(k, ErasedRequests(requests, who, now)[k])
  {}

  lemma ErasedEventsAllowed(requests: map<Id, Request>, rows: map<Id, AuditEvent>, who: set<Id>)
    requires forall k :: k in rows ==> EventAllowed(rows[k])
    ensures forall k :: k in ErasedAuditEvents(requests, rows, who) ==>
              EventAllowed(ErasedAuditEvents(requests, rows, who)[k])
  {
    hide EventAllowed;
    forall k | k in rows && EventFate(requests, rows[k], who).Some?
      ensures EventAllowed(EventFate(requests, rows[k], who).value)
    {
      SameType(rows[k], EventFate(requests, rows[k], who).value);
    }
    hide EventFate;
  }

  lemma SameType(e: AuditEvent, f: AuditEvent)
    requires EventAllowed(e) && e.eventType == f.eventType
    ensures EventAllowed(f)
  {}
}
