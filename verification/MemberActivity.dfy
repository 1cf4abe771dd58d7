/** A member's activity, a union of four sources, and its pages (backend/app/repositories/member_activity.py). */
module MemberActivity {
  import opened Outcomes
  import opened Text

  type Id = nat

  datatype Kind = Draft | Published | Withdrawn | Saved | IngredientRequest

  datatype DraftRow = DraftRow(author: Id, status: string, title: string, updatedAt: int)
  datatype PublicationRow = PublicationRow(actor: Id, state: string, publishedAt: int)
  datatype RequestRow = RequestRow(requester: Id, status: string, name: string, reviewedAt: Option<int>)

  /** The tables that activity is read from, by primary key; saves by member and version. */
  datatype Sources = Sources(
    drafts: map<Id, DraftRow>,
    versionTitles: map<Id, string>,
    publications: map<Id, PublicationRow>,
    saves: map<(Id, Id), int>,
    requests: map<Id, RequestRow>)

  /** What pages are ordered by, and what a cursor holds. */
  datatype Key = Key(occurredAt: int, kind: Kind, entity: Id)

  datatype Activity = Activity(key: Key, title: string, state: Option<string>, searchText: string)

  function KindName(kind: Kind): string {
    match kind
    case Draft => "draft"
    case Published => "published"
    case Withdrawn => "withdrawn"
    case Saved => "saved"
    case IngredientRequest => "ingredient-request"
  }

  function DraftActivity(id: Id, d: DraftRow): Activity {
    Activity(Key(d.updatedAt, Draft, id), d.title, None, d.title + " updated draft your draft was saved")
  }

  function PublicationActivity(id: Id, title: string, p: PublicationRow): Activity {
    Activity(Key(p.publishedAt, if p.state == "author_withdrawn" then Withdrawn else Published, id), title,
             Some(p.state),
             title + if p.state == "author_withdrawn" then
                       " published recipe version withdrawn no longer publicly available"
                     else if p.state == "moderation_hidden" then " published recipe version hidden by moderation"
                     else " published recipe version publicly available")
  }

  function SavedActivity(id: Id, title: string, savedAt: int): Activity {
    Activity(Key(savedAt, Saved, id), title, None, title + " saved recipe added to your saved recipes")
  }

  function RequestActivity(id: Id, r: RequestRow): Activity
    requires r.reviewedAt.Some?
  {
    Activity(Key(r.reviewedAt.value, IngredientRequest, id), r.name, Some(r.status),
             r.name + if r.status == "approved" then " ingredient request approved available in the catalog"
                      else if r.status == "duplicate" then
                        " ingredient request matched matching ingredient already available"
                      else " ingredient request rejected curator reviewed this request")
  }

  predicate PubliclyReadable(s: Sources, version: Id) {
    version in s.publications && s.publications[version].state == "published"
  }

  function Drafts(s: Sources, actor: Id): set<Activity> {
    set d | d in s.drafts && s.drafts[d].author == actor && s.drafts[d].status == "active" ::
      DraftActivity(d, s.drafts[d])
  }

  function Publications(s: Sources, actor: Id): set<Activity> {
    set v | v in s.publications && v in s.versionTitles && s.publications[v].actor == actor ::
      PublicationActivity(v, s.versionTitles[v], s.publications[v])
  }

  function Saves(s: Sources, actor: Id): set<Activity> {
    set k | k in s.saves && k.0 == actor && k.1 in s.versionTitles && PubliclyReadable(s, k.1) ::
      SavedActivity(k.1, s.versionTitles[k.1], s.saves[k])
  }

  function Requests(s: Sources, actor: Id): set<Activity> {
    set r | r in s.requests && s.requests[r].requester == actor && s.requests[r].reviewedAt.Some? ::
      RequestActivity(r, s.requests[r])
  }

  /** `_member_activity_source`: a `UNION ALL`. */
  function SourceOf(s: Sources, actor: Id): set<Activity> {
    Drafts(s, actor) + Publications(s, actor) + Saves(s, actor) + Requests(s, actor)
  }

  /** No two rows have one kind and one entity. */
  predicate Distinct(rows: set<Activity>) {
    forall a, b :: a in rows && b in rows && a.key.kind == b.key.kind && a.key.entity == b.key.entity ==> a == b
  }

  /** The union repeats nothing: a row is the only one of its kind for its entity. */
  lemma SourceIsDistinct(s: Sources, actor: Id)
    ensures Distinct(SourceOf(s, actor))
    ensures Drafts(s, actor) !! Publications(s, actor) !! Saves(s, actor) !! Requests(s, actor)
  {
    DraftsAreDistinct(s, actor);
    PublicationsAreDistinct(s, actor);
    SavesAreDistinct(s, actor);
    RequestsAreDistinct(s, actor);
    hide Drafts, Publications, Saves, Requests;
  }

  lemma DraftsAreDistinct(s: Sources, actor: Id)
    ensures Distinct(Drafts(s, actor)) && forall a :: a in Drafts(s, actor) ==> a.key.kind == Draft
  {}

  lemma PublicationsAreDistinct(s: Sources, actor: Id)
    ensures Distinct(Publications(s, actor))
    ensures forall a :: a in Publications(s, actor) ==> a.key.kind in {Published, Withdrawn}
  {}

  lemma SavesAreDistinct(s: Sources, actor: Id)
    ensures Distinct(Saves(s, actor)) && forall a :: a in Saves(s, actor) ==> a.key.kind == Saved
  {}

  lemma RequestsAreDistinct(s: Sources, actor: Id)
    ensures Distinct(Requests(s, actor)) && forall a :: a in Requests(s, actor) ==> a.key.kind == IngredientRequest
  {}

  // ---- no row is selected twice: each source has as many rows as its table has qualifying ones ----

  function DraftKeys(s: Sources, actor: Id): set<Id> {
    set d | d in s.drafts && s.drafts[d].author == actor && s.drafts[d].status == "active"
  }

  function PublicationKeys(s: Sources, actor: Id): set<Id> {
    set v | v in s.publications && v in s.versionTitles && s.publications[v].actor == actor
  }

  function SaveKeys(s: Sources, actor: Id): set<(Id, Id)> {
    set k | k in s.saves && k.0 == actor && k.1 in s.versionTitles && PubliclyReadable(s, k.1)
  }

  function RequestKeys(s: Sources, actor: Id): set<Id> {
    set r | r in s.requests && s.requests[r].requester == actor && s.requests[r].reviewedAt.Some?
  }

  /** Rows that name their keys are as many as the keys. */
  lemma {:induction false} RowPerKey<K>(keys: set<K>, rows: set<Activity>, entity: K -> Id)
    requires forall k, l :: k in keys && l in keys && entity(k) == entity(l) ==> k == l
    requires forall k :: k in keys ==> exists a :: a in rows && a.key.entity == entity(k)
    requires forall a :: a in rows ==> exists k :: k in keys && a.key.entity == entity(k)
    requires forall a, b :: a in rows && b in rows && a.key.entity == b.key.entity ==> a == b
    ensures |rows| == |keys|
    decreases |keys|
  {
    if keys == {} {
      assert rows == {};
    } else {
      var k :| k in keys;
      var a :| a in rows && a.key.entity == entity(k);
      forall l | l in keys - {k} ensures exists b :: b in rows - {a} && b.key.entity == entity(l) {
        var b :| b in rows && b.key.entity == entity(l);
        assert b != a;
      }
      forall b | b in rows - {a} ensures exists l :: l in keys - {k} && b.key.entity == entity(l) {
        var l :| l in keys && b.key.entity == entity(l);
        assert l != k;
      }
      RowPerKey(keys - {k}, rows - {a}, entity);
    }
  }

  /** `UNION ALL` counts no row twice: its length is the number of qualifying rows of the four tables. */
  lemma SourceCountsTableRows(s: Sources, actor: Id)
    ensures |Drafts(s, actor)| == |DraftKeys(s, actor)|
    ensures |Publications(s, actor)| == |PublicationKeys(s, actor)|
    ensures |Saves(s, actor)| == |SaveKeys(s, actor)|
    ensures |Requests(s, actor)| == |RequestKeys(s, actor)|
    ensures |SourceOf(s, actor)| == |DraftKeys(s, actor)| + |PublicationKeys(s, actor)| + |SaveKeys(s, actor)|
                                    + |RequestKeys(s, actor)|
  {
    hide DraftActivity, PublicationActivity, SavedActivity, RequestActivity, PubliclyReadable;
    DraftsPerKey(s, actor);
    PublicationsPerKey(s, actor);
    SavesPerKey(s, actor);
    RequestsPerKey(s, actor);
    SourceIsDistinct(s, actor);
  }

  lemma DraftsPerKey(s: Sources, actor: Id)
    ensures |Drafts(s, actor)| == |DraftKeys(s, actor)|
  {
    var entity := (d: Id) => d;
    forall d | d in DraftKeys(s, actor) ensures exists a :: a in Drafts(s, actor) && a.key.entity == entity(d) {
      assert DraftActivity(d, s.drafts[d]) in Drafts(s, actor);
    }
    forall a | a in Drafts(s, actor) ensures exists k :: k in DraftKeys(s, actor) && a.key.entity == entity(k) {
      assert a.key.entity in DraftKeys(s, actor) && a.key.entity == entity(a.key.entity);
    }
    RowPerKey(DraftKeys(s, actor), Drafts(s, actor), entity);
  }

  lemma PublicationsPerKey(s: Sources, actor: Id)
    ensures |Publications(s, actor)| == |PublicationKeys(s, actor)|
  {
    var entity := (v: Id) => v;
    forall v | v in PublicationKeys(s, actor)
      ensures exists a :: a in Publications(s, actor) && a.key.entity == entity(v)
    {
      assert PublicationActivity(v, s.versionTitles[v], s.publications[v]) in Publications(s, actor);
    }
    forall a | a in Publications(s, actor)
      ensures exists k :: k in PublicationKeys(s, actor) && a.key.entity == entity(k)
    {
      assert a.key.entity in PublicationKeys(s, actor) && a.key.entity == entity(a.key.entity);
    }
    RowPerKey(PublicationKeys(s, actor), Publications(s, actor), entity);
  }

  lemma SavesPerKey(s: Sources, actor: Id)
    ensures |Saves(s, actor)| == |SaveKeys(s, actor)|
  {
    hide PubliclyReadable;
    forall k | k in SaveKeys(s, actor) ensures exists a :: a in Saves(s, actor) && a.key.entity == k.1 {
      assert SavedActivity(k.1, s.versionTitles[k.1], s.saves[k]) in Saves(s, actor);
    }
    RowPerKey(SaveKeys(s, actor), Saves(s, actor), (k: (Id, Id)) => k.1);
  }

  lemma RequestsPerKey(s: Sources, actor: Id)
    ensures |Requests(s, actor)| == |RequestKeys(s, actor)|
  {
    var entity := (r: Id) => r;
    forall r | r in RequestKeys(s, actor) ensures exists a :: a in Requests(s, actor) && a.key.entity == entity(r) {
      assert RequestActivity(r, s.requests[r]) in Requests(s, actor);
    }
    forall a | a in Requests(s, actor) ensures exists k :: k in RequestKeys(s, actor) && a.key.entity == entity(k) {
      assert a.key.entity in RequestKeys(s, actor) && a.key.entity == entity(a.key.entity);
    }
    RowPerKey(RequestKeys(s, actor), Requests(s, actor), entity);
  }

  /** One of these rows is of this kind and entity. */
  ghost predicate Has(rows: set<Activity>, kind: Kind, entity: Id) {
    exists a :: a in rows && a.key.kind == kind && a.key.entity == entity
  }

  predicate PublishedBy(s: Sources, actor: Id, version: Id) {
    version in s.publications && version in s.versionTitles && s.publications[version].actor == actor
  }

  lemma HasDraft(s: Sources, actor: Id, entity: Id)
    ensures Has(Drafts(s, actor), Draft, entity) <==>
            entity in s.drafts && s.drafts[entity].author == actor && s.drafts[entity].status == "active"
  {
    if entity in s.drafts && s.drafts[entity].author == actor && s.drafts[entity].status == "active" {
      assert DraftActivity(entity, s.drafts[entity]) in Drafts(s, actor);
    }
  }

  lemma HasPublication(s: Sources, actor: Id, entity: Id, withdrawn: bool)
    ensures Has(Publications(s, actor), if withdrawn then Withdrawn else Published, entity) <==>
            PublishedBy(s, actor, entity) && (s.publications[entity].state == "author_withdrawn") == withdrawn
  {
    if PublishedBy(s, actor, entity) {
      assert PublicationActivity(entity, s.versionTitles[entity], s.publications[entity]) in Publications(s, actor);
    }
  }

  lemma HasSaved(s: Sources, actor: Id, entity: Id)
    ensures Has(Saves(s, actor), Saved, entity) <==>
            (actor, entity) in s.saves && entity in s.versionTitles && PubliclyReadable(s, entity)
  {
    hide PubliclyReadable;
    if (actor, entity) in s.saves && entity in s.versionTitles && PubliclyReadable(s, entity) {
      assert SavedActivity(entity, s.versionTitles[entity], s.saves[(actor, entity)]) in Saves(s, actor);
    }
  }

  lemma HasRequest(s: Sources, actor: Id, entity: Id)
    ensures Has(Requests(s, actor), IngredientRequest, entity) <==>
            entity in s.requests && s.requests[entity].requester == actor && s.requests[entity].reviewedAt.Some?
  {
    if entity in s.requests && s.requests[entity].requester == actor && s.requests[entity].reviewedAt.Some? {
      assert RequestActivity(entity, s.requests[entity]) in Requests(s, actor);
    }
  }

  /**
   * What is shown of whom: a member's own active drafts, own publications under their state, own reviewed requests,
   * and of the recipes saved only those that anyone may read.
   */
  lemma ShownExactlyWhen(s: Sources, actor: Id, kind: Kind, entity: Id)
    ensures Has(SourceOf(s, actor), kind, entity) <==>
            match kind
            case Draft => entity in s.drafts && s.drafts[entity].author == actor && s.drafts[entity].status == "active"
            case Published => PublishedBy(s, actor, entity) && s.publications[entity].state != "author_withdrawn"
            case Withdrawn => PublishedBy(s, actor, entity) && s.publications[entity].state == "author_withdrawn"
            case Saved => (actor, entity) in s.saves && entity in s.versionTitles && entity in s.publications
                          && s.publications[entity].state == "published"
            case IngredientRequest => entity in s.requests && s.requests[entity].requester == actor
                                      && s.requests[entity].reviewedAt.Some?
  {
    hide Drafts, Publications, Saves, Requests, PublishedBy;
    DraftsAreDistinct(s, actor);
    PublicationsAreDistinct(s, actor);
    SavesAreDistinct(s, actor);
    RequestsAreDistinct(s, actor);
    match kind
    case Draft => HasDraft(s, actor, entity);
    case Published => HasPublication(s, actor, entity, false);
    case Withdrawn => HasPublication(s, actor, entity, true);
    case Saved => HasSaved(s, actor, entity);
    case IngredientRequest => HasRequest(s, actor, entity);
  }

  /** The position of a kind in the order of the kinds' names. */
  function Rank(kind: Kind): nat {
    match kind
    case Draft => 0
    case IngredientRequest => 1
    case Published => 2
    case Saved => 3
    case Withdrawn => 4
  }

  lemma RankFollowsNames(k: Kind, l: Kind)
    ensures Rank(k) < Rank(l) <==> Less(KindName(k), KindName(l))
  {
    if k == l {
      LessIsIrreflexive(KindName(k));
    } else {
      assert forall m :: KindName(m)[0] == "dipsw"[Rank(m)];
    }
  }

  /** `ORDER BY occurred_at DESC, kind, entity_id`. */
  predicate Before(a: Key, b: Key) {
    a.occurredAt > b.occurredAt
    || (a.occurredAt == b.occurredAt
        && (Rank(a.kind) < Rank(b.kind) || (Rank(a.kind) == Rank(b.kind) && a.entity < b.entity)))
  }

  /** Newest first; at one time by the name of the kind, and of one kind by the entity. */
  lemma NewestFirst(a: Key, b: Key)
    ensures a.occurredAt > b.occurredAt ==> Before(a, b) && !Before(b, a)
    ensures a.occurredAt == b.occurredAt && Less(KindName(a.kind), KindName(b.kind)) ==> Before(a, b) && !Before(b, a)
    ensures a.occurredAt == b.occurredAt && a.kind == b.kind ==> (Before(a, b) <==> a.entity < b.entity)
  {
    RankFollowsNames(a.kind, b.kind);
    RankFollowsNames(b.kind, a.kind);
  }

  /** The names of the kinds. */
  lemma KindNames()
    ensures KindName(Draft) == "draft" && KindName(Published) == "published" && KindName(Withdrawn) == "withdrawn"
    ensures KindName(Saved) == "saved" && KindName(IngredientRequest) == "ingredient-request"
  {}

  /** The columns of a row, from the row of its table. */
  lemma RowColumns(s: Sources, actor: Id, a: Activity)
    requires a in SourceOf(s, actor)
    ensures match a.key.kind
            case Draft =>
              && a.key.entity in s.drafts && a.title == s.drafts[a.key.entity].title && a.state == None
              && a.key.occurredAt == s.drafts[a.key.entity].updatedAt
            case Saved =>
              && (actor, a.key.entity) in s.saves && a.key.entity in s.versionTitles
              && a.title == s.versionTitles[a.key.entity] && a.state == None
              && a.key.occurredAt == s.saves[(actor, a.key.entity)]
            case IngredientRequest =>
              && a.key.entity in s.requests && a.title == s.requests[a.key.entity].name
              && a.state == Some(s.requests[a.key.entity].status)
              && Some(a.key.occurredAt) == s.requests[a.key.entity].reviewedAt
            case _ =>
              && a.key.entity in s.publications && a.key.entity in s.versionTitles
              && a.title == s.versionTitles[a.key.entity]
              && a.state == Some(s.publications[a.key.entity].state)
              && a.key.occurredAt == s.publications[a.key.entity].publishedAt
  {
    if a in Drafts(s, actor) {
    } else if a in Publications(s, actor) {
    } else if a in Saves(s, actor) {
    } else {
      assert a in Requests(s, actor);
    }
  }

  /** What a search looks through: the title, and what the row is about. */
  lemma SearchTexts(id: Id, title: string, at: int)
    ensures DraftActivity(id, DraftRow(0, "active", title, at)).searchText
         == title + " updated draft your draft was saved"
    ensures SavedActivity(id, title, at).searchText == title + " saved recipe added to your saved recipes"
    ensures PublicationActivity(id, title, PublicationRow(0, "published", at)).searchText
         == title + " published recipe version publicly available"
    ensures PublicationActivity(id, title, PublicationRow(0, "moderation_hidden", at)).searchText
         == title + " published recipe version hidden by moderation"
    ensures PublicationActivity(id, title, PublicationRow(0, "author_withdrawn", at)).searchText
         == title + " published recipe version withdrawn no longer publicly available"
    ensures RequestActivity(id, RequestRow(0, "approved", title, Some(at))).searchText
         == title + " ingredient request approved available in the catalog"
    ensures RequestActivity(id, RequestRow(0, "duplicate", title, Some(at))).searchText
         == title + " ingredient request matched matching ingredient already available"
    ensures RequestActivity(id, RequestRow(0, "rejected", title, Some(at))).searchText
         == title + " ingredient request rejected curator reviewed this request"
  {
    assert "approved" != "duplicate" && "rejected" != "approved" && "rejected" != "duplicate" by {
      assert |"approved"| == 8 && |"duplicate"| == 9 && "rejected"[0] == 'r' && |"rejected"| == 8;
    }
    assert "published" != "moderation_hidden" && "published" != "author_withdrawn" && |"moderation_hidden"| == 17
           && |"author_withdrawn"| == 16 && |"published"| == 9;
  }
}
