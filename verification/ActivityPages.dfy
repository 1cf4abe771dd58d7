/** Pages of a member's activity and the cursors between them (`browse_member_activity`). */
module ActivityPages {
  import opened LikePatterns
  import opened MemberActivity
  import opened Outcomes

  datatype Tab = All | Recipes | SavedOnly | RequestsOnly

  datatype Filter = KindIn(kinds: set<Kind>) | SearchLike(pattern: string) | AfterCursor(cursor: Key)

  datatype Counts = Counts(all: nat, recipes: nat, saved: nat, requests: nat)

  datatype Page = Page(items: seq<Activity>, counts: Counts, next: Option<Key>)

  predicate Accepts(f: Filter, a: Activity) {
    match f
    case KindIn(kinds) => a.key.kind in kinds
    case SearchLike(pattern) => Like(a.searchText, pattern)
    case AfterCursor(c) =>
      a.key.occurredAt < c.occurredAt
      || (a.key.occurredAt == c.occurredAt
          && (Rank(a.key.kind) > Rank(c.kind) || (a.key.kind == c.kind && a.key.entity > c.entity)))
  }

  predicate AcceptsAll(filters: seq<Filter>, a: Activity) {
    forall i :: 0 <= i < |filters| ==> Accepts(filters[i], a)
  }

  predicate DistinctKeys(rows: set<Activity>) {
    forall a, b :: a in rows && b in rows && a.key == b.key ==> a == b
  }

  predicate IsFirst(rows: set<Activity>, first: Activity) {
    first in rows && forall r :: r in rows && r != first ==> Before(first.key, r.key)
  }

  lemma FirstExists(rows: set<Activity>)
    requires rows != {} && DistinctKeys(rows)
    ensures exists first :: IsFirst(rows, first)
    decreases |rows|
  {
    var some :| some in rows;
    if rows == {some} {
      assert IsFirst(rows, some);
    } else {
      var others := rows - {some};
      assert rows == others + {some};
      FirstExists(others);
      var other :| IsFirst(others, other);
      assert IsFirst(rows, if Before(other.key, some.key) then other else some);
    }
  }

  /** All rows in the order of pages. */
  ghost function Ordered(rows: set<Activity>): seq<Activity>
    requires DistinctKeys(rows)
    decreases |rows|
  {
    if rows == {} then []
    else
      FirstExists(rows);
      var first :| IsFirst(rows, first);
      [first] + Ordered(rows - {first})
  }

  /** Every row once, and each before the next. */
  lemma {:induction false} OrderedIsSorted(rows: set<Activity>)
    requires DistinctKeys(rows)
    ensures |Ordered(rows)| == |rows| && forall r :: r in Ordered(rows) <==> r in rows
    ensures forall i, j :: 0 <= i < j < |Ordered(rows)| ==> Before(Ordered(rows)[i].key, Ordered(rows)[j].key)
    decreases |rows|
  {
    if rows != {} {
      var first := Ordered(rows)[0];
      FirstExists(rows);
      assert IsFirst(rows, first) && Ordered(rows) == [first] + Ordered(rows - {first});
      OrderedIsSorted(rows - {first});
    }
  }

  /** `_activity_rows`: `WHERE` all filters, `ORDER BY`, `LIMIT`. */
  method ActivityRows(rows: set<Activity>, filters: seq<Filter>, limit: nat) returns (found: seq<Activity>)
    requires DistinctKeys(rows)
    ensures var matching := set a | a in rows && AcceptsAll(filters, a);
      found == Ordered(matching)[..if limit <= |Ordered(matching)| then limit else |Ordered(matching)|]
  {
    hide Before, AcceptsAll;
    var matching := set a | a in rows && AcceptsAll(filters, a);
    var rest := matching;
    found := [];
    while |found| < limit && rest != {}
      invariant rest <= matching && |found| <= limit
      invariant found + Ordered(rest) == Ordered(matching)
    {
      FirstExists(rest);
      var first :| first in rest && IsFirst(rest, first);
      FirstIsUnique(rest, first, Ordered(rest)[0]);
      found, rest := found + [first], rest - {first};
    }
  }

  lemma FirstIsUnique(rows: set<Activity>, a: Activity, b: Activity)
    requires IsFirst(rows, a) && IsFirst(rows, b)
    ensures a == b
  {}

  const RECIPE_KINDS := {Draft, Published, Withdrawn}

  predicate InTab(tab: Tab, kind: Kind) {
    match tab
    case All => true
    case Recipes => kind in RECIPE_KINDS
    case SavedOnly => kind == Saved
    case RequestsOnly => kind == IngredientRequest
  }

  /** What a tab and a search show: the rows of the tab in whose text the search occurs. */
  ghost function View(rows: set<Activity>, tab: Tab, search: Option<string>): set<Activity> {
    set a | a in rows && InTab(tab, a.key.kind) && (search.Some? ==> Occurs(search.value, a.searchText))
  }

  /** The rows after a cursor. */
  function Past(view: set<Activity>, cursor: Option<Key>): set<Activity> {
    set a | a in view && (cursor.Some? ==> Before(cursor.value, a.key))
  }

  function OfKinds(rows: set<Activity>, kinds: set<Kind>): set<Activity> {
    set a | a in rows && a.key.kind in kinds
  }

  function CountsOf(rows: set<Activity>): Counts {
    Counts(|rows|, |OfKinds(rows, RECIPE_KINDS)|, |OfKinds(rows, {Saved})|, |OfKinds(rows, {IngredientRequest})|)
  }

  function Take<T>(q: seq<T>, n: nat): seq<T> {
    if n <= |q| then q[..n] else q
  }

  function TabFilters(tab: Tab): seq<Filter> {
    match tab
    case All => []
    case Recipes => [KindIn(RECIPE_KINDS)]
    case SavedOnly => [KindIn({Saved})]
    case RequestsOnly => [KindIn({IngredientRequest})]
  }

  function SearchFilters(search: Option<string>): seq<Filter> {
    if search.Some? then [SearchLike(LiteralContainsPattern(search.value))] else []
  }

  function CursorFilters(cursor: Option<Key>): seq<Filter> {
    if cursor.Some? then [AfterCursor(cursor.value)] else []
  }

  lemma AcceptsConcat(f: seq<Filter>, g: seq<Filter>, a: Activity)
    ensures AcceptsAll(f + g, a) <==> AcceptsAll(f, a) && AcceptsAll(g, a)
  {
    forall i | 0 <= i < |g| ensures (f + g)[|f| + i] == g[i] {}
    forall i | 0 <= i < |f| ensures (f + g)[i] == f[i] {}
  }

  lemma AcceptsOne(f: Filter, a: Activity)
    ensures AcceptsAll([f], a) <==> Accepts(f, a)
  {
    assert [f][0] == f;
  }

  lemma CursorMeansBefore(c: Key, a: Activity)
    ensures Accepts(AfterCursor(c), a) <==> Before(c, a.key)
  {
    assert Rank(a.key.kind) == Rank(c.kind) <==> a.key.kind == c.kind;
  }

  lemma FiltersMeanFor(a: Activity, tab: Tab, search: Option<string>, cursor: Option<Key>)
    ensures AcceptsAll(TabFilters(tab) + SearchFilters(search) + CursorFilters(cursor), a) <==>
              InTab(tab, a.key.kind) && (search.Some? ==> Occurs(search.value, a.searchText))
              && (cursor.Some? ==> Before(cursor.value, a.key))
  {
    AcceptsConcat(TabFilters(tab), SearchFilters(search), a);
    AcceptsConcat(TabFilters(tab) + SearchFilters(search), CursorFilters(cursor), a);
    hide Like, LiteralContainsPattern, Occurs, AcceptsAll, Before;
    assert AcceptsAll([], a) by { NothingFiltered(a); }
    forall f ensures AcceptsAll([f], a) <==> Accepts(f, a) { AcceptsOne(f, a); }
    if search.Some? { ContainsPatternMeansOccurs(a.searchText, search.value); }
    if cursor.Some? { CursorMeansBefore(cursor.value, a); }
  }

  lemma NothingFiltered(a: Activity)
    ensures AcceptsAll([], a)
  {}

  /** Together the filters select what the tab and the search show, after the cursor. */
  lemma FiltersMean(rows: set<Activity>, tab: Tab, search: Option<string>, cursor: Option<Key>)
    ensures (set a | a in rows && AcceptsAll(TabFilters(tab) + SearchFilters(search) + CursorFilters(cursor), a))
            == Past(View(rows, tab, search), cursor)
  {
    hide AcceptsAll, TabFilters, SearchFilters, CursorFilters, InTab, Occurs, Before;
    forall a | a in rows
      ensures AcceptsAll(TabFilters(tab) + SearchFilters(search) + CursorFilters(cursor), a)
              <==> a in Past(View(rows, tab, search), cursor)
    {
      FiltersMeanFor(a, tab, search, cursor);
    }
  }

  /** The next cursor, when there is more to come than the page shows and it shows something. */
  function NextCursor(q: seq<Activity>, limit: nat): Option<Key> {
    if |q| > limit > 0 then Some(q[limit - 1].key) else None
  }

  /** `browse_member_activity`: the first rows after the cursor, and where to go on when there are more. */
  method BrowseMemberActivity(rows: set<Activity>, tab: Tab, search: Option<string>, cursor: Option<Key>, limit: nat)
    returns (page: Page)
    requires DistinctKeys(rows)
    ensures var q := Ordered(Past(View(rows, tab, search), cursor));
      page.items == Take(q, limit) && page.next == NextCursor(q, limit)
    ensures page.counts == CountsOf(rows)
  {
    hide CountsOf, AcceptsAll, Ordered, View, Past, Before, IsFirst, LiteralContainsPattern;
    FiltersMean(rows, tab, search, cursor);
    var filters := [];
    if tab == Recipes {
      filters := filters + [KindIn(RECIPE_KINDS)];
    } else if tab == SavedOnly {
      filters := filters + [KindIn({Saved})];
    } else if tab == RequestsOnly {
      filters := filters + [KindIn({IngredientRequest})];
    }
    if search.Some? { filters := filters + [SearchLike(LiteralContainsPattern(search.value))]; }
    if cursor.Some? { filters := filters + [AfterCursor(cursor.value)]; }
    assert filters == TabFilters(tab) + SearchFilters(search) + CursorFilters(cursor);
    var found := ActivityRows(rows, filters, limit + 1);
    var hasMore := |found| > limit;
    var items := if hasMore then found[..limit] else found;
    var next := None;
    if hasMore && items != [] { next := Some(items[|items| - 1].key); }
    page := Page(items, CountsOf(rows), next);
  }

  /** What a client collects that starts without a cursor and follows `next` while there is one. */
  ghost function Follow(view: set<Activity>, cursor: Option<Key>, limit: nat): seq<seq<Activity>>
    requires DistinctKeys(view) && limit > 0
    decreases |Past(view, cursor)|
  {
    var q := Ordered(Past(view, cursor));
    [Take(q, limit)] +
    match NextCursor(q, limit)
    case None => []
    case Some(next) =>
      PastShrinks(view, cursor, limit);
      Follow(view, Some(next), limit)
  }

  lemma PastWithoutFirst(view: set<Activity>, first: Activity, last: Activity)
    requires IsFirst(view, first) && last in view
    ensures Past(view, Some(last.key)) == if last == first then view - {first} else Past(view - {first}, Some(last.key))
  {}

  /** What comes after the last row of a page is the rest of the order. */
  lemma {:induction false} PastOfOrdered(view: set<Activity>, k: nat)
    requires DistinctKeys(view) && 0 < k <= |Ordered(view)|
    ensures Ordered(Past(view, Some(Ordered(view)[k - 1].key))) == Ordered(view)[k..]
    decreases |view|
  {
    FirstExists(view);
    var q, first := Ordered(view), Ordered(view)[0];
    var rest := view - {first};
    assert IsFirst(view, first) && q == [first] + Ordered(rest);
    OrderedIsSorted(view);
    PastWithoutFirst(view, first, q[k - 1]);
    if k > 1 {
      assert q[k - 1] == Ordered(rest)[k - 2];
      FirstDiffers(q, k - 1);
      PastOfOrdered(rest, k - 1);
    }
  }

  lemma FirstDiffers(q: seq<Activity>, k: nat)
    requires 0 < k < |q| && Before(q[0].key, q[k].key)
    ensures q[k] != q[0]
  {}

  lemma PastShrinks(view: set<Activity>, cursor: Option<Key>, limit: nat)
    requires DistinctKeys(view) && limit > 0 && NextCursor(Ordered(Past(view, cursor)), limit).Some?
    ensures |Past(view, NextCursor(Ordered(Past(view, cursor)), limit))| < |Past(view, cursor)|
  {
    var past := Past(view, cursor);
    var q := Ordered(past);
    OrderedIsSorted(past);
    var last := q[limit - 1];
    assert last in past;
    PastOfPast(view, cursor, last);
    PastOfOrdered(past, limit);
    OrderedIsSorted(Past(past, Some(last.key)));
  }

  lemma PastOfPast(view: set<Activity>, cursor: Option<Key>, last: Activity)
    requires last in Past(view, cursor)
    ensures Past(Past(view, cursor), Some(last.key)) == Past(view, Some(last.key))
  {}

  function Concatenated(pages: seq<seq<Activity>>): seq<Activity> {
    if pages == [] then [] else pages[0] + Concatenated(pages[1..])
  }

  /** The pages `n` rows take, one even when there is nothing to show. */
  function PageCount(n: nat, limit: nat): nat
    requires limit > 0
  {
    if n <= limit then 1 else 1 + PageCount(n - limit, limit)
  }

  /** As few pages as hold all rows: the larger of one and the quotient rounded up. */
  lemma {:induction false} PageCountIsLeast(n: nat, limit: nat)
    requires limit > 0
    ensures var pages := PageCount(n, limit);
      pages >= 1 && n <= pages * limit && (pages > 1 ==> (pages - 1) * limit < n)
  {
    if n > limit {
      PageCountIsLeast(n - limit, limit);
      var others := PageCount(n - limit, limit);
      assert (others + 1) * limit == others * limit + limit;
    }
  }

  lemma FollowUnfolds(view: set<Activity>, cursor: Option<Key>, limit: nat)
    requires DistinctKeys(view) && limit > 0
    ensures var q, pages := Ordered(Past(view, cursor)), Follow(view, cursor, limit);
      if |q| <= limit then pages == [q]
      else pages == [q[..limit]] + Follow(view, Some(q[limit - 1].key), limit)
  {
    var q := Ordered(Past(view, cursor));
    hide Ordered;
    assert |q| == limit ==> q[..limit] == q;
  }

  /** The rows of `q` in order on as few pages as possible, all but the last of them full. */
  predicate Paged(pages: seq<seq<Activity>>, q: seq<Activity>, limit: nat)
    requires limit > 0
  {
    && Concatenated(pages) == q && |pages| == PageCount(|q|, limit)
    && forall i :: 0 <= i < |pages| - 1 ==> |pages[i]| == limit
  }

  lemma PagedStep(q: seq<Activity>, limit: nat, others: seq<seq<Activity>>)
    requires limit > 0
    requires |q| > limit ==> Paged(others, q[limit..], limit)
    ensures if |q| <= limit then Paged([q], q, limit) else Paged([q[..limit]] + others, q, limit)
  {
    if |q| <= limit {
      assert [q][1..] == [] && q + [] == q;
    } else {
      var pages := [q[..limit]] + others;
      assert pages[1..] == others && q == q[..limit] + q[limit..];
      forall i | 0 <= i < |pages| - 1 ensures |pages[i]| == limit {
        assert i > 0 ==> pages[i] == others[i - 1];
      }
    }
  }

  lemma {:induction false} FollowingFrom(view: set<Activity>, cursor: Option<Key>, limit: nat)
    requires DistinctKeys(view) && limit > 0
    ensures Paged(Follow(view, cursor, limit), Ordered(Past(view, cursor)), limit)
    decreases |Past(view, cursor)|
  {
    var q, pages := Ordered(Past(view, cursor)), Follow(view, cursor, limit);
    hide Ordered, Past, DistinctKeys, Follow, Paged;
    FollowUnfolds(view, cursor, limit);
    if |q| <= limit {
      PagedStep(q, limit, []);
    } else {
      var next := Some(q[limit - 1].key);
      NextPage(view, cursor, limit);
      PastShrinks(view, cursor, limit);
      FollowingFrom(view, next, limit);
      PagedStep(q, limit, Follow(view, next, limit));
    }
  }

  lemma NextPage(view: set<Activity>, cursor: Option<Key>, limit: nat)
    requires DistinctKeys(view) && limit > 0 && |Ordered(Past(view, cursor))| > limit
    ensures var q := Ordered(Past(view, cursor));
      Ordered(Past(view, Some(q[limit - 1].key))) == q[limit..]
  {
    var past := Past(view, cursor);
    OrderedIsSorted(past);
    PastOfPast(view, cursor, Ordered(past)[limit - 1]);
    PastOfOrdered(past, limit);
  }

  /**
   * Following the cursors from the start shows every row of the tab and search once, in order, on as many pages as
   * it takes, all but the last of them full.
   */
  lemma FollowingShowsEachOnce(rows: set<Activity>, tab: Tab, search: Option<string>, limit: nat)
    requires DistinctKeys(rows) && limit > 0
    ensures var view, pages := View(rows, tab, search), Follow(View(rows, tab, search), None, limit);
      && Concatenated(pages) == Ordered(view) && |Ordered(view)| == |view|
      && Paged(pages, Ordered(view), limit) && (forall i :: 0 <= i < |pages| - 1 ==> |pages[i]| == limit)
      && |view| <= |pages| * limit && (|pages| > 1 ==> (|pages| - 1) * limit < |view|)
  {
    var view := View(rows, tab, search);
    FollowingFrom(view, None, limit);
    OrderedIsSorted(view);
    PageCountIsLeast(|view|, limit);
    assert Past(view, None) == view;
  }

  lemma OfKindsIsPart(rows: set<Activity>, part: set<Activity>, kinds: set<Kind>)
    requires part <= rows && forall a :: a in rows ==> (a in part <==> a.key.kind in kinds)
    ensures OfKinds(rows, kinds) == part
  {}

  lemma CountsOfParts(d: set<Activity>, p: set<Activity>, s: set<Activity>, r: set<Activity>)
    requires forall a :: a in d ==> a.key.kind == Draft
    requires forall a :: a in p ==> a.key.kind in {Published, Withdrawn}
    requires forall a :: a in s ==> a.key.kind == Saved
    requires forall a :: a in r ==> a.key.kind == IngredientRequest
    ensures CountsOf(d + p + s + r) == Counts(|d| + |p| + |s| + |r|, |d| + |p|, |s|, |r|)
  {
    hide OfKinds;
    var rows := d + p + s + r;
    OfKindsIsPart(rows, d + p, RECIPE_KINDS);
    OfKindsIsPart(rows, s, {Saved});
    OfKindsIsPart(rows, r, {IngredientRequest});
    assert d !! p && (d + p) !! s && (d + p + s) !! r;
  }

  /** The tabs' counts add up, and are those of the sources they come from. */
  lemma CountsAddUp(s: Sources, actor: Id)
    ensures var c := CountsOf(SourceOf(s, actor));
      && c.all == c.recipes + c.saved + c.requests
      && c.recipes == |Drafts(s, actor)| + |Publications(s, actor)|
      && c.saved == |Saves(s, actor)| && c.requests == |Requests(s, actor)|
  {
    DraftsAreDistinct(s, actor);
    PublicationsAreDistinct(s, actor);
    SavesAreDistinct(s, actor);
    RequestsAreDistinct(s, actor);
    hide Drafts, Publications, Saves, Requests, CountsOf;
    CountsOfParts(Drafts(s, actor), Publications(s, actor), Saves(s, actor), Requests(s, actor));
  }

  lemma SourceHasDistinctKeys(s: Sources, actor: Id)
    ensures DistinctKeys(SourceOf(s, actor))
  {
    SourceIsDistinct(s, actor);
  }

  /** Which kinds a tab shows. */
  lemma TabsShow(kind: Kind)
    ensures InTab(All, kind)
    ensures InTab(Recipes, kind) <==> kind == Draft || kind == Published || kind == Withdrawn
    ensures InTab(SavedOnly, kind) <==> kind == Saved
    ensures InTab(RequestsOnly, kind) <==> kind == IngredientRequest
  {}

  /** What the counts count. */
  lemma CountsMean(rows: set<Activity>)
    ensures CountsOf(rows)
         == Counts(|rows|,
                   |set a | a in rows && (a.key.kind == Draft || a.key.kind == Published || a.key.kind == Withdrawn)|,
                   |set a | a in rows && a.key.kind == Saved|,
                   |set a | a in rows && a.key.kind == IngredientRequest|)
  {
    assert OfKinds(rows, RECIPE_KINDS)
        == set a | a in rows && (a.key.kind == Draft || a.key.kind == Published || a.key.kind == Withdrawn);
    assert OfKinds(rows, {Saved}) == set a | a in rows && a.key.kind == Saved;
    assert OfKinds(rows, {IngredientRequest}) == set a | a in rows && a.key.kind == IngredientRequest;
  }

  /** A page and its cursor: as many rows as the limit allows, and the last one's key if some are left. */
  lemma PageMeans(q: seq<Activity>, limit: nat)
    ensures |Take(q, limit)| == (if |q| <= limit then |q| else limit)
    ensures forall i :: 0 <= i < |Take(q, limit)| ==> Take(q, limit)[i] == q[i]
    ensures NextCursor(q, limit).Some? <==> limit > 0 && |q| > limit
    ensures limit > 0 && |q| > limit ==> NextCursor(q, limit) == Some(Take(q, limit)[limit - 1].key)
  {}
}
