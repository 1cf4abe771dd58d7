/**
 * The ingredient-name index: one row for every canonical name and every alias, kept up to date by a hook that runs
 * before each flush, and read instead of scanning the catalog.
 */
module CatalogNames {
  type Id = nat

  /** The normalisation of names, the digest of a normalised name, and the folding of the tables' own name indexes. */
  datatype Keys = Keys(normalize: string -> string, digest: string -> string, fold: string -> string)

  datatype Kind = Canonical | AliasName

  /** The source a name row belongs to; each source has at most one. */
  datatype Owner = OfIngredient(id: Id) | OfAlias(id: Id)

  datatype Alias = Alias(ingredient: Id, alias: string)

  datatype NameRow = NameRow(kind: Kind, display: string, normalized: string, digest: string)

  datatype Tables = Tables(ingredients: map<Id, string>, aliases: map<Id, Alias>)

  /** A new or dirty object of the session; `changed` is whether the history of its name has changes. */
  datatype Source =
    | IngredientSource(id: Id, name: string, added: bool, changed: bool)
    | AliasSource(id: Id, alias: Alias, added: bool, changed: bool)

  function Blank(s: string): bool {
    forall i :: 0 <= i < |s| ==> s[i] == ' '
  }

  function OwnerOf(s: Source): Owner {
    if s.IngredientSource? then OfIngredient(s.id) else OfAlias(s.id)
  }

  function KindOf(o: Owner): Kind {
    if o.OfIngredient? then Canonical else AliasName
  }

  function Spelling(s: Source): string {
    if s.IngredientSource? then s.name else s.alias.alias
  }

  function Owners(t: Tables): set<Owner> {
    (set i | i in t.ingredients :: OfIngredient(i)) + (set a | a in t.aliases :: OfAlias(a))
  }

  function Display(t: Tables, o: Owner): string
    requires o in Owners(t)
  {
    if o.OfIngredient? then t.ingredients[o.id] else t.aliases[o.id].alias
  }

  /** `_synchronize_catalog_name`. */
  function RowFor(keys: Keys, kind: Kind, display: string): NameRow {
    var normalized := keys.normalize(display);
    NameRow(kind, display, normalized, keys.digest(normalized))
  }

  /** What the index holds when it is computed from scratch. */
  function Index(keys: Keys, t: Tables): map<Owner, NameRow> {
    map o | o in Owners(t) :: RowFor(keys, KindOf(o), Display(t, o))
  }

  /** The tables after the session's new and dirty objects are written. */
  function Write(t: Tables, s: Source): Tables {
    if s.IngredientSource? then t.(ingredients := t.ingredients[s.id := s.name])
    else t.(aliases := t.aliases[s.id := s.alias])
  }

  function Written(t: Tables, sources: seq<Source>): Tables {
    if sources == [] then t else Write(Written(t, sources[..|sources| - 1]), sources[|sources| - 1])
  }

  /** Deleted rows go, and aliases whose ingredient is deleted go with it. */
  function Survivors(t: Tables, gone: set<Id>, goneAliases: set<Id>): Tables {
    Tables(t.ingredients - gone,
           map a | a in t.aliases && a !in goneAliases && t.aliases[a].ingredient !in gone :: t.aliases[a])
  }

  /** Name rows go with their source. */
  function Orphaned(names: map<Owner, NameRow>, t: Tables): map<Owner, NameRow> {
    map o | o in names && o in Owners(t) :: names[o]
  }

  /** The constraints of the name table: shape, no blanks, the digest of the name, and no digest twice. */
  predicate RowsAllowed(keys: Keys, names: map<Owner, NameRow>) {
    && (forall o :: o in names ==>
         && names[o].kind == KindOf(o) && !Blank(names[o].display) && !Blank(names[o].normalized)
         && names[o].digest == keys.digest(names[o].normalized))
    && (forall o, p :: o in names && p in names && names[o].digest == names[p].digest ==> o == p)
  }

  /** The constraints of the two source tables. */
  predicate SourcesAllowed(keys: Keys, t: Tables) {
    && (forall o :: o in Owners(t) ==> !Blank(Display(t, o)))
    && (forall i, j :: i in t.ingredients && j in t.ingredients && i != j ==>
         keys.fold(t.ingredients[i]) != keys.fold(t.ingredients[j]))
    && (forall a, b :: a in t.aliases && b in t.aliases && a != b ==>
         keys.fold(t.aliases[a].alias) != keys.fold(t.aliases[b].alias))
    && (forall a :: a in t.aliases ==> t.aliases[a].ingredient in t.ingredients)
  }

  /** No two names of the catalog, canonical or alias, have one key, and no name has a blank one. */
  predicate KeysApart(keys: Keys, t: Tables) {
    && (forall o :: o in Owners(t) ==> !Blank(keys.normalize(Display(t, o))))
    && (forall o, p :: o in Owners(t) && p in Owners(t)
                       && keys.digest(keys.normalize(Display(t, o))) == keys.digest(keys.normalize(Display(t, p))) ==>
                         o == p)
  }

  /** What a session guarantees about what it flushes: one object per row, and a history that misses no change. */
  predicate Staged(t: Tables, sources: seq<Source>, gone: set<Id>, goneAliases: set<Id>) {
    && (forall i, j :: 0 <= i < j < |sources| ==> OwnerOf(sources[i]) != OwnerOf(sources[j]))
    && (forall i :: 0 <= i < |sources| && !sources[i].added ==>
         && OwnerOf(sources[i]) in Owners(t)
         && (!sources[i].changed ==> Spelling(sources[i]) == Display(t, OwnerOf(sources[i]))))
  }

  /** A new object's id is taken. */
  predicate Taken(t: Tables, sources: seq<Source>) {
    exists i :: 0 <= i < |sources| && sources[i].added && OwnerOf(sources[i]) in Owners(t)
  }

  /** A new ingredient or alias has an id that is in use. */
  lemma TakenMeans(t: Tables, sources: seq<Source>)
    ensures Taken(t, sources) <==>
            exists i :: 0 <= i < |sources| && sources[i].added
                        && sources[i].id in
                             if sources[i].IngredientSource? then t.ingredients.Keys else t.aliases.Keys
  {}

  lemma BlankMeans(s: string)
    ensures Blank(s) <==> s == seq(|s|, _ => ' ')
  {}

  /** What the source tables allow: no blank name, no two alike, and no alias without its ingredient. */
  lemma SourcesAllowedMeans(keys: Keys, t: Tables)
    ensures SourcesAllowed(keys, t) <==>
            && (forall i :: i in t.ingredients ==> !Blank(t.ingredients[i]))
            && (forall a :: a in t.aliases ==> !Blank(t.aliases[a].alias))
            && (forall i, j :: i in t.ingredients && j in t.ingredients && i != j ==>
                 keys.fold(t.ingredients[i]) != keys.fold(t.ingredients[j]))
            && (forall a, b :: a in t.aliases && b in t.aliases && a != b ==>
                 keys.fold(t.aliases[a].alias) != keys.fold(t.aliases[b].alias))
            && (forall a :: a in t.aliases ==> t.aliases[a].ingredient in t.ingredients)
  {
    OwnersAre(t);
    hide Owners;
  }

  /** What the index adds: no normalised name is blank, and no two names of any kind have one digest. */
  lemma KeysApartMeans(keys: Keys, t: Tables)
    ensures KeysApart(keys, t) <==>
            && (forall i :: i in t.ingredients ==> !Blank(keys.normalize(t.ingredients[i])))
            && (forall a :: a in t.aliases ==> !Blank(keys.normalize(t.aliases[a].alias)))
            && (forall i, j :: i in t.ingredients && j in t.ingredients && i != j ==>
                 keys.digest(keys.normalize(t.ingredients[i])) != keys.digest(keys.normalize(t.ingredients[j])))
            && (forall i, a :: i in t.ingredients && a in t.aliases ==>
                 keys.digest(keys.normalize(t.ingredients[i])) != keys.digest(keys.normalize(t.aliases[a].alias)))
            && (forall a, b :: a in t.aliases && b in t.aliases && a != b ==>
                 keys.digest(keys.normalize(t.aliases[a].alias)) != keys.digest(keys.normalize(t.aliases[b].alias)))
  {
    OwnersAre(t);
    hide Owners;
  }

  lemma OwnersAre(t: Tables)
    ensures forall i :: i in t.ingredients <==> OfIngredient(i) in Owners(t)
    ensures forall a :: a in t.aliases <==> OfAlias(a) in Owners(t)
  {}

  lemma WriteChangesOne(t: Tables, s: Source)
    ensures Owners(Write(t, s)) == Owners(t) + {OwnerOf(s)}
    ensures forall o :: o in Owners(Write(t, s)) ==>
              Display(Write(t, s), o) == if o == OwnerOf(s) then Spelling(s) else Display(t, o)
    ensures s.AliasSource? ==> s.id in Write(t, s).aliases && Write(t, s).aliases[s.id] == s.alias
    ensures s.IngredientSource? ==> s.id in Write(t, s).ingredients && Write(t, s).ingredients[s.id] == s.name
    ensures forall a :: a in t.aliases && !(s.AliasSource? && s.id == a) ==>
              a in Write(t, s).aliases && Write(t, s).aliases[a] == t.aliases[a]
    ensures forall i :: i in t.ingredients && !(s.IngredientSource? && s.id == i) ==>
              i in Write(t, s).ingredients && Write(t, s).ingredients[i] == t.ingredients[i]
  {}

  // ---- what a flush writes, row by row ----

  /** An ingredient that is written has the object's name. */
  lemma {:induction false} IngredientWritten(t: Tables, sources: seq<Source>, k: nat)
    requires forall i, j :: 0 <= i < j < |sources| ==> OwnerOf(sources[i]) != OwnerOf(sources[j])
    requires k < |sources| && sources[k].IngredientSource?
    ensures var after := Written(t, sources).ingredients;
      sources[k].id in after && after[sources[k].id] == sources[k].name
  {
    var n := |sources| - 1;
    WrittenOneMore(t, sources);
    WriteChangesOne(Written(t, sources[..n]), sources[n]);
    if k < n {
      IngredientWritten(t, sources[..n], k);
      assert OwnerOf(sources[k]) != OwnerOf(sources[n]);
    }
  }

  /** An alias that is written has the object's spelling and ingredient. */
  lemma {:induction false} AliasWritten(t: Tables, sources: seq<Source>, k: nat)
    requires forall i, j :: 0 <= i < j < |sources| ==> OwnerOf(sources[i]) != OwnerOf(sources[j])
    requires k < |sources| && sources[k].AliasSource?
    ensures var after := Written(t, sources).aliases;
      && sources[k].id in after && after[sources[k].id].alias == sources[k].alias.alias
      && after[sources[k].id].ingredient == sources[k].alias.ingredient
  {
    var n := |sources| - 1;
    WrittenOneMore(t, sources);
    WriteChangesOne(Written(t, sources[..n]), sources[n]);
    if k < n {
      AliasWritten(t, sources[..n], k);
      assert OwnerOf(sources[k]) != OwnerOf(sources[n]);
    }
  }

  /** Rows that are not written are there exactly when they were, and as they were. */
  lemma {:induction false} OthersNotWritten(t: Tables, sources: seq<Source>, i: Id)
    ensures (forall k :: 0 <= k < |sources| ==> !(sources[k].IngredientSource? && sources[k].id == i)) ==>
              (i in Written(t, sources).ingredients <==> i in t.ingredients)
              && (i in t.ingredients ==> Written(t, sources).ingredients[i] == t.ingredients[i])
    ensures (forall k :: 0 <= k < |sources| ==> !(sources[k].AliasSource? && sources[k].id == i)) ==>
              (i in Written(t, sources).aliases <==> i in t.aliases)
              && (i in t.aliases ==> Written(t, sources).aliases[i] == t.aliases[i])
  {
    if sources != [] { OthersNotWritten(t, sources[..|sources| - 1], i); }
  }

  lemma WrittenOneMore(t: Tables, sources: seq<Source>)
    requires sources != []
    ensures Written(t, sources) == Write(Written(t, sources[..|sources| - 1]), sources[|sources| - 1])
  {}

  /** A row is there after a flush exactly when it was there or is written, and is not deleted with its ingredient. */
  lemma SurvivingRows(t: Tables, gone: set<Id>, goneAliases: set<Id>)
    ensures var after := Survivors(t, gone, goneAliases);
      && (forall i :: i in after.ingredients <==> i in t.ingredients && i !in gone)
      && (forall i :: i in after.ingredients ==> after.ingredients[i] == t.ingredients[i])
      && (forall a :: a in after.aliases <==>
           a in t.aliases && a !in goneAliases && t.aliases[a].ingredient !in gone)
      && (forall a :: a in after.aliases ==> after.aliases[a] == t.aliases[a])
  {}

  /** The index row of each name: its kind, spelling, normalised form and digest. */
  lemma IndexRows(keys: Keys, t: Tables)
    ensures forall i :: i in t.ingredients <==> OfIngredient(i) in Index(keys, t)
    ensures forall i :: i in t.ingredients ==>
              Index(keys, t)[OfIngredient(i)]
              == NameRow(Canonical, t.ingredients[i], keys.normalize(t.ingredients[i]),
                         keys.digest(keys.normalize(t.ingredients[i])))
    ensures forall a :: a in t.aliases <==> OfAlias(a) in Index(keys, t)
    ensures forall a :: a in t.aliases ==>
              Index(keys, t)[OfAlias(a)]
              == NameRow(AliasName, t.aliases[a].alias, keys.normalize(t.aliases[a].alias),
                         keys.digest(keys.normalize(t.aliases[a].alias)))
  {}

  lemma IndexOfWrite(keys: Keys, t: Tables, s: Source)
    ensures Index(keys, Write(t, s)) == Index(keys, t)[OwnerOf(s) := RowFor(keys, KindOf(OwnerOf(s)), Spelling(s))]
  {
    WriteChangesOne(t, s);
    hide Write, Owners, Display, RowFor;
  }

  /** One step of the hook keeps a complete index complete. */
  lemma HookStep(keys: Keys, before: Tables, sources: seq<Source>, k: nat, gone: set<Id>, goneAliases: set<Id>)
    requires Staged(before, sources, gone, goneAliases) && k < |sources|
    ensures var t, s := Written(before, sources[..k]), sources[k];
      Index(keys, Written(before, sources[..k + 1])) ==
        if s.added || s.changed then Index(keys, t)[OwnerOf(s) := RowFor(keys, KindOf(OwnerOf(s)), Spelling(s))]
        else Index(keys, t)
  {
    hide Index, RowFor, Write;
    var s, o, t := sources[k], OwnerOf(sources[k]), Written(before, sources[..k]);
    assert sources[..k + 1][..k] == sources[..k];
    IndexOfWrite(keys, t, s);
    if !(s.added || s.changed) {
      UnwrittenStays(before, sources[..k], o);
      IndexAt(keys, t, o);
    }
  }

  lemma IndexAt(keys: Keys, t: Tables, o: Owner)
    requires o in Owners(t)
    ensures o in Index(keys, t) && Index(keys, t)[o] == RowFor(keys, KindOf(o), Display(t, o))
  {
    hide Owners, Display, RowFor;
  }

  /** Writing other objects does not change a row. */
  lemma {:induction false} UnwrittenStays(t: Tables, sources: seq<Source>, o: Owner)
    requires o in Owners(t) && forall i :: 0 <= i < |sources| ==> OwnerOf(sources[i]) != o
    ensures o in Owners(Written(t, sources)) && Display(Written(t, sources), o) == Display(t, o)
  {
    if sources != [] {
      UnwrittenStays(t, sources[..|sources| - 1], o);
    }
  }

  lemma IndexOfSurvivors(keys: Keys, t: Tables, gone: set<Id>, goneAliases: set<Id>)
    ensures Orphaned(Index(keys, t), Survivors(t, gone, goneAliases)) == Index(keys, Survivors(t, gone, goneAliases))
  {
    var after := Survivors(t, gone, goneAliases);
    forall o | o in Owners(after) ensures o in Owners(t) && Display(after, o) == Display(t, o) {}
  }

  lemma AllowedIndex(keys: Keys, t: Tables)
    requires SourcesAllowed(keys, t)
    ensures RowsAllowed(keys, Index(keys, t)) <==> KeysApart(keys, t)
  {
    var names := Index(keys, t);
    if RowsAllowed(keys, names) {
      forall o, p | o in Owners(t) && p in Owners(t)
                    && keys.digest(keys.normalize(Display(t, o))) == keys.digest(keys.normalize(Display(t, p)))
        ensures o == p
      {
        assert names[o].digest == names[p].digest;
      }
      forall o | o in Owners(t) ensures !Blank(keys.normalize(Display(t, o))) {
        assert names[o].normalized == keys.normalize(Display(t, o));
      }
    }
  }

  /** The index holds exactly the catalog's names, and no key twice. */
  predicate InStep(keys: Keys, t: Tables, names: map<Owner, NameRow>) {
    names == Index(keys, t) && SourcesAllowed(keys, t) && KeysApart(keys, t)
  }

  // ---- what row-by-row checks may refuse although the outcome is allowed ----

  function Displays(t: Tables): map<Owner, string> {
    map o | o in Owners(t) :: Display(t, o)
  }

  /** Two rows that a unique index of the name table or of their own table does not let stand together. */
  predicate Clash(keys: Keys, o: Owner, a: string, p: Owner, b: string) {
    o != p && (keys.digest(keys.normalize(a)) == keys.digest(keys.normalize(b))
               || (KindOf(o) == KindOf(p) && keys.fold(a) == keys.fold(b)))
  }

  predicate Apart(keys: Keys, rows: map<Owner, string>) {
    forall o, p :: o in rows && p in rows ==> !Clash(keys, o, rows[o], p, rows[p])
  }

  /** The rows while a flush is under way: these owners' rows are already written or deleted. */
  function Midway(before: map<Owner, string>, after: map<Owner, string>, done: set<Owner>): map<Owner, string> {
    map o | o in before.Keys + after.Keys && o in (if o in done then after else before) ::
      (if o in done then after else before)[o]
  }

  /** Some row's new name is another row's old one, as when two names are swapped. */
  predicate PassingClash(keys: Keys, before: map<Owner, string>, after: map<Owner, string>) {
    exists o, p :: o in after && p in before && Clash(keys, o, after[o], p, before[p])
  }

  /** Rows may stand together when no two have one digest, and no two of one table one folded name. */
  lemma ApartMeans(keys: Keys, t: Tables)
    ensures Apart(keys, Displays(t)) <==>
            && (forall o, p :: o in Owners(t) && p in Owners(t) && o != p ==>
                 keys.digest(keys.normalize(Display(t, o))) != keys.digest(keys.normalize(Display(t, p))))
            && (forall i, j :: i in t.ingredients && j in t.ingredients && i != j ==>
                 keys.fold(t.ingredients[i]) != keys.fold(t.ingredients[j]))
            && (forall a, b :: a in t.aliases && b in t.aliases && a != b ==>
                 keys.fold(t.aliases[a].alias) != keys.fold(t.aliases[b].alias))
  {
    OwnersAre(t);
    hide Owners;
    var rows := Displays(t);
    if Apart(keys, rows) {
      forall o, p | o in Owners(t) && p in Owners(t) && o != p
        ensures keys.digest(keys.normalize(Display(t, o))) != keys.digest(keys.normalize(Display(t, p)))
      {
        assert !Clash(keys, o, rows[o], p, rows[p]);
      }
      forall i, j | i in t.ingredients && j in t.ingredients && i != j
        ensures keys.fold(t.ingredients[i]) != keys.fold(t.ingredients[j])
      {
        assert !Clash(keys, OfIngredient(i), rows[OfIngredient(i)], OfIngredient(j), rows[OfIngredient(j)]);
      }
      forall a, b | a in t.aliases && b in t.aliases && a != b
        ensures keys.fold(t.aliases[a].alias) != keys.fold(t.aliases[b].alias)
      {
        assert !Clash(keys, OfAlias(a), rows[OfAlias(a)], OfAlias(b), rows[OfAlias(b)]);
      }
    }
  }

  lemma AllowedIsApart(keys: Keys, t: Tables)
    requires SourcesAllowed(keys, t) && KeysApart(keys, t)
    ensures Apart(keys, Displays(t))
  {
    var rows := Displays(t);
    forall o, p | o in rows && p in rows ensures !Clash(keys, o, rows[o], p, rows[p]) {
      assert o in Owners(t) && p in Owners(t);
    }
  }

  /** In some order of its statements a flush between two allowed catalogs is refused, exactly for a passing clash. */
  lemma RefusedExactlyForPassingClash(keys: Keys, t: Tables, after: Tables)
    requires SourcesAllowed(keys, t) && KeysApart(keys, t) && SourcesAllowed(keys, after) && KeysApart(keys, after)
    ensures PassingClash(keys, Displays(t), Displays(after))
       <==> exists done :: !Apart(keys, Midway(Displays(t), Displays(after), done))
  {
    hide PassingClash, Midway, Apart, SourcesAllowed, KeysApart, Displays;
    AllowedIsApart(keys, t);
    AllowedIsApart(keys, after);
    var before, later := Displays(t), Displays(after);
    if PassingClash(keys, before, later) {
      var done := ClashIsMet(keys, before, later);
    }
    forall done ensures !Apart(keys, Midway(before, later, done)) ==> PassingClash(keys, before, later) {
      OnlyPassingClashes(keys, before, later, done);
    }
  }

  lemma ClashIsMet(keys: Keys, before: map<Owner, string>, after: map<Owner, string>) returns (done: set<Owner>)
    requires PassingClash(keys, before, after)
    ensures !Apart(keys, Midway(before, after, done))
  {
    hide Clash;
    var o, p :| o in after && p in before && Clash(keys, o, after[o], p, before[p]);
    ClashIsBetweenTwo(keys, o, after[o], p, before[p]);
    done := {o};
    var rows := Midway(before, after, done);
    assert o in rows && p in rows && rows[o] == after[o] && rows[p] == before[p];
  }

  lemma OnlyPassingClashes(keys: Keys, before: map<Owner, string>, after: map<Owner, string>, done: set<Owner>)
    requires Apart(keys, before) && Apart(keys, after)
    ensures !Apart(keys, Midway(before, after, done)) ==> PassingClash(keys, before, after)
  {
    hide Clash;
    var rows := Midway(before, after, done);
    if o, p :| o in rows && p in rows && Clash(keys, o, rows[o], p, rows[p]) {
      ClashIsBetweenTwo(keys, o, rows[o], p, rows[p]);
    }
  }

  lemma ClashIsBetweenTwo(keys: Keys, o: Owner, a: string, p: Owner, b: string)
    requires Clash(keys, o, a, p, b)
    ensures o != p && Clash(keys, p, b, o, a)
  {}

  class Catalog {
    const keys: Keys
    var tables: Tables
    var names: map<Owner, NameRow>
    /** Ingredients that recipes or substitutions refer to, which the database does not let go. */
    var referenced: set<Id>

    /** The index holds exactly the catalog's names, and no key twice. */
    predicate Synced()
      reads this
    {
      InStep(keys, tables, names)
    }

    constructor (keys: Keys)
      ensures this.keys == keys && tables == Tables(map[], map[]) && Synced()
    {
      this.keys, tables, names, referenced := keys, Tables(map[], map[]), map[], {};
    }

    /** `_stage_ingredient_catalog_names`. */
    method StageNames(sources: seq<Source>, gone: set<Id>, goneAliases: set<Id>) returns (staged: map<Owner, NameRow>)
      requires Synced() && Staged(tables, sources, gone, goneAliases)
      ensures staged == Index(keys, Written(tables, sources))
    {
      staged := names;
      for k := 0 to |sources|
        invariant staged == Index(keys, Written(tables, sources[..k]))
      {
        hide Index, RowFor, Staged;
        var s := sources[k];
        HookStep(keys, tables, sources, k, gone, goneAliases);
        if s.added || s.changed {
          staged := staged[OwnerOf(s) := RowFor(keys, KindOf(OwnerOf(s)), Spelling(s))];
        }
      }
      assert sources[..|sources|] == sources;
    }

    /**
     * A flush writes everything or nothing, and succeeds exactly when the outcome keeps all keys apart; a batch with
     * a passing clash may be refused all the same, as the order of its statements has it (`refused`).
     */
    method Flush(sources: seq<Source>, gone: set<Id>, goneAliases: set<Id>, refused: bool) returns (ok: bool)
      requires Synced() && Staged(tables, sources, gone, goneAliases)
      modifies this`tables, this`names
      ensures Synced()
      ensures var after := Survivors(Written(old(tables), sources), gone, goneAliases);
        && (ok <==> && !(refused && PassingClash(keys, Displays(old(tables)), Displays(after)))
                    && !Taken(old(tables), sources) && gone !! referenced
                    && SourcesAllowed(keys, after) && KeysApart(keys, after))
        && tables == (if ok then after else old(tables)) && (!ok ==> names == old(names))
    {
      hide Index, KeysApart, SourcesAllowed, RowsAllowed, Written, Staged, PassingClash, Displays;
      var staged := StageNames(sources, gone, goneAliases);
      var written := Written(tables, sources);
      var after := Survivors(written, gone, goneAliases);
      var rows := Orphaned(staged, after);
      IndexOfSurvivors(keys, written, gone, goneAliases);
      if SourcesAllowed(keys, after) { AllowedIndex(keys, after); }
      ok := !(refused && PassingClash(keys, Displays(tables), Displays(after)))
            && !Taken(tables, sources) && gone !! referenced && SourcesAllowed(keys, after) && RowsAllowed(keys, rows);
      if ok {
        tables, names := after, rows;
      }
    }
  }
}
