/** Reading the ingredient-name index (backend/app/repositories/ingredients.py), compared with a scan of the catalog. */
module CatalogLookups {
  import opened CatalogNames
  import opened Outcomes

  datatype Resolution = BlankName | Unknown | Resolved(ingredient: Id)

  predicate Hit(names: map<Owner, NameRow>, o: Owner, normalized: string, digest: string) {
    o in names && names[o].digest == digest && names[o].normalized == normalized
  }

  /** `find_catalog_name`: any row with both the digest and the name. */
  ghost function FindCatalogName(names: map<Owner, NameRow>, normalized: string, digest: string): Option<Owner> {
    if exists o :: Hit(names, o, normalized, digest) then
      var o :| Hit(names, o, normalized, digest); Some(o)
    else None
  }

  /** `resolve_ingredient_name`. */
  ghost function ResolveIngredientName(keys: Keys, t: Tables, names: map<Owner, NameRow>, raw: string): Resolution {
    var normalized := keys.normalize(raw);
    if normalized == "" then BlankName
    else
      match FindCatalogName(names, normalized, keys.digest(normalized))
      case None => Unknown
      case Some(o) =>
        if names[o].kind == Canonical then (if o.OfIngredient? then Resolved(o.id) else Unknown)
        else if o.OfAlias? && o.id in t.aliases then Resolved(t.aliases[o.id].ingredient)
        else Unknown
  }

  /** One of the ingredient's names has this key. */
  predicate Goes(keys: Keys, t: Tables, i: Id, key: string) {
    && i in t.ingredients
    && (keys.normalize(t.ingredients[i]) == key
        || exists a :: a in t.aliases && t.aliases[a].ingredient == i && keys.normalize(t.aliases[a].alias) == key)
  }

  function IngredientOf(t: Tables, o: Owner): Id
    requires o in Owners(t)
  {
    if o.OfIngredient? then o.id else t.aliases[o.id].ingredient
  }

  lemma GoesByOwner(keys: Keys, t: Tables, i: Id, key: string)
    requires SourcesAllowed(keys, t)
    ensures Goes(keys, t, i, key) <==>
            exists o :: o in Owners(t) && IngredientOf(t, o) == i && keys.normalize(Display(t, o)) == key
  {
    if Goes(keys, t, i, key) {
      if keys.normalize(t.ingredients[i]) == key {
        assert OfIngredient(i) in Owners(t) && Display(t, OfIngredient(i)) == t.ingredients[i];
      } else {
        var a :| a in t.aliases && t.aliases[a].ingredient == i && keys.normalize(t.aliases[a].alias) == key;
        assert OfAlias(a) in Owners(t) && Display(t, OfAlias(a)) == t.aliases[a].alias;
      }
    }
    if o :| o in Owners(t) && IngredientOf(t, o) == i && keys.normalize(Display(t, o)) == key {
      assert o.OfAlias? ==> o.id in t.aliases && t.aliases[o.id].ingredient == i;
    }
  }

  /** The one name of the catalog with this key decides the answer. */
  lemma ResolveByOwner(keys: Keys, t: Tables, names: map<Owner, NameRow>, raw: string, o: Owner)
    requires InStep(keys, t, names) && o in Owners(t) && keys.normalize(Display(t, o)) == keys.normalize(raw)
    ensures ResolveIngredientName(keys, t, names, raw) == Resolved(IngredientOf(t, o))
    ensures FindCatalogName(names, keys.normalize(raw), keys.digest(keys.normalize(raw))) == Some(o)
  {
    hide SourcesAllowed;
    var key := keys.normalize(raw);
    assert Hit(names, o, key, keys.digest(key));
    var found := FindCatalogName(names, key, keys.digest(key));
    assert Hit(names, found.value, key, keys.digest(key));
    assert found.value == o;
  }

  /**
   * The index answers as a scan of all names would: an ingredient exactly when one of its names has the key, and
   * never two for one key.
   */
  lemma ResolveIsAFullScan(keys: Keys, t: Tables, names: map<Owner, NameRow>, raw: string, i: Id)
    requires InStep(keys, t, names)
    ensures ResolveIngredientName(keys, t, names, raw) == BlankName <==> keys.normalize(raw) == ""
    ensures ResolveIngredientName(keys, t, names, raw) == Resolved(i) <==> Goes(keys, t, i, keys.normalize(raw))
  {
    var key := keys.normalize(raw);
    GoesByOwner(keys, t, i, key);
    if o :| o in Owners(t) && keys.normalize(Display(t, o)) == key {
      ResolveByOwner(keys, t, names, raw, o);
      assert Blank("") && key != "";
      if Goes(keys, t, i, key) {
        var p :| p in Owners(t) && IngredientOf(t, p) == i && keys.normalize(Display(t, p)) == key;
        ResolveByOwner(keys, t, names, raw, p);
      }
    } else {
      hide Goes, SourcesAllowed, Display;
      forall o ensures !Hit(names, o, key, keys.digest(key)) {}
    }
  }

  /** `curated_display_label`: the canonical name first, then the aliases in their order. */
  function CuratedDisplayLabel(keys: Keys, name: string, aliases: seq<string>, raw: string): (curated: Option<string>)
    ensures curated.Some? ==> keys.normalize(curated.value) == keys.normalize(raw)
  {
    if keys.normalize(name) == keys.normalize(raw) then Some(name) else FirstAlias(keys, aliases, raw)
  }

  function FirstAlias(keys: Keys, aliases: seq<string>, raw: string): (curated: Option<string>)
    ensures curated.Some? ==> curated.value in aliases && keys.normalize(curated.value) == keys.normalize(raw)
    ensures curated.None? ==> forall i :: 0 <= i < |aliases| ==> keys.normalize(aliases[i]) != keys.normalize(raw)
  {
    if aliases == [] then None
    else if keys.normalize(aliases[0]) == keys.normalize(raw) then Some(aliases[0])
    else FirstAlias(keys, aliases[1..], raw)
  }

  /** The aliases of an ingredient, in whatever order they are loaded. */
  predicate AliasesOf(t: Tables, i: Id, aliases: seq<string>) {
    && (forall a :: a in t.aliases && t.aliases[a].ingredient == i ==> t.aliases[a].alias in aliases)
    && (forall k :: 0 <= k < |aliases| ==>
         exists a :: a in t.aliases && t.aliases[a].ingredient == i && t.aliases[a].alias == aliases[k])
  }

  /** A label is curated exactly when one of the ingredient's names has its key, and is that name. */
  lemma LabelHasOwner(keys: Keys, t: Tables, i: Id, aliases: seq<string>, raw: string) returns (o: Owner)
    requires i in t.ingredients && AliasesOf(t, i, aliases)
    ensures var curated := CuratedDisplayLabel(keys, t.ingredients[i], aliases, raw);
      && (curated.Some? <==> Goes(keys, t, i, keys.normalize(raw)))
      && (curated.Some? ==> o in Owners(t) && IngredientOf(t, o) == i && Display(t, o) == curated.value)
  {
    var key, curated := keys.normalize(raw), CuratedDisplayLabel(keys, t.ingredients[i], aliases, raw);
    o := OfIngredient(i);
    if curated.Some? && keys.normalize(t.ingredients[i]) != key {
      var k :| 0 <= k < |aliases| && aliases[k] == curated.value;
      var a :| a in t.aliases && t.aliases[a].ingredient == i && t.aliases[a].alias == aliases[k];
      o := OfAlias(a);
    }
  }

  /** A label is curated for exactly the ingredient the index resolves it to, and is the spelling the index holds. */
  lemma LabelAgreesWithIndex(keys: Keys, t: Tables, names: map<Owner, NameRow>, i: Id, aliases: seq<string>,
      raw: string)
    requires InStep(keys, t, names) && i in t.ingredients && AliasesOf(t, i, aliases)
    ensures var curated := CuratedDisplayLabel(keys, t.ingredients[i], aliases, raw);
      && (curated.Some? <==> ResolveIngredientName(keys, t, names, raw) == Resolved(i))
      && (curated.Some? ==>
           var o := FindCatalogName(names, keys.normalize(raw), keys.digest(keys.normalize(raw)));
           o.Some? && o.value in names && names[o.value].display == curated.value)
  {
    hide AliasesOf, Goes, SourcesAllowed, KeysApart;
    ResolveIsAFullScan(keys, t, names, raw, i);
    var o := LabelHasOwner(keys, t, i, aliases, raw);
    if CuratedDisplayLabel(keys, t.ingredients[i], aliases, raw).Some? {
      ResolveByOwner(keys, t, names, raw, o);
    }
  }
}
