/** The private ledger of deleted members: its canonical printer and its strict parser. */
module DeletionLedgers {
  import opened Outcomes
  import opened Text
  import opened Uuids
  import opened Timestamps
  import Json

  const LEDGER_VERSION: nat := 1
  const MAX_LEDGER_BYTES: nat := 1_048_576
  const MAX_LEDGER_ENTRIES: nat := 10_000

  datatype Entry = Entry(userId: Uuid, deletedAt: Timestamp)

  datatype Ledger = Ledger(coveredThrough: Timestamp, deletions: seq<Entry>, version: nat)

  predicate Increasing(entries: seq<Entry>) {
    forall i, j :: 0 <= i < j < |entries| ==> entries[i].userId < entries[j].userId
  }

  predicate Covered(entries: seq<Entry>, through: Timestamp) {
    forall i :: 0 <= i < |entries| ==> !entries[i].deletedAt.After(through)
  }

  /** The ledgers the format is meant to carry. */
  predicate WellFormed(l: Ledger) {
    && l.version == LEDGER_VERSION
    && |l.deletions| <= MAX_LEDGER_ENTRIES
    && Increasing(l.deletions)
    && Covered(l.deletions, l.coveredThrough)
  }

  // ---- printing ----

  /** One entry from its two texts, keys in the sorted order the printer asks for. */
  function EntryObject(deletedAt: string, userId: string): Json.Value {
    Json.Object([Json.Member("deleted_at", Json.String(deletedAt)), Json.Member("user_id", Json.String(userId))])
  }

  function LedgerObject(coveredThrough: string, deletions: seq<Json.Value>, version: nat): Json.Value {
    Json.Object([Json.Member("covered_through", Json.String(coveredThrough)),
                 Json.Member("deletions", Json.Array(deletions)),
                 Json.Member("version", Json.Number(version))])
  }

  function EntryValue(e: Entry): Json.Value {
    EntryObject(Format(e.deletedAt), Canonical(e.userId))
  }

  function EntryValues(entries: seq<Entry>): (values: seq<Json.Value>)
    ensures |values| == |entries|
    ensures forall i :: 0 <= i < |entries| ==> values[i] == EntryValue(entries[i])
  {
    if entries == [] then [] else [EntryValue(entries[0])] + EntryValues(entries[1..])
  }

  /** `_ledger_value`. */
  function LedgerValue(l: Ledger): Json.Value {
    LedgerObject(Format(l.coveredThrough), EntryValues(l.deletions), l.version)
  }

  /** `render_deletion_ledger`; all characters are ASCII, so characters are bytes. */
  function Render(l: Ledger): string {
    Json.Dump(LedgerValue(l)) + "\n"
  }

  lemma FormatIsPlain(t: Timestamp)
    ensures Json.Plain(Format(t))
  {
    FormatIsPrintable(t);
  }

  lemma CanonicalIsPlain(u: Uuid)
    ensures |Canonical(u)| == 36
    ensures Json.Plain(Canonical(u))
  {
    PaddedUsesNumerals(u, 32, Hexadecimal);
    var s := Canonical(u);
    forall i | 0 <= i < |s| ensures Json.PlainChar(s[i]) {
      if i in {8, 13, 18, 23} {
        assert s[i] == '-';
      } else {
        assert s[i] in Hex(u);
      }
    }
  }

  lemma EntryObjectIsPrintable(deletedAt: string, userId: string)
    requires Json.Plain(deletedAt) && Json.Plain(userId)
    ensures Json.Printable(EntryObject(deletedAt, userId))
    ensures |Json.Dump(EntryObject(deletedAt, userId))| == 30 + |deletedAt| + |userId|
  {
    var first, second := Json.Member("deleted_at", Json.String(deletedAt)), Json.Member("user_id", Json.String(userId));
    hide Json.DumpAll, Json.PrintableAll, Json.Numeral;
    Json.MemberBefore(second, []);
    Json.MemberBefore(first, [second] + []);
    assert EntryObject(deletedAt, userId).members == [first] + ([second] + []);
  }

  lemma {:induction false} EntryValuesArePrintable(entries: seq<Entry>)
    ensures Json.PrintableAll(EntryValues(entries))
    ensures |Json.DumpAll(EntryValues(entries))| == if entries == [] then 0 else 94 * |entries| - 1
  {
    if entries != [] {
      FormatIsPlain(entries[0].deletedAt);
      CanonicalIsPlain(entries[0].userId);
      EntryObjectIsPrintable(Format(entries[0].deletedAt), Canonical(entries[0].userId));
      EntryValuesArePrintable(entries[1..]);
      assert EntryValues(entries)[1..] == EntryValues(entries[1..]);
    }
  }

  lemma LedgerObjectIsPrintable(coveredThrough: string, deletions: seq<Json.Value>, version: nat)
    requires Json.Plain(coveredThrough) && Json.PrintableAll(deletions)
    ensures Json.Printable(LedgerObject(coveredThrough, deletions, version))
    ensures |Json.Dump(LedgerObject(coveredThrough, deletions, version))|
         == 48 + |coveredThrough| + |Json.DumpAll(deletions)| + |Json.Numeral(version)|
  {
    var first := Json.Member("covered_through", Json.String(coveredThrough));
    var second := Json.Member("deletions", Json.Array(deletions));
    var third := Json.Member("version", Json.Number(version));
    hide Json.Numeral, Json.DumpAll, Json.PrintableAll;
    var tail := PrintableTail(second, third);
    Json.MemberBefore(first, tail);
    assert |Json.DumpMember(first)| == 20 + |coveredThrough|;
    assert LedgerObject(coveredThrough, deletions, version).members == [first] + tail;
  }

  lemma PrintableTail(second: Json.Member, third: Json.Member) returns (tail: seq<Json.Member>)
    requires second.key == "deletions" && Json.Printable(second.value) && second.value.Array?
    requires third.key == "version" && Json.Printable(third.value) && third.value.Number?
    ensures tail == [second, third] && Json.PrintableMembers(tail) && Json.KeysOf(tail) == ["deletions", "version"]
    ensures |Json.DumpMembers(tail)| == 25 + |Json.DumpAll(second.value.items)| + |Json.Numeral(third.value.n)|
  {
    hide Json.DumpAll, Json.PrintableAll, Json.Numeral;
    Json.MemberBefore(third, []);
    Json.MemberBefore(second, [third] + []);
    tail := [second] + ([third] + []);
    assert |Json.DumpMember(third)| == 10 + |Json.Numeral(third.value.n)|;
    assert |Json.DumpMember(second)| == 14 + |Json.DumpAll(second.value.items)|;
  }

  /** Printing loses nothing: the JSON value of every ledger, of any version and order, is read back. */
  lemma RenderedValueIsReadBack(l: Ledger)
    ensures Json.Loads(Render(l)) == Some(LedgerValue(l))
  {
    FormatIsPlain(l.coveredThrough);
    EntryValuesArePrintable(l.deletions);
    LedgerObjectIsPrintable(Format(l.coveredThrough), EntryValues(l.deletions), l.version);
    Json.LoadsUndoesDump(LedgerValue(l));
  }

  /** The exact size of a rendering; ten thousand entries stay below the byte limit. */
  lemma RenderLength(l: Ledger)
    requires l.version == LEDGER_VERSION
    ensures |Render(l)| == 77 + (if l.deletions == [] then 0 else 94 * |l.deletions| - 1)
    ensures |l.deletions| <= MAX_LEDGER_ENTRIES ==> 0 < |Render(l)| <= MAX_LEDGER_BYTES
  {
    EntryValuesArePrintable(l.deletions);
    FormatIsPlain(l.coveredThrough);
    LedgerObjectIsPrintable(Format(l.coveredThrough), EntryValues(l.deletions), l.version);
  }

  // ---- parsing ----

  function Lookup(members: seq<Json.Member>, key: string): Option<Json.Value> {
    if members == [] then None
    else if members[0].key == key then Some(members[0].value)
    else Lookup(members[1..], key)
  }

  /** The value is an object with exactly these keys. */
  predicate HasKeys(v: Json.Value, keys: set<string>) {
    v.Object? && (set k | k in Json.KeysOf(v.members)) == keys
  }

  lemma {:induction false} LookupFinds(members: seq<Json.Member>, key: string)
    requires key in Json.KeysOf(members)
    ensures Lookup(members, key).Some?
  {
    if members[0].key != key {
      var i :| 0 <= i < |members| && Json.KeysOf(members)[i] == key;
      assert Json.KeysOf(members[1..])[i - 1] == key;
      LookupFinds(members[1..], key);
    }
  }

  /** Reads one field of an object known to have it. */
  function FieldOf(v: Json.Value, key: string): Json.Value
    requires v.Object? && key in Json.KeysOf(v.members)
  {
    LookupFinds(v.members, key);
    Lookup(v.members, key).value
  }

  function TimestampOf(v: Json.Value): Option<Timestamp> {
    if v.String? then Timestamps.Parse(v.text) else None
  }

  function UuidOf(v: Json.Value): Option<Uuid> {
    if v.String? then CanonicalUuid(v.text) else None
  }

  const LEDGER_KEYS: set<string> := {"covered_through", "deletions", "version"}
  const ENTRY_KEYS: set<string> := {"deleted_at", "user_id"}

  lemma EntryObjectFields(deletedAt: string, userId: string)
    ensures HasKeys(EntryObject(deletedAt, userId), ENTRY_KEYS)
    ensures FieldOf(EntryObject(deletedAt, userId), "user_id") == Json.String(userId)
    ensures FieldOf(EntryObject(deletedAt, userId), "deleted_at") == Json.String(deletedAt)
  {
    var members := EntryObject(deletedAt, userId).members;
    assert Json.KeysOf(members) == ["deleted_at", "user_id"];
    assert members[1..][0].key == "user_id";
    assert Lookup(members, "user_id") == Lookup(members[1..], "user_id") == Some(Json.String(userId));
  }

  lemma LedgerObjectFields(coveredThrough: string, deletions: seq<Json.Value>, version: nat)
    ensures HasKeys(LedgerObject(coveredThrough, deletions, version), LEDGER_KEYS)
    ensures FieldOf(LedgerObject(coveredThrough, deletions, version), "version") == Json.Number(version)
    ensures FieldOf(LedgerObject(coveredThrough, deletions, version), "covered_through") == Json.String(coveredThrough)
    ensures FieldOf(LedgerObject(coveredThrough, deletions, version), "deletions") == Json.Array(deletions)
  {
    var members := LedgerObject(coveredThrough, deletions, version).members;
    assert Json.KeysOf(members) == ["covered_through", "deletions", "version"];
    var tail := members[1..];
    assert tail[0].key == "deletions" && tail[1..][0].key == "version";
    assert Lookup(members, "deletions") == Lookup(tail, "deletions") == Some(Json.Array(deletions));
    assert Lookup(members, "version") == Lookup(tail, "version") == Lookup(tail[1..], "version")
        == Some(Json.Number(version));
  }

  lemma EntryFields(e: Entry)
    ensures HasKeys(EntryValue(e), ENTRY_KEYS)
    ensures UuidOf(FieldOf(EntryValue(e), "user_id")) == Some(e.userId)
    ensures TimestampOf(FieldOf(EntryValue(e), "deleted_at")) == Some(e.deletedAt)
  {
    EntryObjectFields(Format(e.deletedAt), Canonical(e.userId));
    CanonicalRoundTrip(e.userId);
    FormatRoundTrip(e.deletedAt);
  }

  lemma LedgerFields(l: Ledger)
    ensures HasKeys(LedgerValue(l), LEDGER_KEYS)
    ensures FieldOf(LedgerValue(l), "version") == Json.Number(l.version)
    ensures TimestampOf(FieldOf(LedgerValue(l), "covered_through")) == Some(l.coveredThrough)
    ensures FieldOf(LedgerValue(l), "deletions") == Json.Array(EntryValues(l.deletions))
  {
    LedgerObjectFields(Format(l.coveredThrough), EntryValues(l.deletions), l.version);
    FormatRoundTrip(l.coveredThrough);
  }

  lemma HasKeysMember(v: Json.Value, keys: set<string>)
    requires HasKeys(v, keys)
    ensures forall k :: k in keys ==> k in Json.KeysOf(v.members)
  {
    forall k | k in keys ensures k in Json.KeysOf(v.members) {
      assert k in (set x | x in Json.KeysOf(v.members));
    }
  }

  /** What the parser reads from one element of the list, before it is compared with its neighbours. */
  function DecodeEntry(v: Json.Value): Option<Entry> {
    if !HasKeys(v, ENTRY_KEYS) then None
    else
      HasKeysMember(v, ENTRY_KEYS);
      var userId, deletedAt := UuidOf(FieldOf(v, "user_id")), TimestampOf(FieldOf(v, "deleted_at"));
      if userId.Some? && deletedAt.Some? then Some(Entry(userId.value, deletedAt.value)) else None
  }

  /** The fields around the list: the coverage time and the raw entries. */
  function DecodeHeader(v: Json.Value): (r: Option<(Timestamp, seq<Json.Value>)>)
    ensures r.Some? ==> |r.value.1| <= MAX_LEDGER_ENTRIES
  {
    if !HasKeys(v, LEDGER_KEYS) then None
    else
      HasKeysMember(v, LEDGER_KEYS);
      var coveredThrough, deletions := TimestampOf(FieldOf(v, "covered_through")), FieldOf(v, "deletions");
      if FieldOf(v, "version") == Json.Number(LEDGER_VERSION) && coveredThrough.Some? && deletions.Array?
         && |deletions.items| <= MAX_LEDGER_ENTRIES
      then Some((coveredThrough.value, deletions.items))
      else None
  }

  lemma DecodesRendered(l: Ledger)
    requires l.version == LEDGER_VERSION && |l.deletions| <= MAX_LEDGER_ENTRIES
    ensures DecodeHeader(LedgerValue(l)) == Some((l.coveredThrough, EntryValues(l.deletions)))
    ensures forall i :: 0 <= i < |l.deletions| ==> DecodeEntry(EntryValues(l.deletions)[i]) == Some(l.deletions[i])
  {
    LedgerFields(l);
    forall i | 0 <= i < |l.deletions| ensures DecodeEntry(EntryValues(l.deletions)[i]) == Some(l.deletions[i]) {
      EntryFields(l.deletions[i]);
    }
  }

  /** The raw elements decode, one by one, to these entries. */
  ghost predicate Decodes(raws: seq<Json.Value>, entries: seq<Entry>) {
    |raws| == |entries| && forall i :: 0 <= i < |raws| ==> DecodeEntry(raws[i]) == Some(entries[i])
  }

  /** The parser's `previous_user_id` after it has accepted these entries. */
  function PreviousUserId(entries: seq<Entry>): Option<string> {
    if entries == [] then None else Some(Canonical(entries[|entries| - 1].userId))
  }

  /** The parser's order and coverage checks on the next entry. */
  predicate Follows(previousUserId: Option<string>, coveredThrough: Timestamp, e: Entry) {
    && (previousUserId.Some? ==> Less(previousUserId.value, Canonical(e.userId)))
    && !e.deletedAt.After(coveredThrough)
  }

  /** Comparing with the last text only is enough to keep the whole list increasing. */
  lemma FollowsExtends(entries: seq<Entry>, coveredThrough: Timestamp, e: Entry)
    requires Increasing(entries) && Covered(entries, coveredThrough)
    ensures Follows(PreviousUserId(entries), coveredThrough, e)
            <==> Increasing(entries + [e]) && Covered(entries + [e], coveredThrough)
  {
    hide Canonical, Less;
    var all := entries + [e];
    assert all[|entries|] == e;
    if entries != [] {
      var last := entries[|entries| - 1];
      CanonicalOrder(last.userId, e.userId);
      assert all[|entries| - 1] == last;
    }
  }

  /** The loop over the raw entries: order is checked on the canonical texts, coverage on the timestamps. */
  method ReadEntries(raws: seq<Json.Value>, coveredThrough: Timestamp) returns (r: Option<seq<Entry>>)
    ensures r.Some? ==> Decodes(raws, r.value) && Increasing(r.value) && Covered(r.value, coveredThrough)
    ensures r.None? ==> forall es :: Decodes(raws, es) ==> !(Increasing(es) && Covered(es, coveredThrough))
  {
    hide DecodeEntry, Canonical, Follows;
    var entries: seq<Entry> := [];
    var previousUserId: Option<string> := None;
    for i := 0 to |raws|
      invariant Decodes(raws[..i], entries)
      invariant Increasing(entries) && Covered(entries, coveredThrough)
      invariant previousUserId == PreviousUserId(entries)
    {
      var entry := DecodeEntry(raws[i]);
      if entry.None? { return None; }
      FollowsExtends(entries, coveredThrough, entry.value);
      if !Follows(previousUserId, coveredThrough, entry.value) {
        forall es | Decodes(raws, es) ensures !(Increasing(es) && Covered(es, coveredThrough)) {
          PrefixDecodes(raws, es, i, entries, entry.value);
        }
        return None;
      }
      entries := entries + [entry.value];
      previousUserId := Some(Canonical(entry.value.userId));
    }
    assert raws[..|raws|] == raws;
    r := Some(entries);
  }

  lemma PrefixDecodes(raws: seq<Json.Value>, es: seq<Entry>, i: nat, entries: seq<Entry>, next: Entry)
    requires Decodes(raws, es) && i < |raws| && Decodes(raws[..i], entries) && DecodeEntry(raws[i]) == Some(next)
    ensures es[..i + 1] == entries + [next]
    ensures Increasing(es) ==> Increasing(entries + [next])
    ensures forall t: Timestamp :: Covered(es, t) ==> Covered(entries + [next], t)
  {
    hide DecodeEntry;
    forall k | 0 <= k < i ensures es[k] == entries[k] {
      assert raws[..i][k] == raws[k];
    }
    assert es[..i + 1] == entries + [next];
    assert forall k :: 0 <= k < i + 1 ==> (entries + [next])[k] == es[k];
  }

  /**
   * `parse_deletion_ledger`. It accepts exactly the renderings of well-formed ledgers, and returns the
   * ledger that was rendered.
   */
  method ParseDeletionLedger(data: string) returns (r: Option<Ledger>)
    ensures r.Some? ==> WellFormed(r.value) && Render(r.value) == data
    ensures r.None? ==> forall l :: WellFormed(l) ==> Render(l) != data
  {
    hide DecodeEntry, DecodeHeader, Render, Json.Loads;
    forall l | WellFormed(l) && Render(l) == data ensures Decoded(data, l) { RenderingDecodes(l); }
    if data == "" || |data| > MAX_LEDGER_BYTES { return None; }
    var loaded := Json.Loads(data);
    if loaded.None? { return None; }
    var header := DecodeHeader(loaded.value);
    if header.None? { return None; }
    var (coveredThrough, rawDeletions) := header.value;
    var entries := ReadEntries(rawDeletions, coveredThrough);
    if entries.None? { return None; }
    var ledger := Ledger(coveredThrough, entries.value, LEDGER_VERSION);
    forall l | WellFormed(l) && Render(l) == data ensures l == ledger {
      DecodesUnique(rawDeletions, l.deletions, entries.value);
    }
    return if Render(ledger) == data then Some(ledger) else None;
  }

  lemma DecodesUnique(raws: seq<Json.Value>, a: seq<Entry>, b: seq<Entry>)
    requires Decodes(raws, a) && Decodes(raws, b)
    ensures a == b
  {
    forall i | 0 <= i < |a| ensures a[i] == b[i] {
      assert DecodeEntry(raws[i]) == Some(a[i]);
    }
  }

  /** Every stage before the final comparison lets `l` through when the data is its rendering. */
  ghost predicate Decoded(data: string, l: Ledger) {
    && 0 < |data| <= MAX_LEDGER_BYTES
    && Json.Loads(data).Some?
    && var header := DecodeHeader(Json.Loads(data).value);
    && header.Some? && header.value.0 == l.coveredThrough
    && Decodes(header.value.1, l.deletions)
  }

  lemma RenderingDecodes(l: Ledger)
    requires WellFormed(l)
    ensures Decoded(Render(l), l)
  {
    RenderLength(l);
    RenderedValueIsReadBack(l);
    DecodesRendered(l);
  }

  /** Two well-formed ledgers with one rendering are one ledger, so the parser's answer is unique. */
  lemma RenderIsInjective(l: Ledger, m: Ledger)
    requires Render(l) == Render(m)
    ensures l == m
  {
    RenderedValueIsReadBack(l);
    RenderedValueIsReadBack(m);
    LedgerFields(l);
    LedgerFields(m);
    hide *;
    forall i | 0 <= i < |l.deletions| ensures l.deletions[i] == m.deletions[i] {
      assert EntryValues(l.deletions)[i] == EntryValues(m.deletions)[i];
      EntryFields(l.deletions[i]);
      EntryFields(m.deletions[i]);
    }
  }
}
