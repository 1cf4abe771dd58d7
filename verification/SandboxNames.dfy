/** The names and labels a generation's Docker resources carry, and how a generation is read back from them. */
module SandboxNames {
  import opened Outcomes
  import opened Text
  import opened Uuids

  datatype Kind = Container | Network

  const PREFIX := "recipe-lab-sandbox-"

  /** The part of a name after the generation's prefix. */
  const CONTAINER_SUFFIXES := ["-frontend", "-backend", "-initialize", "-db"]
  const NETWORK_SUFFIXES := ["-ingress", ""]

  function Suffixes(kind: Kind): seq<string> {
    if kind == Container then CONTAINER_SUFFIXES else NETWORK_SUFFIXES
  }

  function NameOf(generation: Uuid, suffix: string): string {
    PREFIX + Hex(generation) + suffix
  }

  /** How `inspect` shows a name. */
  function Shown(kind: Kind, name: string): string {
    if kind == Container then "/" + name else name
  }

  predicate LowerHex(s: string) {
    forall i :: 0 <= i < |s| ==> '0' <= s[i] <= '9' || 'a' <= s[i] <= 'f'
  }

  /** `CONTAINER_NAME` and `NETWORK_NAME`: the 32 digits captured by the pattern, if the whole name matches. */
  function Captured(kind: Kind, shown: string): Option<string> {
    var start := Shown(kind, PREFIX);
    if |shown| >= |start| + 32 && shown[..|start|] == start && LowerHex(shown[|start|..|start| + 32])
       && shown[|start| + 32..] in Suffixes(kind)
    then Some(shown[|start|..|start| + 32])
    else None
  }

  /** `_identifier_from_resource`: the name and the label must both spell one generation. */
  function IdentifierFromResource(kind: Kind, shown: Option<string>, tag: Option<string>): Option<Uuid> {
    if shown.None? || tag.None? then None
    else
      var captured, identifier := Captured(kind, shown.value), Parsed(tag.value);
      if identifier.None? || captured.None? || tag.value != Canonical(identifier.value)
         || captured.value != Hex(identifier.value)
      then None
      else identifier
  }

  /** A generation's name is captured as its 32 digits. */
  lemma NameIsCaptured(kind: Kind, g: Uuid, s: string)
    requires s in Suffixes(kind)
    ensures Captured(kind, Shown(kind, NameOf(g, s))) == Some(Hex(g))
  {
    hide Hex, Suffixes, LowerHex;
    HexIsLower(g);
    var start, shown := Shown(kind, PREFIX), Shown(kind, NameOf(g, s));
    assert shown == start + (Hex(g) + s);
    assert shown[|start|..] == Hex(g) + s;
    assert shown[..|start|] == start && shown[|start|..|start| + 32] == Hex(g) && shown[|start| + 32..] == s;
  }

  /** The patterns capture exactly the digits between the prefix and a known suffix. */
  lemma CapturedIsExact(kind: Kind, shown: string, g: Uuid)
    ensures Captured(kind, shown) == Some(Hex(g))
       <==> exists s :: s in Suffixes(kind) && shown == Shown(kind, NameOf(g, s))
  {
    hide Hex, Suffixes, LowerHex;
    var start := Shown(kind, PREFIX);
    if Captured(kind, shown) == Some(Hex(g)) {
      var s := shown[|start| + 32..];
      assert shown == shown[..|start|] + shown[|start|..|start| + 32] + s;
      assert shown == Shown(kind, NameOf(g, s));
    }
    if s :| s in Suffixes(kind) && shown == Shown(kind, NameOf(g, s)) {
      hide Captured, Shown;
      NameIsCaptured(kind, g, s);
    }
  }

  lemma HexIsLower(g: Uuid)
    ensures LowerHex(Hex(g))
  {
    PaddedUsesNumerals(g, 32, Hexadecimal);
  }

  /** A resource is attributed to a generation exactly when it has one of that generation's names and its label. */
  lemma IdentifierIsExact(kind: Kind, shown: string, tag: string, g: Uuid)
    ensures IdentifierFromResource(kind, Some(shown), Some(tag)) == Some(g)
       <==> tag == Canonical(g) && exists s :: s in Suffixes(kind) && shown == Shown(kind, NameOf(g, s))
  {
    hide Hex, Canonical, Captured, Parsed, Suffixes, NameOf, Shown;
    CapturedIsExact(kind, shown, g);
    CanonicalRoundTrip(g);
  }

  /** Different generations never share a name, whatever the kind or suffix. */
  lemma NamesAreDisjoint(g: Uuid, h: Uuid, s: string, t: string)
    requires NameOf(g, s) == NameOf(h, t)
    ensures g == h && s == t
  {
    var m, n := |PREFIX|, |PREFIX| + 32;
    assert NameOf(g, s)[m..n] == Hex(g) && NameOf(h, t)[m..n] == Hex(h);
    assert NameOf(g, s)[n..] == s && NameOf(h, t)[n..] == t;
    HexInjective(g, h);
  }
}
