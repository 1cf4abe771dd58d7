/**
 * The part of JSON (sections 2 to 7 of RFC 8259) that the deletion ledger is written in: objects, arrays,
 * natural numbers and strings of printable ASCII without quotes or backslashes, with no white space.
 */
module Json {
  import opened Outcomes
  import opened Text

  datatype Value =
    | Number(n: nat)
    | String(text: string)
    | Array(items: seq<Value>)
    | Object(members: seq<Member>)

  datatype Member = Member(key: string, value: Value)

  predicate PlainChar(c: char) { ' ' <= c <= '~' && c != '"' && c != '\\' }

  predicate Plain(s: string) { forall c :: c in s ==> PlainChar(c) }

  predicate Digit(c: char) { '0' <= c <= '9' }

  /** The keys of an object in order, with repetitions. */
  function KeysOf(members: seq<Member>): (keys: seq<string>)
    ensures |keys| == |members|
  {
    seq(|members|, i requires 0 <= i < |members| => members[i].key)
  }

  /** Values the subset can spell: plain strings and objects without a repeated key. */
  predicate Printable(v: Value)
    decreases v, 1
  {
    match v
    case Number(_) => true
    case String(text) => Plain(text)
    case Array(items) => PrintableAll(items)
    case Object(members) => PrintableMembers(members)
  }

  predicate PrintableAll(items: seq<Value>)
    decreases items, 0
  {
    items != [] ==> Printable(items[0]) && PrintableAll(items[1..])
  }

  predicate PrintableMembers(members: seq<Member>)
    decreases members, 0
  {
    members != [] ==>
      && Plain(members[0].key)
      && members[0].key !in KeysOf(members[1..])
      && Printable(members[0].value)
      && PrintableMembers(members[1..])
  }

  // ---- the printer: json.dumps(..., separators=(",", ":")) ----

  function Numeral(n: nat): (s: string)
    ensures s != ""
  {
    if n < 10 then [NUMERALS[n]] else Numeral(n / 10) + [NUMERALS[n % 10]]
  }

  function Quoted(s: string): string { "\"" + s + "\"" }

  function Dump(v: Value): string
    decreases v, 1
  {
    match v
    case Number(n) => Numeral(n)
    case String(text) => Quoted(text)
    case Array(items) => "[" + DumpAll(items) + "]"
    case Object(members) => "{" + DumpMembers(members) + "}"
  }

  function DumpAll(items: seq<Value>): string
    decreases items, 0
  {
    if items == [] then ""
    else if |items| == 1 then Dump(items[0])
    else Dump(items[0]) + "," + DumpAll(items[1..])
  }

  function DumpMember(m: Member): string
    decreases m, 2
  {
    Quoted(m.key) + ":" + Dump(m.value)
  }

  function DumpMembers(members: seq<Member>): string
    decreases members, 0
  {
    if members == [] then ""
    else if |members| == 1 then DumpMember(members[0])
    else DumpMember(members[0]) + "," + DumpMembers(members[1..])
  }

  // ---- the parser: each function returns what it read and the text that follows ----

  datatype Read<T> = Read(value: T, rest: string)

  /** The string body up to the closing quote. */
  function TakeString(s: string): (r: Option<Read<string>>)
    ensures r.Some? ==> |r.value.rest| < |s|
  {
    if s == "" then None
    else if s[0] == '"' then Some(Read("", s[1..]))
    else if !PlainChar(s[0]) then None
    else
      var r := TakeString(s[1..]);
      if r.None? then None else Some(Read([s[0]] + r.value.value, r.value.rest))
  }

  function DigitRun(s: string): (k: nat)
    ensures k <= |s|
  {
    if s == "" || !Digit(s[0]) then 0 else 1 + DigitRun(s[1..])
  }

  function TakeNumber(s: string): (r: Option<Read<nat>>)
    ensures r.Some? ==> |r.value.rest| < |s|
  {
    var k := DigitRun(s);
    if k == 0 || (s[0] == '0' && k > 1) then None
    else
      var v := DigitsValue(s[..k], Decimal);
      if v.None? then None else Some(Read(v.value, s[k..]))
  }

  function TakeValue(s: string): (r: Option<Read<Value>>)
    ensures r.Some? ==> |r.value.rest| < |s|
    decreases |s|, 0
  {
    if s == "" then None
    else if s[0] == '"' then
      var r := TakeString(s[1..]);
      if r.None? then None else Some(Read(String(r.value.value), r.value.rest))
    else if s[0] == '[' then
      if |s| > 1 && s[1] == ']' then Some(Read(Array([]), s[2..]))
      else
        var r := TakeItems(s[1..]);
        if r.None? then None else Some(Read(Array(r.value.value), r.value.rest))
    else if s[0] == '{' then
      if |s| > 1 && s[1] == '}' then Some(Read(Object([]), s[2..]))
      else
        var r := TakeMembers(s[1..]);
        if r.None? then None else Some(Read(Object(r.value.value), r.value.rest))
    else
      var r := TakeNumber(s);
      if r.None? then None else Some(Read(Number(r.value.value), r.value.rest))
  }

  /** One or more values separated by commas and closed by a bracket. */
  function TakeItems(s: string): (r: Option<Read<seq<Value>>>)
    ensures r.Some? ==> |r.value.rest| < |s|
    decreases |s|, 1
  {
    var first := TakeValue(s);
    if first.None? || first.value.rest == "" then None
    else if first.value.rest[0] == ']' then Some(Read([first.value.value], first.value.rest[1..]))
    else if first.value.rest[0] == ',' then
      var more := TakeItems(first.value.rest[1..]);
      if more.None? then None else Some(Read([first.value.value] + more.value.value, more.value.rest))
    else None
  }

  function TakeMember(s: string): (r: Option<Read<Member>>)
    ensures r.Some? ==> |r.value.rest| < |s|
    decreases |s|, 0
  {
    if s == "" || s[0] != '"' then None
    else
      var key := TakeString(s[1..]);
      if key.None? || key.value.rest == "" || key.value.rest[0] != ':' then None
      else
        var value := TakeValue(key.value.rest[1..]);
        if value.None? then None else Some(Read(Member(key.value.value, value.value.value), value.value.rest))
  }

  /** One or more members closed by a brace; a repeated key is an error. */
  function TakeMembers(s: string): (r: Option<Read<seq<Member>>>)
    ensures r.Some? ==> |r.value.rest| < |s|
    decreases |s|, 1
  {
    var first := TakeMember(s);
    if first.None? || first.value.rest == "" then None
    else if first.value.rest[0] == '}' then Some(Read([first.value.value], first.value.rest[1..]))
    else if first.value.rest[0] == ',' then
      var more := TakeMembers(first.value.rest[1..]);
      if more.None? || first.value.value.key in KeysOf(more.value.value) then None
      else Some(Read([first.value.value] + more.value.value, more.value.rest))
    else None
  }

  // ---- reading back what was printed ----

  /** `rest` cannot extend a number that was just printed. */
  predicate Ends(rest: string) { rest == "" || !Digit(rest[0]) }

  lemma {:induction false} TakeStringUndoes(s: string, rest: string)
    requires Plain(s)
    ensures TakeString(s + "\"" + rest) == Some(Read(s, rest))
  {
    var t := s + "\"" + rest;
    if s == "" {
      assert t[1..] == rest;
    } else {
      var tail := s[1..] + "\"" + rest;
      assert t[1..] == tail && t[0] == s[0] && PlainChar(s[0]);
      TakeStringUndoes(s[1..], rest);
      assert [s[0]] + s[1..] == s;
    }
  }

  lemma {:induction false} NumeralIsDigits(n: nat)
    ensures forall i :: 0 <= i < |Numeral(n)| ==> Digit(Numeral(n)[i])
    ensures Numeral(n)[0] == '0' ==> n == 0
    ensures DigitsValue(Numeral(n), Decimal) == Some(n)
  {
    hide DigitsValue, DigitValue;
    NumeralsAreDigits(n % 10);
    if n < 10 {
      EmptyNumeral();
      DigitsValueSnoc([], 0, n, Decimal);
      assert [] + [NUMERALS[n]] == [NUMERALS[n]];
    } else {
      NumeralIsDigits(n / 10);
      DigitsValueSnoc(Numeral(n / 10), n / 10, n % 10, Decimal);
    }
  }

  lemma EmptyNumeral()
    ensures DigitsValue([], Decimal) == Some(0)
  {
  }

  lemma {:induction false} DigitRunStops(digits: string, rest: string)
    requires forall i :: 0 <= i < |digits| ==> Digit(digits[i])
    requires Ends(rest)
    ensures DigitRun(digits + rest) == |digits|
  {
    if digits == "" {
      assert digits + rest == rest;
    } else {
      assert (digits + rest)[1..] == digits[1..] + rest;
      DigitRunStops(digits[1..], rest);
    }
  }

  lemma TakeNumberUndoes(n: nat, rest: string)
    requires Ends(rest)
    ensures TakeNumber(Numeral(n) + rest) == Some(Read(n, rest))
  {
    NumeralIsDigits(n);
    DigitRunStops(Numeral(n), rest);
    var s := Numeral(n) + rest;
    assert s[..|Numeral(n)|] == Numeral(n) && s[|Numeral(n)|..] == rest;
  }

  lemma DumpStart(v: Value)
    ensures Dump(v) != "" && Dump(v)[0] !in {']', '}', ','}
    ensures v.Number? ==> Digit(Dump(v)[0])
  {
    if v.Number? { NumeralIsDigits(v.n); }
  }

  /** Parsing a printed value returns it and leaves exactly what followed it. */
  lemma {:induction false} TakeValueUndoes(v: Value, rest: string)
    requires Printable(v) && Ends(rest)
    ensures TakeValue(Dump(v) + rest) == Some(Read(v, rest))
    decreases v, 1
  {
    match v
    case Number(n) =>
      DumpStart(v);
      TakeNumberUndoes(n, rest);
    case String(text) =>
      TakeStringUndoes(text, rest);
      TakeQuoted(text + "\"" + rest);
      assert Dump(v) + rest == "\"" + (text + "\"" + rest);
    case Array(items) =>
      if items != [] { TakeItemsUndoes(items, rest); }
      TakePrintedArray(items, rest);
    case Object(members) =>
      if members != [] { TakeMembersUndoes(members, rest); }
      TakePrintedObject(members, rest);
  }

  lemma TakePrintedArray(items: seq<Value>, rest: string)
    requires items != [] ==> TakeItems(DumpAll(items) + "]" + rest) == Some(Read(items, rest))
    ensures TakeValue(Dump(Array(items)) + rest) == Some(Read(Array(items), rest))
  {
    if items == [] {
      assert Dump(Array([])) + rest == "[]" + rest && ("[]" + rest)[2..] == rest;
    } else {
      FirstOfItems(items, rest);
      TakeArray(DumpAll(items) + "]" + rest);
      assert Dump(Array(items)) + rest == "[" + (DumpAll(items) + "]" + rest);
    }
  }

  lemma TakePrintedObject(members: seq<Member>, rest: string)
    requires members != [] ==> TakeMembers(DumpMembers(members) + "}" + rest) == Some(Read(members, rest))
    ensures TakeValue(Dump(Object(members)) + rest) == Some(Read(Object(members), rest))
  {
    if members == [] {
      assert Dump(Object([])) + rest == "{}" + rest && ("{}" + rest)[2..] == rest;
    } else {
      TakeObject(DumpMembers(members) + "}" + rest);
      assert Dump(Object(members)) + rest == "{" + (DumpMembers(members) + "}" + rest);
    }
  }

  lemma TakeQuoted(t: string)
    ensures TakeString(t).Some? ==>
              TakeValue("\"" + t) == Some(Read(String(TakeString(t).value.value), TakeString(t).value.rest))
  {
    assert ("\"" + t)[1..] == t;
  }

  lemma FirstOfItems(items: seq<Value>, rest: string)
    requires items != []
    ensures (DumpAll(items) + "]" + rest)[0] != ']'
  {
    DumpStart(items[0]);
    assert DumpAll(items)[0] == Dump(items[0])[0];
  }

  lemma TakeArray(t: string)
    requires t != "" && t[0] != ']'
    ensures TakeItems(t).Some? ==>
              TakeValue("[" + t) == Some(Read(Array(TakeItems(t).value.value), TakeItems(t).value.rest))
  {
    assert ("[" + t)[1..] == t && ("[" + t)[1] == t[0];
  }

  lemma TakeObject(t: string)
    requires TakeMembers(t).Some?
    ensures TakeValue("{" + t) == Some(Read(Object(TakeMembers(t).value.value), TakeMembers(t).value.rest))
  {
    assert ("{" + t)[1..] == t;
    assert t[0] == '"';
  }

  lemma {:induction false} TakeItemsUndoes(items: seq<Value>, rest: string)
    requires items != [] && PrintableAll(items)
    ensures TakeItems(DumpAll(items) + "]" + rest) == Some(Read(items, rest))
    decreases items, 0
  {
    assert items == [items[0]] + items[1..];
    if |items| == 1 {
      assert items == [items[0]];
      assert DumpAll(items) + "]" + rest == Dump(items[0]) + ("]" + rest);
      TakeValueUndoes(items[0], "]" + rest);
      assert ("]" + rest)[1..] == rest;
    } else {
      var tail := DumpAll(items[1..]) + "]" + rest;
      assert DumpAll(items) + "]" + rest == Dump(items[0]) + ("," + tail);
      TakeValueUndoes(items[0], "," + tail);
      assert ("," + tail)[1..] == tail;
      TakeItemsUndoes(items[1..], rest);
    }
  }

  lemma {:induction false} TakeMemberUndoes(m: Member, rest: string)
    requires Plain(m.key) && Printable(m.value) && Ends(rest)
    ensures TakeMember(DumpMember(m) + rest) == Some(Read(m, rest))
    decreases m, 2
  {
    var s := DumpMember(m) + rest;
    var tail := Dump(m.value) + rest;
    assert s[1..] == m.key + "\"" + (":" + tail);
    TakeStringUndoes(m.key, ":" + tail);
    assert (":" + tail)[1..] == tail;
    TakeValueUndoes(m.value, rest);
  }

  lemma {:induction false} TakeMembersUndoes(members: seq<Member>, rest: string)
    requires members != [] && PrintableMembers(members)
    ensures TakeMembers(DumpMembers(members) + "}" + rest) == Some(Read(members, rest))
    decreases members, 0
  {
    assert members == [members[0]] + members[1..];
    if |members| == 1 {
      assert members == [members[0]];
      assert DumpMembers(members) + "}" + rest == DumpMember(members[0]) + ("}" + rest);
      TakeMemberUndoes(members[0], "}" + rest);
      assert ("}" + rest)[1..] == rest;
    } else {
      var tail := DumpMembers(members[1..]) + "}" + rest;
      assert DumpMembers(members) + "}" + rest == DumpMember(members[0]) + ("," + tail);
      TakeMemberUndoes(members[0], "," + tail);
      assert ("," + tail)[1..] == tail;
      TakeMembersUndoes(members[1..], rest);
    }
  }

  /** Building an object one member at a time. */
  lemma MemberBefore(m: Member, rest: seq<Member>)
    requires Plain(m.key) && Printable(m.value) && m.key !in KeysOf(rest) && PrintableMembers(rest)
    ensures PrintableMembers([m] + rest)
    ensures KeysOf([m] + rest) == [m.key] + KeysOf(rest)
    ensures DumpMembers([m] + rest) == if rest == [] then DumpMember(m) else DumpMember(m) + "," + DumpMembers(rest)
  {
    assert ([m] + rest)[1..] == rest;
  }

  /** The whole input must be one value and the newline the ledger ends with. */
  function Loads(data: string): Option<Value> {
    var r := TakeValue(data);
    if r.Some? && r.value.rest == "\n" then Some(r.value.value) else None
  }

  lemma LoadsUndoesDump(v: Value)
    requires Printable(v)
    ensures Loads(Dump(v) + "\n") == Some(v)
  {
    TakeValueUndoes(v, "\n");
  }
}
