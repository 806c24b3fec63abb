/** The serialised form that the storage service writes and reads. Values are
    JSON-shaped (null, booleans, whole numbers, strings, arrays, objects with
    ordered members); `Stringify` is total and `Parse` is partial, and the
    two are proved to round-trip. */
module Json {
  import opened Wrappers
  import opened Text

  datatype Json =
    | Null
    | Bool(b: bool)
    | Num(n: int)
    | Str(s: string)
    | Arr(elems: seq<Json>)
    | Obj(members: seq<Member>)

  datatype Member = Member(key: string, value: Json)

  // ---------------------------------------------------------------- writing

  /** String contents: a backslash goes before every quote and backslash. */
  function Escape(s: string): string
    decreases |s|
  {
    if s == [] then []
    else (if s[0] == '"' || s[0] == '\\' then ['\\', s[0]] else [s[0]]) + Escape(s[1..])
  }

  function Quote(s: string): string {
    "\"" + Escape(s) + "\""
  }

  function Stringify(v: Json): string
    decreases v
  {
    match v
    case Null => "null"
    case Bool(b) => if b then "true" else "false"
    case Num(n) => IntToString(n)
    case Str(s) => Quote(s)
    case Arr(es) => "[" + StringifyElems(es) + "]"
    case Obj(ms) => "{" + StringifyMembers(ms) + "}"
  }

  /** Array elements, separated by commas. */
  function StringifyElems(es: seq<Json>): string
    decreases es
  {
    if es == [] then ""
    else if |es| == 1 then Stringify(es[0])
    else Stringify(es[0]) + "," + StringifyElems(es[1..])
  }

  function StringifyMember(m: Member): string
    decreases m
  {
    Quote(m.key) + ":" + Stringify(m.value)
  }

  /** Object members, separated by commas. */
  function StringifyMembers(ms: seq<Member>): string
    decreases ms
  {
    if ms == [] then ""
    else if |ms| == 1 then StringifyMember(ms[0])
    else StringifyMember(ms[0]) + "," + StringifyMembers(ms[1..])
  }

  // ---------------------------------------------------------------- reading

  /** Reads string contents up to the closing quote (the opening quote is
      already consumed); returns the contents and what follows the quote. */
  function ParseString(s: string): (r: Option<(string, string)>)
    ensures r.Some? ==> |r.value.1| < |s|
    decreases |s|
  {
    if s == [] then None
    else if s[0] == '"' then Some(([], s[1..]))
    else if s[0] == '\\' then
      if |s| >= 2 && (s[1] == '"' || s[1] == '\\') then
        match ParseString(s[2..])
        case Some((t, rest)) => Some(([s[1]] + t, rest))
        case None => None
      else None
    else
      match ParseString(s[1..])
      case Some((t, rest)) => Some(([s[0]] + t, rest))
      case None => None
  }

  /** Length of the longest run of digits at the front of `s`. */
  function DigitRun(s: string): (k: nat)
    ensures k <= |s| && AllDigits(s[..k])
    ensures k < |s| ==> !IsDigit(s[k])
    decreases |s|
  {
    if s == [] || !IsDigit(s[0]) then 0
    else
      var k := 1 + DigitRun(s[1..]);
      assert s[..k] == [s[0]] + s[1..][..k - 1];
      k
  }

  /** A run of digits with no superfluous leading zero. */
  function ParseNat(s: string): (r: Option<(nat, string)>)
    ensures r.Some? ==> |r.value.1| < |s|
  {
    var k := DigitRun(s);
    if k == 0 || (k > 1 && s[0] == '0') then None
    else Some((DigitsValue(s[..k]), s[k..]))
  }

  function ParseNumber(s: string): (r: Option<(Json, string)>)
    ensures r.Some? ==> |r.value.1| < |s|
  {
    if s != [] && s[0] == '-' then
      match ParseNat(s[1..])
      case Some((n, rest)) => Some((Num(-(n as int)), rest))
      case None => None
    else
      match ParseNat(s)
      case Some((n, rest)) => Some((Num(n), rest))
      case None => None
  }

  /** Reads one value from the front of `s`; returns it and the unread rest. */
  function ParseValue(s: string): (r: Option<(Json, string)>)
    ensures r.Some? ==> |r.value.1| < |s|
    decreases |s|, 0
  {
    if s == [] then None
    else if s[0] == 'n' then (if StartsWith(s, "null") then Some((Null, s[4..])) else None)
    else if s[0] == 't' then (if StartsWith(s, "true") then Some((Bool(true), s[4..])) else None)
    else if s[0] == 'f' then (if StartsWith(s, "false") then Some((Bool(false), s[5..])) else None)
    else if s[0] == '"' then
      match ParseString(s[1..])
      case Some((t, rest)) => Some((Str(t), rest))
      case None => None
    else if s[0] == '-' || IsDigit(s[0]) then ParseNumber(s)
    else if s[0] == '[' then ParseArray(s[1..])
    else if s[0] == '{' then ParseObject(s[1..])
    else None
  }

  /** An array after its `[`: either empty or a run of elements. */
  function ParseArray(s: string): (r: Option<(Json, string)>)
    ensures r.Some? ==> |r.value.1| < |s|
    decreases |s|, 2
  {
    if s != [] && s[0] == ']' then Some((Arr([]), s[1..]))
    else
      match ParseElems(s)
      case Some((es, rest)) => Some((Arr(es), rest))
      case None => None
  }

  /** An object after its `{`: either empty or a run of members. */
  function ParseObject(s: string): (r: Option<(Json, string)>)
    ensures r.Some? ==> |r.value.1| < |s|
    decreases |s|, 2
  {
    if s != [] && s[0] == '}' then Some((Obj([]), s[1..]))
    else
      match ParseMembers(s)
      case Some((ms, rest)) => Some((Obj(ms), rest))
      case None => None
  }

  /** Reads `v1,v2,...]` (the `[` already consumed, at least one element). */
  function ParseElems(s: string): (r: Option<(seq<Json>, string)>)
    ensures r.Some? ==> |r.value.1| < |s|
    decreases |s|, 1
  {
    match ParseValue(s)
    case None => None
    case Some((v, rest)) =>
      if rest == [] then None
      else if rest[0] == ']' then Some(([v], rest[1..]))
      else if rest[0] == ',' then
        match ParseElems(rest[1..])
        case Some((vs, rest')) => Some(([v] + vs, rest'))
        case None => None
      else None
  }

  /** Reads `"k1":v1,"k2":v2,...}` (the `{` already consumed, at least one member). */
  function ParseMembers(s: string): (r: Option<(seq<Member>, string)>)
    ensures r.Some? ==> |r.value.1| < |s|
    decreases |s|, 1
  {
    if s == [] || s[0] != '"' then None
    else
      match ParseString(s[1..])
      case None => None
      case Some((k, r1)) =>
        if r1 == [] || r1[0] != ':' then None
        else
          match ParseValue(r1[1..])
          case None => None
          case Some((v, r2)) =>
            if r2 == [] then None
            else if r2[0] == '}' then Some(([Member(k, v)], r2[1..]))
            else if r2[0] == ',' then
              match ParseMembers(r2[1..])
              case Some((ms, rest)) => Some(([Member(k, v)] + ms, rest))
              case None => None
            else None
  }

  /** The whole text must be exactly one value. */
  function Parse(s: string): Option<Json> {
    match ParseValue(s)
    case Some((v, rest)) => if rest == [] then Some(v) else None
    case None => None
  }

  // ------------------------------------------------------------ round trip

  /** What may follow a value so that reading it stops at the right place:
      a number must not run on into further digits. */
  predicate Delimited(rest: string) {
    rest == [] || !IsDigit(rest[0])
  }

  lemma {:induction false} ParseEscaped(t: string, rest: string)
    ensures ParseString(Escape(t) + "\"" + rest) == Some((t, rest))
    decreases |t|
  {
    if t == [] {
      assert Escape(t) + "\"" + rest == "\"" + rest;
    } else {
      ParseEscaped(t[1..], rest);
      EscapedStep(t, rest);
    }
  }

  /** One character more in front: if the rest of the contents read back,
      so do the whole contents. */
  lemma EscapedStep(t: string, rest: string)
    requires t != [] && ParseString(Escape(t[1..]) + "\"" + rest) == Some((t[1..], rest))
    ensures ParseString(Escape(t) + "\"" + rest) == Some((t, rest))
  {
    var tail := Escape(t[1..]) + "\"" + rest;
    var head := if t[0] == '"' || t[0] == '\\' then ['\\', t[0]] else [t[0]];
    assert Escape(t) == head + Escape(t[1..]);
    Regroup3(head, Escape(t[1..]), "\"", rest);
    if t[0] == '"' || t[0] == '\\' {
      ReadEscapedPair(t[0], tail, t[1..], rest);
    } else {
      ReadPlainChar(t[0], tail, t[1..], rest);
    }
    assert [t[0]] + t[1..] == t;
  }

  lemma Regroup3(a: string, b: string, c: string, d: string)
    ensures (a + b) + c + d == a + (b + c + d)
  {
  }

  lemma ReadEscapedPair(c: char, u: string, v: string, r: string)
    requires (c == '"' || c == '\\') && ParseString(u) == Some((v, r))
    ensures ParseString(['\\', c] + u) == Some(([c] + v, r))
  {
    assert (['\\', c] + u)[2..] == u;
  }

  lemma ReadPlainChar(c: char, u: string, v: string, r: string)
    requires c != '"' && c != '\\' && ParseString(u) == Some((v, r))
    ensures ParseString([c] + u) == Some(([c] + v, r))
  {
    assert ([c] + u)[1..] == u;
  }

  lemma {:induction false} DigitRunOf(d: string, rest: string)
    requires AllDigits(d) && Delimited(rest)
    ensures DigitRun(d + rest) == |d|
    decreases |d|
  {
    if d != [] {
      assert (d + rest)[1..] == d[1..] + rest;
      DigitRunOf(d[1..], rest);
    }
  }

  /** Two numbers written around a separator that does not start with a
      digit read back: the leading digit run is the first number, then the
      separator, then the digits of the second. */
  lemma NumbersAround(a: nat, sep: string, b: nat)
    requires sep != [] && !IsDigit(sep[0])
    ensures var s := NatToString(a) + sep + NatToString(b);
      var k := DigitRun(s);
      k + |sep| <= |s| && s[k..k + |sep|] == sep
      && AllDigits(s[..k]) && DigitsValue(s[..k]) == a
      && AllDigits(s[k + |sep|..]) && DigitsValue(s[k + |sep|..]) == b
  {
    var x, y := NatToString(a), NatToString(b);
    ThreeParts(x, sep, y);
    DigitRunOf(x, sep + y);
    NatToStringRoundTrip(a);
    NatToStringRoundTrip(b);
  }

  lemma ThreeParts(x: string, sep: string, y: string)
    ensures var s := x + sep + y;
      s == x + (sep + y) && s[..|x|] == x && s[|x|..|x| + |sep|] == sep && s[|x| + |sep|..] == y
  {
  }

  lemma ParseNatOf(n: nat, rest: string)
    requires Delimited(rest)
    ensures ParseNat(NatToString(n) + rest) == Some((n, rest))
  {
    var d := NatToString(n);
    DigitRunOf(d, rest);
    assert (d + rest)[..|d|] == d;
    assert (d + rest)[|d|..] == rest;
    NatToStringRoundTrip(n);
  }

  // Each of these unfolds `ParseValue` once, for one kind of first character.

  lemma ValueAtNumber(s: string)
    requires s != [] && (s[0] == '-' || IsDigit(s[0]))
    ensures ParseValue(s) == ParseNumber(s)
  {
  }

  lemma ValueAtString(s: string, t: string, rest: string)
    requires s != [] && s[0] == '"' && ParseString(s[1..]) == Some((t, rest))
    ensures ParseValue(s) == Some((Str(t), rest))
  {
  }

  lemma ValueAtArray(s: string, es: seq<Json>, rest: string)
    requires |s| >= 2 && s[0] == '[' && s[1] != ']' && ParseElems(s[1..]) == Some((es, rest))
    ensures ParseValue(s) == Some((Arr(es), rest))
  {
    assert ParseArray(s[1..]) == Some((Arr(es), rest));
  }

  lemma ValueAtObject(s: string, ms: seq<Member>, rest: string)
    requires |s| >= 2 && s[0] == '{' && s[1] != '}' && ParseMembers(s[1..]) == Some((ms, rest))
    ensures ParseValue(s) == Some((Obj(ms), rest))
  {
    assert ParseObject(s[1..]) == Some((Obj(ms), rest));
  }

  lemma ValueAtEmpty(rest: string)
    ensures ParseValue("[]" + rest) == Some((Arr([]), rest))
    ensures ParseValue("{}" + rest) == Some((Obj([]), rest))
  {
    assert ("[]" + rest)[2..] == rest;
    assert ("{}" + rest)[2..] == rest;
  }

  lemma ParseNumberOf(n: int, rest: string)
    requires Delimited(rest)
    ensures ParseNumber(IntToString(n) + rest) == Some((Num(n), rest))
  {
    if n < 0 {
      ParseNegativeOf(n, rest);
    } else {
      ParseNonNegativeOf(n, rest);
    }
  }

  lemma ParseNegativeOf(n: int, rest: string)
    requires n < 0 && Delimited(rest)
    ensures ParseNumber(IntToString(n) + rest) == Some((Num(n), rest))
  {
    var t := NatToString(-n) + rest;
    assert IntToString(n) + rest == "-" + t;
    ParseNatOf(-n, rest);
    NumberAfterMinus(t, -n, rest);
  }

  lemma NumberAfterMinus(t: string, m: nat, rest: string)
    requires ParseNat(t) == Some((m, rest))
    ensures ParseNumber("-" + t) == Some((Num(-(m as int)), rest))
  {
    assert ("-" + t)[1..] == t;
  }

  lemma ParseNonNegativeOf(n: nat, rest: string)
    requires Delimited(rest)
    ensures ParseNumber(IntToString(n) + rest) == Some((Num(n), rest))
  {
    var d := NatToString(n);
    assert IntToString(n) + rest == d + rest;
    assert (d + rest)[0] == d[0] && IsDigit(d[0]);
    ParseNatOf(n, rest);
  }

  /** The values without parts read back from their text. */
  lemma ParseStringifyScalar(v: Json, rest: string)
    requires Delimited(rest) && !v.Arr? && !v.Obj?
    ensures ParseValue(Stringify(v) + rest) == Some((v, rest))
  {
    var s := Stringify(v) + rest;
    match v
    case Null =>
      StartsWithConcat("null", rest);
    case Bool(b) =>
      if b { StartsWithConcat("true", rest); } else { StartsWithConcat("false", rest); }
    case Num(n) =>
      assert s[0] == '-' || IsDigit(s[0]);
      ValueAtNumber(s);
      ParseNumberOf(n, rest);
    case Str(t) =>
      assert s == "\"" + (Escape(t) + "\"" + rest);
      ParseEscaped(t, rest);
      ValueAtString(s, t, rest);
  }

  lemma {:induction false} ParseStringifyValue(v: Json, rest: string)
    requires Delimited(rest)
    ensures ParseValue(Stringify(v) + rest) == Some((v, rest))
    decreases v
  {
    var s := Stringify(v) + rest;
    match v
    case Arr(es) =>
      if es == [] {
        assert Stringify(v) == "[]";
        ValueAtEmpty(rest);
      } else {
        assert s == "[" + (StringifyElems(es) + "]" + rest);
        StringifyElemsFirst(es);
        ParseStringifyElems(es, rest);
        ValueAtArray(s, es, rest);
      }
    case Obj(ms) =>
      if ms == [] {
        assert Stringify(v) == "{}";
        ValueAtEmpty(rest);
      } else {
        assert s == "{" + (StringifyMembers(ms) + "}" + rest);
        assert s[1] == '"';
        ParseStringifyMembers(ms, rest);
        ValueAtObject(s, ms, rest);
      }
    case _ =>
      ParseStringifyScalar(v, rest);
  }

  lemma {:induction false} ParseStringifyElems(es: seq<Json>, rest: string)
    requires es != []
    ensures ParseElems(StringifyElems(es) + "]" + rest) == Some((es, rest))
    decreases es
  {
    if |es| == 1 {
      assert StringifyElems(es) + "]" + rest == Stringify(es[0]) + ("]" + rest);
      ParseStringifyValue(es[0], "]" + rest);
      assert [es[0]] == es;
    } else {
      var tail := StringifyElems(es[1..]) + "]" + rest;
      assert StringifyElems(es) + "]" + rest == Stringify(es[0]) + ("," + tail);
      ParseStringifyValue(es[0], "," + tail);
      assert ("," + tail)[1..] == tail;
      ParseStringifyElems(es[1..], rest);
      assert [es[0]] + es[1..] == es;
    }
  }

  /** One step of `ParseMembers`: a key, a colon and a value have been read,
      and `r2` follows them. */
  lemma MembersStep(s: string, k: string, r1: string, v: Json, r2: string)
    requires s != [] && s[0] == '"' && ParseString(s[1..]) == Some((k, r1))
    requires r1 != [] && r1[0] == ':' && ParseValue(r1[1..]) == Some((v, r2))
    requires r2 != [] && r2[0] == '}'
    ensures ParseMembers(s) == Some(([Member(k, v)], r2[1..]))
  {
  }

  lemma MembersStepMore(s: string, k: string, r1: string, v: Json, r2: string, more: seq<Member>, r: string)
    requires s != [] && s[0] == '"' && ParseString(s[1..]) == Some((k, r1))
    requires r1 != [] && r1[0] == ':' && ParseValue(r1[1..]) == Some((v, r2))
    requires r2 != [] && r2[0] == ',' && ParseMembers(r2[1..]) == Some((more, r))
    ensures ParseMembers(s) == Some(([Member(k, v)] + more, r))
  {
  }

  /** Where the pieces of one written member sit in the text. */
  lemma MemberLayout(m: Member, after: string)
    ensures var s := StringifyMember(m) + after;
      s != [] && s[0] == '"' && s[1..] == Escape(m.key) + "\"" + (":" + Stringify(m.value) + after)
  {
    var s := StringifyMember(m) + after;
    assert s == "\"" + (Escape(m.key) + "\"" + (":" + Stringify(m.value) + after));
  }

  lemma Regroup(a: string, b: string, c: string, d: string, e: string)
    ensures a + b + c + d + e == a + (b + (c + d + e))
  {
  }

  lemma MembersLayout(ms: seq<Member>, rest: string)
    requires ms != []
    ensures StringifyMembers(ms) + "}" + rest ==
      StringifyMember(ms[0]) + (if |ms| == 1 then "}" + rest else "," + (StringifyMembers(ms[1..]) + "}" + rest))
  {
    if |ms| > 1 {
      var a, b := StringifyMember(ms[0]), StringifyMembers(ms[1..]);
      assert StringifyMembers(ms) == a + "," + b;
      Regroup(a, ",", b, "}", rest);
    }
  }

  lemma AfterMark(c: char, b: string)
    ensures ([c] + b) != [] && ([c] + b)[0] == c && ([c] + b)[1..] == b
  {
  }

  /** Reads one written member up to the text `after` behind it. */
  lemma ParseMemberThen(m: Member, after: string)
    requires after != [] && (after[0] == '}' || after[0] == ',')
    ensures var s := StringifyMember(m) + after;
      s != [] && s[0] == '"' && ParseString(s[1..]) == Some((m.key, ":" + Stringify(m.value) + after))
    ensures var r1 := ":" + Stringify(m.value) + after;
      r1 != [] && r1[0] == ':' && ParseValue(r1[1..]) == Some((m.value, after))
  {
    var r1 := ":" + Stringify(m.value) + after;
    MemberLayout(m, after);
    ParseEscaped(m.key, r1);
    assert r1 == [':'] + (Stringify(m.value) + after);
    AfterMark(':', Stringify(m.value) + after);
    ParseStringifyValue(m.value, after);
  }

  lemma {:induction false} ParseStringifyMembers(ms: seq<Member>, rest: string)
    requires ms != []
    ensures ParseMembers(StringifyMembers(ms) + "}" + rest) == Some((ms, rest))
    decreases ms
  {
    var m := ms[0];
    MembersLayout(ms, rest);
    if |ms| == 1 {
      var after := "}" + rest;
      AfterMark('}', rest);
      ParseMemberThen(m, after);
      MembersStep(StringifyMember(m) + after, m.key, ":" + Stringify(m.value) + after, m.value, after);
      assert [Member(m.key, m.value)] == ms;
    } else {
      var tail := StringifyMembers(ms[1..]) + "}" + rest;
      var after := "," + tail;
      AfterMark(',', tail);
      ParseMemberThen(m, after);
      ParseStringifyMembers(ms[1..], rest);
      MembersStepMore(StringifyMember(m) + after, m.key, ":" + Stringify(m.value) + after, m.value, after, ms[1..], rest);
      assert [Member(m.key, m.value)] + ms[1..] == ms;
    }
  }

  /** A serialised value never starts with a closing bracket. */
  lemma StringifyFirst(v: Json)
    ensures Stringify(v) != [] && Stringify(v)[0] != ']'
  {
    match v
    case Num(n) =>
      assert IntToString(n)[0] == '-' || IsDigit(IntToString(n)[0]);
    case _ =>
  }

  lemma StringifyElemsFirst(es: seq<Json>)
    requires es != []
    ensures StringifyElems(es) != [] && StringifyElems(es)[0] != ']'
  {
    var h := Stringify(es[0]);
    StringifyFirst(es[0]);
    if |es| == 1 {
      assert StringifyElems(es) == h;
    } else {
      assert StringifyElems(es) == h + ("," + StringifyElems(es[1..]));
    }
  }

  /** Reading back what was written yields the value written. */
  lemma ParseStringify(v: Json)
    ensures Parse(Stringify(v)) == Some(v)
  {
    ParseStringifyValue(v, "");
    assert Stringify(v) + "" == Stringify(v);
  }

  /** Different values are written differently. */
  lemma StringifyInjective(v: Json, w: Json)
    ensures Stringify(v) == Stringify(w) ==> v == w
  {
    ParseStringify(v);
    ParseStringify(w);
  }
}
