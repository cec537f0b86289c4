/** Reading JSON text back (the grammar of sections 2 to 7 of RFC 8259 without
    fractions and exponents), and the round trips between text and value. */
module JsonReader {
  import opened Wrappers
  import opened JsonText

  type Read<T> = Option<(T, string)>

  function SkipSpace(s: string): (r: string)
    ensures |r| <= |s|
  {
    if s != "" && s[0] in {' ', '\t', '\n', '\r'} then SkipSpace(s[1..]) else s
  }

  // ------------------------------------------------------------ strings

  function HexValue(c: char): (r: Option<nat>)
    ensures r.Some? ==> r.value < 16
  {
    if '0' <= c <= '9' then Some(c as int - '0' as int)
    else if 'a' <= c <= 'f' then Some(c as int - 'a' as int + 10)
    else if 'A' <= c <= 'F' then Some(c as int - 'A' as int + 10)
    else None
  }

  /** The code unit after a backslash and a 'u'. */
  function ReadUnit(s: string): (r: Option<nat>)
    ensures r.Some? ==> |s| >= 6 && r.value < 0x10000
  {
    if |s| < 6 || s[0] != '\\' || s[1] != 'u' then None
    else
      var a, b, c, d := HexValue(s[2]), HexValue(s[3]), HexValue(s[4]), HexValue(s[5]);
      if a.None? || b.None? || c.None? || d.None? then None
      else Some(((a.value * 16 + b.value) * 16 + c.value) * 16 + d.value)
  }

  /** One escape sequence; a lone surrogate has no character here. */
  function ReadEscape(s: string): (r: Read<char>)
    requires s != "" && s[0] == '\\'
    ensures r.Some? ==> |r.value.1| < |s|
  {
    if |s| < 2 then None
    else if s[1] in {'"', '\\', '/'} then Some((s[1], s[2..]))
    else if s[1] == 'n' then Some(('\n', s[2..]))
    else if s[1] == 'r' then Some(('\r', s[2..]))
    else if s[1] == 't' then Some(('\t', s[2..]))
    else if s[1] == 'b' then Some((8 as char, s[2..]))
    else if s[1] == 'f' then Some((12 as char, s[2..]))
    else
      var u := ReadUnit(s);
      if u.None? then None
      else if u.value < 0xD800 || 0xE000 <= u.value then Some((u.value as char, s[6..]))
      else
        var low := ReadUnit(s[6..]);
        if u.value < 0xDC00 && low.Some? && 0xDC00 <= low.value < 0xE000
        then Some(((0x10000 + (u.value - 0xD800) * 0x400 + (low.value - 0xDC00)) as char, s[12..]))
        else None
  }

  /** The rest of a string literal whose opening quote has been read. */
  function ReadString(s: string): (r: Read<string>)
    ensures r.Some? ==> |r.value.1| < |s|
  {
    if s == "" then None
    else if s[0] == '"' then Some(("", s[1..]))
    else
      var first := if s[0] == '\\' then ReadEscape(s)
                   else if s[0] < ' ' then None
                   else Some((s[0], s[1..]));
      if first.None? then None
      else
        var rest := ReadString(first.value.1);
        if rest.None? then None
        else Some(([first.value.0] + rest.value.0, rest.value.1))
  }

  // ------------------------------------------------------------ numbers

  /** Continue a run of digits whose value so far is n. */
  function ReadDigits(s: string, n: nat): (r: (nat, string))
    ensures |r.1| <= |s|
  {
    if s != "" && IsDigit(s[0]) then ReadDigits(s[1..], 10 * n + (s[0] as int - '0' as int))
    else (n, s)
  }

  function ReadNat(s: string): (r: Read<nat>)
    ensures r.Some? ==> |r.value.1| < |s|
  {
    if s == "" || !IsDigit(s[0]) then None
    else
      var (n, rest) := if s[0] == '0' then (0, s[1..]) else ReadDigits(s[1..], s[0] as int - '0' as int);
      if rest != "" && rest[0] in {'.', 'e', 'E'} then None else Some((n, rest))
  }

  function ReadInt(s: string): (r: Read<int>)
    ensures r.Some? ==> |r.value.1| < |s|
  {
    if s != "" && s[0] == '-' then
      var r := ReadNat(s[1..]);
      if r.None? then None else Some((0 - r.value.0 as int, r.value.1))
    else
      var r := ReadNat(s);
      if r.None? then None else Some((r.value.0 as int, r.value.1))
  }

  // ------------------------------------------------------------ values

  function ReadValue(s: string): (r: Read<Json>)
    ensures r.Some? ==> |r.value.1| < |s|
    decreases |s|, 0
  {
    if s == "" then None
    else if s[0] == '"' then
      var r := ReadString(s[1..]);
      if r.None? then None else Some((Str(r.value.0), r.value.1))
    else if s[0] == '{' then
      var t := SkipSpace(s[1..]);
      if t != "" && t[0] == '}' then Some((Obj(map[]), t[1..])) else ReadMembers(t, map[])
    else if s[0] == '[' then
      var t := SkipSpace(s[1..]);
      if t != "" && t[0] == ']' then Some((Arr([]), t[1..])) else ReadElems(t, [])
    else if "null" <= s then Some((Null, s[4..]))
    else if "true" <= s then Some((Bool(true), s[4..]))
    else if "false" <= s then Some((Bool(false), s[5..]))
    else
      var r := ReadInt(s);
      if r.None? then None else Some((Int(r.value.0), r.value.1))
  }

  function ReadElems(s: string, done: seq<Json>): (r: Read<Json>)
    ensures r.Some? ==> |r.value.1| < |s|
    decreases |s|, 1
  {
    var v := ReadValue(s);
    if v.None? then None
    else
      var t := SkipSpace(v.value.1);
      if t == "" then None
      else if t[0] == ']' then Some((Arr(done + [v.value.0]), t[1..]))
      else if t[0] == ',' then ReadElems(SkipSpace(t[1..]), done + [v.value.0])
      else None
  }

  /** A key that occurs again replaces the earlier value. */
  function ReadMembers(s: string, done: map<string, Json>): (r: Read<Json>)
    ensures r.Some? ==> |r.value.1| < |s|
    decreases |s|, 1
  {
    if s == "" || s[0] != '"' then None
    else
      var k := ReadString(s[1..]);
      if k.None? then None
      else
        var t := SkipSpace(k.value.1);
        if t == "" || t[0] != ':' then None
        else
          var v := ReadValue(SkipSpace(t[1..]));
          if v.None? then None
          else
            var u := SkipSpace(v.value.1);
            var now := done[k.value.0 := v.value.0];
            if u == "" then None
            else if u[0] == '}' then Some((Obj(now), u[1..]))
            else if u[0] == ',' then ReadMembers(SkipSpace(u[1..]), now)
            else None
  }

  /** A whole document. */
  function Load(s: string): Option<Json> {
    var r := ReadValue(SkipSpace(s));
    if r.Some? && SkipSpace(r.value.1) == "" then Some(r.value.0) else None
  }

  // ------------------------------------------------------------ round trips

  lemma ReadsUnitBack(c: char, rest: string)
    requires c < ' '
    ensures ReadUnit("\\u00" + [Hex(c as int / 16), Hex(c as int % 16)] + rest) == Some(c as int)
  {
    var s := "\\u00" + [Hex(c as int / 16), Hex(c as int % 16)] + rest;
    assert s[2] == '0' && s[3] == '0' && s[4] == Hex(c as int / 16) && s[5] == Hex(c as int % 16);
  }

  lemma ReadsEscapeBack(c: char, rest: string)
    ensures EscapeChar(c)[0] == '\\' <==> EscapeChar(c) != [c]
    ensures EscapeChar(c) != [c] ==> ReadEscape(EscapeChar(c) + rest) == Some((c, rest))
    ensures EscapeChar(c) == [c] ==> c != '"' && !(c < ' ')
  {
    var e := EscapeChar(c);
    var s := e + rest;
    if |e| == 2 {
      assert s[2..] == rest;
    } else if |e| == 6 {
      ReadsUnitBack(c, rest);
      assert s[6..] == rest;
    }
  }

  lemma ReadStringStep(c: char, tail: string, t: string, rest: string)
    requires ReadString(tail) == Some((t, rest))
    ensures ReadString(EscapeChar(c) + tail) == Some(([c] + t, rest))
  {
    ReadsEscapeBack(c, tail);
    var s := EscapeChar(c) + tail;
    if EscapeChar(c) == [c] {
      assert s[1..] == tail;
    } else {
      assert s[0] == '\\';
    }
  }

  lemma Regrouped(x: string, y: string, z: string)
    ensures (x + y) + z == x + (y + z)
  {
  }

  lemma EscapeSplit(s: string, end: string)
    requires s != ""
    ensures Escape(s) + end == EscapeChar(s[0]) + (Escape(s[1..]) + end)
  {
    Regrouped(EscapeChar(s[0]), Escape(s[1..]), end);
  }

  lemma ReadsEmptyStringBack(rest: string)
    ensures ReadString(Escape("") + ("\"" + rest)) == Some(("", rest))
  {
    assert Escape("") + ("\"" + rest) == "\"" + rest;
    assert ("\"" + rest)[1..] == rest;
  }

  lemma ReadsOneMoreCharacter(s: string, end: string, rest: string)
    requires s != "" && ReadString(Escape(s[1..]) + end) == Some((s[1..], rest))
    ensures ReadString(Escape(s) + end) == Some((s, rest))
  {
    EscapeSplit(s, end);
    var c, t := s[0], s[1..];
    assert [c] + t == s;
    ReadStringStep(c, Escape(t) + end, t, rest);
  }

  lemma {:induction false} ReadsStringBack(s: string, rest: string)
    ensures ReadString(Escape(s) + ("\"" + rest)) == Some((s, rest))
  {
    if s == "" {
      ReadsEmptyStringBack(rest);
    } else {
      ReadsStringBack(s[1..], rest);
      ReadsOneMoreCharacter(s, "\"" + rest, rest);
    }
  }

  lemma {:induction false} ReadsDigitsBack(n: nat, rest: string, before: nat)
    requires before == 0
    ensures ReadDigits(NatText(n) + rest, before) == ReadDigits(rest, n)
  {
    var s := NatText(n) + rest;
    if n < 10 {
      assert s[1..] == rest;
    } else {
      var d := [Digit(n % 10)] + rest;
      assert s == NatText(n / 10) + d;
      ReadsDigitsBack(n / 10, d, 0);
      assert d[1..] == rest;
    }
  }

  /** Text after which a number that has just been read is complete. */
  predicate EndsNumber(rest: string) {
    rest == "" || !(IsDigit(rest[0]) || rest[0] in {'.', 'e', 'E'})
  }

  lemma ReadsIntBack(i: int, rest: string)
    requires EndsNumber(rest)
    ensures ReadInt(IntText(i) + rest) == Some((i, rest))
  {
    var n := if i < 0 then -i else i;
    var s := NatText(n) + rest;
    ReadsDigitsBack(n, rest, 0);
    if n == 0 {
      assert s[1..] == rest;
    }
    assert ReadNat(s) == Some((n, rest));
    if i < 0 {
      assert (IntText(i) + rest)[1..] == s;
    }
  }

  predicate StartsToken(s: string) {
    s == "" || s[0] !in {' ', '\t', '\n', '\r'}
  }

  lemma FirstCharacter(v: Json, rest: string)
    ensures Dump(v) != "" && (Dump(v) + rest)[0] == Dump(v)[0]
    ensures StartsToken(Dump(v) + rest) && Dump(v)[0] !in {']', '}'}
    ensures v.Null? <==> Dump(v)[0] == 'n'
    ensures v.Bool? <==> Dump(v)[0] in {'t', 'f'}
    ensures v.Str? <==> Dump(v)[0] == '"'
    ensures v.Arr? <==> Dump(v)[0] == '['
    ensures v.Obj? <==> Dump(v)[0] == '{'
  {
    if v.Int? {
      assert IsDigit(Dump(v)[0]) || Dump(v)[0] == '-';
    }
  }

  lemma ElemsLast(s: string, done: seq<Json>, v: Json, rest: string)
    requires ReadValue(s) == Some((v, "]" + rest))
    ensures ReadElems(s, done) == Some((Arr(done + [v]), rest))
  {
    assert ("]" + rest)[1..] == rest;
  }

  lemma ElemsNext(s: string, done: seq<Json>, v: Json, t: string)
    requires ReadValue(s) == Some((v, "," + t)) && StartsToken(t)
    ensures ReadElems(s, done) == ReadElems(t, done + [v])
  {
    assert ("," + t)[1..] == t;
  }

  lemma MembersStart(k: string, t: string)
    requires StartsToken(t)
    ensures ReadString((Quoted(k) + ":" + t)[1..]) == Some((k, ":" + t))
    ensures SkipSpace(":" + t) == ":" + t && SkipSpace((":" + t)[1..]) == t
  {
    ReadsStringBack(k, ":" + t);
    assert (Quoted(k) + ":" + t)[1..] == Escape(k) + ("\"" + (":" + t));
    assert (":" + t)[1..] == t;
  }

  lemma MembersLast(k: string, t: string, done: map<string, Json>, v: Json, rest: string)
    requires StartsToken(t) && ReadValue(t) == Some((v, "}" + rest))
    ensures ReadMembers(Quoted(k) + ":" + t, done) == Some((Obj(done[k := v]), rest))
  {
    MembersStart(k, t);
    assert ("}" + rest)[1..] == rest;
  }

  lemma MembersNext(k: string, t: string, done: map<string, Json>, v: Json, u: string)
    requires StartsToken(t) && ReadValue(t) == Some((v, "," + u)) && StartsToken(u)
    ensures ReadMembers(Quoted(k) + ":" + t, done) == ReadMembers(u, done[k := v])
  {
    MembersStart(k, t);
    assert ("," + u)[1..] == u;
  }

  lemma ReadsWordBack(v: Json, rest: string)
    requires v.Null? || v.Bool?
    ensures ReadValue(Dump(v) + rest) == Some((v, rest))
  {
    assert (Dump(v) + rest)[|Dump(v)|..] == rest;
  }

  lemma ReadsTextBack(t: string, rest: string)
    ensures ReadValue(Dump(Str(t)) + rest) == Some((Str(t), rest))
  {
    ReadsStringBack(t, rest);
    var s := Dump(Str(t)) + rest;
    assert s[0] == '"' && s[1..] == Escape(t) + ("\"" + rest);
  }

  /** Reading the canonical text of a value gives that value and stops exactly
      where the text stops. */
  lemma {:induction false} ReadsValueBack(v: Json, rest: string)
    requires EndsNumber(rest)
    ensures ReadValue(Dump(v) + rest) == Some((v, rest))
    decreases v, 1, 0
  {
    match v
    case Null => ReadsWordBack(v, rest);
    case Bool(_) => ReadsWordBack(v, rest);
    case Int(i) => ReadsIntValueBack(i, rest);
    case Str(t) => ReadsTextBack(t, rest);
    case Arr(es) =>
      if es != [] {
        ReadsElemsBack(es, [], rest);
        assert [] + es == es;
      }
      ReadsArrayBack(es, rest);
    case Obj(m) =>
      if m == map[] {
        ReadsEmptyObjectBack(rest);
      } else {
        KeysListed(m);
        ReadsMembersBack(v, SortedKeys(m.Keys), map[], rest);
        ReadsObjectBack(v, rest);
      }
  }

  lemma KeysListed(m: map<string, Json>)
    requires m != map[]
    ensures SortedKeys(m.Keys) != [] && forall k :: k in SortedKeys(m.Keys) ==> k in m
  {
    var k :| k in m;
    assert k in SortedKeys(m.Keys);
  }

  lemma ReadsIntValueBack(i: int, rest: string)
    requires EndsNumber(rest)
    ensures ReadValue(Dump(Int(i)) + rest) == Some((Int(i), rest))
  {
    ReadsIntBack(i, rest);
    FirstCharacter(Int(i), rest);
    var s := Dump(Int(i)) + rest;
    assert s[0] !in {'"', '{', '[', 'n', 't', 'f'};
    assert "null"[0] == 'n' && "true"[0] == 't' && "false"[0] == 'f';
  }

  lemma ArrayStep(t: string, rest: string)
    requires t != "" && StartsToken(t) && t[0] != ']'
    ensures ReadValue("[" + t) == ReadElems(t, [])
    ensures ReadValue("[" + ("]" + rest)) == Some((Arr([]), rest))
  {
    assert ("[" + t)[1..] == t;
    assert ("[" + ("]" + rest))[1..] == "]" + rest;
    assert ("]" + rest)[1..] == rest;
  }

  lemma ArrayText(es: seq<Json>, rest: string)
    ensures Dump(Arr(es)) + rest == "[" + (ElemsText(es) + ("]" + rest))
  {
    assert Dump(Arr(es)) == "[" + ElemsText(es) + "]";
  }

  lemma ReadsArrayBack(es: seq<Json>, rest: string)
    requires es != [] ==> ReadElems(ElemsText(es) + ("]" + rest), []) == Some((Arr(es), rest))
    ensures ReadValue(Dump(Arr(es)) + rest) == Some((Arr(es), rest))
  {
    ArrayText(es, rest);
    if es == [] {
      ArrayStep("\"", rest);
      assert ElemsText([]) + ("]" + rest) == "]" + rest;
    } else {
      ElemsStart(es, "]" + rest);
      ArrayStep(ElemsText(es) + ("]" + rest), rest);
    }
  }

  lemma FieldsStart(v: Json, ks: seq<string>, rest: string)
    requires v.Obj? && ks != [] && forall k :: k in ks ==> k in v.fields
    ensures FieldsText(v, ks) != "" && (FieldsText(v, ks) + rest)[0] == '"'
  {
    assert FieldText(v, ks[0])[0] == '"';
  }

  lemma ElemsStart(es: seq<Json>, rest: string)
    requires es != []
    ensures ElemsText(es) != "" && ElemsText(es)[0] !in {']', '}'}
    ensures StartsToken(ElemsText(es) + rest) && (ElemsText(es) + rest)[0] == ElemsText(es)[0]
  {
    FirstCharacter(es[0], "");
    assert ElemsText(es)[0] == Dump(es[0])[0];
  }

  lemma ObjectStep(t: string, rest: string)
    requires t != "" && StartsToken(t) && t[0] != '}'
    ensures ReadValue("{" + t) == ReadMembers(t, map[])
    ensures ReadValue("{" + ("}" + rest)) == Some((Obj(map[]), rest))
  {
    assert ("{" + t)[1..] == t;
    assert ("{" + ("}" + rest))[1..] == "}" + rest;
    assert ("}" + rest)[1..] == rest;
  }

  lemma ObjectText(v: Json, rest: string)
    requires v.Obj?
    ensures Dump(v) + rest == "{" + (FieldsText(v, SortedKeys(v.fields.Keys)) + ("}" + rest))
  {
    assert Dump(v) == "{" + FieldsText(v, SortedKeys(v.fields.Keys)) + "}";
  }

  lemma ReadsObjectBack(v: Json, rest: string)
    requires v.Obj? && SortedKeys(v.fields.Keys) != []
    requires ReadMembers(FieldsText(v, SortedKeys(v.fields.Keys)) + ("}" + rest), map[])
          == Some((Obj(Overlay(map[], v, SortedKeys(v.fields.Keys))), rest))
    ensures ReadValue(Dump(v) + rest) == Some((v, rest))
  {
    var ks := SortedKeys(v.fields.Keys);
    FieldsStart(v, ks, "}" + rest);
    ObjectText(v, rest);
    ObjectStep(FieldsText(v, ks) + ("}" + rest), rest);
    OverlayAll(v);
  }

  lemma ReadsEmptyObjectBack(rest: string)
    ensures ReadValue(Dump(Obj(map[])) + rest) == Some((Obj(map[]), rest))
  {
    assert SortedKeys({}) == [];
    ObjectText(Obj(map[]), rest);
    ObjectStep("\"", rest);
    assert FieldsText(Obj(map[]), []) == "";
    assert "" + ("}" + rest) == "}" + rest;
  }

  lemma RegroupElems(x: string, more: string, rest: string)
    ensures (x + "," + more) + rest == x + ("," + (more + rest))
  {
  }

  lemma ElemsSplit(es: seq<Json>, rest: string)
    requires es != []
    ensures ElemsText(es) + rest == Dump(es[0]) + if |es| == 1 then rest else "," + (ElemsText(es[1..]) + rest)
  {
    if |es| > 1 {
      RegroupElems(Dump(es[0]), ElemsText(es[1..]), rest);
    }
  }

  lemma LastElem(es: seq<Json>, done: seq<Json>, rest: string)
    requires |es| == 1 && ReadValue(Dump(es[0]) + ("]" + rest)) == Some((es[0], "]" + rest))
    ensures ReadElems(ElemsText(es) + ("]" + rest), done) == Some((Arr(done + es), rest))
  {
    ElemsSplit(es, "]" + rest);
    ElemsLast(Dump(es[0]) + ("]" + rest), done, es[0], rest);
    assert es == [es[0]];
  }

  lemma NextElem(es: seq<Json>, done: seq<Json>, t: string, rest: string)
    requires |es| > 1 && t == ElemsText(es[1..]) + ("]" + rest)
    requires ReadValue(Dump(es[0]) + ("," + t)) == Some((es[0], "," + t))
    ensures ReadElems(ElemsText(es) + ("]" + rest), done) == ReadElems(t, done + [es[0]])
  {
    ElemsSplit(es, "]" + rest);
    ElemsStart(es[1..], "]" + rest);
    ElemsNext(Dump(es[0]) + ("," + t), done, es[0], t);
  }

  lemma {:induction false} ReadsElemsBack(es: seq<Json>, done: seq<Json>, rest: string)
    requires es != []
    ensures ReadElems(ElemsText(es) + ("]" + rest), done) == Some((Arr(done + es), rest))
    decreases es, 0, 0
  {
    if |es| == 1 {
      ReadsValueBack(es[0], "]" + rest);
      LastElem(es, done, rest);
    } else {
      var t := ElemsText(es[1..]) + ("]" + rest);
      ReadsValueBack(es[0], "," + t);
      NextElem(es, done, t, rest);
      ReadsElemsBack(es[1..], done + [es[0]], rest);
      assert done + es == done + [es[0]] + es[1..];
    }
  }

  /** The members of v listed in ks, laid over what was read before. */
  ghost function Overlay(done: map<string, Json>, v: Json, ks: seq<string>): map<string, Json>
    requires v.Obj? && forall k :: k in ks ==> k in v.fields
  {
    done + map k | k in ks :: v.fields[k]
  }

  lemma OverlayAll(v: Json)
    requires v.Obj?
    ensures Overlay(map[], v, SortedKeys(v.fields.Keys)) == v.fields
  {
  }

  lemma OverlayStep(done: map<string, Json>, v: Json, ks: seq<string>)
    requires v.Obj? && ks != [] && forall k :: k in ks ==> k in v.fields
    ensures Overlay(done[ks[0] := v.fields[ks[0]]], v, ks[1..]) == Overlay(done, v, ks)
  {
    assert forall k :: k in ks <==> k == ks[0] || k in ks[1..];
  }

  lemma Regroup(q: string, x: string, more: string, rest: string)
    ensures (q + ":" + x) + rest == q + ":" + (x + rest)
    ensures ((q + ":" + x) + "," + more) + rest == q + ":" + (x + ("," + (more + rest)))
  {
  }

  lemma FieldsSplit(v: Json, ks: seq<string>, rest: string)
    requires v.Obj? && ks != [] && forall k :: k in ks ==> k in v.fields
    ensures var after := if |ks| == 1 then rest else "," + (FieldsText(v, ks[1..]) + rest);
            FieldsText(v, ks) + rest == Quoted(ks[0]) + ":" + (Dump(v.fields[ks[0]]) + after)
  {
    var q, x := Quoted(ks[0]), Dump(v.fields[ks[0]]);
    var more := if |ks| == 1 then "" else FieldsText(v, ks[1..]);
    assert FieldsText(v, ks) == if |ks| == 1 then q + ":" + x else (q + ":" + x) + "," + more;
    Regroup(q, x, more, rest);
  }

  lemma LastMember(v: Json, ks: seq<string>, done: map<string, Json>, rest: string)
    requires v.Obj? && |ks| == 1 && ks[0] in v.fields
    requires ReadValue(Dump(v.fields[ks[0]]) + ("}" + rest)) == Some((v.fields[ks[0]], "}" + rest))
    ensures ReadMembers(FieldsText(v, ks) + ("}" + rest), done) == Some((Obj(Overlay(done, v, ks)), rest))
  {
    var k, x := ks[0], v.fields[ks[0]];
    FieldsSplit(v, ks, "}" + rest);
    FirstCharacter(x, "}" + rest);
    MembersLast(k, Dump(x) + ("}" + rest), done, x, rest);
    OverlayStep(done, v, ks);
    assert Overlay(done[k := x], v, []) == done[k := x];
  }

  lemma NextMember(v: Json, ks: seq<string>, done: map<string, Json>, u: string, rest: string)
    requires v.Obj? && |ks| > 1 && forall k :: k in ks ==> k in v.fields
    requires u == FieldsText(v, ks[1..]) + ("}" + rest)
    requires ReadValue(Dump(v.fields[ks[0]]) + ("," + u)) == Some((v.fields[ks[0]], "," + u))
    ensures ReadMembers(FieldsText(v, ks) + ("}" + rest), done) == ReadMembers(u, done[ks[0] := v.fields[ks[0]]])
  {
    var k, x := ks[0], v.fields[ks[0]];
    FieldsSplit(v, ks, "}" + rest);
    FirstCharacter(x, "," + u);
    FieldsStart(v, ks[1..], "}" + rest);
    MembersNext(k, Dump(x) + ("," + u), done, x, u);
  }

  lemma {:induction false} ReadsMembersBack(v: Json, ks: seq<string>, done: map<string, Json>, rest: string)
    requires v.Obj? && ks != [] && forall k :: k in ks ==> k in v.fields
    ensures ReadMembers(FieldsText(v, ks) + ("}" + rest), done) == Some((Obj(Overlay(done, v, ks)), rest))
    decreases v, 0, |ks|
  {
    var x := v.fields[ks[0]];
    if |ks| == 1 {
      ReadsValueBack(x, "}" + rest);
      LastMember(v, ks, done, rest);
    } else {
      var u := FieldsText(v, ks[1..]) + ("}" + rest);
      ReadsValueBack(x, "," + u);
      NextMember(v, ks, done, u, rest);
      ReadsMembersBack(v, ks[1..], done[ks[0] := x], rest);
      OverlayStep(done, v, ks);
    }
  }

  /** What is written can be loaded again, unchanged. */
  lemma LoadReturnsWhatWasWritten(v: Json)
    ensures Load(Dump(v)) == Some(v)
  {
    ReadsValueBack(v, "");
    FirstCharacter(v, "");
    assert Dump(v) + "" == Dump(v);
    assert SkipSpace(Dump(v)) == Dump(v);
  }

  /** Two values with the same canonical text are the same value. */
  lemma TextIsInjective(v: Json, w: Json)
    requires Dump(v) == Dump(w)
    ensures v == w
  {
    LoadReturnsWhatWasWritten(v);
    LoadReturnsWhatWasWritten(w);
  }

  /** Text that was written canonically is its own canonical form after a
      load, however often it is stored and loaded. */
  lemma WrittenTextIsStable(s: string, v: Json)
    requires s == Dump(v)
    ensures Load(s).Some? && Dump(Load(s).value) == s
  {
    LoadReturnsWhatWasWritten(v);
  }
}
