/** The formats to the letter. The round trips say that nothing is lost; these
    say what is written. */
module Formats {
  import opened Wrappers
  import opened JsonText
  import opened JsonReader
  import opened Canonical
  import Pos = Positional
  import X = Xid
  import XG = XidGenerator

  // ------------------------------------------------------------ canonical text

  /** A quote and a backslash get a backslash, five control characters their short
      escape, the others four lower-case digits; everything else stays. */
  lemma EscapesAre(c: char)
    ensures EscapeChar(c) ==
              if c == '"' || c == '\\' then ['\\', c]
              else if c == '\n' then "\\n" else if c == '\r' then "\\r" else if c == '\t' then "\\t"
              else if c as int == 8 then "\\b" else if c as int == 12 then "\\f"
              else if c as int < 16 then "\\u000" + ["0123456789abcdef"[c as int]]
              else if c as int < 32 then "\\u001" + ["0123456789abcdef"[c as int - 16]]
              else [c]
  {
    if c as int < 16 {
      HexDigitsAre(c as int);
    } else if c as int < 32 {
      HexDigitsAre(c as int - 16);
    }
  }

  lemma HexDigitsAre(d: nat)
    requires d < 16
    ensures Hex(d) == "0123456789abcdef"[d]
  {
  }

  lemma {:induction false} SortedKeysAreUnique(ks: set<string>, listed: seq<string>)
    requires StrictlySorted(listed) && forall k :: k in listed <==> k in ks
    ensures SortedKeys(ks) == listed
    decreases |listed|
  {
    if listed == [] {
      assert ks == {};
    } else {
      assert listed[0] in listed;
      assert IsLeast(listed[0], ks) by {
        forall k | k in ks ensures k == listed[0] || Less(listed[0], k) {
          var i :| 0 <= i < |listed| && listed[i] == k;
        }
      }
      LeastIsUnique(ks);
      var rest := listed[1..];
      forall k ensures k in rest <==> k in ks - {listed[0]} {
        if k in rest {
          var i :| 0 <= i < |rest| && rest[i] == k;
          LessIrreflexive(k);
          assert listed[i + 1] == k;
        }
        if k in listed && k != listed[0] {
          var i :| 0 <= i < |listed| && listed[i] == k;
          assert rest[i - 1] == k;
        }
      }
      SortedKeysAreUnique(ks - {listed[0]}, rest);
    }
  }

  lemma TwoElems(x: Json, y: Json, s: string, t: string)
    requires Dump(x) == s && Dump(y) == t
    ensures Dump(Arr([x, y])) == "[" + (s + "," + t) + "]"
  {
    var es := [x, y];
    assert es[1..] == [y] && ElemsText([y]) == t;
    assert ElemsText(es) == s + "," + t;
  }

  lemma ThreeElems(x: Json, y: Json, z: Json, s: string, t: string, u: string)
    requires Dump(x) == s && Dump(y) == t && Dump(z) == u
    ensures Dump(Arr([x, y, z])) == "[" + (s + "," + (t + "," + u)) + "]"
  {
    var es := [x, y, z];
    assert es[1..] == [y, z] && [y, z][1..] == [z] && ElemsText([z]) == u;
    assert ElemsText([y, z]) == t + "," + u;
    assert ElemsText(es) == s + "," + (t + "," + u);
  }

  lemma TwoFields(k: string, x: Json, l: string, y: Json, q: string, s: string, r: string, t: string)
    requires Less(k, l) && Quoted(k) == q && Dump(x) == s && Quoted(l) == r && Dump(y) == t
    ensures Dump(Obj(map[l := y, k := x])) == "{" + ((q + ":" + s) + "," + (r + ":" + t)) + "}"
  {
    var v, ks := Obj(map[l := y, k := x]), [k, l];
    LessIrreflexive(k);
    assert forall m :: m in ks <==> m in v.fields.Keys;
    SortedKeysAreUnique(v.fields.Keys, ks);
    assert FieldText(v, k) == q + ":" + s && FieldText(v, l) == r + ":" + t;
    assert ks[1..] == [l] && FieldsText(v, [l]) == r + ":" + t;
    assert FieldsText(v, ks) == (q + ":" + s) + "," + (r + ":" + t);
  }

  lemma Literals()
    ensures "[" + ("-12" + "," + ("true" + "," + "null")) + "]" == "[-12,true,null]"
    ensures "{" + (("\"a\"" + ":" + "false") + "," + ("\"b\"" + ":" + "[-12,true,null]")) + "}"
         == "{\"a\":false,\"b\":[-12,true,null]}"
    ensures "[" + ("\"p\"" + "," + "3") + "]" == "[\"p\",3]" && "[" + ("\"q\"" + "," + "7") + "]" == "[\"q\",7]"
    ensures "[" + ("[\"p\",3]" + "," + "[\"q\",7]") + "]" == "[[\"p\",3],[\"q\",7]]"
  {
  }

  lemma SampleAtoms()
    ensures Dump(Int(-12)) == "-12" && Dump(Int(3)) == "3" && Dump(Int(7)) == "7"
    ensures Dump(Bool(true)) == "true" && Dump(Bool(false)) == "false" && Dump(Null) == "null"
  {
    assert NatText(1) == "1" && NatText(12) == "12" && NatText(3) == "3" && NatText(7) == "7";
  }

  /** Keys in order, commas and colons without white space, lower-case literals and
      plain decimal numbers. */
  lemma SampleText()
    ensures Dump(Obj(map["b" := Arr([Int(-12), Bool(true), Null]), "a" := Bool(false)]))
         == "{\"a\":false,\"b\":[-12,true,null]}"
  {
    Literals();
    SampleAtoms();
    ThreeElems(Int(-12), Bool(true), Null, "-12", "true", "null");
    QuotedLetter('a');
    QuotedLetter('b');
    assert "a"[0] < "b"[0] && Less("a", "b");
    TwoFields("a", Bool(false), "b", Arr([Int(-12), Bool(true), Null]), "\"a\"", "false", "\"b\"", "[-12,true,null]");
  }

  lemma QuotedLetter(c: char)
    requires 'a' <= c <= 'z'
    ensures Quoted([c]) == ['"', c, '"']
  {
    assert Escape([c]) == EscapeChar(c) + Escape([]);
  }

  lemma TwoPairs(versions: map<string, int>, k: string, l: string)
    requires versions.Keys == {k, l} && Less(k, l)
    ensures SortedPairs(versions, SortedKeys(versions.Keys))
         == [Arr([Str(k), Int(versions[k])]), Arr([Str(l), Int(versions[l])])]
  {
    var ks := [k, l];
    LessIrreflexive(k);
    assert forall m :: m in ks <==> m in versions.Keys;
    SortedKeysAreUnique(versions.Keys, ks);
    assert ks[1..] == [l] && [l][1..] == [];
    assert SortedPairs(versions, [l]) == [Arr([Str(l), Int(versions[l])])];
  }

  /** A policy set is hashed as the list of its pairs in the order of the ids. */
  lemma SamplePolicySet(h: Digest)
    ensures PolicySetHash(h, map["q" := 7, "p" := 3]) == h("[[\"p\",3],[\"q\",7]]")
    ensures PolicySetHash(h, map[]) == ""
  {
    var p, q := Arr([Str("p"), Int(3)]), Arr([Str("q"), Int(7)]);
    Literals();
    SampleAtoms();
    QuotedLetter('p');
    QuotedLetter('q');
    TwoElems(Str("p"), Int(3), "\"p\"", "3");
    TwoElems(Str("q"), Int(7), "\"q\"", "7");
    TwoElems(p, q, "[\"p\",3]", "[\"q\",7]");
    assert "p"[0] < "q"[0] && Less("p", "q");
    TwoPairs(map["q" := 7, "p" := 3], "p", "q");
  }

  /** Keys that are no text are written as the text that stands for them. */
  lemma KeysBecomeText(i: int)
    ensures KeyText(IntKey(i)) == IntText(i) && KeyText(NoneKey) == "None"
    ensures KeyText(BoolKey(true)) == "True" && KeyText(BoolKey(false)) == "False"
    ensures forall xs :: CanonicalText(Tuple(xs)) == CanonicalText(List(xs))
  {
  }

  // ------------------------------------------------------------ what the reader refuses

  predicate Blank(s: string) {
    forall i :: 0 <= i < |s| ==> s[i] == ' ' || s[i] == '\t' || s[i] == '\n' || s[i] == '\r'
  }

  lemma {:induction false} SkippingLeavesNothing(s: string)
    ensures SkipSpace(s) == "" <==> Blank(s)
  {
    if s != "" && s[0] in {' ', '\t', '\n', '\r'} {
      SkippingLeavesNothing(s[1..]);
      assert Blank(s[1..]) ==> forall i :: 0 < i < |s| ==> s[i] == s[1..][i - 1];
      assert Blank(s) ==> forall i :: 0 <= i < |s| - 1 ==> s[1..][i] == s[i + 1];
    }
  }

  /** After a value nothing but white space may follow. */
  lemma NothingElseMayFollow(v: Json, rest: string)
    requires EndsNumber(rest)
    ensures Load(Dump(v) + rest) == if Blank(rest) then Some(v) else None
  {
    ReadsValueBack(v, rest);
    FirstCharacter(v, rest);
    SkippingLeavesNothing(rest);
    assert SkipSpace(Dump(v) + rest) == Dump(v) + rest;
  }

  /** Four hexadecimal digits, of either case, stand for the character with their
      value, if that is no surrogate. */
  lemma UnitsDecode(a: char, b: char, c: char, d: char, rest: string)
    requires HexValue(a).Some? && HexValue(b).Some? && HexValue(c).Some? && HexValue(d).Some?
    ensures var u := HexValue(a).value * 4096 + HexValue(b).value * 256 + HexValue(c).value * 16 + HexValue(d).value;
            u < 0xD800 || 0xE000 <= u < 0x10000 ==> ReadEscape(['\\', 'u', a, b, c, d] + rest) == Some((u as char, rest))
    ensures forall x :: HexValue(x).Some? ==>
              var v := HexValue(x).value; x == "0123456789abcdef"[v] || x == "0123456789ABCDEF"[v]
  {
    var s := ['\\', 'u', a, b, c, d] + rest;
    assert s[2] == a && s[3] == b && s[4] == c && s[5] == d && s[6..] == rest;
    forall x | HexValue(x).Some?
      ensures var v := HexValue(x).value; x == "0123456789abcdef"[v] || x == "0123456789ABCDEF"[v]
    {
      EitherCase(x);
    }
  }

  lemma EitherCase(x: char)
    requires HexValue(x).Some?
    ensures var v := HexValue(x).value; x == "0123456789abcdef"[v] || x == "0123456789ABCDEF"[v]
  {
  }

  // ------------------------------------------------------------ identifiers

  /** The alphabet of section 7 of RFC 4648 in lower case. */
  lemma AlphabetIs(d: int)
    requires 0 <= d < 32
    ensures X.Symbol(d) == "0123456789abcdefghijklmnopqrstuv"[d]
  {
  }

  /** Four bytes of time, three of the machine, two of the process and three of the
      counter, each with its highest byte first. */
  lemma IdentifierLayout(g: XG.State)
    requires XG.IsState(g) && g.last < 0x1_0000_0000
    ensures var id := XG.Issued(g);
            && id.Some? && X.IsXid(id.value)
            && Pos.Value(id.value[..4], 256) == g.last && id.value[4..7] == g.machine && id.value[7..9] == g.pid
            && Pos.Value(id.value[9..], 256) == g.counter
  {
    assert Pos.Pow(256, 4) == 0x1_0000_0000 && Pos.Pow(256, 3) == 0x100_0000;
    Pos.ValueOfDigits(g.last, 256, 4);
    Pos.ValueOfDigits(g.counter, 256, 3);
    var time, count := Pos.Digits(g.last, 256, 4), Pos.Digits(g.counter, 256, 3);
    var id := XG.Issued(g).value;
    assert id == time + g.machine + g.pid + count;
    assert id[..4] == time && id[4..7] == g.machine && id[7..9] == g.pid && id[9..] == count;
  }

  /** An identifier has the time the clock reads, or one more than the last one
      where the clock has gone back, and the next number of the counter. */
  lemma NextIdentifier(g: XG.State, clock: int)
    requires XG.IsState(g)
    ensures var h := XG.Advance(g, clock);
            && h.last == (if clock >= g.last then clock else g.last + 1)
            && h.counter == (if g.counter == 0xff_ffff then 0 else g.counter + 1)
            && (XG.Issued(h).None? <==> h.last >= 0x1_0000_0000)
  {
  }
}
