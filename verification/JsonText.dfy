/** Canonical JSON: the values, the one text each value has, and the reader
    that turns stored text back into a value.

    Floats are outside the model; a number with a fraction or an exponent is
    not read. */
module JsonText {
  import opened Wrappers

  datatype Json =
    | Null
    | Bool(b: bool)
    | Int(i: int)
    | Str(s: string)
    | Arr(elems: seq<Json>)
    | Obj(fields: map<string, Json>)

  // ------------------------------------------------------------ key order

  /** Strict order of strings by code point, as used for sorted keys. */
  predicate Less(a: string, b: string) {
    b != "" && (a == "" || a[0] < b[0] || (a[0] == b[0] && Less(a[1..], b[1..])))
  }

  lemma LessTotal(a: string, b: string)
    ensures Less(a, b) || a == b || Less(b, a)
  {
    if a != "" && b != "" && a[0] == b[0] {
      LessTotal(a[1..], b[1..]);
      assert a == [a[0]] + a[1..] && b == [b[0]] + b[1..];
    }
  }

  lemma LessTransitive(a: string, b: string, c: string)
    requires Less(a, b) && Less(b, c)
    ensures Less(a, c)
  {
    if a != "" && a[0] == b[0] == c[0] {
      LessTransitive(a[1..], b[1..], c[1..]);
    }
  }

  lemma LessIrreflexive(a: string)
    ensures !Less(a, a)
  {
  }

  predicate IsLeast(k: string, ks: set<string>) {
    k in ks && forall other :: other in ks ==> k == other || Less(k, other)
  }

  lemma LeastExists(ks: set<string>)
    requires ks != {}
    ensures exists k :: IsLeast(k, ks)
  {
    var x :| x in ks;
    if ks == {x} {
      assert IsLeast(x, ks);
    } else {
      LeastExists(ks - {x});
      var m :| IsLeast(m, ks - {x});
      LessTotal(m, x);
      if Less(x, m) {
        forall other | other in ks ensures x == other || Less(x, other) {
          if other != x && other != m {
            LessTransitive(x, m, other);
          }
        }
        assert IsLeast(x, ks);
      } else {
        assert IsLeast(m, ks);
      }
    }
  }

  lemma LeastIsUnique(ks: set<string>)
    ensures forall k, l :: IsLeast(k, ks) && IsLeast(l, ks) ==> k == l
  {
    forall k, l | IsLeast(k, ks) && IsLeast(l, ks) ensures k == l {
      if Less(k, l) && Less(l, k) {
        LessTransitive(k, l, k);
        LessIrreflexive(k);
      }
    }
  }

  function Least(ks: set<string>): (m: string)
    requires ks != {}
    ensures IsLeast(m, ks)
  {
    LeastExists(ks);
    LeastIsUnique(ks);
    var m :| m in ks && IsLeast(m, ks);
    m
  }

  ghost predicate StrictlySorted(ks: seq<string>) {
    forall i, j :: 0 <= i < j < |ks| ==> Less(ks[i], ks[j])
  }

  /** The keys of an object in the order they are written. */
  function SortedKeys(ks: set<string>): (r: seq<string>)
    ensures forall k :: k in r <==> k in ks
    ensures StrictlySorted(r)
  {
    if ks == {} then []
    else
      var m := Least(ks);
      [m] + SortedKeys(ks - {m})
  }

  // ------------------------------------------------------------ writing

  function Digit(d: nat): char
    requires d < 10
  {
    '0' + d as char
  }

  predicate IsDigit(c: char) {
    '0' <= c <= '9'
  }

  function NatText(n: nat): (r: string)
    ensures r != "" && IsDigit(r[0])
    ensures r[0] == '0' <==> n == 0
  {
    if n < 10 then [Digit(n)] else NatText(n / 10) + [Digit(n % 10)]
  }

  function IntText(i: int): string {
    if i < 0 then "-" + NatText(-i) else NatText(i)
  }

  function Hex(d: nat): char
    requires d < 16
  {
    if d < 10 then '0' + d as char else 'a' + (d - 10) as char
  }

  /** One character inside a string literal. Only quotes, backslashes and the
      control characters are escaped; everything else is written as it is. */
  function EscapeChar(c: char): string {
    if c == '"' then "\\\""
    else if c == '\\' then "\\\\"
    else if c == '\n' then "\\n"
    else if c == '\r' then "\\r"
    else if c == '\t' then "\\t"
    else if c == 8 as char then "\\b"
    else if c == 12 as char then "\\f"
    else if c < ' ' then "\\u00" + [Hex(c as int / 16), Hex(c as int % 16)]
    else [c]
  }

  function Escape(s: string): string {
    if s == "" then "" else EscapeChar(s[0]) + Escape(s[1..])
  }

  function Quoted(s: string): string {
    "\"" + Escape(s) + "\""
  }

  /** The canonical text of a value: sorted keys, no white space. */
  function Dump(v: Json): string
    decreases v, 1, 0
  {
    match v
    case Null => "null"
    case Bool(b) => if b then "true" else "false"
    case Int(i) => IntText(i)
    case Str(s) => Quoted(s)
    case Arr(es) => "[" + ElemsText(es) + "]"
    case Obj(m) => "{" + FieldsText(v, SortedKeys(m.Keys)) + "}"
  }

  function ElemsText(es: seq<Json>): string
    decreases es, 0, 0
  {
    if es == [] then ""
    else if |es| == 1 then Dump(es[0])
    else Dump(es[0]) + "," + ElemsText(es[1..])
  }

  function FieldText(v: Json, k: string): string
    requires v.Obj? && k in v.fields
    decreases v, 0, 0
  {
    Quoted(k) + ":" + Dump(v.fields[k])
  }

  function FieldsText(v: Json, ks: seq<string>): string
    requires v.Obj? && forall k :: k in ks ==> k in v.fields
    decreases v, 0, |ks| + 1
  {
    if ks == [] then ""
    else if |ks| == 1 then FieldText(v, ks[0])
    else FieldText(v, ks[0]) + "," + FieldsText(v, ks[1..])
  }
}
