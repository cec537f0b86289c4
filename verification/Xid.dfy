/** Identifiers of 12 bytes written as 20 base32hex characters (the alphabet of
    section 7 of RFC 4648, in lower case), and the generator that makes them. */
module Xid {
  import opened Wrappers
  import opened JsonText
  import opened Positional

  // ------------------------------------------------------------ alphabet

  function Symbol(d: int): char
    requires 0 <= d < 32
  {
    if d < 10 then '0' + d as char else 'a' + (d - 10) as char
  }

  function Index(c: char): (r: Option<int>)
    ensures r.Some? ==> 0 <= r.value < 32 && Symbol(r.value) == c
    ensures r.None? ==> forall d :: 0 <= d < 32 ==> Symbol(d) != c
  {
    if '0' <= c <= '9' then Some(c as int - '0' as int)
    else if 'a' <= c <= 'v' then Some(c as int - 'a' as int + 10)
    else None
  }

  function Symbols(ds: seq<int>): (s: string)
    requires AreDigits(ds, 32)
    ensures |s| == |ds|
    ensures forall i :: 0 <= i < |s| ==> s[i] == Symbol(ds[i])
  {
    seq(|ds|, i requires 0 <= i < |ds| => Symbol(ds[i]))
  }

  predicate WellFormed(s: string) {
    |s| == 20 && forall i :: 0 <= i < |s| ==> Index(s[i]).Some?
  }

  function Indices(s: string): (ds: seq<int>)
    requires forall i :: 0 <= i < |s| ==> Index(s[i]).Some?
    ensures |ds| == |s| && AreDigits(ds, 32)
    ensures forall i :: 0 <= i < |s| ==> ds[i] == Index(s[i]).value
  {
    seq(|s|, i requires 0 <= i < |s| => Index(s[i]).value)
  }

  lemma SymbolsOfIndices(s: string)
    requires forall i :: 0 <= i < |s| ==> Index(s[i]).Some?
    ensures Symbols(Indices(s)) == s
  {
  }

  lemma IndicesOfSymbols(ds: seq<int>)
    requires AreDigits(ds, 32)
    ensures forall i :: 0 <= i < |ds| ==> Index(Symbols(ds)[i]).Some?
    ensures Indices(Symbols(ds)) == ds
  {
  }

  // ------------------------------------------------------------ specification

  ghost predicate IsXid(raw: seq<int>) {
    |raw| == 12 && AreDigits(raw, 256)
  }

  /** The 96 bits of the identifier followed by four zero bits, in base 32. */
  ghost function Encoded(raw: seq<int>): (s: string)
    requires IsXid(raw)
    ensures |s| == 20
  {
    ValueBound(raw, 256);
    Symbols(Digits(16 * Value(raw, 256), 32, 20))
  }

  /** The upper 96 of the 100 bits that 20 characters carry. */
  ghost function Decoded(s: string): (raw: seq<int>)
    requires WellFormed(s)
    ensures IsXid(raw)
  {
    ValueBound(Indices(s), 32);
    Digits(Value(Indices(s), 32) / 16, 256, 12)
  }

  // ------------------------------------------------------------ the loops

  lemma DivideTwice(v: nat, a: nat, b: nat)
    requires a > 1 && b > 1
    ensures a * b > 1 && v / (a * b) == v / a / b
  {
    var q, r := v / a, v % a;
    var s, t := q / b, q % b;
    DivMod(v, a);
    DivMod(q, b);
    assert v == s * (a * b) + (t * a + r) by {
      assert (s * b + t) * a == s * (a * b) + t * a;
    }
    ShiftBound(t, r, a, b);
    assert a * b > 1 by {
      Monotone(2, b, a);
    }
    QuotientAndRest(s, a * b, t * a + r);
  }

  /** Dropping fewer bits appends the bits in between. */
  lemma TakeBits(v: nat, low: nat, width: nat)
    requires width > 1 && low > 0
    ensures v / low == v / (low * width) * width + v / low % width
  {
    if low == 1 {
      DivMod(v, width);
    } else {
      DivideTwice(v, low, width);
      DivMod(v, low);
      DivMod(v / low, width);
    }
  }

  lemma AppendByte(v: nat, byte: int, p: nat)
    requires 0 <= byte < 256 && p > 0
    ensures (v * 256 + byte) / (p * 256) == v / p
  {
    QuotientAndRest(v, 256, byte);
    if p > 1 {
      DivideTwice(v * 256 + byte, 256, p);
    }
  }

  lemma AppendSymbol(v: nat, d: int, p: nat)
    requires 0 <= d < 32 && p > 0
    ensures (v * 32 + d) / (p * 32) == v / p
  {
    QuotientAndRest(v, 32, d);
    if p > 1 {
      DivideTwice(v * 32 + d, 32, p);
    }
  }

  lemma PowTwo()
    ensures Pow(2, 0) == 1 && Pow(2, 1) == 2 && Pow(2, 2) == 4 && Pow(2, 3) == 8 && Pow(2, 4) == 16
  {
  }

  lemma PowAdd5(n: nat)
    ensures Pow(2, n + 5) == Pow(2, n) * 32 && Pow(2, n) > 0
  {
    PowAddOne(n);
    PowAddOne(n + 1);
    PowAddOne(n + 2);
    PowAddOne(n + 3);
    PowAddOne(n + 4);
  }

  lemma PowAddOne(n: nat)
    ensures Pow(2, n + 1) == 2 * Pow(2, n) && Pow(2, n) > 0
  {
    if n > 0 {
      PowAddOne(n - 1);
    }
  }

  lemma PowAdd8(n: nat)
    ensures Pow(2, n + 8) == Pow(2, n) * 256 && Pow(2, n) > 0
  {
    PowAdd5(n);
    PowAddOne(n + 5);
    PowAddOne(n + 6);
    PowAddOne(n + 7);
  }

  /** The digits written so far are the accumulator without its pending bits. */
  ghost predicate Pending(value: int, digits: seq<int>, b: nat, bits: nat) {
    value >= 0 && AreDigits(digits, b) && Value(digits, b) == value / Pow(2, bits)
  }

  lemma EmitSymbol(value: nat, digits: seq<int>, bits: nat)
    requires bits >= 5 && Pending(value, digits, 32, bits)
    ensures Pending(value, digits + [value / Pow(2, bits - 5) % 32], 32, bits - 5)
  {
    var p := Pow(2, bits - 5);
    PowAdd5(bits - 5);
    TakeBits(value, p, 32);
    var d := value / p % 32;
    assert (digits + [d])[..|digits|] == digits;
  }

  lemma EmitByte(value: nat, raw: seq<int>, bits: nat)
    requires bits >= 8 && Pending(value, raw, 256, bits)
    ensures Pending(value, raw + [value / Pow(2, bits - 8) % 256], 256, bits - 8)
  {
    var p := Pow(2, bits - 8);
    PowAdd8(bits - 8);
    TakeBits(value, p, 256);
    var d := value / p % 256;
    assert (raw + [d])[..|raw|] == raw;
  }

  lemma FeedByte(value: nat, digits: seq<int>, bits: nat, byte: int)
    requires Pending(value, digits, 32, bits) && 0 <= byte < 256
    ensures Pending(value * 256 + byte, digits, 32, bits + 8)
  {
    AppendByte(value, byte, Pow(2, bits));
    PowAdd8(bits);
  }

  lemma FeedSymbol(value: nat, raw: seq<int>, bits: nat, d: int)
    requires Pending(value, raw, 256, bits) && 0 <= d < 32
    ensures Pending(value * 32 + d, raw, 256, bits + 5)
  {
    AppendSymbol(value, d, Pow(2, bits));
    PowAdd5(bits);
  }

  /** One bit is left after twelve bytes; it is written with four zero bits. */
  lemma PadLastBit(value: nat, digits: seq<int>)
    requires Pending(value, digits, 32, 1)
    ensures var all := digits + [value * 16 % 32];
            AreDigits(all, 32) && Value(all, 32) == 16 * value
  {
    PowTwo();
    var last := value * 16 % 32;
    assert (digits + [last])[..|digits|] == digits;
    DivMod(value, 2);
    assert last == value % 2 * 16;
  }

  /** Encoding. The accumulator is never masked: it holds all bytes read so far
      and the pending bits are its lowest ones. */
  method Encode(raw: seq<int>) returns (s: string)
    requires IsXid(raw)
    ensures s == Encoded(raw)
  {
    var digits: seq<int> := [];
    var bits := 0;
    var value := 0;
    for i := 0 to |raw|
      invariant 0 <= bits < 5 && 8 * i == 5 * |digits| + bits
      invariant value == Value(raw[..i], 256) && Pending(value, digits, 32, bits)
    {
      assert raw[..i + 1][..i] == raw[..i];
      FeedByte(value, digits, bits, raw[i]);
      value := value * 256 + raw[i];
      bits := bits + 8;
      while bits >= 5
        invariant 0 <= bits < 13 && 8 * (i + 1) == 5 * |digits| + bits
        invariant Pending(value, digits, 32, bits)
      {
        EmitSymbol(value, digits, bits);
        digits := digits + [value / Pow(2, bits - 5) % 32];
        bits := bits - 5;
      }
    }
    assert raw[..|raw|] == raw;
    PadLastBit(value, digits);
    if bits > 0 {
      digits := digits + [value * 16 % 32];
    }
    DigitsOfValue(digits, 32);
    s := Symbols(digits);
  }

  lemma ReadSymbol(s: string, i: nat)
    requires i < |s| && forall j :: 0 <= j <= i ==> Index(s[j]).Some?
    ensures Value(Indices(s[..i + 1]), 32) == Value(Indices(s[..i]), 32) * 32 + Index(s[i]).value
  {
    var ds := Indices(s[..i + 1]);
    assert ds[..i] == Indices(s[..i]) && ds[i] == Index(s[i]).value;
  }

  /** After twenty symbols there are twelve bytes and four bits are pending. */
  lemma AllRead(s: string, raw: seq<int>, value: nat, bits: nat)
    requires |s| == 20 && forall i :: 0 <= i < |s| ==> Index(s[i]).Some?
    requires value == Value(Indices(s), 32) && Pending(value, raw, 256, bits) && bits < 8 && 100 == 8 * |raw| + bits
    ensures WellFormed(s) && raw == Decoded(s)
  {
    PowTwo();
    DigitsOfValue(raw, 256);
  }

  /** Decoding; None stands for the error that any other string raises. */
  method Decode(s: string) returns (r: Option<seq<int>>)
    ensures r == if WellFormed(s) then Some(Decoded(s)) else None
  {
    if |s| != 20 {
      return None;
    }
    var raw: seq<int> := [];
    var bits := 0;
    var value := 0;
    for i := 0 to |s|
      invariant 0 <= bits < 8 && 5 * i == 8 * |raw| + bits
      invariant forall j :: 0 <= j < i ==> Index(s[j]).Some?
      invariant value == Value(Indices(s[..i]), 32) && Pending(value, raw, 256, bits)
    {
      var index := Index(s[i]);
      if index.None? {
        return None;
      }
      ReadSymbol(s, i);
      FeedSymbol(value, raw, bits, index.value);
      value := value * 32 + index.value;
      bits := bits + 5;
      while bits >= 8
        invariant 0 <= bits < 13 && 5 * (i + 1) == 8 * |raw| + bits
        invariant Pending(value, raw, 256, bits)
      {
        EmitByte(value, raw, bits);
        raw := raw + [value / Pow(2, bits - 8) % 256];
        bits := bits - 8;
      }
    }
    assert s[..|s|] == s;
    AllRead(s, raw, value, bits);
    return Some(raw);
  }

  // ------------------------------------------------------------ round trips

  lemma Ranges()
    ensures Pow(32, 20) == 16 * Pow(256, 12)
  {
    PowSplit(32, 5, 5);
    PowSplit(32, 10, 10);
    PowSplit(256, 3, 3);
    PowSplit(256, 6, 6);
    assert Pow(32, 5) == 33554432 && Pow(256, 3) == 16777216;
  }

  lemma EncodedValue(raw: seq<int>)
    requires IsXid(raw)
    ensures WellFormed(Encoded(raw)) && Value(Indices(Encoded(raw)), 32) == 16 * Value(raw, 256)
  {
    ValueBound(raw, 256);
    Ranges();
    var v := 16 * Value(raw, 256);
    IndicesOfSymbols(Digits(v, 32, 20));
    ValueOfDigits(v, 32, 20);
  }

  lemma DecodedValue(s: string)
    requires WellFormed(s)
    ensures Value(Decoded(s), 256) == Value(Indices(s), 32) / 16
  {
    var v, p := Value(Indices(s), 32), Pow(256, 12);
    ValueBound(Indices(s), 32);
    Ranges();
    assert v < 16 * p && v / 16 < p;
    ValueOfDigits(v / 16, 256, 12);
  }

  /** Every identifier survives being written and read. */
  lemma DecodingUndoesEncoding(raw: seq<int>)
    requires IsXid(raw)
    ensures WellFormed(Encoded(raw)) && Decoded(Encoded(raw)) == raw
  {
    EncodedValue(raw);
    DecodedValue(Encoded(raw));
    EqualValuesEqualDigits(Decoded(Encoded(raw)), raw, 256);
  }

  /** A string survives being read and written exactly when its last character
      leaves the four padding bits clear, that is, when it is '0' or 'g'. */
  lemma EncodingUndoesDecodingExactly(s: string)
    requires WellFormed(s)
    ensures Encoded(Decoded(s)) == s <==> s[19] == '0' || s[19] == 'g'
  {
    var ds := Indices(s);
    var v := Value(ds, 32);
    ValueBound(ds, 32);
    LowestBits(ds);
    DecodedValue(s);
    EncodedValue(Decoded(s));
    var t := Encoded(Decoded(s));
    if v % 16 == 0 {
      EqualValuesEqualDigits(Indices(t), ds, 32);
      SymbolsOfIndices(t);
      SymbolsOfIndices(s);
    }
  }

  lemma LowestOf(v: nat, d: int)
    requires 0 <= d < 32
    ensures (v * 32 + d) % 16 == 0 <==> d == 0 || d == 16
  {
    QuotientAndRest(v * 2 + d / 16, 16, d % 16);
    assert v * 32 + d == (v * 2 + d / 16) * 16 + d % 16;
  }

  lemma ClearSymbols(d: int)
    requires 0 <= d < 32
    ensures d == 0 || d == 16 <==> Symbol(d) == '0' || Symbol(d) == 'g'
  {
  }

  lemma LowestBits(ds: seq<int>)
    requires |ds| == 20 && AreDigits(ds, 32)
    ensures Value(ds, 32) % 16 == 0 <==> Symbol(ds[19]) == '0' || Symbol(ds[19]) == 'g'
  {
    ValueBound(ds[..19], 32);
    LowestOf(Value(ds[..19], 32), ds[19]);
    ClearSymbols(ds[19]);
  }

  lemma {:induction false} SymbolOrder(a: seq<int>, b: seq<int>)
    requires AreDigits(a, 32) && AreDigits(b, 32)
    ensures Less(Symbols(a), Symbols(b)) <==> Before(a, b)
  {
    if a != [] && b != [] {
      assert Symbols(a)[1..] == Symbols(a[1..]) && Symbols(b)[1..] == Symbols(b[1..]);
      SymbolOrder(a[1..], b[1..]);
      assert Symbol(a[0]) < Symbol(b[0]) <==> a[0] < b[0];
    }
  }

  /** Sorting the strings is sorting the bytes. */
  lemma StringsSortLikeBytes(x: seq<int>, y: seq<int>)
    requires IsXid(x) && IsXid(y)
    ensures Less(Encoded(x), Encoded(y)) <==> Before(x, y)
  {
    EncodedValue(x);
    EncodedValue(y);
    var a, b := Indices(Encoded(x)), Indices(Encoded(y));
    SymbolsOfIndices(Encoded(x));
    SymbolsOfIndices(Encoded(y));
    SymbolOrder(a, b);
    OrderIsValueOrder(a, b, 32);
    OrderIsValueOrder(x, y, 256);
  }
}
