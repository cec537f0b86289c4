/** Percent-encoding and normalization of paths, on bytes. */
module Resources {
  import opened Wrappers

  type Byte = b: int | 0 <= b < 256
  type Bytes = seq<Byte>

  const PERCENT: Byte := 37
  const DOT: Byte := 46
  const SLASH: Byte := 47

  predicate Between(b: Byte, lo: int, hi: int) {
    lo <= b <= hi
  }

  predicate IsHex(b: Byte) {
    Between(b, 48, 57) || Between(b, 65, 70) || Between(b, 97, 102)
  }

  /** Hexadecimal digits of either case. */
  function HexValue(b: Byte): (v: int)
    requires IsHex(b)
    ensures 0 <= v < 16
  {
    if b <= 57 then b - 48 else if b <= 70 then b - 55 else b - 87
  }

  /** The upper-case digit. */
  function HexDigit(v: int): (b: Byte)
    requires 0 <= v < 16
    ensures IsHex(b) && HexValue(b) == v
  {
    if v < 10 then v + 48 else v + 55
  }

  /** Letters, digits, and - . _ ~ */
  predicate Unreserved(b: Byte) {
    Between(b, 48, 57) || Between(b, 65, 90) || Between(b, 97, 122) || b in {45, 46, 95, 126}
  }

  /** A percent sign with two hexadecimal digits after it. */
  predicate EscapeAt(s: Bytes, i: nat) {
    i + 2 < |s| && s[i] == PERCENT && IsHex(s[i + 1]) && IsHex(s[i + 2])
  }

  /** A percent sign that starts no escape stays as it is. */
  function Unquote(s: Bytes): Bytes {
    if s == [] then []
    else if EscapeAt(s, 0) then [16 * HexValue(s[1]) + HexValue(s[2])] + Unquote(s[3..])
    else [s[0]] + Unquote(s[1..])
  }

  function QuoteByte(b: Byte): Bytes {
    if Unreserved(b) then [b] else [PERCENT, HexDigit(b / 16), HexDigit(b % 16)]
  }

  function Quote(s: Bytes): Bytes {
    if s == [] then [] else QuoteByte(s[0]) + Quote(s[1..])
  }

  /** The hexadecimal digit b, of either case, has the value v. */
  predicate Digit(b: Byte, v: int) {
    || (0 <= v < 10 && b == '0' as int + v)
    || (10 <= v < 16 && (b == 'A' as int + v - 10 || b == 'a' as int + v - 10))
  }

  lemma HexDigits(b: Byte, v: int)
    ensures Digit(b, v) <==> IsHex(b) && HexValue(b) == v
  {
  }

  lemma UnquoteEscape(h: Byte, l: Byte, rest: Bytes)
    requires IsHex(h) && IsHex(l)
    ensures Unquote([PERCENT, h, l] + rest) == [16 * HexValue(h) + HexValue(l)] + Unquote(rest)
  {
    var s := [PERCENT, h, l] + rest;
    assert s[3..] == rest;
  }

  lemma UnquoteOther(b: Byte, rest: Bytes)
    requires !EscapeAt([b] + rest, 0)
    ensures Unquote([b] + rest) == [b] + Unquote(rest)
  {
    var s := [b] + rest;
    assert s[1..] == rest;
  }

  /** An escape stands for the byte whose two digits it gives. */
  lemma EscapesDecode(high: int, low: int, h: Byte, l: Byte, rest: Bytes)
    requires Digit(h, high) && Digit(l, low)
    ensures Unquote([37, h, l] + rest) == [16 * high + low] + Unquote(rest)
  {
    HexDigits(h, high);
    HexDigits(l, low);
    UnquoteEscape(h, l, rest);
  }

  /** Everything else stays as it is. */
  lemma OthersStay(b: Byte, rest: Bytes)
    requires b == 37 && |rest| >= 2 ==> forall high, low :: !(Digit(rest[0], high) && Digit(rest[1], low))
    ensures Unquote([b] + rest) == [b] + Unquote(rest)
  {
    if EscapeAt([b] + rest, 0) {
      HexDigits(rest[0], HexValue(rest[0]));
      HexDigits(rest[1], HexValue(rest[1]));
    }
    UnquoteOther(b, rest);
  }

  /** Encoding keeps letters, digits and the four marks - . _ ~ and writes any
      other byte as an escape with upper-case digits. */
  lemma EncodesExactly(b: Byte)
    ensures var kept := || 'a' as int <= b <= 'z' as int || 'A' as int <= b <= 'Z' as int || '0' as int <= b <= '9' as int
                        || b == '-' as int || b == '.' as int || b == '_' as int || b == '~' as int;
            && (kept ==> QuoteByte(b) == [b])
            && (!kept ==> exists h, l ::
                  && QuoteByte(b) == [37, h, l] && Digit(h, b / 16) && Digit(l, b % 16)
                  && h <= 'F' as int && l <= 'F' as int)
  {
    if !Unreserved(b) {
      var h, l := HexDigit(b / 16), HexDigit(b % 16);
      assert QuoteByte(b) == [37, h, l] && Digit(h, b / 16) && Digit(l, b % 16);
    }
  }

  // ------------------------------------------------------------ segments

  /** The pieces between slashes; always at least one. */
  function Split(s: Bytes): (r: seq<Bytes>)
    ensures r != []
  {
    if s == [] then [[]]
    else
      var rest := Split(s[1..]);
      if s[0] == SLASH then [[]] + rest else [[s[0]] + rest[0]] + rest[1..]
  }

  function Join(parts: seq<Bytes>): Bytes {
    if parts == [] then []
    else if |parts| == 1 then parts[0]
    else parts[0] + [SLASH] + Join(parts[1..])
  }

  function QuoteAll(parts: seq<Bytes>): seq<Bytes> {
    if parts == [] then [] else [Quote(parts[0])] + QuoteAll(parts[1..])
  }

  /** Encode each segment, keeping the slashes. */
  function EncodePath(path: Bytes): Bytes {
    Join(QuoteAll(Split(path)))
  }

  predicate Relative(segment: Bytes) {
    segment == [DOT] || segment == [DOT, DOT]
  }

  function NonEmpty(parts: seq<Bytes>): seq<Bytes> {
    if parts == [] then [] else (if parts[0] == [] then [] else [parts[0]]) + NonEmpty(parts[1..])
  }

  /** Decode, reject relative segments, drop empty ones. None is an error. */
  function NormalizePath(path: Bytes): Option<Bytes> {
    var parts := Split(Unquote(path));
    if exists i :: 0 <= i < |parts| && Relative(parts[i]) then None
    else Some([SLASH] + Join(NonEmpty(parts)))
  }

  datatype FileResource = FileResource(path: Bytes, canonical: Bytes)

  /** The path part of a file resource; the root is refused. */
  function CanonicalFile(path: Bytes): Option<FileResource> {
    var normal := NormalizePath(path);
    if normal.None? || normal.value == [SLASH] then None
    else Some(FileResource(normal.value, EncodePath(normal.value)))
  }

  // ------------------------------------------------------------ decoding what was encoded

  lemma Regroup<T>(a: seq<T>, b: seq<T>, c: seq<T>)
    ensures a + b + c == a + (b + c)
  {
  }

  lemma UnquoteAfterByte(b: Byte, rest: Bytes)
    ensures Unquote(QuoteByte(b) + rest) == [b] + Unquote(rest)
  {
    var s := QuoteByte(b) + rest;
    if Unreserved(b) {
      assert s[1..] == rest;
    } else {
      assert s[3..] == rest;
      assert 16 * (b / 16) + b % 16 == b;
    }
  }

  lemma {:induction false} UnquoteAfterQuote(x: Bytes, rest: Bytes)
    ensures Unquote(Quote(x) + rest) == x + Unquote(rest)
  {
    if x == [] {
      assert Quote(x) + rest == rest;
    } else {
      Regroup(QuoteByte(x[0]), Quote(x[1..]), rest);
      UnquoteAfterByte(x[0], Quote(x[1..]) + rest);
      UnquoteAfterQuote(x[1..], rest);
      Regroup([x[0]], x[1..], Unquote(rest));
      assert [x[0]] + x[1..] == x;
    }
  }

  lemma UnquoteSegment(first: Bytes, rest: Bytes, decoded: Bytes)
    requires Unquote(rest) == decoded
    ensures Unquote(Quote(first) + [SLASH] + rest) == first + [SLASH] + decoded
    ensures Unquote(Quote(first)) == first
  {
    var tail := [SLASH] + rest;
    assert tail[1..] == rest;
    assert Quote(first) + [SLASH] + rest == Quote(first) + tail;
    UnquoteAfterQuote(first, tail);
    assert first + ([SLASH] + decoded) == first + [SLASH] + decoded;
    assert Quote(first) + [] == Quote(first) && first + [] == first;
    UnquoteAfterQuote(first, []);
  }

  lemma JoinQuoted(parts: seq<Bytes>)
    requires parts != []
    ensures Join(QuoteAll(parts))
         == if |parts| == 1 then Quote(parts[0]) else Quote(parts[0]) + [SLASH] + Join(QuoteAll(parts[1..]))
  {
    assert QuoteAll(parts)[1..] == QuoteAll(parts[1..]);
  }

  lemma {:induction false} UnquoteJoined(parts: seq<Bytes>)
    ensures Unquote(Join(QuoteAll(parts))) == Join(parts)
  {
    if parts != [] {
      UnquoteJoined(parts[1..]);
      JoinQuoted(parts);
      UnquoteSegment(parts[0], Join(QuoteAll(parts[1..])), Join(parts[1..]));
    }
  }

  lemma {:induction false} JoinSplit(s: Bytes)
    ensures Join(Split(s)) == s
  {
    if s != [] {
      var rest := Split(s[1..]);
      JoinSplit(s[1..]);
      if s[0] == SLASH {
        assert Split(s)[1..] == rest;
      } else {
        JoinPrepend(s[0], rest);
      }
    }
  }

  lemma JoinPrepend(b: Byte, parts: seq<Bytes>)
    requires parts != []
    ensures Join([[b] + parts[0]] + parts[1..]) == [b] + Join(parts)
  {
    var all := [[b] + parts[0]] + parts[1..];
    assert all[1..] == parts[1..];
    if |parts| > 1 {
      assert [b] + parts[0] + [SLASH] + Join(parts[1..]) == [b] + (parts[0] + [SLASH] + Join(parts[1..]));
    }
  }

  /** Decoding an encoded path gives the path back, whatever its bytes. */
  lemma DecodingUndoesEncoding(path: Bytes)
    ensures Unquote(EncodePath(path)) == path
  {
    UnquoteJoined(Split(path));
    JoinSplit(path);
  }

  // ------------------------------------------------------------ normal paths

  ghost predicate Plain(segment: Bytes) {
    segment != [] && 47 !in segment && segment != [46] && segment != [46, 46]
  }

  ghost predicate AllPlain(parts: seq<Bytes>) {
    forall i :: 0 <= i < |parts| ==> Plain(parts[i])
  }

  lemma {:induction false} SplitHasNoSlash(s: Bytes)
    ensures forall i :: 0 <= i < |Split(s)| ==> SLASH !in Split(s)[i]
  {
    if s != [] {
      SplitHasNoSlash(s[1..]);
    }
  }

  lemma {:induction false} NonEmptyIsPlain(parts: seq<Bytes>)
    requires forall i :: 0 <= i < |parts| ==> SLASH !in parts[i] && parts[i] != [46] && parts[i] != [46, 46]
    ensures AllPlain(NonEmpty(parts))
  {
    if parts != [] {
      NonEmptyIsPlain(parts[1..]);
    }
  }

  /** Splitting one segment, followed by a slash or by nothing. */
  lemma {:induction false} SplitSegment(segment: Bytes, rest: Bytes)
    requires SLASH !in segment
    ensures Split(segment) == [segment]
    ensures Split(segment + [SLASH] + rest) == [segment] + Split(rest)
  {
    var all := segment + [SLASH] + rest;
    if segment == [] {
      assert all[1..] == rest;
    } else {
      assert all[1..] == segment[1..] + [SLASH] + rest;
      SplitSegment(segment[1..], rest);
      assert [segment[0]] + segment[1..] == segment;
      var tail := [segment[1..]] + Split(rest);
      assert Split(all) == [[segment[0]] + tail[0]] + tail[1..];
    }
  }

  lemma {:induction false} SplitJoined(parts: seq<Bytes>)
    requires parts != [] && AllPlain(parts)
    ensures Split(Join(parts)) == parts
  {
    SplitSegment(parts[0], Join(parts[1..]));
    if |parts| > 1 {
      SplitJoined(parts[1..]);
    }
  }

  lemma {:induction false} PlainIsKept(parts: seq<Bytes>)
    requires AllPlain(parts)
    ensures NonEmpty(parts) == parts
  {
    if parts != [] {
      PlainIsKept(parts[1..]);
    }
  }

  /** A normal path: a slash and plain segments between slashes. */
  ghost predicate Normal(path: Bytes) {
    exists parts :: AllPlain(parts) && path == [SLASH] + Join(parts)
  }

  /** A path is refused exactly when, decoded, it has a piece between slashes that
      is one dot or two. */
  lemma RefusedExactlyWhenRelative(path: Bytes)
    ensures NormalizePath(path) == None
       <==> [46] in Split(Unquote(path)) || [46, 46] in Split(Unquote(path))
  {
    var parts := Split(Unquote(path));
    forall part: Bytes | part in [[46], [46, 46]] && part in parts ensures exists i :: 0 <= i < |parts| && Relative(parts[i]) {
      var i :| 0 <= i < |parts| && parts[i] == part;
      assert Relative(parts[i]);
    }
    assert [[46], [46, 46]][0] == [46] && [[46], [46, 46]][1] == [46, 46];
  }

  /** Splitting gives the only pieces without slashes that join to the text. */
  lemma {:induction false} SplitIsUnique(s: Bytes, parts: seq<Bytes>)
    requires parts != [] && (forall i :: 0 <= i < |parts| ==> 47 !in parts[i]) && Join(parts) == s
    ensures Split(s) == parts
    decreases |parts|
  {
    if |parts| == 1 {
      SplitSegment(parts[0], []);
    } else {
      SplitSegment(parts[0], Join(parts[1..]));
      SplitIsUnique(Join(parts[1..]), parts[1..]);
    }
  }

  /** The root alone is no file; every other path that is not refused has a
      canonical form. */
  lemma RefusedAsFileExactly(path: Bytes)
    ensures CanonicalFile(path) == None
       <==> || [46] in Split(Unquote(path)) || [46, 46] in Split(Unquote(path))
            || (forall part :: part in Split(Unquote(path)) ==> part == [])
  {
    var parts := Split(Unquote(path));
    RefusedExactlyWhenRelative(path);
    NothingLeftExactly(parts);
    NonEmptyJoins(parts);
  }

  lemma {:induction false} NothingLeftExactly(parts: seq<Bytes>)
    ensures NonEmpty(parts) == [] <==> forall part :: part in parts ==> part == []
  {
    if parts != [] {
      NothingLeftExactly(parts[1..]);
      assert parts[0] in parts && forall part :: part in parts <==> part == parts[0] || part in parts[1..];
    }
  }

  /** Dropping empty pieces goes piece by piece, in order. */
  lemma {:induction false} DroppingIsPiecewise(parts: seq<Bytes>, more: seq<Bytes>)
    ensures NonEmpty(parts + more) == NonEmpty(parts) + NonEmpty(more)
  {
    var all := parts + more;
    if parts == [] {
      assert all == more;
    } else {
      DroppingIsPiecewise(parts[1..], more);
      var first := if parts[0] == [] then [] else [parts[0]];
      assert all[1..] == parts[1..] + more && all[0] == parts[0];
      assert NonEmpty(all) == first + NonEmpty(all[1..]);
      Regroup(first, NonEmpty(parts[1..]), NonEmpty(more));
    }
  }

  lemma {:induction false} NonEmptyHasNoEmpty(parts: seq<Bytes>)
    ensures forall p :: p in NonEmpty(parts) ==> p != []
  {
    if parts != [] {
      NonEmptyHasNoEmpty(parts[1..]);
    }
  }

  lemma NonEmptyJoins(parts: seq<Bytes>)
    ensures Join(NonEmpty(parts)) == [] <==> NonEmpty(parts) == []
  {
    NonEmptyHasNoEmpty(parts);
    if NonEmpty(parts) != [] {
      assert NonEmpty(parts)[0] in NonEmpty(parts);
    }
  }

  lemma NormalizingGivesNormal(path: Bytes)
    requires NormalizePath(path).Some?
    ensures Normal(NormalizePath(path).value)
  {
    var parts := Split(Unquote(path));
    SplitHasNoSlash(Unquote(path));
    NonEmptyIsPlain(parts);
  }

  lemma SplitNormal(path: Bytes, parts: seq<Bytes>)
    requires AllPlain(parts) && path == [SLASH] + Join(parts)
    ensures NonEmpty(Split(path)) == parts
    ensures forall i :: 0 <= i < |Split(path)| ==> Split(path)[i] != [46] && Split(path)[i] != [46, 46]
  {
    assert path[1..] == Join(parts);
    var rest := Split(Join(parts));
    assert Split(path) == [[]] + rest;
    assert NonEmpty(Split(path)) == NonEmpty(rest) by {
      assert Split(path)[1..] == rest;
    }
    if parts == [] {
      assert rest == [[]] && rest[1..] == [];
    } else {
      SplitJoined(parts);
      PlainIsKept(parts);
    }
  }

  /** What decodes to a normal path normalizes to it. */
  lemma DecodedNormalIsKept(path: Bytes, normal: Bytes)
    requires Normal(normal) && Unquote(path) == normal
    ensures NormalizePath(path) == Some(normal)
  {
    var parts :| AllPlain(parts) && normal == [SLASH] + Join(parts);
    SplitNormal(normal, parts);
  }

  /** Normalizing the encoding of a normalized path gives that path. */
  lemma EncodedNormalPathIsStable(path: Bytes)
    requires NormalizePath(path).Some?
    ensures var normal := NormalizePath(path).value;
            NormalizePath(EncodePath(normal)) == Some(normal)
  {
    var normal := NormalizePath(path).value;
    NormalizingGivesNormal(path);
    DecodingUndoesEncoding(normal);
    DecodedNormalIsKept(EncodePath(normal), normal);
  }

  /** Canonicalizing a canonical file path changes nothing, and canonical paths
      tell paths apart. */
  lemma CanonicalFileIsIdempotent(path: Bytes)
    requires CanonicalFile(path).Some?
    ensures CanonicalFile(CanonicalFile(path).value.canonical) == CanonicalFile(path)
  {
    EncodedNormalPathIsStable(path);
  }

  lemma CanonicalFilesDiffer(p: Bytes, q: Bytes)
    requires CanonicalFile(p).Some? && CanonicalFile(q).Some?
    ensures CanonicalFile(p).value.canonical == CanonicalFile(q).value.canonical
       <==> NormalizePath(p) == NormalizePath(q)
  {
    DecodingUndoesEncoding(CanonicalFile(p).value.path);
    DecodingUndoesEncoding(CanonicalFile(q).value.path);
  }

  // ------------------------------------------------------------ without encoding

  ghost predicate HasEscape(s: Bytes) {
    exists i: nat :: EscapeAt(s, i)
  }

  lemma {:induction false} UnquoteShortensExactly(s: Bytes)
    ensures |Unquote(s)| <= |s|
    ensures HasEscape(s) <==> |Unquote(s)| < |s|
    ensures !HasEscape(s) ==> Unquote(s) == s
  {
    if s != [] {
      if EscapeAt(s, 0) {
        UnquoteShortensExactly(s[3..]);
      } else {
        UnquoteShortensExactly(s[1..]);
        if HasEscape(s) {
          var i: nat :| EscapeAt(s, i);
          assert EscapeAt(s[1..], i - 1);
        }
        if HasEscape(s[1..]) {
          var i: nat :| EscapeAt(s[1..], i);
          assert EscapeAt(s, i + 1);
        }
      }
    }
  }

  lemma {:induction false} NonEmptyJoinIsShort(s: Bytes)
    ensures |Join(NonEmpty(Split(s)))| <= |s|
  {
    SplitLength(s);
    DroppingShortens(Split(s));
  }

  /** Total length with one separator after each part. */
  function Weight(parts: seq<Bytes>): nat {
    if parts == [] then 0 else |parts[0]| + 1 + Weight(parts[1..])
  }

  lemma {:induction false} JoinWeight(parts: seq<Bytes>)
    requires parts != []
    ensures |Join(parts)| + 1 == Weight(parts)
  {
    if |parts| > 1 {
      JoinWeight(parts[1..]);
    }
  }

  lemma SplitLength(s: Bytes)
    ensures |s| + 1 == Weight(Split(s))
  {
    JoinSplit(s);
    JoinWeight(Split(s));
  }

  lemma {:induction false} WeightDrops(parts: seq<Bytes>)
    ensures Weight(NonEmpty(parts)) <= Weight(parts)
  {
    if parts != [] {
      WeightDrops(parts[1..]);
      if parts[0] != [] {
        assert NonEmpty(parts)[1..] == NonEmpty(parts[1..]);
      } else {
        assert NonEmpty(parts) == NonEmpty(parts[1..]);
      }
    }
  }

  lemma DroppingShortens(parts: seq<Bytes>)
    requires parts != []
    ensures |Join(NonEmpty(parts))| + 1 <= Weight(parts)
  {
    WeightDrops(parts);
    if NonEmpty(parts) != [] {
      JoinWeight(NonEmpty(parts));
    }
  }

  /** A path that starts with a slash does not grow. */
  lemma NormalizingDoesNotGrow(path: Bytes)
    requires path != [] && path[0] == SLASH && NormalizePath(path).Some?
    ensures |NormalizePath(path).value| <= |Unquote(path)|
  {
    var decoded := Unquote(path);
    var rest := decoded[1..];
    assert decoded[0] == SLASH;
    assert Split(decoded)[1..] == Split(rest);
    assert NonEmpty(Split(decoded)) == NonEmpty(Split(rest));
    NonEmptyJoinIsShort(rest);
  }

  lemma EscapesStayInSegments(segment: Bytes, rest: Bytes)
    ensures HasEscape(segment + [SLASH] + rest) <==> HasEscape(segment) || HasEscape(rest)
  {
    var all, n := segment + [SLASH] + rest, |segment| + 1;
    assert forall i :: 0 <= i < |segment| ==> all[i] == segment[i];
    assert all[|segment|] == SLASH && all[n..] == rest;
    if HasEscape(segment) {
      var i: nat :| EscapeAt(segment, i);
      assert EscapeAt(all, i);
    }
    if HasEscape(rest) {
      var i: nat :| EscapeAt(rest, i);
      assert EscapeAt(all, n + i);
    }
    if HasEscape(all) {
      var i: nat :| EscapeAt(all, i);
      assert if i < n then EscapeAt(segment, i) else EscapeAt(rest, i - n);
    }
  }

  ghost predicate AnyEscape(parts: seq<Bytes>) {
    parts != [] && (HasEscape(parts[0]) || AnyEscape(parts[1..]))
  }

  lemma {:induction false} JoinEscapes(parts: seq<Bytes>)
    ensures HasEscape(Join(parts)) <==> AnyEscape(parts)
  {
    if |parts| > 1 {
      JoinEscapes(parts[1..]);
      EscapesStayInSegments(parts[0], Join(parts[1..]));
    } else if |parts| == 1 {
      assert !AnyEscape(parts[1..]);
    }
  }

  lemma {:induction false} DroppingKeepsEscapes(parts: seq<Bytes>)
    ensures AnyEscape(NonEmpty(parts)) <==> AnyEscape(parts)
  {
    if parts != [] {
      DroppingKeepsEscapes(parts[1..]);
      if parts[0] != [] {
        assert NonEmpty(parts)[1..] == NonEmpty(parts[1..]);
      } else {
        assert NonEmpty(parts) == NonEmpty(parts[1..]);
      }
    }
  }

  /** A normalized path has an escape exactly when the decoded path has one. */
  lemma NormalizingKeepsEscapes(path: Bytes)
    requires NormalizePath(path).Some?
    ensures HasEscape(NormalizePath(path).value) <==> HasEscape(Unquote(path))
  {
    var parts := Split(Unquote(path));
    JoinSplit(Unquote(path));
    JoinEscapes(parts);
    DroppingKeepsEscapes(parts);
    JoinEscapes(NonEmpty(parts));
    EscapesStayInSegments([], Join(NonEmpty(parts)));
    assert [] + [SLASH] + Join(NonEmpty(parts)) == [SLASH] + Join(NonEmpty(parts));
  }

  /** Normalizing again without encoding in between is stable exactly when the
      path, once decoded, contains no further escape. */
  lemma NormalizingTwiceIsStableExactly(path: Bytes)
    requires NormalizePath(path).Some?
    ensures var normal := NormalizePath(path).value;
            NormalizePath(normal) == Some(normal) <==> !HasEscape(Unquote(path))
  {
    var normal := NormalizePath(path).value;
    NormalizingGivesNormal(path);
    NormalizingKeepsEscapes(path);
    UnquoteShortensExactly(normal);
    if !HasEscape(normal) {
      DecodedNormalIsKept(normal, normal);
    } else if NormalizePath(normal).Some? {
      NormalizingDoesNotGrow(normal);
    }
  }

  lemma DecodedExample(path: Bytes, once: Bytes)
    requires path == [SLASH, PERCENT, 50, 53, 52, 49] && once == [SLASH, PERCENT, 52, 49]
    ensures Unquote(path) == once && Unquote(once) == [SLASH, 65]
  {
    OthersStay(SLASH, [PERCENT, 50, 53, 52, 49]);
    UnquoteEscape(50, 53, [52, 49]);
    assert [PERCENT, 50, 53] + [52, 49] == [PERCENT, 50, 53, 52, 49] && [SLASH] + [PERCENT, 50, 53, 52, 49] == path;
    OthersStay(52, [49]);
    OthersStay(49, []);
    assert [52] + [49] == [52, 49] && [49] + [] == [49];
    OthersStay(SLASH, [PERCENT, 52, 49]);
    UnquoteEscape(52, 49, []);
    assert [PERCENT, 52, 49] + [] == [PERCENT, 52, 49] && [SLASH] + [PERCENT, 52, 49] == once;
  }

  /** For example the path /%2541. */
  lemma NormalizingTwiceCanChange(path: Bytes)
    requires path == [SLASH, PERCENT, 50, 53, 52, 49]
    ensures NormalizePath(path) == Some([SLASH, PERCENT, 52, 49])
    ensures NormalizePath([SLASH, PERCENT, 52, 49]) == Some([SLASH, 65])
  {
    var once: Bytes := [SLASH, PERCENT, 52, 49];
    var twice: Bytes := [SLASH, 65];
    DecodedExample(path, once);
    assert Normal(once) by {
      var parts: seq<Bytes> := [[PERCENT, 52, 49]];
      assert AllPlain(parts);
    }
    assert Normal(twice) by {
      var parts: seq<Bytes> := [[65]];
      assert AllPlain(parts);
    }
    DecodedNormalIsKept(path, once);
    DecodedNormalIsKept(once, twice);
  }
}
