/** Canonical serialization of in-memory values, and the hashes taken of it.

    The digest is any injective function on text that never yields the genesis
    value or the empty text. */
module Canonical {
  import opened JsonText
  import opened JsonReader

  function Zeros(n: nat): (r: string)
    ensures |r| == n && forall i :: 0 <= i < n ==> r[i] == '0'
  {
    if n == 0 then "" else "0" + Zeros(n - 1)
  }

  /** What the first event of a log names as its predecessor. */
  const GENESIS: string := Zeros(64)

  ghost predicate IsDigest(h: string -> string) {
    && (forall s, t :: h(s) == h(t) ==> s == t)
    && (forall s :: h(s) != GENESIS && h(s) != "")
  }

  ghost function SampleDigest(): (h: string -> string)
    ensures IsDigest(h)
  {
    var h := (s: string) => "x" + s;
    assert forall s :: h(s)[0] == 'x' && h(s)[1..] == s;
    assert GENESIS[0] == '0';
    h
  }

  type Digest = h: string -> string | IsDigest(h) ghost witness SampleDigest()

  // ------------------------------------------------------------ normalization

  datatype Key = TextKey(s: string) | IntKey(i: int) | BoolKey(b: bool) | NoneKey

  /** A value before normalization: sequences may be lists or tuples, and an
      object lists its entries in insertion order under keys of any kind. */
  datatype Value =
    | Nothing
    | Boolean(b: bool)
    | Integer(i: int)
    | Text(s: string)
    | List(items: seq<Value>)
    | Tuple(items: seq<Value>)
    | Dict(entries: seq<Entry>)

  datatype Entry = Entry(key: Key, value: Value)

  function KeyText(k: Key): string {
    match k
    case TextKey(s) => s
    case IntKey(i) => IntText(i)
    case BoolKey(b) => if b then "True" else "False"
    case NoneKey => "None"
  }

  function Normalize(v: Value): Json
    decreases v, 0
  {
    match v
    case Nothing => Null
    case Boolean(b) => Bool(b)
    case Integer(i) => Int(i)
    case Text(s) => Str(s)
    case List(xs) => Arr(NormalizeAll(xs))
    case Tuple(xs) => Arr(NormalizeAll(xs))
    case Dict(es) => Obj(NormalizeEntries(es))
  }

  function NormalizeAll(xs: seq<Value>): (r: seq<Json>)
    ensures |r| == |xs|
    decreases xs
  {
    if xs == [] then [] else [Normalize(xs[0])] + NormalizeAll(xs[1..])
  }

  function NormalizeEntry(e: Entry): Json
    decreases e
  {
    Normalize(e.value)
  }

  /** A later entry replaces an earlier one whose key has the same text. */
  function NormalizeEntries(es: seq<Entry>): map<string, Json>
    decreases es
  {
    if es == [] then map[]
    else
      var last := es[|es| - 1];
      NormalizeEntries(es[..|es| - 1])[KeyText(last.key) := NormalizeEntry(last)]
  }

  function CanonicalText(v: Value): string {
    Dump(Normalize(v))
  }

  /** Canonical text separates values exactly as far as normalization does. */
  lemma SameTextIffSameNormalForm(v: Value, w: Value)
    ensures CanonicalText(v) == CanonicalText(w) <==> Normalize(v) == Normalize(w)
  {
    if CanonicalText(v) == CanonicalText(w) {
      TextIsInjective(Normalize(v), Normalize(w));
    }
  }

  /** Entry keys with pairwise different text. */
  ghost predicate DistinctKeys(es: seq<Entry>) {
    forall i, j :: 0 <= i < j < |es| ==> KeyText(es[i].key) != KeyText(es[j].key)
  }

  lemma {:induction false} EveryKeyHasAnEntry(es: seq<Entry>, k: string)
    requires k in NormalizeEntries(es)
    ensures exists i :: 0 <= i < |es| && KeyText(es[i].key) == k
  {
    var n := |es| - 1;
    if KeyText(es[n].key) != k {
      EveryKeyHasAnEntry(es[..n], k);
      var i :| 0 <= i < n && KeyText(es[..n][i].key) == k;
      assert KeyText(es[i].key) == k;
    }
  }

  lemma {:induction false} EveryEntryCounts(es: seq<Entry>, i: nat)
    requires DistinctKeys(es) && i < |es|
    ensures KeyText(es[i].key) in NormalizeEntries(es)
    ensures NormalizeEntries(es)[KeyText(es[i].key)] == Normalize(es[i].value)
  {
    var n := |es| - 1;
    if i < n {
      EveryEntryCounts(es[..n], i);
    }
  }

  lemma EntriesIncluded(es: seq<Entry>, fs: seq<Entry>)
    requires DistinctKeys(es) && DistinctKeys(fs)
    requires forall e :: e in es ==> e in fs
    ensures var m, n := NormalizeEntries(es), NormalizeEntries(fs);
            forall k :: k in m ==> k in n && n[k] == m[k]
  {
    var m, n := NormalizeEntries(es), NormalizeEntries(fs);
    forall k | k in m ensures k in n && n[k] == m[k] {
      EveryKeyHasAnEntry(es, k);
      var i :| 0 <= i < |es| && KeyText(es[i].key) == k;
      EveryEntryCounts(es, i);
      assert es[i] in fs;
      var j :| 0 <= j < |fs| && fs[j] == es[i];
      EveryEntryCounts(fs, j);
    }
  }

  /** The order in which entries were inserted does not show in the text. */
  lemma InsertionOrderDoesNotMatter(es: seq<Entry>, fs: seq<Entry>)
    requires DistinctKeys(es) && DistinctKeys(fs)
    requires forall e :: e in es <==> e in fs
    ensures CanonicalText(Dict(es)) == CanonicalText(Dict(fs))
  {
    EntriesIncluded(es, fs);
    EntriesIncluded(fs, es);
    assert NormalizeEntries(es) == NormalizeEntries(fs);
  }

  /** Keys of different kinds collide once they are turned into text. */
  lemma KeysOfDifferentKindsCollide(v: Value)
    ensures CanonicalText(Dict([Entry(IntKey(1), v)])) == CanonicalText(Dict([Entry(TextKey("1"), v)]))
  {
    assert KeyText(IntKey(1)) == "1";
    assert NormalizeEntries([Entry(IntKey(1), v)]) == map["1" := Normalize(v)] by {
      assert [Entry(IntKey(1), v)][..0] == [];
    }
    assert NormalizeEntries([Entry(TextKey("1"), v)]) == map["1" := Normalize(v)] by {
      assert [Entry(TextKey("1"), v)][..0] == [];
    }
  }

  // ------------------------------------------------------------ policy sets

  /** The (id, version) pairs sorted by id. */
  function SortedPairs(versions: map<string, int>, ids: seq<string>): seq<Json>
    requires forall k :: k in ids ==> k in versions
  {
    if ids == [] then [] else [Arr([Str(ids[0]), Int(versions[ids[0]])])] + SortedPairs(versions, ids[1..])
  }

  function PolicySetHash(h: Digest, versions: map<string, int>): string {
    if versions == map[] then "" else h(Dump(Arr(SortedPairs(versions, SortedKeys(versions.Keys)))))
  }

  lemma {:induction false} PairsDetermineVersions(m: map<string, int>, ks: seq<string>, n: map<string, int>, ls: seq<string>)
    requires forall k :: k in ks ==> k in m
    requires forall k :: k in ls ==> k in n
    requires SortedPairs(m, ks) == SortedPairs(n, ls)
    ensures ks == ls && forall k :: k in ks ==> m[k] == n[k]
  {
    if ks != [] && ls != [] {
      var p, q := SortedPairs(m, ks), SortedPairs(n, ls);
      assert p[0] == q[0] && p[1..] == SortedPairs(m, ks[1..]) && q[1..] == SortedPairs(n, ls[1..]);
      assert p[0].elems[0] == q[0].elems[0] && p[0].elems[1] == q[0].elems[1];
      PairsDetermineVersions(m, ks[1..], n, ls[1..]);
      assert ks == [ks[0]] + ks[1..] && ls == [ls[0]] + ls[1..];
    }
  }

  /** Equal policy-set hashes mean equal maps from policy id to version. */
  lemma PolicySetHashIsInjective(h: Digest, m: map<string, int>, n: map<string, int>)
    requires PolicySetHash(h, m) == PolicySetHash(h, n)
    ensures m == n
  {
    if m != map[] && n != map[] {
      var p, q := SortedPairs(m, SortedKeys(m.Keys)), SortedPairs(n, SortedKeys(n.Keys));
      TextIsInjective(Arr(p), Arr(q));
      PairsDetermineVersions(m, SortedKeys(m.Keys), n, SortedKeys(n.Keys));
      assert forall k :: k in m <==> k in SortedKeys(m.Keys);
      assert forall k :: k in n <==> k in SortedKeys(n.Keys);
      assert m == n;
    }
  }
}
