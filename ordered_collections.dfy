/**
 * The two JavaScript collections the scoring service relies on for ordering:
 * a `Map`, which iterates its keys in first-insertion order, and the
 * `[...new Set(xs)]` idiom, which drops repeated elements and keeps the first
 * occurrence of each.
 */
module OrderedCollections {
  import opened Wrappers

  /** No element occurs twice. */
  predicate Distinct(s: seq<string>) {
    forall i, j :: 0 <= i < j < |s| ==> s[i] != s[j]
  }

  /** The position of the first occurrence of `x` in `s`. */
  function IndexOf(s: seq<string>, x: string): (i: nat)
    requires x in s
    ensures i < |s| && s[i] == x
    ensures forall j :: 0 <= j < i ==> s[j] != x
  {
    if s[0] == x then 0 else 1 + IndexOf(s[1..], x)
  }

  /** `[...new Set(s)]`: one copy of each element, kept where it first occurs. */
  function Dedup(s: seq<string>): (r: seq<string>)
    ensures Distinct(r)
    ensures forall x :: x in r <==> x in s
    decreases |s|
  {
    if s == [] then []
    else
      var init := Dedup(s[..|s| - 1]);
      if s[|s| - 1] in init then init else init + [s[|s| - 1]]
  }

  /** The first occurrence of `x` in a prefix of `s` is its first occurrence in `s`. */
  lemma IndexOfPrefix(s: seq<string>, n: nat, x: string)
    requires n <= |s| && x in s[..n]
    ensures x in s && IndexOf(s, x) == IndexOf(s[..n], x)
  {
    assert s[IndexOf(s[..n], x)] == x;
  }

  /** The elements of `Dedup(s)` appear in the order of their first occurrences in `s`. */
  lemma {:induction false} DedupFirstOccurrenceOrder(s: seq<string>)
    ensures forall i, j :: 0 <= i < j < |Dedup(s)| ==> IndexOf(s, Dedup(s)[i]) < IndexOf(s, Dedup(s)[j])
    decreases |s|
  {
    if s != [] {
      var p := s[..|s| - 1];
      var last := s[|s| - 1];
      var r := Dedup(s);
      var rp := Dedup(p);
      DedupFirstOccurrenceOrder(p);
      forall i, j | 0 <= i < j < |r|
        ensures IndexOf(s, r[i]) < IndexOf(s, r[j])
      {
        assert r[i] in p by { assert r[i] == rp[i]; }
        IndexOfPrefix(s, |s| - 1, r[i]);
        assert s[..|s| - 1] == p;
        if j < |rp| {
          assert r[j] == rp[j];
          IndexOfPrefix(s, |s| - 1, r[j]);
        } else {
          assert r[j] == last && last !in p;
          assert IndexOf(s, last) == |s| - 1;
        }
      }
    }
  }

  /** A sequence without repeats passes through `Dedup` unchanged. */
  lemma {:induction false} DedupOfDistinct(s: seq<string>)
    requires Distinct(s)
    ensures Dedup(s) == s
    decreases |s|
  {
    if s != [] {
      var p := s[..|s| - 1];
      assert Distinct(p);
      DedupOfDistinct(p);
      assert s[|s| - 1] !in p;
      assert p + [s[|s| - 1]] == s;
    }
  }

  /** Spreading a `Set` into a `Set` again changes nothing. */
  lemma DedupIdempotent(s: seq<string>)
    ensures Dedup(Dedup(s)) == Dedup(s)
  {
    DedupOfDistinct(Dedup(s));
  }

  /** A JavaScript `Map<string, number>`: its entries, and its keys in first-insertion order. */
  datatype OrderedMap = OrderedMap(keys: seq<string>, entries: map<string, int>) {

    /** Each key is recorded once, in insertion order, and the recorded keys are the entries' keys. */
    ghost predicate Valid() {
      Distinct(keys) && forall k :: k in entries <==> k in keys
    }

    /** `map.has(k)`: on a well-formed map, whether `k` is one of the recorded keys. */
    predicate Has(k: string): (b: bool)
      ensures Valid() ==> (b <==> k in keys)
    {
      k in entries
    }

    /** `map.get(k)`, with `None` for `undefined`: on a well-formed map, a value exactly for the recorded keys. */
    function Get(k: string): (r: Option<int>)
      ensures Valid() ==> (r.Some? <==> k in keys)
      ensures Valid() && k in keys ==> r == Some(entries[k])
    {
      if k in entries then Some(entries[k]) else None
    }

    /** `map.set(k, v)`: overwriting keeps a key's position; a new key goes last. */
    function Set(k: string, v: int): (r: OrderedMap)
      requires Valid()
      ensures r.Valid()
      ensures r.entries == entries[k := v]
      ensures r.keys == if Has(k) then keys else keys + [k]
    {
      OrderedMap(if k in entries then keys else keys + [k], entries[k := v])
    }
  }

  /** `new Map()` */
  function EmptyMap(): (m: OrderedMap)
    ensures m.Valid() && m.keys == [] && m.entries == map[]
  {
    OrderedMap([], map[])
  }
}
