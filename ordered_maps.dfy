/** java.util.LinkedHashMap<String, String> as a value: the keys in the order
    of their first insertion, and the mapping itself. The parser's loops
    reassign such a value where the source calls `put` on the map. */
module OrderedMaps {

  datatype OrderedMap = OrderedMap(keys: seq<string>, values: map<string, string>)

  /** A freshly constructed, empty map. */
  const Empty := OrderedMap([], map[])

  predicate Distinct(s: seq<string>) {
    forall i, j :: 0 <= i < j < |s| ==> s[i] != s[j]
  }

  /** The map's invariant: each key is listed once, and exactly the mapped
      keys are listed. */
  ghost predicate Valid(m: OrderedMap) {
    Distinct(m.keys) && (forall k :: k in m.values <==> k in m.keys)
  }

  /** LinkedHashMap.put: a new key goes to the end of the order; a key already
      present keeps its place and takes the new value. */
  function Put(m: OrderedMap, key: string, value: string): (r: OrderedMap)
    ensures Valid(m) ==> Valid(r)
    ensures r.values == m.values[key := value]
    ensures Valid(m) && key in m.keys ==> r.keys == m.keys
    ensures Valid(m) && key !in m.keys ==> r.keys == m.keys + [key]
  {
    if key in m.values then OrderedMap(m.keys, m.values[key := value])
    else OrderedMap(m.keys + [key], m.values[key := value])
  }

  /** `seen`, followed by each element of `s` that is not already listed, at
      its first occurrence. */
  function DedupOnto(seen: seq<string>, s: seq<string>): (r: seq<string>)
    ensures Distinct(seen) ==> Distinct(r)
    ensures forall x :: x in r <==> x in seen || x in s
    ensures |seen| <= |r| && r[..|seen|] == seen
    decreases |s|
  {
    if s == [] then seen
    else DedupOnto(if s[0] in seen then seen else seen + [s[0]], s[1..])
  }

  /** The elements of `s`, each once, in the order of their first occurrence. */
  function Dedup(s: seq<string>): seq<string> {
    DedupOnto([], s)
  }

  /** The position of the first occurrence of `x` in `s`. */
  function First(s: seq<string>, x: string): (i: nat)
    requires x in s
    ensures i < |s| && s[i] == x && x !in s[..i]
  {
    if s[0] == x then 0
    else
      var i := 1 + First(s[1..], x);
      assert s[..i] == [s[0]] + s[1..][..i - 1];
      i
  }

  lemma FirstOfRest(s: seq<string>, x: string)
    requires x in s && s[0] != x
    ensures x in s[1..] && First(s, x) == 1 + First(s[1..], x)
  {
  }

  /** What DedupOnto appends to `seen` comes from `s` and is not in `seen`. */
  lemma BeyondSeen(seen: seq<string>, s: seq<string>, k: int)
    requires Distinct(seen)
    requires |seen| <= k < |DedupOnto(seen, s)|
    ensures DedupOnto(seen, s)[k] in s && DedupOnto(seen, s)[k] !in seen
  {
  }

  /** The part DedupOnto appends lists elements in the order of their first
      occurrence in `s`. */
  lemma {:induction false} DedupOntoOrder(seen: seq<string>, s: seq<string>, i: int, j: int)
    requires Distinct(seen)
    requires |seen| <= i < j < |DedupOnto(seen, s)|
    ensures DedupOnto(seen, s)[i] in s && DedupOnto(seen, s)[j] in s
    ensures First(s, DedupOnto(seen, s)[i]) < First(s, DedupOnto(seen, s)[j])
    decreases |s|
  {
    var r := DedupOnto(seen, s);
    BeyondSeen(seen, s, i);
    BeyondSeen(seen, s, j);
    var x, rest := s[0], s[1..];
    assert s == [x] + rest;
    var seen' := if x in seen then seen else seen + [x];
    assert r == DedupOnto(seen', rest);
    var a, b := r[i], r[j];
    assert a != b;
    if x in seen {
      assert a != x && b != x;
      DedupOntoOrder(seen', rest, i, j);
      FirstOfRest(s, a);
      FirstOfRest(s, b);
    } else if i == |seen| {
      assert a == x;
      assert b != x;
      FirstOfRest(s, b);
    } else {
      assert r[|seen|] == x;
      assert a != x && b != x;
      DedupOntoOrder(seen', rest, i, j);
      FirstOfRest(s, a);
      FirstOfRest(s, b);
    }
  }

  /** Dedup keeps each element once and orders the elements by their first
      occurrence. */
  lemma DedupOrder(s: seq<string>, i: int, j: int)
    requires 0 <= i < j < |Dedup(s)|
    ensures Dedup(s)[i] in s && Dedup(s)[j] in s
    ensures First(s, Dedup(s)[i]) < First(s, Dedup(s)[j])
  {
    DedupOntoOrder([], s, i, j);
  }
}
