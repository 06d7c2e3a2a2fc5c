/**
 * `targetName` (src/generator.js:6-13): a Map from names to ordinals, shared by a whole run. The
 * first time a name is seen it gets `mapping.size + 1`; every name is rendered `name_k`.
 */
module TargetNames {
  import opened Strings
  import opened Ir
  import opened Render

  /** The ordinals in use are 1..|m|, one per name: what `mapping.size + 1` keeps true. */
  predicate Ordinal(m: map<Value, nat>) {
    && (forall k | k in m :: 1 <= m[k] <= |m|)
    && (forall k1, k2 | k1 in m && k2 in m && m[k1] == m[k2] :: k1 == k2)
  }

  /** The later map knows every name the earlier one knew, with the same ordinal. */
  predicate Extends(m: map<Value, nat>, m': map<Value, nat>) {
    forall k | k in m :: k in m' && m'[k] == m[k]
  }

  /** The rendering of a name that has an ordinal. */
  function Named(m: map<Value, nat>, key: Value): string
    requires key in m
  {
    Show(key) + "_" + NatToString(m[key])
  }

  /** `targetName(key)`: the name and the map afterwards. */
  function TargetName(m: map<Value, nat>, key: Value): (r: (string, map<Value, nat>))
    requires Ordinal(m)
    ensures Ordinal(r.1) && Extends(m, r.1) && key in r.1
    ensures r.0 == Named(r.1, key)
    ensures key in m ==> r.1 == m
    ensures key !in m ==> r.1 == m[key := |m| + 1] && |r.1| == |m| + 1
  {
    var m' := if key in m then m else m[key := |m| + 1];
    assert key !in m ==> |m'| == |m| + 1;
    (Named(m', key), m')
  }

  /** A name seen before keeps its ordinal, so every later call returns the same text. */
  lemma TargetNameStable(m: map<Value, nat>, key: Value)
    requires Ordinal(m)
    ensures var (s, m') := TargetName(m, key);
            var (s', m'') := TargetName(m', key);
            s' == s && m'' == m'
  {
  }

  /** Two different names never get the same target name. */
  lemma NamedInjective(m: map<Value, nat>, k1: Value, k2: Value)
    requires Ordinal(m) && k1 in m && k2 in m
    requires Named(m, k1) == Named(m, k2)
    ensures k1 == k2
  {
    SuffixedInjective(Show(k1), NatToString(m[k1]), Show(k2), NatToString(m[k2]));
    NatToStringInjective(m[k1], m[k2]);
  }

  /** The names of `ks` in the order they are first seen, after the ones in `seen`. */
  function FirstSeen(seen: seq<Value>, ks: seq<Value>): seq<Value>
    decreases |ks|
  {
    if ks == [] then seen
    else FirstSeen(if ks[0] in seen then seen else seen + [ks[0]], ks[1..])
  }

  /** `targetName` applied to each of `ks` in turn. */
  function TargetNames(m: map<Value, nat>, ks: seq<Value>): (m': map<Value, nat>)
    requires Ordinal(m)
    ensures Ordinal(m')
    decreases |ks|
  {
    if ks == [] then m else TargetNames(TargetName(m, ks[0]).1, ks[1..])
  }

  /** The map holds exactly the names in `order`, name `order[j]` with ordinal j + 1. */
  predicate Numbers(m: map<Value, nat>, order: seq<Value>) {
    && (forall j | 0 <= j < |order| :: order[j] in m && m[order[j]] == j + 1)
    && (forall k | k in m :: k in order)
  }

  /**
   * Ordinals run 1, 2, 3, ... in first-seen order and are keyed by name: over any sequence of
   * calls the j-th distinct name (from 0) is numbered j + 1.
   */
  lemma {:induction false} OrdinalsInFirstSeenOrder(m: map<Value, nat>, seen: seq<Value>, ks: seq<Value>)
    requires Ordinal(m) && Numbers(m, seen)
    ensures Numbers(TargetNames(m, ks), FirstSeen(seen, ks))
    decreases |ks|
  {
    if ks != [] {
      var k := ks[0];
      var m' := TargetName(m, k).1;
      if k in seen {
        assert k in m;
      } else {
        assert k !in m;
        var seen' := seen + [k];
        assert |m| == |seen| by {
          NumbersSize(m, seen);
        }
        forall j | 0 <= j < |seen'|
          ensures seen'[j] in m' && m'[seen'[j]] == j + 1
        {
          if j < |seen| {
            assert seen'[j] == seen[j];
          }
        }
      }
      OrdinalsInFirstSeenOrder(m', if k in seen then seen else seen + [k], ks[1..]);
    }
  }

  /** A map numbering `order` has one entry per element of `order`. */
  lemma NumbersSize(m: map<Value, nat>, order: seq<Value>)
    requires Numbers(m, order)
    ensures |m| == |order|
  {
    assert m.Keys == set x | x in order;
    forall i, j | 0 <= i < j < |order|
      ensures order[i] != order[j]
    {
      assert m[order[i]] == i + 1 && m[order[j]] == j + 1;
    }
    DistinctSetSize(order);
  }

  lemma {:induction false} DistinctSetSize(s: seq<Value>)
    requires forall i, j | 0 <= i < j < |s| :: s[i] != s[j]
    ensures |set x | x in s| == |s|
  {
    if s != [] {
      var t := s[..|s| - 1];
      DistinctSetSize(t);
      assert (set x | x in s) == (set x | x in t) + {s[|s| - 1]};
    }
  }
}
