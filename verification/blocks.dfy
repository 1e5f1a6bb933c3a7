/** The canonical block description `name|k1=v1,k2=v2` (fastanvil
    types.rs, `Block::encoded_description`): property keys in lexicographic
    order, the `waterlogged` property left out, no trailing separator. */
module Blocks {
  import opened Common

  // ---------------------------------------------------------------------
  // The order `sort` uses on string keys
  // ---------------------------------------------------------------------

  /** Lexicographic order on strings, character by character (byte order of
      UTF-8 and code-point order agree); a proper prefix comes first. */
  predicate Less(a: string, b: string)
    decreases |a|
  {
    if a == [] then b != []
    else if b == [] then false
    else if a[0] != b[0] then a[0] < b[0]
    else Less(a[1..], b[1..])
  }

  lemma {:induction false} LessIrreflexive(a: string)
    ensures !Less(a, a)
    decreases |a|
  {
    if a != [] {
      LessIrreflexive(a[1..]);
    }
  }

  lemma {:induction false} LessTransitive(a: string, b: string, c: string)
    requires Less(a, b) && Less(b, c)
    ensures Less(a, c)
    decreases |a|
  {
    if a != [] && b != [] && c != [] && a[0] == b[0] && b[0] == c[0] {
      LessTransitive(a[1..], b[1..], c[1..]);
    }
  }

  lemma {:induction false} LessTotal(a: string, b: string)
    ensures a == b || Less(a, b) || Less(b, a)
    decreases |a|
  {
    if a != [] && b != [] && a[0] == b[0] {
      LessTotal(a[1..], b[1..]);
      if a[1..] == b[1..] {
        assert a == [a[0]] + a[1..] && b == [b[0]] + b[1..];
      }
    }
  }

  lemma LessAsymmetric(a: string, b: string)
    requires Less(a, b)
    ensures !Less(b, a)
  {
    if Less(b, a) {
      LessTransitive(a, b, a);
      LessIrreflexive(a);
    }
  }

  /** Strictly increasing: sorted, and no key twice. */
  predicate StrictlySorted(ks: seq<string>) {
    forall i, j :: 0 <= i < j < |ks| ==> Less(ks[i], ks[j])
  }

  predicate IsLeast(m: string, s: set<string>) {
    m in s && forall k :: k in s && k != m ==> Less(m, k)
  }

  lemma {:induction false} LeastExists(s: set<string>)
    requires s != {}
    ensures exists m :: IsLeast(m, s)
    decreases s
  {
    var k :| k in s;
    if s == {k} {
      assert IsLeast(k, s);
    } else {
      LeastExists(s - {k});
      var m :| IsLeast(m, s - {k});
      LessTotal(k, m);
      if Less(k, m) {
        forall k' | k' in s && k' != k ensures Less(k, k') {
          if k' != m {
            LessTransitive(k, m, k');
          }
        }
        assert IsLeast(k, s);
      } else {
        assert IsLeast(m, s);
      }
    }
  }

  lemma LeastUnique(s: set<string>)
    ensures forall m1, m2 :: IsLeast(m1, s) && IsLeast(m2, s) ==> m1 == m2
  {
    forall m1, m2 | IsLeast(m1, s) && IsLeast(m2, s) ensures m1 == m2 {
      if m1 != m2 {
        LessAsymmetric(m1, m2);
      }
    }
  }

  /** The keys of a set in increasing order: the order `props.sort()`
      leaves them in, keys being distinct. */
  ghost function SortedKeys(s: set<string>): (ks: seq<string>)
    decreases s
  {
    if s == {} then []
    else
      LeastExists(s);
      var m :| IsLeast(m, s);
      [m] + SortedKeys(s - {m})
  }

  /** SortedKeys lists every key once, in strictly increasing order. */
  lemma {:induction false} SortedKeysSpec(s: set<string>)
    ensures StrictlySorted(SortedKeys(s))
    ensures forall k :: k in SortedKeys(s) <==> k in s
    ensures |SortedKeys(s)| == |s|
    decreases s
  {
    if s != {} {
      LeastExists(s);
      var m :| IsLeast(m, s);
      LeastUnique(s);
      var rest := SortedKeys(s - {m});
      SortedKeysSpec(s - {m});
      assert SortedKeys(s) == [m] + rest;
      forall i, j | 0 <= i < j < |[m] + rest| ensures Less(([m] + rest)[i], ([m] + rest)[j]) {
        if i > 0 {
          assert ([m] + rest)[i] == rest[i - 1] && ([m] + rest)[j] == rest[j - 1];
        } else {
          assert ([m] + rest)[j] == rest[j - 1] && rest[j - 1] in s - {m};
        }
      }
    }
  }

  /** A strictly increasing listing of a set is unique. */
  lemma {:induction false} SortedKeysUnique(ks: seq<string>, s: set<string>)
    requires StrictlySorted(ks)
    requires forall k :: k in ks <==> k in s
    ensures ks == SortedKeys(s)
    decreases s
  {
    if ks == [] {
      assert s == {};
    } else {
      assert ks[0] in s;
      LeastExists(s);
      var m :| IsLeast(m, s);
      LeastUnique(s);
      assert SortedKeys(s) == [m] + SortedKeys(s - {m});
      // ks[0] is below every other key of ks, so it is the least key of s.
      if ks[0] != m {
        assert ks[0] in s;
        var j :| 0 <= j < |ks| && ks[j] == m;
        assert j > 0;
        assert Less(ks[0], m);
        assert Less(m, ks[0]);
        LessAsymmetric(m, ks[0]);
      }
      forall k ensures k in ks[1..] <==> k in s - {m} {
        if k in ks[1..] {
          var j :| 1 <= j < |ks| && ks[j] == k;
          assert Less(ks[0], ks[j]);
          LessIrreflexive(k);
        }
        if k in s - {m} {
          assert k in ks;
          var j :| 0 <= j < |ks| && ks[j] == k;
          assert j != 0;
          assert ks[1..][j - 1] == k;
        }
      }
      SortedKeysUnique(ks[1..], s - {m});
      assert ks == [ks[0]] + ks[1..];
    }
  }

  // ---------------------------------------------------------------------
  // The description
  // ---------------------------------------------------------------------

  const Waterlogged: string := "waterlogged"

  /** `k1=v1,k2=v2,...` for the listed keys, commas only between pairs. */
  function Pairs(ks: seq<string>, props: map<string, string>): string
    requires forall k :: k in ks ==> k in props
  {
    if ks == [] then ""
    else
      var init := ks[..|ks| - 1];
      var k := ks[|ks| - 1];
      assert forall k' :: k' in init ==> k' in ks;
      Pairs(init, props) + (if init == [] then "" else ",") + k + "=" + props[k]
  }

  /** The description of a block, as specified. */
  ghost function Description(b: Block): string {
    var keys := b.properties.Keys - {Waterlogged};
    SortedKeysSpec(keys);
    b.name + "|" + Pairs(SortedKeys(keys), b.properties)
  }

  /** encoded_description: collect the properties other than `waterlogged`
      (in whatever order the map yields them), sort them by key, then
      append `k=v` pairs with a "," between consecutive pairs. */
  method EncodedDescription(b: Block) returns (id: string)
    ensures id == Description(b)
  {
    var props := CollectKeys(b.properties);
    var sorted := SortKeys(props);
    SortedKeysUnique(sorted, b.properties.Keys - {Waterlogged});
    id := JoinPairs(b.name, sorted, b.properties);
  }

  /** The first step: every key but `waterlogged`, once each, in the
      order the map happens to yield them. */
  method CollectKeys(properties: map<string, string>) returns (props: seq<string>)
    ensures forall k :: k in props <==> k in properties.Keys - {Waterlogged}
    ensures forall i, j :: 0 <= i < j < |props| ==> props[i] != props[j]
  {
    props := [];
    var remaining := properties.Keys;
    while remaining != {}
      invariant remaining <= properties.Keys
      invariant forall k :: k in props <==> k in properties.Keys - remaining - {Waterlogged}
      invariant forall i, j :: 0 <= i < j < |props| ==> props[i] != props[j]
      decreases remaining
    {
      var k :| k in remaining;
      assert k !in props;
      if k != Waterlogged {
        props := props + [k];
      }
      remaining := remaining - {k};
    }
  }

  /** The second step, `props.sort()`: the same keys, strictly increasing. */
  method SortKeys(props: seq<string>) returns (sorted: seq<string>)
    requires forall i, j :: 0 <= i < j < |props| ==> props[i] != props[j]
    ensures StrictlySorted(sorted)
    ensures forall k :: k in sorted <==> k in props
  {
    sorted := [];
    var n := 0;
    while n < |props|
      invariant 0 <= n <= |props|
      invariant StrictlySorted(sorted)
      invariant forall k :: k in sorted <==> k in props[..n]
    {
      var k := props[n];
      assert k !in props[..n];
      sorted := InsertSorted(sorted, k);
      n := n + 1;
    }
    assert props[..n] == props;
  }

  /** The last step: the name, "|", then the pairs with "," between them. */
  method JoinPairs(name: string, ks: seq<string>, properties: map<string, string>) returns (id: string)
    requires forall k :: k in ks ==> k in properties
    ensures id == name + "|" + Pairs(ks, properties)
  {
    id := name + "|";
    var sep := "";
    var i := 0;
    while i < |ks|
      invariant 0 <= i <= |ks|
      invariant sep == if i == 0 then "" else ","
      invariant id == name + "|" + Pairs(ks[..i], properties)
    {
      var k := ks[i];
      assert ks[..i + 1][..i] == ks[..i];
      id := id + sep + k + "=" + properties[k];
      sep := ",";
      i := i + 1;
    }
    assert ks[..i] == ks;
  }

  /** Insert a new key at its place in a strictly increasing sequence. */
  function InsertSorted(ks: seq<string>, k: string): (r: seq<string>)
    requires StrictlySorted(ks) && k !in ks
    ensures StrictlySorted(r)
    ensures forall k' :: k' in r <==> k' in ks || k' == k
  {
    if ks == [] then [k]
    else if Less(k, ks[0]) then
      assert forall j :: 0 < j < |ks| ==> Less(ks[0], ks[j]);
      LessAllAbove(k, ks);
      [k] + ks
    else
      LessTotal(k, ks[0]);
      var rest := InsertSorted(ks[1..], k);
      assert forall k' :: k' in rest ==> k' == k || k' in ks[1..];
      forall j | 0 <= j < |rest| ensures Less(ks[0], rest[j]) {
        if rest[j] != k {
          assert rest[j] in ks[1..];
          var i :| 1 <= i < |ks| && ks[i] == rest[j];
        }
      }
      assert forall k' :: k' in ks ==> k' == ks[0] || k' in ks[1..];
      [ks[0]] + rest
  }

  lemma LessAllAbove(k: string, ks: seq<string>)
    requires StrictlySorted(ks) && ks != [] && Less(k, ks[0])
    ensures StrictlySorted([k] + ks)
  {
    forall i, j | 0 <= i < j < |[k] + ks| ensures Less(([k] + ks)[i], ([k] + ks)[j]) {
      if i == 0 && j > 1 {
        LessTransitive(k, ks[0], ks[j - 1]);
      }
    }
  }

  /** The description starts with the name and "|", and has no trailing
      separator: it ends with "|" exactly when no property is left, and
      otherwise with the value of the greatest remaining key. */
  lemma DescriptionShape(b: Block)
    ensures Description(b)[..|b.name| + 1] == b.name + "|"
    ensures b.properties.Keys - {Waterlogged} == {} ==> Description(b) == b.name + "|"
    ensures var ks := SortedKeys(b.properties.Keys - {Waterlogged});
      ks != [] && ks[|ks| - 1] in b.properties ==>
      var v := b.properties[ks[|ks| - 1]];
      |v| <= |Description(b)| && Description(b)[|Description(b)| - |v|..] == v
  {
    var keys := b.properties.Keys - {Waterlogged};
    SortedKeysSpec(keys);
    if keys == {} {
      assert SortedKeys(keys) == [];
    }
  }

  /** `waterlogged` never changes the description. */
  lemma WaterloggedIgnored(b: Block, v: string)
    ensures Description(b.(properties := b.properties[Waterlogged := v])) == Description(b)
  {
    var b' := b.(properties := b.properties[Waterlogged := v]);
    assert b'.properties.Keys - {Waterlogged} == b.properties.Keys - {Waterlogged};
    var ks := SortedKeys(b.properties.Keys - {Waterlogged});
    SortedKeysSpec(b.properties.Keys - {Waterlogged});
    PairsAgree(ks, b.properties, b'.properties);
  }

  /** Pairs reads only the listed keys. */
  lemma {:induction false} PairsAgree(ks: seq<string>, p: map<string, string>, q: map<string, string>)
    requires forall k :: k in ks ==> k in p && k in q && p[k] == q[k]
    ensures Pairs(ks, p) == Pairs(ks, q)
    decreases |ks|
  {
    if ks != [] {
      assert forall k' :: k' in ks[..|ks| - 1] ==> k' in ks;
      PairsAgree(ks[..|ks| - 1], p, q);
    }
  }

  /** A door facing north, waterlogged, is described without the water. */
  lemma DoorExample()
    ensures Description(Block("minecraft:door", map["facing" := "north", "waterlogged" := "true"]))
         == "minecraft:door|facing=north"
  {
    var props := map["facing" := "north", "waterlogged" := "true"];
    assert props.Keys - {Waterlogged} == {"facing"};
    SortedKeysSpec({"facing"});
    var ks := SortedKeys({"facing"});
    assert "facing" in ks;
    assert ks == ["facing"];
    assert Pairs(ks, props) == "facing=north";
  }
}
