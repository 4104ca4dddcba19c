/** The fixed-shape property dictionaries `DataGenerator.GetNode` and
    `DataGenerator.GetEdge` synthesise, and what `GraphEntity.Update` makes of
    them. */
module PropertySets {
  import opened Decimal
  import opened Oracles
  import opened Entities

  /** `$"prop{i:D3}"`, the name of the i-th synthetic property. */
  function PropKey(i: nat): string {
    "prop" + D3(i)
  }

  /** The entry is `key` with an int value in [lo, hi). */
  predicate IntIn(p: Property, key: string, lo: int, hi: int) {
    p.0 == key && p.1.Int? && lo <= p.1.i < hi
  }

  /** `count` synthetic entries prop000, prop001, ... holding ints in [0, 100). */
  ghost predicate ExtraProps(ps: seq<Property>, count: nat) {
    |ps| == count && forall i :: 0 <= i < |ps| ==> IntIn(ps[i], PropKey(i), 0, 100)
  }

  /** `new int[] { 0, rand.Next(), rand.Next(), rand.Next(), level }`. */
  ghost predicate Coordinates(v: Value, depth: nat) {
    v.IntArr? && |v.a| == 5 && v.a[0] == 0 && v.a[4] == depth &&
    forall j :: 1 <= j < 4 ==> 0 <= v.a[j] < Int32Max
  }

  /** A key "guid-" followed by a GUID. */
  predicate GuidKey(k: string) {
    |k| > 5 && k[..5] == "guid-" && IsGuid(k[5..])
  }

  /** The dictionary of a node at `depth` with `extra` synthetic properties,
      entry by entry in the order they are added. */
  ghost predicate NodeProps(ps: seq<Property>, depth: nat, extra: nat) {
    |ps| == 7 + extra &&
    IntIn(ps[0], "temperature", 50, 100) &&
    IntIn(ps[1], "humidity", 50, 100) &&
    IntIn(ps[2], "pressure", 50, 100) &&
    ps[3] == ("level", Int(depth)) &&
    ps[4].0 == "coordinates" && Coordinates(ps[4].1, depth) &&
    ps[5].0 == "dyn-" + Dec(depth) && ps[5].1.Str? && IsGuid(ps[5].1.s) &&
    GuidKey(ps[6].0) && ps[6].1 == Str("dynProp") &&
    ExtraProps(ps[7..], extra)
  }

  /** The dictionary of an edge with `extra` synthetic properties. */
  ghost predicate EdgeProps(ps: seq<Property>, extra: nat) {
    |ps| == 1 + extra &&
    IntIn(ps[0], "length", 0, 10) &&
    ExtraProps(ps[1..], extra)
  }

  /** The GUIDs one entry holds: the GUID part of a "guid-" key, then its
      value if that is a GUID string. */
  function EntryGuids(p: Property): seq<string> {
    (if GuidKey(p.0) then [p.0[5..]] else []) +
    (if p.1.Str? && IsGuid(p.1.s) then [p.1.s] else [])
  }

  /** The GUIDs a dictionary holds, entry by entry. */
  function GuidsIn(ps: seq<Property>): seq<string> {
    if ps == [] then [] else EntryGuids(ps[0]) + GuidsIn(ps[1..])
  }

  lemma {:induction false} GuidsInAppend(a: seq<Property>, b: seq<Property>)
    ensures GuidsIn(a + b) == GuidsIn(a) + GuidsIn(b)
  {
    if a == [] {
      assert a + b == b;
    } else {
      assert (a + b)[1..] == a[1..] + b;
      GuidsInAppend(a[1..], b);
    }
  }

  /** A dictionary none of whose entries holds a GUID holds none. */
  lemma {:induction false} GuidsInNone(ps: seq<Property>)
    requires forall i :: 0 <= i < |ps| ==> EntryGuids(ps[i]) == []
    ensures GuidsIn(ps) == []
  {
    if ps != [] {
      GuidsInNone(ps[1..]);
    }
  }

  /** Every GUID of an entry is among those of its dictionary. */
  lemma {:induction false} GuidsInMember(ps: seq<Property>, i: nat)
    requires i < |ps|
    ensures forall g :: g in EntryGuids(ps[i]) ==> g in GuidsIn(ps)
  {
    if i > 0 {
      GuidsInMember(ps[1..], i - 1);
    }
  }

  /** A dictionary whose GUIDs were all handed out has its GUID strings
      handed out. */
  lemma GuidsInIssued(ps: seq<Property>, issued: set<string>)
    requires forall g :: g in GuidsIn(ps) ==> g in issued
    ensures StringsIssued(ps, issued)
  {
    forall i | 0 <= i < |ps| && ps[i].1.Str? && IsGuid(ps[i].1.s)
      ensures ps[i].1.s in issued
    {
      GuidsInMember(ps, i);
    }
  }

  lemma ExtraPropsNoGuids(ps: seq<Property>, count: nat)
    requires ExtraProps(ps, count)
    ensures GuidsIn(ps) == []
  {
    forall i | 0 <= i < |ps| ensures EntryGuids(ps[i]) == [] {
      PropKeyStart(i);
      assert ps[i].0[..5][0] == 'p';
    }
    GuidsInNone(ps);
  }

  /** A node holds two GUIDs: the value of its "dyn-" entry and the GUID
      part of its "guid-" key ("dynProp" is not a GUID). */
  lemma NodeGuids(ps: seq<Property>, depth: nat, extra: nat)
    requires NodeProps(ps, depth, extra)
    ensures GuidsIn(ps) == [ps[5].1.s, ps[6].0[5..]]
  {
    var fixed := ps[..5];
    forall i | 0 <= i < 5 ensures EntryGuids(fixed[i]) == [] {
      assert fixed[i].0[..5][0] != 'g';
    }
    GuidsInNone(fixed);
    assert ("dyn-" + Dec(depth))[..5][0] == 'd';
    assert EntryGuids(ps[5]) == [ps[5].1.s];
    assert EntryGuids(ps[6]) == [ps[6].0[5..]];
    ExtraPropsNoGuids(ps[7..], extra);
    assert ps[5..][1..] == ps[6..] && ps[6..][1..] == ps[7..];
    assert ps == fixed + ps[5..];
    GuidsInAppend(fixed, ps[5..]);
  }

  /** An edge holds no GUID. */
  lemma EdgeGuids(ps: seq<Property>, extra: nat)
    requires EdgeProps(ps, extra)
    ensures GuidsIn(ps) == []
  {
    ExtraPropsNoGuids(ps[1..], extra);
    assert ps[0].0[..5][0] == 'l';
  }

  /** Synthetic property names never repeat. */
  lemma PropKeyInjective(i: nat, j: nat)
    ensures PropKey(i) == PropKey(j) <==> i == j
  {
    if PropKey(i) == PropKey(j) {
      assert PropKey(i)[4..] == D3(i);
      assert PropKey(j)[4..] == D3(j);
      PaddedInjective(i, j, 3);
    }
  }

  lemma PropKeyStart(i: nat)
    ensures |PropKey(i)| >= 7 && PropKey(i)[0] == 'p' && PropKey(i)[2] == 'o'
  {
  }

  /** The first letters of the seven fixed node keys, in order. */
  const NodeKeyInitials: string := "thplcdg"

  lemma NodeKeyInitialsOf(ps: seq<Property>, depth: nat, extra: nat)
    requires NodeProps(ps, depth, extra)
    ensures forall i :: 0 <= i < 7 ==> |ps[i].0| >= 3 && ps[i].0[0] == NodeKeyInitials[i]
    ensures ps[2].0[2] == 'e'
  {
    assert ("dyn-" + Dec(depth))[0] == 'd';
    assert ps[6].0[..5][0] == 'g';
  }

  /** Synthetic entries have pairwise distinct keys. */
  lemma ExtraPropsUnique(ps: seq<Property>, count: nat)
    requires ExtraProps(ps, count)
    ensures UniqueKeys(ps)
  {
    forall i, j | 0 <= i < j < |ps|
      ensures ps[i].0 != ps[j].0
    {
      PropKeyInjective(i, j);
    }
  }

  /** A synthetic key differs from every key whose first letter is not 'p'
      or whose third letter is not 'o'. */
  lemma ExtraKeysAvoid(ps: seq<Property>, count: nat, k: string)
    requires ExtraProps(ps, count)
    requires |k| >= 3 && (k[0] != 'p' || k[2] != 'o')
    ensures k !in KeysOf(ps)
  {
    forall i | 0 <= i < |ps| ensures ps[i].0 != k
    {
      PropKeyStart(i);
    }
  }

  /** The keys `GetNode` adds are pairwise distinct, so none of its `Add`
      calls throws and its indexer writes all append. */
  lemma NodePropsUnique(ps: seq<Property>, depth: nat, extra: nat)
    requires NodeProps(ps, depth, extra)
    ensures UniqueKeys(ps)
  {
    NodeKeyInitialsOf(ps, depth, extra);
    var fixed, extras := ps[..7], ps[7..];
    assert ps == fixed + extras;
    forall i, j | 0 <= i < j < 7
      ensures fixed[i].0 != fixed[j].0
    {
      assert NodeKeyInitials[i] != NodeKeyInitials[j];
    }
    ExtraPropsUnique(extras, extra);
    forall i | 0 <= i < 7
      ensures fixed[i].0 !in KeysOf(extras)
    {
      ExtraKeysAvoid(extras, extra, fixed[i].0);
    }
    UniqueConcat(fixed, extras);
  }

  lemma EdgePropsUnique(ps: seq<Property>, extra: nat)
    requires EdgeProps(ps, extra)
    ensures UniqueKeys(ps)
  {
    var extras := ps[1..];
    assert ps == [ps[0]] + extras;
    ExtraPropsUnique(extras, extra);
    ExtraKeysAvoid(extras, extra, "length");
    UniqueConcat([ps[0]], extras);
  }

  /** Two dictionaries with unique keys and no key in common concatenate
      into one with unique keys. */
  lemma UniqueConcat(a: seq<Property>, b: seq<Property>)
    requires UniqueKeys(a) && UniqueKeys(b)
    requires forall i :: 0 <= i < |a| ==> a[i].0 !in KeysOf(b)
    ensures UniqueKeys(a + b)
  {
    forall i, j | 0 <= i < j < |a + b|
      ensures (a + b)[i].0 != (a + b)[j].0
    {
      if i < |a| <= j {
        assert KeysOf(b)[j - |a|] == (a + b)[j].0;
      }
    }
  }

  /** The converse: the parts of a dictionary with unique keys have unique
      keys and none in common. */
  lemma UniqueSplit(a: seq<Property>, b: seq<Property>)
    requires UniqueKeys(a + b)
    ensures UniqueKeys(a) && UniqueKeys(b)
    ensures forall i :: 0 <= i < |a| ==> a[i].0 !in KeysOf(b)
  {
    forall i, j | 0 <= i < j < |a|
      ensures a[i].0 != a[j].0
    {
      assert (a + b)[i] == a[i] && (a + b)[j] == a[j];
    }
    forall i, j | 0 <= i < j < |b|
      ensures b[i].0 != b[j].0
    {
      assert (a + b)[|a| + i] == b[i] && (a + b)[|a| + j] == b[j];
    }
    forall i, j | 0 <= i < |a| && 0 <= j < |b|
      ensures KeysOf(b)[j] != a[i].0
    {
      assert (a + b)[i] == a[i] && (a + b)[|a| + j] == b[j];
    }
  }

  /** `Update` on a node's dictionary keeps every key but "coordinates",
      in place. */
  lemma UpdateNodeKeys(before: seq<Property>, after: seq<Property>, depth: nat, extra: nat,
                       issued: set<string>)
    requires NodeProps(before, depth, extra) && Refreshed(before, after, issued)
    ensures |after| == |before| - 1
    ensures KeysOf(after) == KeysOf(before[..4]) + KeysOf(before[5..])
    ensures "coordinates" !in KeysOf(after)
  {
    KeptOfNode(before, depth, extra);
    NodePropsUnique(before, depth, extra);
    RefreshedDropsOne(before, after, 4, issued);
  }

  /** When `Update` drops exactly the entry at `n` of a dictionary with
      unique keys, the key of that entry is gone and the others stay in
      place. */
  lemma RefreshedDropsOne(before: seq<Property>, after: seq<Property>, n: nat, issued: set<string>)
    requires n < |before| && UniqueKeys(before)
    requires Scalars(before) == before[..n] + before[n + 1..]
    requires Refreshed(before, after, issued)
    ensures KeysOf(after) == KeysOf(before[..n]) + KeysOf(before[n + 1..])
    ensures before[n].0 !in KeysOf(after)
  {
    RefreshedKeysOf(before, after, issued);
    KeysOfAppend(before[..n], before[n + 1..]);
    UniqueKeyAlone(before, n);
  }

  /** `Update` on a node's dictionary: "level" no longer holds the depth but
      a draw from [50, 100); the dynamic GUID value is replaced by a GUID not
      handed out before, and the "dynProp" marker by a GUID as well. */
  lemma UpdateNodeValues(before: seq<Property>, after: seq<Property>, depth: nat, extra: nat,
                         issued: set<string>)
    requires NodeProps(before, depth, extra) && Refreshed(before, after, issued)
    requires StringsIssued(before, issued)
    ensures |after| == 6 + extra
    ensures IntIn(after[3], "level", 50, 100)
    ensures after[4].0 == before[5].0 && after[4].1.Str? && after[4].1 != before[5].1
    ensures after[5].0 == before[6].0 && after[5].1.Str? && after[5].1 != Str("dynProp")
  {
    var kept := before[..4] + before[5..];
    KeptOfNode(before, depth, extra);
    assert kept[3] == before[3] && kept[4] == before[5] && kept[5] == before[6];
    assert !IsDigit("dynProp"[0]);
  }

  /** Which entries of a node's dictionary `Update` keeps: all but "coordinates". */
  lemma KeptOfNode(ps: seq<Property>, depth: nat, extra: nat)
    requires NodeProps(ps, depth, extra)
    ensures Scalars(ps) == ps[..4] + ps[5..]
  {
    var front := ps[..5];
    var back := ps[5..];
    assert ps == front + back;
    ScalarsOfScalars(ps[..4]);
    assert front[..4] == ps[..4];
    forall i | 0 <= i < |back| ensures !back[i].1.IntArr?
    {
      if i >= 2 {
        assert back[i] == ps[7..][i - 2];
      }
    }
    ScalarsOfScalars(back);
    ScalarsAppend(front, back);
  }

  /** Filtering distributes over concatenation. */
  lemma {:induction false} ScalarsAppend(a: seq<Property>, b: seq<Property>)
    ensures Scalars(a + b) == Scalars(a) + Scalars(b)
    decreases |b|
  {
    if b == [] {
      assert a + b == a;
    } else {
      var init := b[..|b| - 1];
      assert (a + b)[..|a + b| - 1] == a + init;
      ScalarsAppend(a, init);
    }
  }

  /** `Update` on an edge's dictionary keeps every key in place and draws
      every value from [50, 100). */
  lemma UpdateEdgeProps(before: seq<Property>, after: seq<Property>, extra: nat, issued: set<string>)
    requires EdgeProps(before, extra) && Refreshed(before, after, issued)
    ensures KeysOf(after) == KeysOf(before)
    ensures forall i :: 0 <= i < |after| ==> after[i].1.Int? && 50 <= after[i].1.i < 100
  {
    forall i | 0 <= i < |before| ensures before[i].1.Int?
    {
      if i >= 1 {
        assert before[i] == before[1..][i - 1];
      }
    }
    ScalarsOfScalars(before);
  }
}
