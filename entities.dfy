/** The entity model: graph elements with an id, a label and an ordered
    property dictionary, and the property refresh `GraphEntity.Update`. */
module Entities {
  import opened Decimal
  import opened Oracles
  import opened Sequences

  /** A property value is a string, an int or an int array. */
  datatype Value = Str(s: string) | Int(i: int) | IntArr(a: seq<int>)

  /** One dictionary entry: key and value. */
  type Property = (string, Value)

  function KeysOf(ps: seq<Property>): seq<string> {
    seq(|ps|, i requires 0 <= i < |ps| => ps[i].0)
  }

  ghost predicate UniqueKeys(ps: seq<Property>) {
    forall i, j :: 0 <= i < j < |ps| ==> ps[i].0 != ps[j].0
  }

  lemma KeysOfAppend(a: seq<Property>, b: seq<Property>)
    ensures KeysOf(a + b) == KeysOf(a) + KeysOf(b)
  {
    forall i | 0 <= i < |a| + |b| ensures KeysOf(a + b)[i] == (KeysOf(a) + KeysOf(b))[i]
    {
      if i >= |a| {
        assert (a + b)[i] == b[i - |a|];
      }
    }
  }

  /** With unique keys, the key at `n` occurs nowhere else. */
  lemma UniqueKeyAlone(ps: seq<Property>, n: nat)
    requires n < |ps| && UniqueKeys(ps)
    ensures ps[n].0 !in KeysOf(ps[..n]) + KeysOf(ps[n + 1..])
  {
    var head, tail := ps[..n], ps[n + 1..];
    forall i | 0 <= i < |head| ensures KeysOf(head)[i] != ps[n].0
    {
      assert head[i] == ps[i];
    }
    forall i | 0 <= i < |tail| ensures KeysOf(tail)[i] != ps[n].0
    {
      assert tail[i] == ps[n + 1 + i];
    }
  }

  lemma AppendUnique(ps: seq<Property>, key: string, value: Value)
    requires UniqueKeys(ps) && key !in KeysOf(ps)
    ensures UniqueKeys(ps + [(key, value)])
  {
    forall i | 0 <= i < |ps|
      ensures ps[i].0 != key
    {
      assert KeysOf(ps)[i] == ps[i].0;
    }
  }

  /** `Dictionary<string, object>`. Entries are kept in insertion order,
      the order in which the dictionary enumerates them while nothing is
      removed; keys are unique. */
  class PropertyMap {
    var Entries: seq<Property>

    ghost predicate Valid()
      reads this
    {
      UniqueKeys(Entries)
    }

    constructor ()
      ensures Valid() && Entries == []
    {
      Entries := [];
    }

    /** A dictionary filled by one `Add` per entry, in order; none of them
        throws, since the keys differ. */
    constructor Of(entries: seq<Property>)
      requires UniqueKeys(entries)
      ensures Valid() && Entries == entries
    {
      Entries := entries;
    }

    /** `Add(key, value)`: appends the entry when the key is new; for a key
        already present it throws `ArgumentException` and leaves the
        dictionary as it was, which `added == false` stands for. */
    method Add(key: string, value: Value) returns (added: bool)
      requires Valid()
      modifies this
      ensures Valid()
      ensures added <==> key !in KeysOf(old(Entries))
      ensures Entries == if added then old(Entries) + [(key, value)] else old(Entries)
    {
      if key in KeysOf(Entries) {
        return false;
      }
      AppendUnique(Entries, key, value);
      Entries := Entries + [(key, value)];
      added := true;
    }

    /** The indexer `this[key] = value`: overwrites the value of a present
        key where it stands, and otherwise adds the entry at the end. */
    method Put(key: string, value: Value)
      requires Valid()
      modifies this
      ensures Valid()
      ensures key !in KeysOf(old(Entries)) ==> Entries == old(Entries) + [(key, value)]
      ensures key in KeysOf(old(Entries)) ==>
        |Entries| == |old(Entries)| &&
        forall i :: 0 <= i < |Entries| ==>
          Entries[i] == if old(Entries)[i].0 == key then (key, value) else old(Entries)[i]
    {
      var es := Entries;
      if key in KeysOf(es) {
        Entries := seq(|es|, i requires 0 <= i < |es| =>
          if es[i].0 == key then (key, value) else es[i]);
      } else {
        AppendUnique(es, key, value);
        Entries := es + [(key, value)];
      }
    }
  }

  /** `EdgeType` of an edge: "Outgoing" or "Reverse". */
  datatype EdgeType = Outgoing | Reverse

  /** What distinguishes a `Node` from an `Edge`. */
  datatype EntityKind =
    | NodeKind(PartitionId: string)
    | EdgeKind(EdgeType: EdgeType, FromId: string, ToId: string)

  /** `GraphEntity` with its two subclasses `Node` and `Edge`. Only
      `Properties` is ever reassigned, so the other members are constants.
      A dictionary is only written while the entity is being built and is
      replaced whole by `Update`, so it is held here as its entries.
      Every entity owns a `Random` of its own. `Built` records, for the
      proofs only, the dictionary the entity was built with. */
  class GraphEntity {
    const Id: string
    const Label: string
    const Kind: EntityKind
    var Properties: seq<Property>
    const rand: Random
    ghost const Built: seq<Property>

    constructor (id: string, entityLabel: string, kind: EntityKind, properties: seq<Property>)
      ensures Id == id && Label == entityLabel && Kind == kind
      ensures Properties == properties && Built == properties && fresh(rand)
    {
      Id, Label, Kind := id, entityLabel, kind;
      Properties, Built := properties, properties;
      rand := new Random();
    }

    /** Replaces the property dictionary by a new one holding, in the same
        order, a fresh GUID for every string value and a draw from [50, 100)
        for every int value; entries of any other type are not copied. The
        old dictionary is left as it was. */
    method Update(guids: GuidSource)
      requires UniqueKeys(Properties) && guids.Valid()
      modifies this, rand, guids
      ensures UniqueKeys(Properties)
      ensures guids.Valid() && old(guids.Issued) <= guids.Issued
      ensures Refreshed(old(Properties), Properties, old(guids.Issued))
      ensures StringsIssued(Properties, guids.Issued)
      ensures guids.Log == old(guids.Log) + StrValues(Properties)
      ensures FreshRun(StrValues(Properties), old(guids.Issued), guids.Issued)
    {
      ghost var log0, issued0 := guids.Log, guids.Issued;
      var props := Properties;
      var newProperties := new PropertyMap();
      var i := 0;
      while i < |props|
        invariant 0 <= i <= |props|
        invariant fresh(newProperties) && newProperties.Valid()
        invariant Properties == old(Properties) && props == Properties
        invariant UniqueKeys(props)
        invariant guids.Valid() && issued0 <= guids.Issued
        invariant Refreshed(props[..i], newProperties.Entries, issued0)
        invariant guids.Log == log0 + StrValues(newProperties.Entries)
      {
        RefreshedKeyAbsent(props, i, newProperties.Entries, issued0);
        ghost var made, issued := newProperties.Entries, guids.Issued;
        ghost var added := RefreshEntry(props[i], newProperties, guids);
        RefreshedSnoc(props[..i], props[i], made, added, issued0, issued);
        assert props[..i + 1] == props[..i] + [props[i]];
        StrValuesAppend(made, added);
        AppendAssociative(log0, StrValues(made), StrValues(added));
        i := i + 1;
      }
      assert props[..i] == props;
      Properties := newProperties.Entries;
      RefreshLogged(log0, Properties, issued0, guids.Issued);
    }

    /** One turn of the loop of `Update`: entry `p` carried into `made`
        with a fresh GUID if it holds a string and a draw from [50, 100) if
        it holds an int; an entry of any other type is not carried. */
    method RefreshEntry(p: Property, made: PropertyMap, guids: GuidSource) returns (ghost added: seq<Property>)
      requires made.Valid() && guids.Valid() && p.0 !in KeysOf(made.Entries)
      modifies made, rand, guids
      ensures made.Valid() && guids.Valid() && old(guids.Issued) <= guids.Issued
      ensures made.Entries == old(made.Entries) + added
      ensures RefreshedEntry(p, added, old(guids.Issued))
      ensures guids.Log == old(guids.Log) + StrValues(added)
    {
      match p.1 {
        case Str(_) =>
          var g := guids.NewGuid();
          made.Put(p.0, Str(g));
          added := [(p.0, Str(g))];
          StrValuesSnoc([], (p.0, Str(g)));
        case Int(_) =>
          var n := rand.Next(50, 100);
          made.Put(p.0, Int(n));
          added := [(p.0, Int(n))];
          StrValuesSnoc([], (p.0, Int(n)));
        case IntArr(_) =>
          added := [];
      }
    }
  }

  /** Every string value that looks like a GUID was handed out by `guids`. */
  ghost predicate StringsIssued(ps: seq<Property>, issued: set<string>) {
    forall i :: 0 <= i < |ps| && ps[i].1.Str? && IsGuid(ps[i].1.s) ==> ps[i].1.s in issued
  }

  /** The string values of a dictionary, in entry order. */
  function StrValues(ps: seq<Property>): seq<string> {
    if ps == [] then []
    else
      var last := ps[|ps| - 1];
      StrValues(ps[..|ps| - 1]) + (if last.1.Str? then [last.1.s] else [])
  }

  lemma StrValuesSnoc(ps: seq<Property>, p: Property)
    ensures StrValues(ps + [p]) == StrValues(ps) + (if p.1.Str? then [p.1.s] else [])
  {
    assert (ps + [p])[..|ps|] == ps;
  }

  /** The string values of several dictionaries, one after the other. */
  function StrValuesAll(pss: seq<seq<Property>>): seq<string> {
    if pss == [] then []
    else StrValuesAll(pss[..|pss| - 1]) + StrValues(pss[|pss| - 1])
  }

  lemma StrValuesAllSnoc(pss: seq<seq<Property>>, ps: seq<Property>)
    ensures StrValuesAll(pss + [ps]) == StrValuesAll(pss) + StrValues(ps)
  {
    assert (pss + [ps])[..|pss|] == pss;
  }

  /** `gs` are what a GUID source holding `before` handed out, one after
      another, until it held `after`: none twice, none handed out before,
      and nothing else. */
  ghost predicate FreshRun(gs: seq<string>, before: set<string>, after: set<string>) {
    Distinct(gs) && (forall g :: g in gs ==> g !in before) &&
    after == before + Elems(gs)
  }

  lemma {:induction false} StrValuesAppend(a: seq<Property>, b: seq<Property>)
    ensures StrValues(a + b) == StrValues(a) + StrValues(b)
  {
    if b == [] {
      assert a + b == a;
    } else {
      var init, last := b[..|b| - 1], b[|b| - 1];
      assert a + b == (a + init) + [last] && b == init + [last];
      StrValuesAppend(a, init);
      StrValuesSnoc(a + init, last);
      StrValuesSnoc(init, last);
    }
  }

  /** A dictionary whose string values were all handed out has only handed-out GUIDs. */
  lemma {:induction false} StrValuesIssued(ps: seq<Property>, issued: set<string>)
    requires forall g :: g in StrValues(ps) ==> g in issued
    ensures StringsIssued(ps, issued)
  {
    if ps != [] {
      var init := ps[..|ps| - 1];
      StrValuesIssued(init, issued);
      assert forall i :: 0 <= i < |init| ==> ps[i] == init[i];
    }
  }

  /** The string values a refresh logged after `log0` are a fresh run,
      and every GUID the refreshed dictionary holds was handed out. */
  lemma RefreshLogged(log0: seq<string>, ps: seq<Property>, issued0: set<string>, issued: set<string>)
    requires Distinct(log0 + StrValues(ps))
    requires issued0 == Elems(log0) && issued == Elems(log0 + StrValues(ps))
    ensures FreshRun(StrValues(ps), issued0, issued) && StringsIssued(ps, issued)
  {
    LogFreshRun(log0, StrValues(ps), issued0, issued);
    ElemsOf(StrValues(ps));
    StrValuesIssued(ps, issued);
  }

  /** The GUIDs a valid source hands out between a state whose log is
      `log` and one whose log is `log + gs` are a fresh run. */
  lemma LogFreshRun(log: seq<string>, gs: seq<string>, before: set<string>, after: set<string>)
    requires Distinct(log + gs) && before == Elems(log) && after == Elems(log + gs)
    ensures FreshRun(gs, before, after)
  {
    var all := log + gs;
    forall i, j | 0 <= i < j < |gs| ensures Apart(gs, i, j) {
      assert Apart(all, |log| + i, |log| + j);
    }
    ElemsOf(log);
    forall g | g in gs ensures g !in before {
      var j :| 0 <= j < |gs| && gs[j] == g;
      forall i | 0 <= i < |log| ensures log[i] != g {
        assert Apart(all, i, |log| + j);
      }
    }
    ElemsAppend(log, gs);
  }

  lemma StringsIssuedGrow(ps: seq<Property>, issued: set<string>, more: set<string>)
    requires StringsIssued(ps, issued) && issued <= more
    ensures StringsIssued(ps, more)
  {
  }

  /** The entries `Update` carries over: those holding a string or an int,
      in their original order. */
  function Scalars(ps: seq<Property>): seq<Property> {
    if ps == [] then []
    else
      var last := ps[|ps| - 1];
      Scalars(ps[..|ps| - 1]) + (if last.1.IntArr? then [] else [last])
  }

  /** `after` is what `Update` makes of a value `before`. */
  ghost predicate Rerolled(before: Value, after: Value, issued: set<string>) {
    match before
    case Str(_) => after.Str? && IsGuid(after.s) && after.s !in issued
    case Int(_) => after.Int? && 50 <= after.i < 100
    case IntArr(_) => false
  }

  /** `after` is what `Update` makes of the entries `before`, given that the
      GUIDs in `issued` were handed out before it started. */
  ghost predicate Refreshed(before: seq<Property>, after: seq<Property>, issued: set<string>) {
    var kept := Scalars(before);
    |after| == |kept| &&
    forall i :: 0 <= i < |after| ==> after[i].0 == kept[i].0 && Rerolled(kept[i].1, after[i].1, issued)
  }

  /** `added` is what `Update` makes of the entry `p`. */
  ghost predicate RefreshedEntry(p: Property, added: seq<Property>, issued: set<string>) {
    if p.1.IntArr? then added == []
    else |added| == 1 && added[0].0 == p.0 && Rerolled(p.1, added[0].1, issued)
  }

  /** Refreshing one more entry extends a refresh. */
  lemma RefreshedSnoc(before: seq<Property>, p: Property, after: seq<Property>, added: seq<Property>,
                      issued: set<string>, later: set<string>)
    requires Refreshed(before, after, issued) && RefreshedEntry(p, added, later) && issued <= later
    ensures Refreshed(before + [p], after + added, issued)
  {
    assert (before + [p])[..|before|] == before;
  }

  /** A refresh judged against the GUIDs handed out later is one against
      those handed out earlier too. */
  lemma RefreshedWithin(before: seq<Property>, after: seq<Property>, issued: set<string>, earlier: set<string>)
    requires Refreshed(before, after, issued) && earlier <= issued
    ensures Refreshed(before, after, earlier)
  {
    var kept := Scalars(before);
    forall i | 0 <= i < |after| ensures Rerolled(kept[i].1, after[i].1, earlier)
    {
      assert Rerolled(kept[i].1, after[i].1, issued);
    }
  }

  /** An entry survives `Update` exactly when its value is a string or an int. */
  lemma {:induction false} ScalarsMember(ps: seq<Property>, p: Property)
    ensures p in Scalars(ps) <==> p in ps && !p.1.IntArr?
  {
    if ps != [] {
      var init := ps[..|ps| - 1];
      assert ps == init + [ps[|ps| - 1]];
      ScalarsMember(init, p);
    }
  }

  lemma ScalarKeysFrom(ps: seq<Property>, k: string)
    ensures k in KeysOf(Scalars(ps)) ==> k in KeysOf(ps)
  {
    if k in KeysOf(Scalars(ps)) {
      var s := Scalars(ps);
      var i :| 0 <= i < |s| && s[i].0 == k;
      ScalarsMember(ps, s[i]);
      var j :| 0 <= j < |ps| && ps[j] == s[i];
      assert KeysOf(ps)[j] == k;
    }
  }

  /** While `Update` walks a dictionary with unique keys, the key at hand
      is not yet in the new dictionary. */
  lemma RefreshedKeyAbsent(ps: seq<Property>, i: nat, after: seq<Property>, issued: set<string>)
    requires UniqueKeys(ps) && i < |ps| && Refreshed(ps[..i], after, issued)
    ensures ps[i].0 !in KeysOf(after)
  {
    ScalarKeysFrom(ps[..i], ps[i].0);
    assert ps[i].0 !in KeysOf(ps[..i]);
    forall j | 0 <= j < |after|
      ensures after[j].0 != ps[i].0
    {
      assert KeysOf(Scalars(ps[..i]))[j] == after[j].0;
    }
  }

  /** `Update` never produces two entries with one key. */
  lemma {:induction false} ScalarsUnique(ps: seq<Property>)
    requires UniqueKeys(ps)
    ensures UniqueKeys(Scalars(ps))
  {
    if ps != [] {
      var init := ps[..|ps| - 1];
      var last := ps[|ps| - 1];
      ScalarsUnique(init);
      ScalarKeysFrom(init, last.0);
      if !last.1.IntArr? {
        forall i | 0 <= i < |Scalars(init)|
          ensures Scalars(init)[i].0 != last.0
        {
          assert KeysOf(Scalars(init))[i] == Scalars(init)[i].0;
        }
      }
    }
  }

  /** Entries without an array value are all carried over. */
  lemma {:induction false} ScalarsOfScalars(ps: seq<Property>)
    requires forall i :: 0 <= i < |ps| ==> !ps[i].1.IntArr?
    ensures Scalars(ps) == ps
  {
    if ps != [] {
      ScalarsOfScalars(ps[..|ps| - 1]);
    }
  }

  /** The keys after `Update` are exactly the keys whose value was a string
      or an int; so an array-valued key such as "coordinates" disappears. */
  lemma RefreshedKeys(before: seq<Property>, after: seq<Property>, issued: set<string>)
    requires Refreshed(before, after, issued)
    ensures forall k :: k in KeysOf(after) <==>
      exists i :: 0 <= i < |before| && before[i].0 == k && !before[i].1.IntArr?
  {
    var kept := Scalars(before);
    forall k
      ensures k in KeysOf(after) <==>
        exists i :: 0 <= i < |before| && before[i].0 == k && !before[i].1.IntArr?
    {
      if k in KeysOf(after) {
        var j :| 0 <= j < |after| && after[j].0 == k;
        ScalarsMember(before, kept[j]);
      }
      if exists i :: 0 <= i < |before| && before[i].0 == k && !before[i].1.IntArr? {
        var i :| 0 <= i < |before| && before[i].0 == k && !before[i].1.IntArr?;
        ScalarsMember(before, before[i]);
        var j :| 0 <= j < |kept| && kept[j] == before[i];
        assert KeysOf(after)[j] == k;
      }
    }
  }

  /** `Update` keeps the keys of the carried-over entries, in order. */
  lemma RefreshedKeysOf(before: seq<Property>, after: seq<Property>, issued: set<string>)
    requires Refreshed(before, after, issued)
    ensures KeysOf(after) == KeysOf(Scalars(before))
  {
    var kept := Scalars(before);
    forall i | 0 <= i < |after| ensures KeysOf(after)[i] == KeysOf(kept)[i]
    {
      assert after[i].0 == kept[i].0;
    }
  }

  /** A refreshed dictionary keeps unique keys. */
  lemma RefreshedUnique(before: seq<Property>, after: seq<Property>, issued: set<string>)
    requires UniqueKeys(before) && Refreshed(before, after, issued)
    ensures UniqueKeys(after)
  {
    ScalarsUnique(before);
  }

  /** A second `Update` keeps the keys of the first: the key set is stable
      under refresh, while every value is drawn anew. */
  lemma RefreshTwiceSameKeys(p0: seq<Property>, p1: seq<Property>, p2: seq<Property>,
                             i1: set<string>, i2: set<string>)
    requires Refreshed(p0, p1, i1) && Refreshed(p1, p2, i2)
    ensures KeysOf(p2) == KeysOf(p1)
  {
    ScalarsOfScalars(p1);
  }

  /** A string value is replaced by something different whenever it was a
      GUID handed out earlier or does not look like a GUID at all. */
  lemma RefreshedStringsChange(before: seq<Property>, after: seq<Property>, issued: set<string>)
    requires Refreshed(before, after, issued) && StringsIssued(before, issued)
    ensures forall i :: 0 <= i < |after| && Scalars(before)[i].1.Str? ==>
      after[i].1.Str? && after[i].1 != Scalars(before)[i].1
  {
    var kept := Scalars(before);
    forall i | 0 <= i < |after| && kept[i].1.Str?
      ensures after[i].1.Str? && after[i].1 != kept[i].1
    {
      ScalarsMember(before, kept[i]);
      var j :| 0 <= j < |before| && before[j] == kept[i];
    }
  }
}
