/** `DataGenerator`: the object that builds the synthetic twin graph level by
    level, numbering nodes and edges from two counters it keeps across calls,
    and refreshes the properties of everything it has built. */
module Generator {
  import opened Decimal
  import opened Oracles
  import opened Sequences
  import opened Entities
  import opened PropertySets
  import opened GenerationSpec
  import opened GenerationIds

  /** An `int` setting read as a count: a negative one makes the loops that
      count up to it run zero times. */
  function Clip(x: int): nat {
    if x < 0 then 0 else x
  }

  /** The kind an entity of shape `s` has: a node's partition id is its id. */
  function KindOf(s: Shape): EntityKind {
    match s
    case NodeShape(id, _, _) => NodeKind(IdText(id))
    case EdgeShape(t, _, _, from, to) => EdgeKind(t, IdText(from), IdText(to))
  }

  /** Which dictionary an entity of shape `s` carries: a node's at its
      depth, or an edge's, which a reverse edge shares with the edge before
      it. */
  datatype Stock = NodeStock(depth: nat) | EdgeStock(reverse: bool)

  function StockOf(s: Shape): Stock {
    match s
    case NodeShape(_, _, depth) => NodeStock(depth)
    case EdgeShape(t, _, _, _, _) => EdgeStock(t == Reverse)
  }

  /** A shape as the generator renders it: the texts of its id and label,
      and its kind. */
  datatype Face = Face(id: string, labelText: string, kind: EntityKind)

  function Render(cfg: Config, s: Shape): Face {
    Face(IdText(s.id), TagText(cfg, s.tag), KindOf(s))
  }

  /** Entity `x` has the id, label and kind of face `f`. */
  ghost predicate Depicts(x: GraphEntity, f: Face) {
    x.Id == f.id && x.Label == f.labelText && x.Kind == f.kind
  }

  /** The entities `es` are, one by one, the shapes `ss` rendered. */
  ghost predicate Portrays(cfg: Config, es: seq<GraphEntity>, ss: seq<Shape>) {
    |es| == |ss| &&
    forall i {:trigger Depicts(es[i], Render(cfg, ss[i]))} ::
      0 <= i < |es| ==> Depicts(es[i], Render(cfg, ss[i]))
  }

  lemma PortraysAppend(cfg: Config, es: seq<GraphEntity>, ss: seq<Shape>,
                       more: seq<GraphEntity>, sm: seq<Shape>)
    requires Portrays(cfg, es, ss) && Portrays(cfg, more, sm)
    ensures Portrays(cfg, es + more, ss + sm)
  {
    forall i | 0 <= i < |es + more|
      ensures Depicts((es + more)[i], Render(cfg, (ss + sm)[i]))
    {
      if i < |es| {
        assert (es + more)[i] == es[i] && (ss + sm)[i] == ss[i];
        assert Depicts(es[i], Render(cfg, ss[i]));
      } else {
        var j := i - |es|;
        assert (es + more)[i] == more[j] && (ss + sm)[i] == sm[j];
        assert Depicts(more[j], Render(cfg, sm[j]));
      }
    }
  }

  /** The dictionary of entity `x` has the fixed shape of `GetNode` (with
      `twin` synthetic properties, at the depth `stock` gives) or of
      `GetEdge` (with `extra`), whichever `stock` asks for. */
  ghost predicate Fits(twin: nat, extra: nat, x: GraphEntity, stock: Stock)
    reads x
  {
    x.Properties == x.Built && UniqueKeys(x.Properties) &&
    match stock
    case NodeStock(depth) => NodeProps(x.Properties, depth, twin)
    case EdgeStock(_) => EdgeProps(x.Properties, extra)
  }

  /** The dictionary of entity `i` of `es` fits shape `i` of `ss`; a
      reverse edge has the same dictionary as the entity just before it. */
  ghost predicate StockedAt(twin: nat, extra: nat, es: seq<GraphEntity>, ss: seq<Shape>, i: nat)
    requires i < |es| == |ss|
    reads es
  {
    Fits(twin, extra, es[i], StockOf(ss[i])) &&
    (StockOf(ss[i]) == EdgeStock(true) ==> 0 < i && es[i].Properties == es[i - 1].Properties)
  }

  /** Every entity of `es` is `StockedAt` its place. */
  ghost predicate Stocked(twin: nat, extra: nat, es: seq<GraphEntity>, ss: seq<Shape>)
    reads es
  {
    |es| == |ss| &&
    forall i {:trigger StockedAt(twin, extra, es, ss, i)} ::
      0 <= i < |es| ==> StockedAt(twin, extra, es, ss, i)
  }

  lemma StockedAppend(twin: nat, extra: nat, es: seq<GraphEntity>, ss: seq<Shape>,
                      more: seq<GraphEntity>, sm: seq<Shape>)
    requires Stocked(twin, extra, es, ss) && Stocked(twin, extra, more, sm)
    ensures Stocked(twin, extra, es + more, ss + sm)
  {
    forall i | 0 <= i < |es + more|
      ensures StockedAt(twin, extra, es + more, ss + sm, i)
    {
      if i < |es| {
        assert StockedAt(twin, extra, es, ss, i);
        assert (es + more)[i] == es[i] && (ss + sm)[i] == ss[i];
        if 0 < i {
          assert (es + more)[i - 1] == es[i - 1];
        }
      } else {
        var j := i - |es|;
        assert StockedAt(twin, extra, more, sm, j);
        assert (es + more)[i] == more[j] && (ss + sm)[i] == sm[j];
        if 0 < j {
          assert (es + more)[i - 1] == more[j - 1];
        }
      }
    }
  }

  /** No key of `ps` is a synthetic property name. */
  ghost predicate NoSyntheticKeys(ps: seq<Property>) {
    forall j: nat :: PropKey(j) !in KeysOf(ps)
  }

  /** A key whose first letter is not 'p' or whose third is not 'o' is no
      synthetic property name. */
  lemma NotSynthetic(ps: seq<Property>)
    requires forall i :: 0 <= i < |ps| ==> |ps[i].0| >= 3 && (ps[i].0[0] != 'p' || ps[i].0[2] != 'o')
    ensures NoSyntheticKeys(ps)
  {
    forall j: nat ensures PropKey(j) !in KeysOf(ps)
    {
      PropKeyStart(j);
    }
  }

  /** While the loop of `AddSyntheticProperties` runs, the next synthetic
      key is in neither part of the dictionary. */
  lemma SyntheticKeyAbsent(base: seq<Property>, ps: seq<Property>, i: nat)
    requires NoSyntheticKeys(base) && |ps| == |base| + i
    requires ps[..|base|] == base && ExtraProps(ps[|base|..], i)
    ensures PropKey(i) !in KeysOf(ps)
  {
    assert PropKey(i) !in KeysOf(base);
    forall j | 0 <= j < |ps|
      ensures ps[j].0 != PropKey(i)
    {
      if j < |base| {
        assert ps[j] == base[j] && KeysOf(base)[j] == base[j].0;
      } else {
        assert ps[j] == ps[|base|..][j - |base|];
        PropKeyInjective(i, j - |base|);
      }
    }
  }

  /** One turn of the loop of `AddSyntheticProperties`: appending entry
      `i` keeps the base in front and the synthetic tail in shape. */
  lemma SyntheticStep(base: seq<Property>, ps: seq<Property>, i: nat, value: int)
    requires |ps| == |base| + i && ps[..|base|] == base && ExtraProps(ps[|base|..], i)
    requires 0 <= value < 100
    ensures (ps + [(PropKey(i), Int(value))])[..|base|] == base
    ensures ExtraProps((ps + [(PropKey(i), Int(value))])[|base|..], i + 1)
  {
    var grown := ps + [(PropKey(i), Int(value))];
    assert grown[..|base|] == ps[..|base|];
    assert grown[|base|..] == ps[|base|..] + [(PropKey(i), Int(value))];
  }

  /** The seven entries `GetNode` adds before the synthetic ones. */
  function FixedNodeEntries(temperature: int, humidity: int, pressure: int, depth: nat,
                            x: int, y: int, z: int, dyn: string, marker: string): seq<Property>
  {
    [("temperature", Int(temperature)), ("humidity", Int(humidity)), ("pressure", Int(pressure)),
     ("level", Int(depth)), ("coordinates", IntArr([0, x, y, z, depth])),
     ("dyn-" + Dec(depth), Str(dyn)), ("guid-" + marker, Str("dynProp"))]
  }

  /** With draws in their ranges, the seven fixed entries are a node
      dictionary without synthetic properties; their keys differ, so no
      `Add` throws; the only GUID value among them is `dyn`. */
  lemma FixedNodeShape(temperature: int, humidity: int, pressure: int, depth: nat,
                       x: int, y: int, z: int, dyn: string, marker: string)
    requires 50 <= temperature < 100 && 50 <= humidity < 100 && 50 <= pressure < 100
    requires 0 <= x < Int32Max && 0 <= y < Int32Max && 0 <= z < Int32Max
    requires IsGuid(dyn) && IsGuid(marker)
    ensures var fixed := FixedNodeEntries(temperature, humidity, pressure, depth, x, y, z, dyn, marker);
      UniqueKeys(fixed) && NodeProps(fixed, depth, 0) && StringsIssued(fixed, {dyn})
  {
    var fixed := FixedNodeEntries(temperature, humidity, pressure, depth, x, y, z, dyn, marker);
    assert ("dyn-" + Dec(depth))[0] == 'd';
    var markerKey := "guid-" + marker;
    assert markerKey[0] == 'g' && markerKey[..5] == "guid-" && markerKey[5..] == marker;
    forall i | 0 <= i < 7 ensures |fixed[i].0| > 0 && fixed[i].0[0] == NodeKeyInitials[i]
    {
    }
    assert !IsDigit("dynProp"[0]);
    assert fixed[7..] == [];
  }

  /** The fixed node entries hold no synthetic key. */
  lemma FixedNodeKeysNotSynthetic(fixed: seq<Property>, depth: nat)
    requires NodeProps(fixed, depth, 0)
    ensures NoSyntheticKeys(fixed)
  {
    NodeKeyInitialsOf(fixed, depth, 0);
    NotSynthetic(fixed);
  }

  /** The fixed node entries followed by `count` synthetic ones form a node
      dictionary with `count` synthetic properties. */
  lemma NodePropsWithExtras(fixed: seq<Property>, ps: seq<Property>, depth: nat, count: nat,
                            issued: set<string>, more: set<string>)
    requires NodeProps(fixed, depth, 0) && StringsIssued(fixed, issued) && issued <= more
    requires |ps| == |fixed| + count && ps[..|fixed|] == fixed && ExtraProps(ps[|fixed|..], count)
    ensures NodeProps(ps, depth, count) && StringsIssued(ps, more)
  {
    forall i | 0 <= i < 7 ensures ps[i] == fixed[i] {
      assert ps[..|fixed|][i] == ps[i];
    }
  }

  /** The "length" entry followed by `count` synthetic ones form an edge
      dictionary with `count` synthetic properties. */
  lemma EdgePropsWithExtras(ps: seq<Property>, length: int, count: nat)
    requires 0 <= length < 10
    requires |ps| == 1 + count && ps[..1] == [("length", Int(length))] && ExtraProps(ps[1..], count)
    ensures EdgeProps(ps, count)
  {
    assert ps[0] == ps[..1][0];
  }

  /** `edges` is what `GetEdge(id, edgeLabel, from, to, reverse)` yields:
      the "Outgoing" edge, then, when asked, its "Reverse" companion with the
      "re:" id, the endpoints swapped and the same dictionary. */
  ghost predicate EdgesFor(reverse: bool, extra: nat, edges: seq<GraphEntity>,
                           id: string, edgeLabel: string, from: string, to: string)
    reads edges
  {
    |edges| == (if reverse then 2 else 1) &&
    edges[0].Id == id && edges[0].Label == edgeLabel && edges[0].Kind == EdgeKind(Outgoing, from, to) &&
    edges[0].Properties == edges[0].Built &&
    UniqueKeys(edges[0].Properties) && EdgeProps(edges[0].Properties, extra) &&
    (reverse ==>
      edges[1] != edges[0] && edges[1].Id == "re:" + id && edges[1].Label == edgeLabel &&
      edges[1].Kind == EdgeKind(Reverse, to, from) && edges[1].Properties == edges[0].Properties &&
      edges[1].Built == edges[1].Properties)
  }

  /** The nodes `nodes` have the ids of node numbers m, m+1, ... */
  ghost predicate Numbered(nodes: seq<GraphEntity>, m: nat) {
    forall i {:trigger NumberedAt(nodes, m, i)} :: 0 <= i < |nodes| ==> NumberedAt(nodes, m, i)
  }

  /** Node `i` of `nodes` has the id of node number m + i. */
  ghost predicate NumberedAt(nodes: seq<GraphEntity>, m: nat, i: nat)
    requires i < |nodes|
  {
    nodes[i].Id == IdText(Num(m + i))
  }

  /** What `GetEdge` yields for edge number `e` is the pair of shapes
      `EdgePair` describes. */
  lemma EdgePairPortrays(cfg: Config, twin: nat, extra: nat, edges: seq<GraphEntity>,
                          e: nat, tag: Tag, from: Ident, to: Ident)
    requires EdgesFor(cfg.reverse, extra, edges, IdText(Num(e)), TagText(cfg, tag), IdText(from), IdText(to))
    ensures Portrays(cfg, edges, EdgePair(e, tag, from, to, cfg.reverse))
    ensures Stocked(twin, extra, edges, EdgePair(e, tag, from, to, cfg.reverse))
  {
    var pair := EdgePair(e, tag, from, to, cfg.reverse);
    assert StockedAt(twin, extra, edges, pair, 0);
    assert Depicts(edges[0], Render(cfg, pair[0]));
    if cfg.reverse {
      assert StockedAt(twin, extra, edges, pair, 1);
      assert Depicts(edges[1], Render(cfg, pair[1]));
    }
  }

  /** A node from `GetNode` numbered `n` at `depth`, followed by what
      `GetEdge` yields for its parent edge numbered `e`, is `Child`. */
  lemma ChildPortrays(cfg: Config, twin: nat, extra: nat, node: GraphEntity, edges: seq<GraphEntity>,
                       parent: nat, depth: nat, n: nat, e: nat)
    requires node.Id == IdText(Num(n)) && node.Label == "twin" && node.Kind == NodeKind(IdText(Num(n)))
    requires node.Properties == node.Built
    requires UniqueKeys(node.Properties) && NodeProps(node.Properties, depth, twin)
    requires EdgesFor(cfg.reverse, extra, edges, IdText(Num(e)), cfg.rel, IdText(Num(parent)), IdText(Num(n)))
    ensures Portrays(cfg, [node] + edges, Child(cfg, parent, depth, n, e))
    ensures Stocked(twin, extra, [node] + edges, Child(cfg, parent, depth, n, e))
  {
    var shape := NodeShape(Num(n), Twin, depth);
    var pair := EdgePair(e, Rel, Num(parent), Num(n), cfg.reverse);
    assert Depicts([node][0], Render(cfg, [shape][0]));
    assert StockedAt(twin, extra, [node], [shape], 0);
    EdgePairPortrays(cfg, twin, extra, edges, e, Rel, Num(parent), Num(n));
    PortraysAppend(cfg, [node], [shape], edges, pair);
    StockedAppend(twin, extra, [node], [shape], edges, pair);
  }

  /** A new node and the edges made after it are distinct objects. */
  lemma ChildDistinct(node: GraphEntity, edges: seq<GraphEntity>)
    requires 1 <= |edges| <= 2 && (|edges| == 2 ==> edges[0] != edges[1])
    requires forall i :: 0 <= i < |edges| ==> edges[i] != node
    ensures Distinct([node] + edges)
  {
    var all := [node] + edges;
    forall i, j | 0 <= i < j < |all| ensures Apart(all, i, j)
    {
      assert all[j] == edges[j - 1];
      if 0 < i {
        assert all[i] == edges[i - 1];
      }
    }
  }

  lemma SiblingsGrow(cfg: Config, m: nat, j: nat, e: nat)
    requires 1 <= j
    ensures Siblings(cfg, m, j + 1, e)
         == Siblings(cfg, m, j, e) + EdgePair(e + j - 1, Next, Num(m + j - 1), Num(m + j), cfg.reverse)
  {
  }

  /** One more sibling edge extends both the entities and the shapes. */
  lemma SiblingsStep(cfg: Config, twin: nat, extra: nat, es: seq<GraphEntity>, ss: seq<Shape>,
                     edges: seq<GraphEntity>, m: nat, j: nat, e: nat, a: nat, en: nat)
    requires 1 <= j && ss == Siblings(cfg, m, j, e) && a + 1 == m + j && en + 1 == e + j
    requires Portrays(cfg, es, ss) && Stocked(twin, extra, es, ss)
    requires Portrays(cfg, edges, EdgePair(en, Next, Num(a), Num(a + 1), cfg.reverse))
    requires Stocked(twin, extra, edges, EdgePair(en, Next, Num(a), Num(a + 1), cfg.reverse))
    ensures Portrays(cfg, es + edges, Siblings(cfg, m, j + 1, e))
    ensures Stocked(twin, extra, es + edges, Siblings(cfg, m, j + 1, e))
  {
    var pair := EdgePair(e + j - 1, Next, Num(m + j - 1), Num(m + j), cfg.reverse);
    SiblingsGrow(cfg, m, j, e);
    PortraysAppend(cfg, es, ss, edges, pair);
    StockedAppend(twin, extra, es, ss, edges, pair);
  }

  /** A level's children and sibling chain, then the levels below it,
      are `Level`. */
  lemma LevelPortrays(cfg: Config, twin: nat, extra: nat, head: seq<GraphEntity>, below: seq<GraphEntity>,
                      m: nat, p: nat, c: nat, n: nat, e: nat, count: nat, n1: nat, e1: nat)
    requires c < cfg.depth && count == p * cfg.factor && n1 == n + count && e1 == e + count + Pred(count)
    requires Portrays(cfg, head, Children(cfg, m, p, c, n, e) + Siblings(cfg, n, count, e + count))
    requires Stocked(twin, extra, head, Children(cfg, m, p, c, n, e) + Siblings(cfg, n, count, e + count))
    requires Portrays(cfg, below, Level(cfg, n, count, c + 1, n1, e1))
    requires Stocked(twin, extra, below, Level(cfg, n, count, c + 1, n1, e1))
    ensures Portrays(cfg, head + below, Level(cfg, m, p, c, n, e))
    ensures Stocked(twin, extra, head + below, Level(cfg, m, p, c, n, e))
  {
    var first := Children(cfg, m, p, c, n, e) + Siblings(cfg, n, count, e + count);
    LevelUnfold(cfg, m, p, c, n, e, count);
    PortraysAppend(cfg, head, first, below, Level(cfg, n, count, c + 1, n1, e1));
    StockedAppend(twin, extra, head, first, below, Level(cfg, n, count, c + 1, n1, e1));
  }

  /** The root from `GetNode("0", "twin", 0)` is the shape `Root`. */
  lemma RootPortrays(cfg: Config, twin: nat, extra: nat, root: GraphEntity)
    requires root.Id == "0" && root.Label == "twin" && root.Kind == NodeKind("0")
    requires root.Properties == root.Built
    requires UniqueKeys(root.Properties) && NodeProps(root.Properties, 0, twin)
    ensures Portrays(cfg, [root], [Root]) && Stocked(twin, extra, [root], [Root])
    ensures Numbered([root], 0)
  {
    assert IdText(Num(0)) == "0";
    assert Depicts([root][0], Render(cfg, [Root][0]));
    assert StockedAt(twin, extra, [root], [Root], 0);
    NumberedOne(root, 0);
  }

  /** The root, then what the first level yields, is `Generation`. */
  lemma GenerationPortrays(cfg: Config, twin: nat, extra: nat, root: GraphEntity, rest: seq<GraphEntity>,
                           n: nat, e: nat)
    requires 1 <= cfg.depth
    requires Portrays(cfg, [root], [Root]) && Stocked(twin, extra, [root], [Root])
    requires Portrays(cfg, rest, Level(cfg, 0, 1, 1, n, e)) && Stocked(twin, extra, rest, Level(cfg, 0, 1, 1, n, e))
    ensures Portrays(cfg, [root] + rest, Generation(cfg, n, e))
    ensures Stocked(twin, extra, [root] + rest, Generation(cfg, n, e))
  {
    PortraysAppend(cfg, [root], [Root], rest, Level(cfg, 0, 1, 1, n, e));
    StockedAppend(twin, extra, [root], [Root], rest, Level(cfg, 0, 1, 1, n, e));
  }

  /** Every dictionary of `es` has unique keys. */
  ghost predicate Keyed(es: seq<GraphEntity>)
    reads es
  {
    forall i {:trigger KeyedAt(es, i)} :: 0 <= i < |es| ==> KeyedAt(es, i)
  }

  ghost predicate KeyedAt(es: seq<GraphEntity>, i: nat)
    requires i < |es|
    reads es
  {
    UniqueKeys(es[i].Properties)
  }

  /** The GUIDs `GetNode` draws for a node, where its dictionary holds
      them: the value of entry 5 ("dyn-{depth}") and the key of entry 6
      after its "guid-" prefix. An edge's dictionary has no such entries. */
  function DictGuids(ps: seq<Property>): seq<string> {
    if |ps| >= 7 && ps[5].1.Str? && |ps[6].0| >= 5 then [ps[5].1.s, ps[6].0[5..]] else []
  }

  /** The GUIDs the entities `es` were built with, entity after entity. */
  ghost function GuidsOf(es: seq<GraphEntity>): seq<string> {
    if es == [] then [] else DictGuids(es[0].Built) + GuidsOf(es[1..])
  }

  /** Every GUID string in the dictionaries of `es` was handed out. */
  ghost predicate AllIssued(es: seq<GraphEntity>, issued: set<string>)
    reads es
  {
    forall i :: 0 <= i < |es| ==> StringsIssued(es[i].Properties, issued)
  }

  /** For a node these are all the GUIDs its dictionary holds, and an edge
      holds none. */
  lemma StockedGuids(twin: nat, extra: nat, x: GraphEntity, stock: Stock)
    requires Fits(twin, extra, x, stock)
    ensures DictGuids(x.Built) == GuidsIn(x.Properties)
  {
    match stock
    case NodeStock(depth) =>
      NodeGuids(x.Properties, depth, twin);
    case EdgeStock(_) =>
      EdgeGuids(x.Properties, extra);
      assert |x.Properties| >= 7 ==> x.Properties[5].1.Int? by {
        if |x.Properties| >= 7 {
          assert IntIn(x.Properties[1..][4], PropKey(4), 0, 100);
        }
      }
  }

  lemma {:induction false} GuidsOfAppend(a: seq<GraphEntity>, b: seq<GraphEntity>)
    ensures GuidsOf(a + b) == GuidsOf(a) + GuidsOf(b)
  {
    if a == [] {
      assert a + b == b;
    } else {
      assert (a + b)[1..] == a[1..] + b;
      GuidsOfAppend(a[1..], b);
    }
  }

  /** A log that grew by the GUIDs of `a` and then by those of `b` grew
      by the GUIDs of `a + b`. */
  lemma LoggedAppend(log0: seq<string>, a: seq<GraphEntity>, b: seq<GraphEntity>)
    ensures log0 + GuidsOf(a) + GuidsOf(b) == log0 + GuidsOf(a + b)
  {
    GuidsOfAppend(a, b);
    AppendAssociative(log0, GuidsOf(a), GuidsOf(b));
  }

  lemma {:induction false} GuidsOfMember(es: seq<GraphEntity>, k: nat)
    requires k < |es|
    ensures forall g :: g in DictGuids(es[k].Built) ==> g in GuidsOf(es)
  {
    if k > 0 {
      GuidsOfMember(es[1..], k - 1);
    }
  }

  lemma {:induction false} GuidsOfNone(es: seq<GraphEntity>)
    requires forall i :: 0 <= i < |es| ==> DictGuids(es[i].Built) == []
    ensures GuidsOf(es) == []
  {
    if es != [] {
      GuidsOfNone(es[1..]);
    }
  }

  /** Stocked entities whose GUIDs were all handed out have their GUID
      strings handed out. */
  lemma GuidsOfIssued(twin: nat, extra: nat, es: seq<GraphEntity>, ss: seq<Shape>, issued: set<string>)
    requires Stocked(twin, extra, es, ss)
    requires forall g :: g in GuidsOf(es) ==> g in issued
    ensures AllIssued(es, issued)
  {
    forall i | 0 <= i < |es| ensures StringsIssued(es[i].Properties, issued) {
      assert StockedAt(twin, extra, es, ss, i);
      StockedGuids(twin, extra, es[i], StockOf(ss[i]));
      GuidsOfMember(es, i);
      GuidsInIssued(es[i].Properties, issued);
    }
  }

  /** In a duplicate-free run of GUIDs, no two entities share a GUID and
      no entity holds one twice. */
  lemma {:induction false} GuidsApart(es: seq<GraphEntity>)
    requires Distinct(GuidsOf(es))
    ensures forall i :: 0 <= i < |es| ==> Distinct(DictGuids(es[i].Built))
    ensures forall i, j, g :: 0 <= i < j < |es| && g in DictGuids(es[i].Built) ==> g !in DictGuids(es[j].Built)
  {
    if es != [] {
      DistinctSplit(DictGuids(es[0].Built), GuidsOf(es[1..]));
      GuidsApart(es[1..]);
      forall j | 0 < j < |es| ensures forall g :: g in DictGuids(es[j].Built) ==> g in GuidsOf(es[1..]) {
        GuidsOfMember(es[1..], j - 1);
      }
      assert forall i :: 0 < i < |es| ==> es[i] == es[1..][i - 1];
    }
  }

  /** The GUIDs of the nodes `Generate()` adds are new: each node's two
      differ, no two nodes share one, none was handed out before, and all
      were handed out by the end. */
  lemma GeneratedGuidsFresh(twin: nat, extra: nat, es: seq<GraphEntity>, ss: seq<Shape>,
                            before: set<string>, after: set<string>)
    requires Stocked(twin, extra, es, ss) && FreshRun(GuidsOf(es), before, after)
    ensures forall i :: 0 <= i < |es| ==> Distinct(DictGuids(es[i].Properties))
    ensures forall i, j, g :: 0 <= i < j < |es| && g in DictGuids(es[i].Properties) ==>
      g !in DictGuids(es[j].Properties)
    ensures forall i, g :: 0 <= i < |es| && g in DictGuids(es[i].Properties) ==> g !in before && g in after
  {
    forall i | 0 <= i < |es| ensures es[i].Properties == es[i].Built {
      assert StockedAt(twin, extra, es, ss, i);
    }
    GuidsApart(es);
    forall i | 0 <= i < |es| ensures forall g :: g in DictGuids(es[i].Built) ==> g in GuidsOf(es) {
      GuidsOfMember(es, i);
    }
    ElemsOf(GuidsOf(es));
  }

  /** The GUIDs a generation pass logged after `log0` are a fresh run,
      and every GUID string in the dictionaries, old or new, was handed out. */
  lemma GenerationLogged(twin: nat, extra: nat, log0: seq<string>, before: seq<GraphEntity>,
                         added: seq<GraphEntity>, ss: seq<Shape>, issued0: set<string>, issued: set<string>)
    requires Stocked(twin, extra, added, ss) && AllIssued(before, issued0)
    requires Distinct(log0 + GuidsOf(added))
    requires issued0 == Elems(log0) && issued == Elems(log0 + GuidsOf(added))
    ensures FreshRun(GuidsOf(added), issued0, issued)
    ensures AllIssued(before + added, issued)
  {
    LogFreshRun(log0, GuidsOf(added), issued0, issued);
    GuidsOfIssued(twin, extra, added, ss, issued);
    forall i | 0 <= i < |before + added| ensures StringsIssued((before + added)[i].Properties, issued) {
      if i < |before| {
        StringsIssuedGrow(before[i].Properties, issued0, issued);
      } else {
        assert (before + added)[i] == added[i - |before|];
      }
    }
  }

  lemma {:induction false} EdgeShapesOnly(ss: seq<Shape>)
    requires NodeIds(ss) == []
    ensures forall i :: 0 <= i < |ss| ==> ss[i].EdgeShape?
  {
    if ss != [] {
      EdgeShapesOnly(ss[1..]);
      assert forall i :: 1 <= i < |ss| ==> ss[i] == ss[1..][i - 1];
    }
  }

  /** Entities stocked as edges hold no GUID. */
  lemma LinksNoGuids(twin: nat, extra: nat, es: seq<GraphEntity>, ss: seq<Shape>)
    requires Stocked(twin, extra, es, ss) && NodeIds(ss) == []
    ensures GuidsOf(es) == []
  {
    EdgeShapesOnly(ss);
    forall i | 0 <= i < |es| ensures DictGuids(es[i].Built) == [] {
      assert StockedAt(twin, extra, es, ss, i);
      StockedGuids(twin, extra, es[i], StockOf(ss[i]));
      EdgeGuids(es[i].Properties, extra);
    }
    GuidsOfNone(es);
  }

  /** The sibling chain of a level adds no GUID to what its children hold. */
  lemma ChainAddsNoGuids(cfg: Config, twin: nat, extra: nat, kids: seq<GraphEntity>, links: seq<GraphEntity>,
                         m: nat, j: nat, e: nat)
    requires Stocked(twin, extra, links, Siblings(cfg, m, j, e))
    ensures GuidsOf(kids + links) == GuidsOf(kids)
  {
    SiblingsIds(cfg, m, j, e);
    LinksNoGuids(twin, extra, links, Siblings(cfg, m, j, e));
    GuidsOfAppend(kids, links);
  }

  /** A node and its edges hold the node's GUIDs only. */
  lemma ChildGuids(node: GraphEntity, edges: seq<GraphEntity>, reverse: bool, extra: nat,
                    id: string, edgeLabel: string, from: string, to: string)
    requires EdgesFor(reverse, extra, edges, id, edgeLabel, from, to)
    ensures GuidsOf([node] + edges) == DictGuids(node.Built)
  {
    forall i | 0 <= i < |edges| ensures DictGuids(edges[i].Built) == [] {
      StockedGuids(0, extra, edges[i], EdgeStock(false));
      EdgeGuids(edges[i].Properties, extra);
    }
    GuidsOfNone(edges);
    GuidsOfAppend([node], edges);
    assert [node][1..] == [];
  }


  /** Entities that fit their shapes have dictionaries with unique keys. */
  lemma StockedKeyed(twin: nat, extra: nat, es: seq<GraphEntity>, ss: seq<Shape>)
    requires Stocked(twin, extra, es, ss)
    ensures Keyed(es)
  {
    forall i | 0 <= i < |es| ensures KeyedAt(es, i) {
      assert StockedAt(twin, extra, es, ss, i);
    }
  }

  /** The dictionaries of `es`, in order. */
  function PropsOf(es: seq<GraphEntity>): (ps: seq<seq<Property>>)
    reads es
    ensures |ps| == |es| && forall i :: 0 <= i < |es| ==> ps[i] == es[i].Properties
  {
    seq(|es|, i requires 0 <= i < |es| reads es => es[i].Properties)
  }

  lemma KeyedAppend(a: seq<GraphEntity>, b: seq<GraphEntity>)
    requires Keyed(a) && Keyed(b)
    ensures Keyed(a + b)
  {
    forall i | 0 <= i < |a + b| ensures KeyedAt(a + b, i) {
      if i < |a| {
        assert KeyedAt(a, i) && (a + b)[i] == a[i];
      } else {
        assert KeyedAt(b, i - |a|) && (a + b)[i] == b[i - |a|];
      }
    }
  }

  /** What `GetEdge` yields are distinct objects. */
  lemma EdgesDistinct(edges: seq<GraphEntity>)
    requires 1 <= |edges| <= 2 && (|edges| == 2 ==> edges[0] != edges[1])
    ensures Distinct(edges)
  {
    if |edges| == 2 {
      assert Apart(edges, 0, 1);
    }
  }

  lemma NumberedAppend(a: seq<GraphEntity>, m: nat, b: seq<GraphEntity>, n: nat)
    requires Numbered(a, m) && Numbered(b, n) && n == m + |a|
    ensures Numbered(a + b, m)
  {
    forall i | 0 <= i < |a| + |b|
      ensures NumberedAt(a + b, m, i)
    {
      if i < |a| {
        assert NumberedAt(a, m, i) && (a + b)[i] == a[i];
      } else {
        assert NumberedAt(b, n, i - |a|) && (a + b)[i] == b[i - |a|];
      }
    }
  }

  /** One node with the id of node number `n` is numbered from `n`. */
  lemma NumberedOne(x: GraphEntity, n: nat)
    requires x.Id == IdText(Num(n))
    ensures Numbered([x], n)
  {
    assert NumberedAt([x], n, 0);
  }

  lemma ChildrenGrow(cfg: Config, m: nat, p: nat, depth: nat, n: nat, e: nat, before: nat)
    requires before == p * cfg.factor
    ensures Children(cfg, m, p + 1, depth, n, e)
         == Children(cfg, m, p, depth, n, e) + Brood(cfg, m + p, depth, cfg.factor, n + before, e + before)
  {
  }

  /** `es.Where(x => x is Node).Count()`. */
  function NodeTally(es: seq<GraphEntity>): nat {
    if es == [] then 0 else (if es[0].Kind.NodeKind? then 1 else 0) + NodeTally(es[1..])
  }

  /** `es.Where(x => x is Edge).Count()`. */
  function EdgeTally(es: seq<GraphEntity>): nat {
    if es == [] then 0 else (if es[0].Kind.EdgeKind? then 1 else 0) + EdgeTally(es[1..])
  }

  /** Every entity is a node or an edge, so the two tallies add up to the
      length of the list. */
  lemma {:induction false} TallySplit(es: seq<GraphEntity>)
    ensures NodeTally(es) + EdgeTally(es) == |es|
  {
    if es != [] {
      TallySplit(es[1..]);
    }
  }

  /** Entities that portray shapes contain as many nodes as the shapes have
      node ids, and as many edges as they have edge ids. */
  lemma {:induction false} PortraysTally(cfg: Config, es: seq<GraphEntity>, ss: seq<Shape>)
    requires Portrays(cfg, es, ss)
    ensures NodeTally(es) == |NodeIds(ss)| && EdgeTally(es) == |EdgeIds(ss)|
    decreases |es|
  {
    if es != [] {
      assert Depicts(es[0], Render(cfg, ss[0]));
      forall i | 0 <= i < |es[1..]|
        ensures Depicts(es[1..][i], Render(cfg, ss[1..][i]))
      {
        assert Depicts(es[i + 1], Render(cfg, ss[i + 1]));
      }
      PortraysTally(cfg, es[1..], ss[1..]);
    }
  }

  /** One `Generate()` call lists the root and one node per step of the node
      counter, and one edge per step of the edge counter, two when reverse
      edges are on. */
  lemma GenerationTally(cfg: Config, es: seq<GraphEntity>, n: nat, e: nat)
    requires 1 <= cfg.depth && Portrays(cfg, es, Generation(cfg, n, e))
    ensures NodeTally(es) == 1 + NodesFrom(cfg, 1, 1)
    ensures EdgeTally(es) == (if cfg.reverse then 2 else 1) * EdgesFrom(cfg, 1, 1)
  {
    PortraysTally(cfg, es, Generation(cfg, n, e));
    GenerationIdsFrom(cfg, n, e);
    LadderLength(e, EdgesFrom(cfg, 1, 1), cfg.reverse);
  }

  lemma {:induction false} TallyAppend(a: seq<GraphEntity>, b: seq<GraphEntity>)
    ensures NodeTally(a + b) == NodeTally(a) + NodeTally(b)
    ensures EdgeTally(a + b) == EdgeTally(a) + EdgeTally(b)
    decreases |a|
  {
    if a != [] {
      assert (a + b)[1..] == a[1..] + b;
      TallyAppend(a[1..], b);
    } else {
      assert a + b == b;
    }
  }

  /** Every string value of `pss[k]` is among those of `pss`. */
  lemma {:induction false} StrValuesAllMember(pss: seq<seq<Property>>, k: nat)
    requires k < |pss|
    ensures forall g :: g in StrValues(pss[k]) ==> g in StrValuesAll(pss)
  {
    var init := pss[..|pss| - 1];
    if k < |init| {
      StrValuesAllMember(init, k);
      assert init[k] == pss[k];
    }
  }

  /** The string values a pass of refreshes logged after `log0` are a
      fresh run, and every GUID a refreshed dictionary holds was handed out. */
  lemma RefreshAllLogged(log0: seq<string>, dicts: seq<seq<Property>>, issued0: set<string>, issued: set<string>)
    requires Distinct(log0 + StrValuesAll(dicts))
    requires issued0 == Elems(log0) && issued == Elems(log0 + StrValuesAll(dicts))
    ensures FreshRun(StrValuesAll(dicts), issued0, issued)
    ensures forall k :: 0 <= k < |dicts| ==> StringsIssued(dicts[k], issued)
  {
    LogFreshRun(log0, StrValuesAll(dicts), issued0, issued);
    forall k | 0 <= k < |dicts| ensures StringsIssued(dicts[k], issued) {
      StrValuesAllMember(dicts, k);
      StrValuesIssued(dicts[k], issued);
    }
  }

  class DataGenerator {
    const level: int
    const factor: int
    const relationshipName: string
    const numTwinProperties: int
    const numEdgeProperties: int
    const generateReverseEdge: bool
    const rand: Random
    /** The process-wide GUID source `Guid.NewGuid` draws from. */
    const guids: GuidSource
    var entities: seq<GraphEntity>
    var nodeCount: nat
    var edgeCount: nat

    /** The GUID source is sound, every entity occurs once in the list and
        every dictionary has unique keys. */
    ghost predicate Valid()
      reads this, guids, entities
    {
      guids.Valid() && Distinct(entities) && Keyed(entities) && AllIssued(entities, guids.Issued)
    }

    /** A generator with nothing built yet: the node counter starts at 1,
        since the root takes id "0", and the edge counter at 0. */
    constructor (level: int, factor: int, relationshipName: string, numTwinProperties: int,
                 numEdgeProperties: int, generateReverseEdge: bool, guids: GuidSource)
      requires guids.Valid()
      ensures this.level == level && this.factor == factor
      ensures this.relationshipName == relationshipName
      ensures this.numTwinProperties == numTwinProperties && this.numEdgeProperties == numEdgeProperties
      ensures this.generateReverseEdge == generateReverseEdge && this.guids == guids
      ensures entities == [] && nodeCount == 1 && edgeCount == 0
      ensures fresh(rand) && Valid()
    {
      this.level, this.factor, this.relationshipName := level, factor, relationshipName;
      this.numTwinProperties, this.numEdgeProperties := numTwinProperties, numEdgeProperties;
      this.generateReverseEdge, this.guids := generateReverseEdge, guids;
      rand := new Random();
      entities, nodeCount, edgeCount := [], 1, 0;
    }

    /** The settings that decide the shape of what is generated. */
    function Cfg(): Config {
      Config(Clip(level), Clip(factor), relationshipName, generateReverseEdge)
    }

    /** The loop `GetNode` and `GetEdge` share: `count` indexer writes
        prop000, prop001, ... of draws from [0, 100), each appended, since
        no key of the dictionary is a synthetic one yet. */
    method AddSyntheticProperties(props: PropertyMap, count: int)
      requires props.Valid() && NoSyntheticKeys(props.Entries)
      modifies props, rand`seed
      ensures props.Valid()
      ensures |props.Entries| == |old(props.Entries)| + Clip(count)
      ensures props.Entries[..|old(props.Entries)|] == old(props.Entries)
      ensures ExtraProps(props.Entries[|old(props.Entries)|..], Clip(count))
    {
      ghost var base := props.Entries;
      var i := 0;
      while i < count
        invariant 0 <= i <= Clip(count)
        invariant props.Valid() && |props.Entries| == |base| + i
        invariant props.Entries[..|base|] == base
        invariant ExtraProps(props.Entries[|base|..], i)
      {
        var value := rand.Next(0, 100);
        ghost var before := props.Entries;
        SyntheticKeyAbsent(base, before, i);
        SyntheticStep(base, before, i, value);
        props.Put(PropKey(i), Int(value));
        i := i + 1;
      }
    }

    /** The two `Guid.NewGuid()` calls of `GetNode`, in order. */
    method DrawGuids() returns (dyn: string, marker: string)
      requires guids.Valid()
      modifies guids`next, guids`Issued, guids`Log
      ensures guids.Valid() && IsGuid(dyn) && IsGuid(marker) && dyn != marker
      ensures dyn !in old(guids.Issued) && marker !in old(guids.Issued)
      ensures guids.Issued == old(guids.Issued) + {dyn, marker}
      ensures guids.Log == old(guids.Log) + [dyn, marker]
    {
      dyn := guids.NewGuid();
      marker := guids.NewGuid();
    }

    /** A node with its fixed-shape dictionary: three readings in [50, 100),
        the depth under "level", the coordinates, a "dyn-{depth}" GUID, a
        "guid-{GUID}" key holding "dynProp", then the synthetic ints. */
    method GetNode(id: string, nodeLabel: string, depth: nat) returns (node: GraphEntity)
      requires guids.Valid()
      modifies rand`seed, guids`next, guids`Issued, guids`Log
      ensures guids.Valid() && old(guids.Issued) <= guids.Issued
      ensures fresh(node) && fresh(node.rand)
      ensures node.Id == id && node.Label == nodeLabel && node.Kind == NodeKind(id)
      ensures UniqueKeys(node.Properties) && NodeProps(node.Properties, depth, Clip(numTwinProperties))
      ensures StringsIssued(node.Properties, guids.Issued)
      ensures node.Properties[5].1.s !in old(guids.Issued) && node.Properties[6].0[5..] !in old(guids.Issued)
      ensures node.Properties[5].1.s != node.Properties[6].0[5..]
      ensures guids.Issued == old(guids.Issued) + {node.Properties[5].1.s, node.Properties[6].0[5..]}
      ensures node.Built == node.Properties
      ensures guids.Log == old(guids.Log) + DictGuids(node.Built)
    {
      var temperature := rand.Next(50, 100);
      var humidity := rand.Next(50, 100);
      var pressure := rand.Next(50, 100);
      var x := rand.NextNonNegative();
      var y := rand.NextNonNegative();
      var z := rand.NextNonNegative();
      var dyn, marker := DrawGuids();
      var fixed := FixedNodeEntries(temperature, humidity, pressure, depth, x, y, z, dyn, marker);
      FixedNodeShape(temperature, humidity, pressure, depth, x, y, z, dyn, marker);
      var props := new PropertyMap.Of(fixed);
      FixedNodeKeysNotSynthetic(fixed, depth);
      AddSyntheticProperties(props, numTwinProperties);
      NodePropsWithExtras(fixed, props.Entries, depth, Clip(numTwinProperties), {dyn}, guids.Issued);
      node := new GraphEntity(id, nodeLabel, NodeKind(id), props.Entries);
    }

    /** The edge `id` from `from` to `to` with its fixed-shape dictionary
        ("length" in [0, 10), then the synthetic ints), followed when
        `generateReverse` holds by its companion "re:{id}" from `to` to
        `from`, which carries the same label and the same dictionary. */
    method GetEdge(id: string, edgeLabel: string, from: string, to: string, generateReverse: bool)
      returns (edges: seq<GraphEntity>)
      modifies rand`seed
      ensures EdgesFor(generateReverse, Clip(numEdgeProperties), edges, id, edgeLabel, from, to)
      ensures forall i :: 0 <= i < |edges| ==> fresh(edges[i]) && fresh(edges[i].rand)
    {
      var length := rand.Next(0, 10);
      var properties := new PropertyMap.Of([("length", Int(length))]);
      NotSynthetic(properties.Entries);
      AddSyntheticProperties(properties, numEdgeProperties);
      EdgePropsWithExtras(properties.Entries, length, Clip(numEdgeProperties));
      var outgoing := new GraphEntity(id, edgeLabel, EdgeKind(Outgoing, from, to), properties.Entries);
      edges := [outgoing];
      if generateReverse {
        var reverse := new GraphEntity("re:" + id, edgeLabel, EdgeKind(Reverse, to, from), properties.Entries);
        edges := edges + [reverse];
      }
    }

    /** One turn of the inner loop of `GenerateLevel`: a node numbered by
        the node counter, then the edge(s) numbered by the edge counter that
        tie it to `previousNode`, which is node number `parent`: the shapes
        of `Child`. */
    method SpawnChild(previousNode: GraphEntity, ghost parent: nat, currentLevel: nat)
      returns (node: GraphEntity, edges: seq<GraphEntity>)
      requires guids.Valid() && previousNode.Id == IdText(Num(parent))
      modifies this`nodeCount, this`edgeCount, rand`seed, guids`next, guids`Issued, guids`Log
      ensures guids.Valid() && old(guids.Issued) <= guids.Issued
      ensures nodeCount == old(nodeCount) + 1 && edgeCount == old(edgeCount) + 1
      ensures node.Id == IdText(Num(old(nodeCount)))
      ensures forall x :: x in [node] + edges ==> fresh(x) && fresh(x.rand)
      ensures Distinct([node] + edges)
      ensures Portrays(Cfg(), [node] + edges, Child(Cfg(), parent, currentLevel, old(nodeCount), old(edgeCount)))
      ensures Stocked(Clip(numTwinProperties), Clip(numEdgeProperties), [node] + edges,
                      Child(Cfg(), parent, currentLevel, old(nodeCount), old(edgeCount)))
      ensures guids.Log == old(guids.Log) + GuidsOf([node] + edges)
    {
      ghost var n, e := nodeCount, edgeCount;
      node := GetNode(Dec(nodeCount), "twin", currentLevel);
      nodeCount := nodeCount + 1;
      edges := GetEdge(Dec(edgeCount), relationshipName, previousNode.Id, node.Id, generateReverseEdge);
      edgeCount := edgeCount + 1;
      assert forall i :: 0 <= i < |edges| ==> edges[i] != node;
      ChildDistinct(node, edges);
      ChildGuids(node, edges, generateReverseEdge, Clip(numEdgeProperties), Dec(e), relationshipName,
                 previousNode.Id, node.Id);
      ChildPortrays(Cfg(), Clip(numTwinProperties), Clip(numEdgeProperties), node, edges, parent, currentLevel, n, e);
      NewChild(node, edges);
    }

    /** `SpawnChild` for the child numbered `count` of node `parent`,
        appended to the brood built so far. */
    method ExtendBrood(emitted: seq<GraphEntity>, ghost shapes: seq<Shape>, broodNodes: seq<GraphEntity>,
                       previousNode: GraphEntity, ghost parent: nat, currentLevel: nat,
                       ghost count: nat, ghost n0: nat, ghost e0: nat, ghost log0: seq<string>)
      returns (longer: seq<GraphEntity>, moreNodes: seq<GraphEntity>)
      requires guids.Valid() && previousNode.Id == IdText(Num(parent))
      requires nodeCount == n0 + count && edgeCount == e0 + count
      requires |broodNodes| == count && Numbered(broodNodes, n0)
      requires shapes == Brood(Cfg(), parent, currentLevel, count, n0, e0)
      requires Portrays(Cfg(), emitted, shapes) && Distinct(emitted)
      requires guids.Log == log0 + GuidsOf(emitted)
      requires Stocked(Clip(numTwinProperties), Clip(numEdgeProperties), emitted, shapes)
      modifies this`nodeCount, this`edgeCount, rand`seed, guids`next, guids`Issued, guids`Log
      ensures guids.Valid() && old(guids.Issued) <= guids.Issued
      ensures nodeCount == old(nodeCount) + 1 && edgeCount == old(edgeCount) + 1
      ensures |moreNodes| == count + 1 && Numbered(moreNodes, n0)
      ensures Portrays(Cfg(), longer, Brood(Cfg(), parent, currentLevel, count + 1, n0, e0))
      ensures Stocked(Clip(numTwinProperties), Clip(numEdgeProperties), longer,
                      Brood(Cfg(), parent, currentLevel, count + 1, n0, e0))
      ensures Distinct(longer) && forall x :: x in longer ==> x in emitted || (fresh(x) && fresh(x.rand))
      ensures guids.Log == log0 + GuidsOf(longer)
    {
      ghost var cfg, twin, extra := Cfg(), Clip(numTwinProperties), Clip(numEdgeProperties);
      var node, edges := SpawnChild(previousNode, parent, currentLevel);
      LoggedAppend(log0, emitted, [node] + edges);
      DistinctAppend(emitted, [node] + edges);
      NumberedOne(node, n0 + count);
      NumberedAppend(broodNodes, n0, [node], n0 + count);
      ghost var child := Child(cfg, parent, currentLevel, n0 + count, e0 + count);
      PortraysAppend(cfg, emitted, shapes, [node] + edges, child);
      StockedAppend(twin, extra, emitted, shapes, [node] + edges, child);
      NewAfter(emitted, [node] + edges);
      longer, moreNodes := emitted + ([node] + edges), broodNodes + [node];
    }

    /** The inner loop of `GenerateLevel` for one previous node, number
        `parent`: `factor` children in a row. Returns what is yielded and
        the new nodes in order. */
    method SpawnBrood(previousNode: GraphEntity, ghost parent: nat, currentLevel: nat)
      returns (emitted: seq<GraphEntity>, broodNodes: seq<GraphEntity>)
      requires guids.Valid() && previousNode.Id == IdText(Num(parent))
      modifies this`nodeCount, this`edgeCount, rand`seed, guids`next, guids`Issued, guids`Log
      ensures guids.Valid() && old(guids.Issued) <= guids.Issued
      ensures |broodNodes| == Cfg().factor
      ensures nodeCount == old(nodeCount) + Cfg().factor && edgeCount == old(edgeCount) + Cfg().factor
      ensures Numbered(broodNodes, old(nodeCount))
      ensures (forall x :: x in emitted ==> fresh(x) && fresh(x.rand)) && Distinct(emitted)
      ensures Portrays(Cfg(), emitted, Brood(Cfg(), parent, currentLevel, Cfg().factor, old(nodeCount), old(edgeCount)))
      ensures Stocked(Clip(numTwinProperties), Clip(numEdgeProperties), emitted,
                      Brood(Cfg(), parent, currentLevel, Cfg().factor, old(nodeCount), old(edgeCount)))
      ensures guids.Log == old(guids.Log) + GuidsOf(emitted)
    {
      ghost var cfg, twin, extra := Cfg(), Clip(numTwinProperties), Clip(numEdgeProperties);
      ghost var n0, e0, log0 := nodeCount, edgeCount, guids.Log;
      ghost var shapes: seq<Shape> := [];
      emitted, broodNodes := [], [];
      var count := 0;
      while count < factor
        invariant 0 <= count <= cfg.factor
        invariant guids.Valid()
        invariant |broodNodes| == count && nodeCount == n0 + count && edgeCount == e0 + count
        invariant Numbered(broodNodes, n0)
        invariant shapes == Brood(cfg, parent, currentLevel, count, n0, e0)
        invariant Portrays(cfg, emitted, shapes) && Stocked(twin, extra, emitted, shapes)
        invariant (forall x :: x in emitted ==> fresh(x) && fresh(x.rand)) && Distinct(emitted)
        invariant guids.Log == log0 + GuidsOf(emitted)
      {
        emitted, broodNodes := ExtendBrood(emitted, shapes, broodNodes, previousNode, parent, currentLevel,
                                           count, n0, e0, log0);
        shapes := Brood(cfg, parent, currentLevel, count + 1, n0, e0);
        count := count + 1;
      }
      ElemsGrow(log0, GuidsOf(emitted));
    }

    /** `SpawnBrood` for previous node number `m + p`, appended to the
        children built so far. */
    method ExtendChildren(emitted: seq<GraphEntity>, ghost shapes: seq<Shape>, levelNodes: seq<GraphEntity>,
                          previousNode: GraphEntity, currentLevel: nat,
                          ghost m: nat, ghost p: nat, ghost n0: nat, ghost e0: nat, ghost log0: seq<string>)
      returns (longer: seq<GraphEntity>, moreNodes: seq<GraphEntity>)
      requires guids.Valid() && previousNode.Id == IdText(Num(m + p))
      requires |levelNodes| == p * Cfg().factor && Numbered(levelNodes, n0)
      requires nodeCount == n0 + |levelNodes| && edgeCount == e0 + |levelNodes|
      requires shapes == Children(Cfg(), m, p, currentLevel, n0, e0)
      requires Portrays(Cfg(), emitted, shapes) && Distinct(emitted)
      requires guids.Log == log0 + GuidsOf(emitted)
      requires Stocked(Clip(numTwinProperties), Clip(numEdgeProperties), emitted, shapes)
      modifies this`nodeCount, this`edgeCount, rand`seed, guids`next, guids`Issued, guids`Log
      ensures guids.Valid() && old(guids.Issued) <= guids.Issued
      ensures |moreNodes| == (p + 1) * Cfg().factor && Numbered(moreNodes, n0)
      ensures nodeCount == n0 + |moreNodes| && edgeCount == e0 + |moreNodes|
      ensures Portrays(Cfg(), longer, Children(Cfg(), m, p + 1, currentLevel, n0, e0))
      ensures Stocked(Clip(numTwinProperties), Clip(numEdgeProperties), longer,
                      Children(Cfg(), m, p + 1, currentLevel, n0, e0))
      ensures Distinct(longer) && forall x :: x in longer ==> x in emitted || (fresh(x) && fresh(x.rand))
      ensures guids.Log == log0 + GuidsOf(longer)
    {
      ghost var cfg, twin, extra := Cfg(), Clip(numTwinProperties), Clip(numEdgeProperties);
      ghost var before := |levelNodes|;
      var brood, broodNodes := SpawnBrood(previousNode, m + p, currentLevel);
      LoggedAppend(log0, emitted, brood);
      DistinctAppend(emitted, brood);
      NumberedAppend(levelNodes, n0, broodNodes, n0 + before);
      ghost var more := Brood(cfg, m + p, currentLevel, cfg.factor, n0 + before, e0 + before);
      PortraysAppend(cfg, emitted, shapes, brood, more);
      StockedAppend(twin, extra, emitted, shapes, brood, more);
      ChildrenGrow(cfg, m, p, currentLevel, n0, e0, before);
      MulStep(p + 1, cfg.factor);
      NewAfter(emitted, brood);
      longer, moreNodes := emitted + brood, levelNodes + broodNodes;
    }

    /** The first half of one `GenerateLevel` step: for every previous
        node in turn, its brood. Node and edge numbers are drawn from the
        two counters. Returns what is yielded and the new nodes in order. */
    method SpawnChildren(previousNodes: seq<GraphEntity>, currentLevel: nat, ghost m: nat)
      returns (emitted: seq<GraphEntity>, levelNodes: seq<GraphEntity>)
      requires guids.Valid() && Numbered(previousNodes, m)
      modifies this`nodeCount, this`edgeCount, rand`seed, guids`next, guids`Issued, guids`Log
      ensures guids.Valid() && old(guids.Issued) <= guids.Issued
      ensures |levelNodes| == |previousNodes| * Cfg().factor
      ensures nodeCount == old(nodeCount) + |levelNodes| && edgeCount == old(edgeCount) + |levelNodes|
      ensures Numbered(levelNodes, old(nodeCount))
      ensures (forall x :: x in emitted ==> fresh(x) && fresh(x.rand)) && Distinct(emitted)
      ensures Portrays(Cfg(), emitted, Children(Cfg(), m, |previousNodes|, currentLevel, old(nodeCount), old(edgeCount)))
      ensures Stocked(Clip(numTwinProperties), Clip(numEdgeProperties), emitted,
                      Children(Cfg(), m, |previousNodes|, currentLevel, old(nodeCount), old(edgeCount)))
      ensures guids.Log == old(guids.Log) + GuidsOf(emitted)
    {
      ghost var cfg, twin, extra := Cfg(), Clip(numTwinProperties), Clip(numEdgeProperties);
      ghost var n0, e0, log0 := nodeCount, edgeCount, guids.Log;
      ghost var shapes: seq<Shape> := [];
      emitted, levelNodes := [], [];
      var p := 0;
      while p < |previousNodes|
        invariant 0 <= p <= |previousNodes|
        invariant guids.Valid()
        invariant |levelNodes| == p * cfg.factor
        invariant nodeCount == n0 + |levelNodes| && edgeCount == e0 + |levelNodes|
        invariant Numbered(levelNodes, n0)
        invariant shapes == Children(cfg, m, p, currentLevel, n0, e0)
        invariant Portrays(cfg, emitted, shapes) && Stocked(twin, extra, emitted, shapes)
        invariant (forall x :: x in emitted ==> fresh(x) && fresh(x.rand)) && Distinct(emitted)
        invariant guids.Log == log0 + GuidsOf(emitted)
      {
        assert NumberedAt(previousNodes, m, p);
        emitted, levelNodes := ExtendChildren(emitted, shapes, levelNodes, previousNodes[p], currentLevel,
                                              m, p, n0, e0, log0);
        shapes := Children(cfg, m, p + 1, currentLevel, n0, e0);
        p := p + 1;
      }
      ElemsGrow(log0, GuidsOf(emitted));
    }

    /** One turn of the sibling loop of `GenerateLevel`: the edge(s)
        numbered by the edge counter from node number `a` to node `a + 1`,
        labelled with the configured level (not the current one). */
    method LinkPair(previousSibling: GraphEntity, item: GraphEntity, ghost a: nat)
      returns (edges: seq<GraphEntity>)
      requires previousSibling.Id == IdText(Num(a)) && item.Id == IdText(Num(a + 1))
      modifies this`edgeCount, rand`seed
      ensures edgeCount == old(edgeCount) + 1
      ensures (forall x :: x in edges ==> fresh(x) && fresh(x.rand)) && Distinct(edges)
      ensures Portrays(Cfg(), edges, EdgePair(old(edgeCount), Next, Num(a), Num(a + 1), Cfg().reverse))
      ensures Stocked(Clip(numTwinProperties), Clip(numEdgeProperties), edges,
                      EdgePair(old(edgeCount), Next, Num(a), Num(a + 1), Cfg().reverse))
    {
      ghost var e := edgeCount;
      edges := GetEdge(Dec(edgeCount), relationshipName + "-next-" + Dec(Clip(level)),
                       previousSibling.Id, item.Id, generateReverseEdge);
      edgeCount := edgeCount + 1;
      EdgesDistinct(edges);
      EdgePairPortrays(Cfg(), Clip(numTwinProperties), Clip(numEdgeProperties), edges, e, Next, Num(a), Num(a + 1));
    }

    /** `LinkPair` for the `j`-th node of a level numbered from `m`, its
        edges appended to the chain built so far. */
    method ExtendChain(emitted: seq<GraphEntity>, ghost shapes: seq<Shape>, previousSibling: GraphEntity,
                       item: GraphEntity, ghost m: nat, ghost j: nat, ghost e0: nat)
      returns (longer: seq<GraphEntity>)
      requires 1 <= j && shapes == Siblings(Cfg(), m, j, e0) && edgeCount + 1 == e0 + j
      requires previousSibling.Id == IdText(Num(m + j - 1)) && item.Id == IdText(Num(m + j))
      requires Portrays(Cfg(), emitted, shapes) && Distinct(emitted)
      requires Stocked(Clip(numTwinProperties), Clip(numEdgeProperties), emitted, shapes)
      modifies this`edgeCount, rand`seed
      ensures edgeCount == old(edgeCount) + 1
      ensures Portrays(Cfg(), longer, Siblings(Cfg(), m, j + 1, e0))
      ensures Stocked(Clip(numTwinProperties), Clip(numEdgeProperties), longer, Siblings(Cfg(), m, j + 1, e0))
      ensures Distinct(longer) && forall x :: x in longer ==> x in emitted || (fresh(x) && fresh(x.rand))
    {
      ghost var a, en := m + j - 1, edgeCount;
      var edges := LinkPair(previousSibling, item, a);
      SiblingsStep(Cfg(), Clip(numTwinProperties), Clip(numEdgeProperties), emitted, shapes, edges, m, j, e0, a, en);
      DistinctAppend(emitted, edges);
      NewAfter(emitted, edges);
      longer := emitted + edges;
    }

    /** The second half of one `GenerateLevel` step: an edge (with its
        mirror) from every node of the level to the next one, edges numbered
        by the edge counter, all labelled "{relationshipName}-next-{level}".
        `previousSibling` starts out null, so the first node is skipped. */
    method LinkSiblings(levelNodes: seq<GraphEntity>, ghost m: nat) returns (emitted: seq<GraphEntity>)
      requires Numbered(levelNodes, m)
      modifies this`edgeCount, rand`seed
      ensures edgeCount == old(edgeCount) + Pred(|levelNodes|)
      ensures Portrays(Cfg(), emitted, Siblings(Cfg(), m, |levelNodes|, old(edgeCount)))
      ensures Stocked(Clip(numTwinProperties), Clip(numEdgeProperties), emitted,
                      Siblings(Cfg(), m, |levelNodes|, old(edgeCount)))
      ensures (forall x :: x in emitted ==> fresh(x) && fresh(x.rand)) && Distinct(emitted)
    {
      ghost var cfg, twin, extra := Cfg(), Clip(numTwinProperties), Clip(numEdgeProperties);
      ghost var e0 := edgeCount;
      ghost var shapes: seq<Shape> := [];
      emitted := [];
      var previousSibling: GraphEntity? := null;
      var j := 0;
      while j < |levelNodes|
        invariant 0 <= j <= |levelNodes|
        invariant j == 0 <==> previousSibling == null
        invariant 0 < j ==> previousSibling == levelNodes[j - 1]
        invariant edgeCount == e0 + Pred(j)
        invariant shapes == Siblings(cfg, m, j, e0)
        invariant Portrays(cfg, emitted, shapes) && Stocked(twin, extra, emitted, shapes)
        invariant (forall x :: x in emitted ==> fresh(x) && fresh(x.rand)) && Distinct(emitted)
      {
        var item := levelNodes[j];
        if previousSibling == null {
          previousSibling := item;
        } else {
          assert NumberedAt(levelNodes, m, j - 1) && NumberedAt(levelNodes, m, j);
          emitted := ExtendChain(emitted, shapes, previousSibling, item, m, j, e0);
          shapes := Siblings(cfg, m, j + 1, e0);
          previousSibling := item;
        }
        j := j + 1;
      }
    }

    /** The two loops of one `GenerateLevel` step: the children of every
        previous node, then the sibling chain among them. Returns what is
        yielded and the new level's nodes in order. */
    method SpawnLevel(previousNodes: seq<GraphEntity>, currentLevel: nat, ghost m: nat)
      returns (emitted: seq<GraphEntity>, levelNodes: seq<GraphEntity>)
      requires guids.Valid() && Numbered(previousNodes, m)
      modifies this`nodeCount, this`edgeCount, rand`seed, guids`next, guids`Issued, guids`Log
      ensures guids.Valid() && old(guids.Issued) <= guids.Issued
      ensures |levelNodes| == |previousNodes| * Cfg().factor
      ensures nodeCount == old(nodeCount) + |levelNodes|
      ensures edgeCount == old(edgeCount) + |levelNodes| + Pred(|levelNodes|)
      ensures Numbered(levelNodes, old(nodeCount))
      ensures (forall x :: x in emitted ==> fresh(x) && fresh(x.rand)) && Distinct(emitted)
      ensures Portrays(Cfg(), emitted, Children(Cfg(), m, |previousNodes|, currentLevel, old(nodeCount), old(edgeCount))
                                        + Siblings(Cfg(), old(nodeCount), |levelNodes|, old(edgeCount) + |levelNodes|))
      ensures Stocked(Clip(numTwinProperties), Clip(numEdgeProperties), emitted,
                      Children(Cfg(), m, |previousNodes|, currentLevel, old(nodeCount), old(edgeCount))
                      + Siblings(Cfg(), old(nodeCount), |levelNodes|, old(edgeCount) + |levelNodes|))
      ensures guids.Log == old(guids.Log) + GuidsOf(emitted)
    {
      ghost var cfg, twin, extra := Cfg(), Clip(numTwinProperties), Clip(numEdgeProperties);
      ghost var n0, e0 := nodeCount, edgeCount;
      var kids;
      kids, levelNodes := SpawnChildren(previousNodes, currentLevel, m);
      var links := LinkSiblings(levelNodes, n0);
      DistinctAppend(kids, links);
      ghost var first := Children(cfg, m, |previousNodes|, currentLevel, n0, e0);
      ghost var middle := Siblings(cfg, n0, |levelNodes|, e0 + |levelNodes|);
      PortraysAppend(cfg, kids, first, links, middle);
      StockedAppend(twin, extra, kids, first, links, middle);
      ChainAddsNoGuids(cfg, twin, extra, kids, links, n0, |levelNodes|, e0 + |levelNodes|);
      emitted := kids + links;
    }

    /** `GenerateLevel(previousNodes, currentLevel)`, with the lazy
        sequence it yields collected in order: nothing once `currentLevel`
        reaches the configured level, otherwise this level's children, the
        chain of sibling edges among them, then the levels below. The
        previous nodes are numbered from `m`. */
    method GenerateLevel(previousNodes: seq<GraphEntity>, currentLevel: nat, ghost m: nat)
      returns (emitted: seq<GraphEntity>)
      requires guids.Valid() && Numbered(previousNodes, m) && currentLevel <= level
      modifies this`nodeCount, this`edgeCount, rand`seed, guids`next, guids`Issued, guids`Log
      ensures guids.Valid() && old(guids.Issued) <= guids.Issued
      ensures nodeCount == old(nodeCount) + NodesFrom(Cfg(), |previousNodes|, currentLevel)
      ensures edgeCount == old(edgeCount) + EdgesFrom(Cfg(), |previousNodes|, currentLevel)
      ensures (forall x :: x in emitted ==> fresh(x) && fresh(x.rand)) && Distinct(emitted)
      ensures Portrays(Cfg(), emitted, Level(Cfg(), m, |previousNodes|, currentLevel, old(nodeCount), old(edgeCount)))
      ensures Stocked(Clip(numTwinProperties), Clip(numEdgeProperties), emitted,
                      Level(Cfg(), m, |previousNodes|, currentLevel, old(nodeCount), old(edgeCount)))
      ensures guids.Log == old(guids.Log) + GuidsOf(emitted)
      decreases level - currentLevel
    {
      if currentLevel == level {
        return [];
      }
      ghost var cfg, twin, extra := Cfg(), Clip(numTwinProperties), Clip(numEdgeProperties);
      ghost var n0, e0, p := nodeCount, edgeCount, |previousNodes|;
      var head, levelNodes := SpawnLevel(previousNodes, currentLevel, m);
      ghost var count := |levelNodes|;
      ghost var n1, e1 := nodeCount, edgeCount;
      var below := GenerateLevel(levelNodes, currentLevel + 1, n0);
      DistinctAppend(head, below);
      LoggedAppend(old(guids.Log), head, below);
      LevelPortrays(cfg, twin, extra, head, below, m, p, currentLevel, n0, e0, count, n1, e1);
      emitted := head + below;
    }
  
    /** `GetCount()`: the dictionary of the counts "total", "nodes" and
        "edges", in that order, of the entities listed so far; the total is
        the sum of the other two. */
    function GetCount(): (counts: seq<(string, nat)>)
      reads this
      ensures |counts| == 3 && counts[0].0 == "total" && counts[1].0 == "nodes" && counts[2].0 == "edges"
      ensures counts[0].1 == |entities| == counts[1].1 + counts[2].1
    {
      TallySplit(entities);
      [("total", |entities|), ("nodes", NodeTally(entities)), ("edges", EdgeTally(entities))]
    }

    /** `Update()`: every listed entity refreshes its own dictionary
        (`GraphEntity.Update`), in list order; the list keeps the same
        entities and is returned. An edge and its reverse companion are
        refreshed one after the other, so they end up with values of their
        own. */
    method Update() returns (all: seq<GraphEntity>)
      requires Valid()
      modifies entities, set x | x in entities :: x.rand, guids
      ensures Valid() && all == entities && entities == old(entities)
      ensures GetCount() == old(GetCount())
      ensures old(guids.Issued) <= guids.Issued
      ensures forall i :: 0 <= i < |entities| ==>
        Refreshed(old(entities[i].Properties), entities[i].Properties, old(guids.Issued)) &&
        StringsIssued(entities[i].Properties, guids.Issued)
      ensures FreshRun(StrValuesAll(PropsOf(entities)), old(guids.Issued), guids.Issued)
    {
      ghost var log0 := guids.Log;
      ghost var dicts := RefreshAll();
      RefreshAllLogged(log0, dicts, old(guids.Issued), guids.Issued);
      all := entities;
    }

    /** The loop of `Update()`: the listed entities refresh their
        dictionaries, one after the other; `dicts` are the new dictionaries. */
    method RefreshAll() returns (ghost dicts: seq<seq<Property>>)
      requires guids.Valid() && Distinct(entities) && Keyed(entities)
      modifies entities, set x | x in entities :: x.rand, guids
      ensures entities == old(entities) && dicts == PropsOf(entities)
      ensures guids.Valid() && old(guids.Issued) <= guids.Issued
      ensures guids.Log == old(guids.Log) + StrValuesAll(dicts)
      ensures forall k :: 0 <= k < |entities| ==>
        UniqueKeys(dicts[k]) && Refreshed(old(entities[k].Properties), dicts[k], old(guids.Issued))
    {
      ghost var before, log0 := PropsOf(entities), guids.Log;
      forall k | 0 <= k < |entities| ensures UniqueKeys(before[k]) {
        assert KeyedAt(entities, k);
      }
      dicts := [];
      var i := 0;
      while i < |entities|
        invariant 0 <= i <= |entities| && entities == old(entities) && |dicts| == i
        invariant guids.Valid() && old(guids.Issued) <= guids.Issued
        invariant guids.Log == log0 + StrValuesAll(dicts)
        invariant forall k :: 0 <= k < i ==>
          entities[k].Properties == dicts[k] && UniqueKeys(dicts[k]) &&
          Refreshed(before[k], dicts[k], old(guids.Issued))
        invariant forall k :: i <= k < |entities| ==> entities[k].Properties == before[k]
      {
        RefreshAt(i, before, dicts, log0, old(guids.Issued));
        dicts := dicts + [entities[i].Properties];
        i := i + 1;
      }
    }

    /** One turn of the loop of `Update()`: entity `i` refreshes its
        dictionary, and no other entity's changes. */
    method RefreshAt(i: nat, ghost before: seq<seq<Property>>, ghost dicts: seq<seq<Property>>,
                     ghost log0: seq<string>, ghost issued0: set<string>)
      requires Distinct(entities) && i < |entities| == |before| && |dicts| == i
      requires guids.Valid() && issued0 <= guids.Issued && guids.Log == log0 + StrValuesAll(dicts)
      requires UniqueKeys(before[i]) && entities[i].Properties == before[i]
      modifies entities[i], entities[i].rand, guids
      ensures guids.Valid() && old(guids.Issued) <= guids.Issued
      ensures guids.Log == log0 + StrValuesAll(dicts + [entities[i].Properties])
      ensures UniqueKeys(entities[i].Properties) && Refreshed(before[i], entities[i].Properties, issued0)
      ensures forall k :: 0 <= k < |entities| && k != i ==> entities[k].Properties == old(entities[k].Properties)
    {
      entities[i].Update(guids);
      RefreshedWithin(before[i], entities[i].Properties, old(guids.Issued), issued0);
      forall k | 0 <= k < |entities| && k != i
        ensures entities[k].Properties == old(entities[k].Properties)
      {
        if k < i { assert Apart(entities, k, i); } else { assert Apart(entities, i, k); }
      }
      StrValuesAllSnoc(dicts, entities[i].Properties);
      AppendAssociative(log0, StrValuesAll(dicts), StrValues(entities[i].Properties));
    }

    /** The root `Generate()` lists first: `GetNode("0", "twin", 0)`. */
    method PlantRoot() returns (root: GraphEntity)
      requires guids.Valid()
      modifies rand`seed, guids`next, guids`Issued, guids`Log
      ensures guids.Valid() && old(guids.Issued) <= guids.Issued && fresh(root) && fresh(root.rand)
      ensures Numbered([root], 0) && Portrays(Cfg(), [root], [Root])
      ensures Stocked(Clip(numTwinProperties), Clip(numEdgeProperties), [root], [Root])
      ensures guids.Log == old(guids.Log) + GuidsOf([root])
    {
      root := GetNode("0", "twin", 0);
      assert [root][1..] == [];
      RootPortrays(Cfg(), Clip(numTwinProperties), Clip(numEdgeProperties), root);
    }

    /** The part of `Generate()` after the root is listed: everything
        `GenerateLevel` yields from level 1 below the root, appended to the
        entity list; with the root it is `Generation`. */
    method GrowBelow(root: GraphEntity) returns (rest: seq<GraphEntity>)
      requires guids.Valid() && 1 <= level
      requires Numbered([root], 0) && Portrays(Cfg(), [root], [Root])
      requires Stocked(Clip(numTwinProperties), Clip(numEdgeProperties), [root], [Root])
      modifies this`entities, this`nodeCount, this`edgeCount, rand`seed, guids`next, guids`Issued, guids`Log
      ensures guids.Valid() && old(guids.Issued) <= guids.Issued
      ensures entities == old(entities) + rest
      ensures nodeCount == old(nodeCount) + NodesFrom(Cfg(), 1, 1)
      ensures edgeCount == old(edgeCount) + EdgesFrom(Cfg(), 1, 1)
      ensures (forall x :: x in rest ==> fresh(x) && fresh(x.rand)) && Distinct([root] + rest)
      ensures Portrays(Cfg(), [root] + rest, Generation(Cfg(), old(nodeCount), old(edgeCount)))
      ensures Stocked(Clip(numTwinProperties), Clip(numEdgeProperties), [root] + rest,
                      Generation(Cfg(), old(nodeCount), old(edgeCount)))
      ensures guids.Log == old(guids.Log) + GuidsOf(rest)
    {
      ghost var cfg, twin, extra := Cfg(), Clip(numTwinProperties), Clip(numEdgeProperties);
      ghost var n0, e0 := nodeCount, edgeCount;
      rest := GenerateLevel([root], 1, 0);
      DistinctAppend([root], rest);
      GenerationPortrays(cfg, twin, extra, root, rest, n0, e0);
      entities := entities + rest;
    }

    /** `Generate()`: a root "0" at depth 0 (the node counter is not
        consulted), then everything `GenerateLevel` yields from level 1,
        all appended to the entity list, which is returned whole, earlier
        calls' entities included. A configured level below 1 makes
        `GenerateLevel` recurse forever, so it is excluded. */
    method Generate() returns (all: seq<GraphEntity>, ghost added: seq<GraphEntity>)
      requires Valid() && 1 <= level
      modifies this`entities, this`nodeCount, this`edgeCount, rand`seed, guids`next, guids`Issued, guids`Log
      ensures Valid() && all == entities && old(guids.Issued) <= guids.Issued
      ensures entities == old(entities) + added && forall x :: x in added ==> fresh(x) && fresh(x.rand)
      ensures forall i :: |old(entities)| <= i < |entities| ==> fresh(entities[i]) && fresh(entities[i].rand)
      ensures nodeCount == old(nodeCount) + NodesFrom(Cfg(), 1, 1)
      ensures edgeCount == old(edgeCount) + EdgesFrom(Cfg(), 1, 1)
      ensures Portrays(Cfg(), added, Generation(Cfg(), old(nodeCount), old(edgeCount)))
      ensures Stocked(Clip(numTwinProperties), Clip(numEdgeProperties), added,
                      Generation(Cfg(), old(nodeCount), old(edgeCount)))
      ensures guids.Log == old(guids.Log) + GuidsOf(added)
      ensures FreshRun(GuidsOf(added), old(guids.Issued), guids.Issued)
    {
      ghost var before := entities;
      var root := PlantRoot();
      entities := entities + [root];
      var rest := GrowBelow(root);
      added := [root] + rest;
      LoggedAppend(old(guids.Log), [root], rest);
      GenerationLogged(Clip(numTwinProperties), Clip(numEdgeProperties), old(guids.Log), before, added,
                       Generation(Cfg(), old(nodeCount), old(edgeCount)), old(guids.Issued), guids.Issued);
      assert forall x :: x in added ==> x !in before;
      StockedKeyed(Clip(numTwinProperties), Clip(numEdgeProperties), added,
                   Generation(Cfg(), old(nodeCount), old(edgeCount)));
      DistinctAppend(before, added);
      KeyedAppend(before, added);
      AppendAssociative(before, [root], rest);
      NewAtTail(before, added, entities);
      all := entities;
    }
}

  /** Entities appended after `emitted` that are all new: every entity of
      the longer list was emitted before or is new, with its `Random`. */
  twostate lemma NewAfter(emitted: seq<GraphEntity>, new extra: seq<GraphEntity>)
    requires forall x :: x in extra ==> fresh(x) && fresh(x.rand)
    ensures forall x :: x in emitted + extra ==> x in emitted || (fresh(x) && fresh(x.rand))
  {
  }

  /** A node and its edges, each allocated with its `Random` since the
      previous state, are all new. */
  twostate lemma NewChild(new node: GraphEntity, new edges: seq<GraphEntity>)
    requires fresh(node) && fresh(node.rand)
    requires forall i :: 0 <= i < |edges| ==> fresh(edges[i]) && fresh(edges[i].rand)
    ensures forall x :: x in [node] + edges ==> fresh(x) && fresh(x.rand)
  {
    forall x | x in [node] + edges
      ensures fresh(x) && fresh(x.rand)
    {
      if x != node {
        var i :| 0 <= i < |edges| && edges[i] == x;
      }
    }
  }

  /** An entity list that grew by new entities only: each position past
      the old list holds an entity allocated, with its `Random`, since. */
  twostate lemma NewAtTail(before: seq<GraphEntity>, new added: seq<GraphEntity>, new es: seq<GraphEntity>)
    requires es == before + added && forall x :: x in added ==> fresh(x) && fresh(x.rand)
    ensures forall i :: |before| <= i < |es| ==> fresh(es[i]) && fresh(es[i].rand)
  {
    forall i | |before| <= i < |es|
      ensures fresh(es[i]) && fresh(es[i].rand)
    {
      assert es[i] == added[i - |before|] && added[i - |before|] in added;
    }
  }

  /** Each `Generate()` call raises the "nodes" count of `GetCount()` by
      the root plus one per step of the node counter, and the "edges" count
      by one per step of the edge counter, two with reverse edges. */
  lemma GenerateCounts(g: DataGenerator, before: seq<GraphEntity>, added: seq<GraphEntity>, n: nat, e: nat)
    requires 1 <= g.Cfg().depth && g.entities == before + added
    requires Portrays(g.Cfg(), added, Generation(g.Cfg(), n, e))
    ensures g.GetCount()[1].1 == NodeTally(before) + 1 + NodesFrom(g.Cfg(), 1, 1)
    ensures g.GetCount()[2].1 == EdgeTally(before) + (if g.Cfg().reverse then 2 else 1) * EdgesFrom(g.Cfg(), 1, 1)
  {
    TallyAppend(before, added);
    GenerationTally(g.Cfg(), added, n, e);
  }
}
