/** What `DataGenerator.Generate` emits, as a pure function of its
    configuration and of the two id counters it starts from: the sequence of
    entity shapes (kind, id, label, depth or endpoints), level by level, in
    emission order. Property values are random and are described separately
    (module PropertySets); everything here is deterministic. */
module GenerationSpec {
  import opened Decimal
  import opened Entities

  /** The configuration of a `DataGenerator`; a negative factor is read as 0,
      since the loop `count < factor` then never runs. */
  datatype Config = Config(depth: nat, factor: nat, rel: string, reverse: bool)

  /** An entity id as the generator hands it out: a counter value, or the
      reverse companion of the edge with that counter value. */
  datatype Ident = Num(n: nat) | Re(n: nat)

  /** The text of an id: `nodeCount.ToString()` / `edgeCount.ToString()`,
      and `$"re:{id}"` for a reverse companion. */
  function IdText(id: Ident): string {
    match id
    case Num(n) => Dec(n)
    case Re(n) => "re:" + Dec(n)
  }

  /** The three labels the generator uses: "twin" on every node, the
      relationship name on parent edges, and the sibling label. */
  datatype Tag = Twin | Rel | Next

  /** The text of a label. The sibling label is
      `$"{relationshipName}-next-{level}"`: it names the configured depth,
      not the level the edge belongs to. */
  function TagText(cfg: Config, t: Tag): string {
    match t
    case Twin => "twin"
    case Rel => cfg.rel
    case Next => cfg.rel + "-next-" + Dec(cfg.depth)
  }

  /** An entity without its property dictionary; `tag` is its `Label`. */
  datatype Shape =
    | NodeShape(id: Ident, tag: Tag, depth: nat)
    | EdgeShape(edgeType: EdgeType, id: Ident, tag: Tag, fromId: Ident, toId: Ident)

  /** The reverse companion of a forward edge: "re:" id, endpoints swapped. */
  function MirrorOf(fwd: Shape): Shape
    requires fwd.EdgeShape? && fwd.id.Num?
  {
    EdgeShape(Reverse, Re(fwd.id.n), fwd.tag, fwd.toId, fwd.fromId)
  }

  /** What `GetEdge` yields for edge number `e`: the "Outgoing" edge, then
      its mirror if asked. */
  function EdgePair(e: nat, tag: Tag, from: Ident, to: Ident, reverse: bool): seq<Shape> {
    var fwd := EdgeShape(Outgoing, Num(e), tag, from, to);
    [fwd] + if reverse then [MirrorOf(fwd)] else []
  }

  /** One child of node `parent` at `depth` with node number `n`, then its
      parent edge with edge number `e`. */
  function Child(cfg: Config, parent: nat, depth: nat, n: nat, e: nat): seq<Shape> {
    [NodeShape(Num(n), Twin, depth)] + EdgePair(e, Rel, Num(parent), Num(n), cfg.reverse)
  }

  /** The first `k` children of one parent, numbered from `n` and `e`. */
  function Brood(cfg: Config, parent: nat, depth: nat, k: nat, n: nat, e: nat): seq<Shape> {
    if k == 0 then []
    else Brood(cfg, parent, depth, k - 1, n, e) + Child(cfg, parent, depth, n + k - 1, e + k - 1)
  }

  /** The children of the first `i` of the parents numbered from `m`: each
      parent gets `factor`. */
  function Children(cfg: Config, m: nat, i: nat, depth: nat, n: nat, e: nat): seq<Shape> {
    if i == 0 then []
    else
      var before := (i - 1) * cfg.factor;
      Children(cfg, m, i - 1, depth, n, e) + Brood(cfg, m + i - 1, depth, cfg.factor, n + before, e + before)
  }

  /** The sibling edges among the first `j` nodes of a level, numbered from
      `m`: one from each node to the next, edges numbered from `e`. */
  function Siblings(cfg: Config, m: nat, j: nat, e: nat): seq<Shape> {
    if j <= 1 then []
    else Siblings(cfg, m, j - 1, e) + EdgePair(e + j - 2, Next, Num(m + j - 2), Num(m + j - 1), cfg.reverse)
  }

  function Pred(n: nat): nat {
    if n == 0 then 0 else n - 1
  }

  /** `GenerateLevel(previous, c)` where `previous` holds the `p` nodes
      numbered from `m` and the node and edge counters stand at `n` and `e`.
      The nodes a level creates are numbered consecutively, so the next
      level's parents are the `count` nodes numbered from `n`. */
  function Level(cfg: Config, m: nat, p: nat, c: nat, n: nat, e: nat): seq<Shape>
    requires c <= cfg.depth
    decreases cfg.depth - c
  {
    if c == cfg.depth then []
    else
      var count := p * cfg.factor;
      Children(cfg, m, p, c, n, e)
        + Siblings(cfg, n, count, e + count)
        + Level(cfg, n, count, c + 1, n + count, e + count + Pred(count))
  }

  /** How far `Level` advances the node counter, from `p` parents at `c`. */
  function NodesFrom(cfg: Config, p: nat, c: nat): nat
    requires c <= cfg.depth
    decreases cfg.depth - c
  {
    if c == cfg.depth then 0 else p * cfg.factor + NodesFrom(cfg, p * cfg.factor, c + 1)
  }

  /** How far `Level` advances the edge counter, from `p` parents at `c`. */
  function EdgesFrom(cfg: Config, p: nat, c: nat): nat
    requires c <= cfg.depth
    decreases cfg.depth - c
  {
    if c == cfg.depth then 0
    else p * cfg.factor + Pred(p * cfg.factor) + EdgesFrom(cfg, p * cfg.factor, c + 1)
  }

  /** The root node every `Generate()` call emits first, with id "0". */
  const Root: Shape := NodeShape(Num(0), Twin, 0)

  /** `Generate()` with the counters at `n` and `e`: the root, then the
      levels from 1 on below it. A fresh generator starts at n = 1, e = 0. */
  function Generation(cfg: Config, n: nat, e: nat): seq<Shape>
    requires 1 <= cfg.depth
  {
    [Root] + Level(cfg, 0, 1, 1, n, e)
  }

  // ---------------------------------------------------------------------
  // Views of a shape sequence

  /** The ids of the nodes, in emission order. */
  function NodeIds(s: seq<Shape>): seq<Ident> {
    if s == [] then []
    else (if s[0].NodeShape? then [s[0].id] else []) + NodeIds(s[1..])
  }

  /** The ids of the edges, in emission order. */
  function EdgeIds(s: seq<Shape>): seq<Ident> {
    if s == [] then []
    else (if s[0].EdgeShape? then [s[0].id] else []) + EdgeIds(s[1..])
  }

  lemma {:induction false} NodeIdsAppend(a: seq<Shape>, b: seq<Shape>)
    ensures NodeIds(a + b) == NodeIds(a) + NodeIds(b)
    decreases |a|
  {
    if a == [] {
      assert a + b == b;
    } else {
      assert (a + b)[0] == a[0] && (a + b)[1..] == a[1..] + b;
      NodeIdsAppend(a[1..], b);
    }
  }

  lemma {:induction false} EdgeIdsAppend(a: seq<Shape>, b: seq<Shape>)
    ensures EdgeIds(a + b) == EdgeIds(a) + EdgeIds(b)
    decreases |a|
  {
    if a == [] {
      assert a + b == b;
    } else {
      assert (a + b)[0] == a[0] && (a + b)[1..] == a[1..] + b;
      EdgeIdsAppend(a[1..], b);
    }
  }
}
