/** How many nodes `DataGenerator.Generate` creates at each depth: the tree
    is complete, with `factor` children under every node down to depth
    `level - 1`. */
module GenerationLevels {
  import opened Entities
  import opened GenerationSpec
  import opened GenerationIds

  function Pow(b: nat, k: nat): nat {
    if k == 0 then 1 else b * Pow(b, k - 1)
  }

  /** The number of nodes at depth `d` among the shapes `s`. */
  function DepthTally(s: seq<Shape>, d: nat): nat {
    if s == [] then 0
    else (if s[0].NodeShape? && s[0].depth == d then 1 else 0) + DepthTally(s[1..], d)
  }

  lemma {:induction false} DepthTallyAppend(a: seq<Shape>, b: seq<Shape>, d: nat)
    ensures DepthTally(a + b, d) == DepthTally(a, d) + DepthTally(b, d)
    decreases |a|
  {
    if a == [] {
      assert a + b == b;
    } else {
      assert (a + b)[1..] == a[1..] + b;
      DepthTallyAppend(a[1..], b, d);
    }
  }

  /** Edges are no nodes. */
  lemma {:induction false} EdgePairTally(e: nat, tag: Tag, from: Ident, to: Ident, reverse: bool, d: nat)
    ensures DepthTally(EdgePair(e, tag, from, to, reverse), d) == 0
  {
    var pair := EdgePair(e, tag, from, to, reverse);
    var fwd := EdgeShape(Outgoing, Num(e), tag, from, to);
    if reverse {
      var mirror := [MirrorOf(fwd)];
      assert mirror[1..] == [];
      assert DepthTally(mirror, d) == 0;
      assert pair == [fwd] + mirror && pair[1..] == mirror;
    } else {
      assert pair == [fwd] && pair[1..] == [];
    }
  }

  /** One parent's first `k` children all sit at `depth`. */
  lemma {:induction false} BroodTally(cfg: Config, parent: nat, depth: nat, k: nat, n: nat, e: nat, d: nat)
    ensures DepthTally(Brood(cfg, parent, depth, k, n, e), d) == if d == depth then k else 0
  {
    if k > 0 {
      var child := Child(cfg, parent, depth, n + k - 1, e + k - 1);
      BroodTally(cfg, parent, depth, k - 1, n, e, d);
      DepthTallyAppend(Brood(cfg, parent, depth, k - 1, n, e), child, d);
      EdgePairTally(e + k - 1, Rel, Num(parent), Num(n + k - 1), cfg.reverse, d);
      assert child[1..] == EdgePair(e + k - 1, Rel, Num(parent), Num(n + k - 1), cfg.reverse);
    }
  }

  /** `i` parents get `factor` children each, all at `depth`. */
  lemma {:induction false} ChildrenTally(cfg: Config, m: nat, i: nat, depth: nat, n: nat, e: nat, d: nat)
    ensures DepthTally(Children(cfg, m, i, depth, n, e), d) == if d == depth then i * cfg.factor else 0
  {
    if i > 0 {
      MulStep(i, cfg.factor);
      var before := (i - 1) * cfg.factor;
      ChildrenTally(cfg, m, i - 1, depth, n, e, d);
      BroodTally(cfg, m + i - 1, depth, cfg.factor, n + before, e + before, d);
      DepthTallyAppend(Children(cfg, m, i - 1, depth, n, e),
                       Brood(cfg, m + i - 1, depth, cfg.factor, n + before, e + before), d);
    }
  }

  /** Sibling edges add no node. */
  lemma {:induction false} SiblingsTally(cfg: Config, m: nat, j: nat, e: nat, d: nat)
    ensures DepthTally(Siblings(cfg, m, j, e), d) == 0
  {
    if j > 1 {
      SiblingsTally(cfg, m, j - 1, e, d);
      EdgePairTally(e + j - 2, Next, Num(m + j - 2), Num(m + j - 1), cfg.reverse, d);
      DepthTallyAppend(Siblings(cfg, m, j - 1, e),
                       EdgePair(e + j - 2, Next, Num(m + j - 2), Num(m + j - 1), cfg.reverse), d);
    }
  }

  /** From `p` parents, level `c` on holds `p * factor^(d - c + 1)` nodes at
      each depth `d` from `c` up to the configured depth, and none
      elsewhere. */
  lemma {:induction false} LevelTally(cfg: Config, m: nat, p: nat, c: nat, n: nat, e: nat, d: nat)
    requires c <= cfg.depth
    ensures DepthTally(Level(cfg, m, p, c, n, e), d) ==
            if c <= d < cfg.depth then p * Pow(cfg.factor, d - c + 1) else 0
    decreases cfg.depth - c
  {
    if c < cfg.depth {
      var count := p * cfg.factor;
      var children := Children(cfg, m, p, c, n, e);
      var siblings := Siblings(cfg, n, count, e + count);
      var below := Level(cfg, n, count, c + 1, n + count, e + count + Pred(count));
      ChildrenTally(cfg, m, p, c, n, e, d);
      SiblingsTally(cfg, n, count, e + count, d);
      LevelTally(cfg, n, count, c + 1, n + count, e + count + Pred(count), d);
      DepthTallyAppend(children, siblings, d);
      DepthTallyAppend(children + siblings, below, d);
      if c < d < cfg.depth {
        PowStep(p, cfg.factor, d - c);
      } else if d == c {
        assert Pow(cfg.factor, 1) == cfg.factor;
      }
    }
  }

  /** One more factor of `f`; kept apart from `LevelTally`, whose proof
      would otherwise carry the nonlinear step itself. */
  lemma PowStep(p: nat, f: nat, k: nat)
    ensures p * f * Pow(f, k) == p * Pow(f, k + 1)
  {
    assert Pow(f, k + 1) == f * Pow(f, k);
  }

  /** Depth `d` of a generated tree holds `factor^d` nodes while `d` is
      below the configured level (depth 0 being the root alone), and no
      node is created at depth `level` or deeper. */
  lemma GenerationLevels(cfg: Config, n: nat, e: nat, d: nat)
    requires 1 <= cfg.depth
    ensures DepthTally(Generation(cfg, n, e), d) == if d < cfg.depth then Pow(cfg.factor, d) else 0
  {
    var below := Level(cfg, 0, 1, 1, n, e);
    LevelTally(cfg, 0, 1, 1, n, e, d);
    DepthTallyAppend([Root], below, d);
    assert [Root][1..] == [];
  }

  /** With `level == 1` or `factor == 0`, `Generate()` emits the root alone. */
  lemma OnlyRoot(cfg: Config, n: nat, e: nat)
    requires 1 <= cfg.depth && (cfg.depth == 1 || cfg.factor == 0)
    ensures Generation(cfg, n, e) == [Root]
  {
    NoLevelBelow(cfg, 0, 1, 1, n, e);
  }

  /** Without children the levels below are empty. */
  lemma {:induction false} NoLevelBelow(cfg: Config, m: nat, p: nat, c: nat, n: nat, e: nat)
    requires c <= cfg.depth && (c == cfg.depth || cfg.factor == 0)
    ensures Level(cfg, m, p, c, n, e) == []
    decreases cfg.depth - c
  {
    if c < cfg.depth {
      ChildrenEmpty(cfg, m, p, c, n, e);
      NoLevelBelow(cfg, n, 0, c + 1, n, e);
    }
  }

  lemma {:induction false} ChildrenEmpty(cfg: Config, m: nat, i: nat, depth: nat, n: nat, e: nat)
    requires cfg.factor == 0
    ensures Children(cfg, m, i, depth, n, e) == []
  {
    if i > 0 {
      ChildrenEmpty(cfg, m, i - 1, depth, n, e);
    }
  }
}
