/** Ids of what `Generate` emits: node ids are consecutive counter values in
    emission order; forward edge ids are consecutive counter values, each
    followed by its "re:" companion when reverse edges are on; so ids are
    unique within one call, but not across two calls. */
module GenerationIds {
  import opened Decimal
  import opened Sequences
  import opened Entities
  import opened GenerationSpec

  /** The ids `Num(n)`, ..., `Num(n + k - 1)`. */
  function NumRange(n: nat, k: nat): seq<Ident> {
    seq(k, i requires 0 <= i < k => Num(n + i))
  }

  /** The edge ids of edge numbers e, e+1, ..., e+k-1 in order, each
      followed by its "re:" companion when `reverse` holds. */
  function Ladder(e: nat, k: nat, reverse: bool): seq<Ident> {
    if k == 0 then []
    else Ladder(e, k - 1, reverse) + [Num(e + k - 1)] + (if reverse then [Re(e + k - 1)] else [])
  }

  lemma {:induction false} NumRangeSplit(n: nat, a: nat, b: nat)
    ensures NumRange(n, a) + NumRange(n + a, b) == NumRange(n, a + b)
  {
  }

  lemma {:induction false} LadderSplit(e: nat, a: nat, b: nat, reverse: bool)
    ensures Ladder(e, a, reverse) + Ladder(e + a, b, reverse) == Ladder(e, a + b, reverse)
    decreases b
  {
    if b > 0 {
      LadderSplit(e, a, b - 1, reverse);
    }
  }

  lemma {:induction false} LadderThree(e: nat, a: nat, b: nat, c: nat, reverse: bool)
    ensures Ladder(e, a, reverse) + Ladder(e + a, b, reverse) + Ladder(e + a + b, c, reverse)
         == Ladder(e, a + b + c, reverse)
  {
    LadderSplit(e, a, b, reverse);
    LadderSplit(e, a + b, c, reverse);
  }

  lemma {:induction false} EdgePairIds(e: nat, tag: Tag, from: Ident, to: Ident, reverse: bool)
    ensures NodeIds(EdgePair(e, tag, from, to, reverse)) == []
    ensures EdgeIds(EdgePair(e, tag, from, to, reverse)) == Ladder(e, 1, reverse)
  {
    var fwd := EdgeShape(Outgoing, Num(e), tag, from, to);
    var rest: seq<Shape> := if reverse then [MirrorOf(fwd)] else [];
    NodeIdsAppend([fwd], rest);
    EdgeIdsAppend([fwd], rest);
    if reverse {
    }
  }

  lemma {:induction false} ChildIds(cfg: Config, parent: nat, depth: nat, n: nat, e: nat)
    ensures NodeIds(Child(cfg, parent, depth, n, e)) == [Num(n)]
    ensures EdgeIds(Child(cfg, parent, depth, n, e)) == Ladder(e, 1, cfg.reverse)
  {
    var node := NodeShape(Num(n), Twin, depth);
    var pair := EdgePair(e, Rel, Num(parent), Num(n), cfg.reverse);
    NodeIdsAppend([node], pair);
    EdgeIdsAppend([node], pair);
    EdgePairIds(e, Rel, Num(parent), Num(n), cfg.reverse);
  }

  /** Node and edge ids of two consecutive blocks. */
  lemma {:induction false} IdsOfPair(whole: seq<Shape>, first: seq<Shape>, second: seq<Shape>,
                                     nodes1: seq<Ident>, nodes2: seq<Ident>, edges1: seq<Ident>, edges2: seq<Ident>)
    requires whole == first + second
    requires NodeIds(first) == nodes1 && NodeIds(second) == nodes2
    requires EdgeIds(first) == edges1 && EdgeIds(second) == edges2
    ensures NodeIds(whole) == nodes1 + nodes2 && EdgeIds(whole) == edges1 + edges2
  {
    NodeIdsAppend(first, second);
    EdgeIdsAppend(first, second);
  }

  lemma {:induction false} NodeIdsOfPair(whole: seq<Shape>, first: seq<Shape>, second: seq<Shape>,
                                         nodes1: seq<Ident>, nodes2: seq<Ident>)
    requires whole == first + second
    requires NodeIds(first) == nodes1 && NodeIds(second) == nodes2
    ensures NodeIds(whole) == nodes1 + nodes2
  {
    NodeIdsAppend(first, second);
  }

  lemma {:induction false} EdgeIdsOfPair(whole: seq<Shape>, first: seq<Shape>, second: seq<Shape>,
                                         edges1: seq<Ident>, edges2: seq<Ident>)
    requires whole == first + second
    requires EdgeIds(first) == edges1 && EdgeIds(second) == edges2
    ensures EdgeIds(whole) == edges1 + edges2
  {
    EdgeIdsAppend(first, second);
  }

  lemma {:induction false} BroodIds(cfg: Config, parent: nat, depth: nat, k: nat, n: nat, e: nat)
    ensures NodeIds(Brood(cfg, parent, depth, k, n, e)) == NumRange(n, k)
    ensures EdgeIds(Brood(cfg, parent, depth, k, n, e)) == Ladder(e, k, cfg.reverse)
  {
    if k > 0 {
      BroodIds(cfg, parent, depth, k - 1, n, e);
      ChildIds(cfg, parent, depth, n + k - 1, e + k - 1);
      assert NumRange(n + (k - 1), 1) == [Num(n + k - 1)];
      LadderSplit(e, k - 1, 1, cfg.reverse);
      NumRangeSplit(n, k - 1, 1);
      IdsOfPair(Brood(cfg, parent, depth, k, n, e), Brood(cfg, parent, depth, k - 1, n, e),
                Child(cfg, parent, depth, n + k - 1, e + k - 1),
                NumRange(n, k - 1), NumRange(n + (k - 1), 1), Ladder(e, k - 1, cfg.reverse), Ladder(e + (k - 1), 1, cfg.reverse));
    }
  }

  /** `i` blocks of `f` are `i - 1` blocks and one more; kept apart so
      that the recursive proofs see no nonlinear arithmetic of their own. */
  lemma {:induction false} MulStep(i: nat, f: nat)
    requires i > 0
    ensures 0 <= (i - 1) * f && (i - 1) * f + f == i * f
  {
  }

  lemma {:induction false} ChildrenNodeIds(cfg: Config, m: nat, i: nat, depth: nat, n: nat, e: nat)
    ensures NodeIds(Children(cfg, m, i, depth, n, e)) == NumRange(n, i * cfg.factor)
  {
    if i > 0 {
      MulStep(i, cfg.factor);
      var before := (i - 1) * cfg.factor;
      ChildrenNodeIds(cfg, m, i - 1, depth, n, e);
      BroodIds(cfg, m + i - 1, depth, cfg.factor, n + before, e + before);
      NodeIdsOfPair(Children(cfg, m, i, depth, n, e), Children(cfg, m, i - 1, depth, n, e),
                    Brood(cfg, m + i - 1, depth, cfg.factor, n + before, e + before),
                    NumRange(n, before), NumRange(n + before, cfg.factor));
      NumRangeSplit(n, before, cfg.factor);
    }
  }

  lemma {:induction false} ChildrenEdgeIds(cfg: Config, m: nat, i: nat, depth: nat, n: nat, e: nat)
    ensures EdgeIds(Children(cfg, m, i, depth, n, e)) == Ladder(e, i * cfg.factor, cfg.reverse)
  {
    if i > 0 {
      MulStep(i, cfg.factor);
      var before := (i - 1) * cfg.factor;
      ChildrenEdgeIds(cfg, m, i - 1, depth, n, e);
      BroodIds(cfg, m + i - 1, depth, cfg.factor, n + before, e + before);
      EdgeIdsOfPair(Children(cfg, m, i, depth, n, e), Children(cfg, m, i - 1, depth, n, e),
                    Brood(cfg, m + i - 1, depth, cfg.factor, n + before, e + before),
                    Ladder(e, before, cfg.reverse), Ladder(e + before, cfg.factor, cfg.reverse));
      LadderSplit(e, before, cfg.factor, cfg.reverse);
    }
  }

  lemma {:induction false} SiblingsIds(cfg: Config, m: nat, j: nat, e: nat)
    ensures NodeIds(Siblings(cfg, m, j, e)) == []
    ensures EdgeIds(Siblings(cfg, m, j, e)) == Ladder(e, Pred(j), cfg.reverse)
  {
    if j > 1 {
      SiblingsIds(cfg, m, j - 1, e);
      EdgePairIds(e + j - 2, Next, Num(m + j - 2), Num(m + j - 1), cfg.reverse);
      IdsOfPair(Siblings(cfg, m, j, e), Siblings(cfg, m, j - 1, e),
                EdgePair(e + j - 2, Next, Num(m + j - 2), Num(m + j - 1), cfg.reverse),
                [], [], Ladder(e, j - 2, cfg.reverse), Ladder(e + (j - 2), 1, cfg.reverse));
      LadderSplit(e, j - 2, 1, cfg.reverse);
    }
  }

  /** One step of `Level`: this level's children, their sibling chain,
      then the levels below. */
  lemma {:induction false} LevelUnfold(cfg: Config, m: nat, p: nat, c: nat, n: nat, e: nat, count: nat)
    requires c < cfg.depth && count == p * cfg.factor
    ensures Level(cfg, m, p, c, n, e)
        == Children(cfg, m, p, c, n, e)
         + Siblings(cfg, n, count, e + count)
         + Level(cfg, n, count, c + 1, n + count, e + count + Pred(count))
  {
  }

  /** Node ids of three consecutive blocks, the middle one without nodes. */
  lemma {:induction false} NodeIdsOfBlocks(whole: seq<Shape>, first: seq<Shape>, middle: seq<Shape>, last: seq<Shape>, ids: seq<Ident>)
    requires whole == first + middle + last
    requires NodeIds(first) == ids && NodeIds(middle) == []
    ensures NodeIds(whole) == ids + NodeIds(last)
  {
    NodeIdsAppend(first + middle, last);
    NodeIdsAppend(first, middle);
  }

  /** Edge ids of three consecutive blocks. */
  lemma {:induction false} EdgeIdsOfBlocks(whole: seq<Shape>, first: seq<Shape>, middle: seq<Shape>, last: seq<Shape>)
    requires whole == first + middle + last
    ensures EdgeIds(whole) == EdgeIds(first) + EdgeIds(middle) + EdgeIds(last)
  {
    EdgeIdsAppend(first + middle, last);
    EdgeIdsAppend(first, middle);
  }

  /** The node ids of one step of `Level`: this level's, then the rest. */
  lemma {:induction false} LevelStepNodeIds(cfg: Config, m: nat, p: nat, c: nat, n: nat, e: nat, count: nat)
    requires c < cfg.depth && count == p * cfg.factor
    ensures NodeIds(Level(cfg, m, p, c, n, e))
        == NumRange(n, count) + NodeIds(Level(cfg, n, count, c + 1, n + count, e + count + Pred(count)))
  {
    var kids, sibs := Children(cfg, m, p, c, n, e), Siblings(cfg, n, count, e + count);
    var rest := Level(cfg, n, count, c + 1, n + count, e + count + Pred(count));
    calc {
      NodeIds(Level(cfg, m, p, c, n, e));
      { LevelUnfold(cfg, m, p, c, n, e, count); }
      NodeIds(kids + sibs + rest);
      { ChildrenNodeIds(cfg, m, p, c, n, e);
        SiblingsIds(cfg, n, count, e + count);
        NodeIdsOfBlocks(kids + sibs + rest, kids, sibs, rest, NumRange(n, count)); }
      NumRange(n, count) + NodeIds(rest);
    }
  }

  /** The edge ids of one step of `Level`: the parent edges, the sibling
      edges, then the rest. */
  lemma {:induction false} LevelStepEdgeIds(cfg: Config, m: nat, p: nat, c: nat, n: nat, e: nat, count: nat)
    requires c < cfg.depth && count == p * cfg.factor
    ensures EdgeIds(Level(cfg, m, p, c, n, e))
        == Ladder(e, count, cfg.reverse) + Ladder(e + count, Pred(count), cfg.reverse)
         + EdgeIds(Level(cfg, n, count, c + 1, n + count, e + count + Pred(count)))
  {
    var kids, sibs := Children(cfg, m, p, c, n, e), Siblings(cfg, n, count, e + count);
    var rest := Level(cfg, n, count, c + 1, n + count, e + count + Pred(count));
    calc {
      EdgeIds(Level(cfg, m, p, c, n, e));
      { LevelUnfold(cfg, m, p, c, n, e, count); }
      EdgeIds(kids + sibs + rest);
      { EdgeIdsOfBlocks(kids + sibs + rest, kids, sibs, rest); }
      EdgeIds(kids) + EdgeIds(sibs) + EdgeIds(rest);
      { ChildrenEdgeIds(cfg, m, p, c, n, e);
        SiblingsIds(cfg, n, count, e + count); }
      Ladder(e, count, cfg.reverse) + Ladder(e + count, Pred(count), cfg.reverse) + EdgeIds(rest);
    }
  }

  /** A level and everything below it: node ids are consecutive from the
      node counter. */
  lemma {:induction false} LevelNodeIds(cfg: Config, m: nat, p: nat, c: nat, n: nat, e: nat)
    requires c <= cfg.depth
    ensures NodeIds(Level(cfg, m, p, c, n, e)) == NumRange(n, NodesFrom(cfg, p, c))
    decreases cfg.depth - c
  {
    if c < cfg.depth {
      var count := p * cfg.factor;
      var below := NodesFrom(cfg, count, c + 1);
      LevelStepNodeIds(cfg, m, p, c, n, e, count);
      LevelNodeIds(cfg, n, count, c + 1, n + count, e + count + Pred(count));
      NumRangeSplit(n, count, below);
    } else {
      assert NumRange(n, 0) == [];
    }
  }

  /** A level and everything below it: edge ids are consecutive from the
      edge counter, each followed by its "re:" companion when asked. */
  lemma {:induction false} LevelEdgeIds(cfg: Config, m: nat, p: nat, c: nat, n: nat, e: nat)
    requires c <= cfg.depth
    ensures EdgeIds(Level(cfg, m, p, c, n, e)) == Ladder(e, EdgesFrom(cfg, p, c), cfg.reverse)
    decreases cfg.depth - c
  {
    if c < cfg.depth {
      var count := p * cfg.factor;
      var below := EdgesFrom(cfg, count, c + 1);
      LevelStepEdgeIds(cfg, m, p, c, n, e, count);
      LevelEdgeIds(cfg, n, count, c + 1, n + count, e + count + Pred(count));
      LadderThree(e, count, Pred(count), below, cfg.reverse);
    }
  }

  /** One `Generate()` call: the root "0", then node ids from the node
      counter on; edge ids from the edge counter on. */
  lemma {:induction false} GenerationIdsFrom(cfg: Config, n: nat, e: nat)
    requires 1 <= cfg.depth
    ensures NodeIds(Generation(cfg, n, e)) == [Num(0)] + NumRange(n, NodesFrom(cfg, 1, 1))
    ensures EdgeIds(Generation(cfg, n, e)) == Ladder(e, EdgesFrom(cfg, 1, 1), cfg.reverse)
  {
    var rest := Level(cfg, 0, 1, 1, n, e);
    LevelNodeIds(cfg, 0, 1, 1, n, e);
    LevelEdgeIds(cfg, 0, 1, 1, n, e);
    NodeIdsAppend([Root], rest);
    EdgeIdsAppend([Root], rest);
  }

  lemma {:induction false} NumRangeDistinct(n: nat, k: nat)
    ensures Distinct(NumRange(n, k))
  {
    forall i, j | 0 <= i < j < k
      ensures Apart(NumRange(n, k), i, j)
    {
    }
  }

  /** Edge numbers at or beyond the ladder's end name no id in it. */
  lemma {:induction false} LadderAvoids(e: nat, k: nat, reverse: bool, x: nat)
    requires e + k <= x
    ensures Num(x) !in Ladder(e, k, reverse) && Re(x) !in Ladder(e, k, reverse)
  {
    if k > 0 {
      LadderAvoids(e, k - 1, reverse, x);
    }
  }

  /** Edge ids never repeat within one ladder. */
  lemma {:induction false} LadderDistinct(e: nat, k: nat, reverse: bool)
    ensures Distinct(Ladder(e, k, reverse))
  {
    if k > 0 {
      var top := e + k - 1;
      var step := [Num(top)] + (if reverse then [Re(top)] else []);
      LadderDistinct(e, k - 1, reverse);
      LadderAvoids(e, k - 1, reverse, top);
      DistinctAppend(Ladder(e, k - 1, reverse), step);
      assert Ladder(e, k, reverse) == Ladder(e, k - 1, reverse) + step;
    }
  }

  /** |Ladder| is the number of edge numbers, doubled with reverse edges. */
  lemma {:induction false} LadderLength(e: nat, k: nat, reverse: bool)
    ensures |Ladder(e, k, reverse)| == if reverse then 2 * k else k
  {
    if k > 0 {
      LadderLength(e, k - 1, reverse);
    }
  }

  // ---------------------------------------------------------------------
  // From ids to their texts

  /** The texts of `ids`, in order. */
  function Texts(ids: seq<Ident>): seq<string> {
    seq(|ids|, i requires 0 <= i < |ids| => IdText(ids[i]))
  }

  /** A counter value's text is all digits; a reverse id starts with 'r'. */
  lemma {:induction false} DigitsNotReverse(x: nat, y: nat)
    ensures Dec(x) != "re:" + Dec(y)
  {
    assert ("re:" + Dec(y))[0] == 'r';
    assert IsDigit(Dec(x)[0]);
  }

  /** Different ids have different texts. */
  lemma {:induction false} IdTextInjective(a: Ident, b: Ident)
    ensures IdText(a) == IdText(b) <==> a == b
  {
    if a.Num? && b.Num? {
      DecInjective(a.n, b.n);
    } else if a.Num? {
      DigitsNotReverse(a.n, b.n);
    } else if b.Num? {
      DigitsNotReverse(b.n, a.n);
    } else if IdText(a) == IdText(b) {
      assert IdText(a)[3..] == Dec(a.n) && IdText(b)[3..] == Dec(b.n);
      DecInjective(a.n, b.n);
    }
  }

  lemma {:induction false} TextsDistinct(ids: seq<Ident>)
    requires Distinct(ids)
    ensures Distinct(Texts(ids))
  {
    forall i, j | 0 <= i < j < |ids|
      ensures Apart(Texts(ids), i, j)
    {
      assert Apart(ids, i, j);
      IdTextInjective(ids[i], ids[j]);
    }
  }

  /** A fresh generator (node counter 1, edge counter 0): node ids are "0",
      "1", ... in emission order, edge ids are "0", "1", ... each followed by
      its "re:" companion when reverse edges are on, and no text repeats. */
  lemma {:induction false} FreshGenerationIds(cfg: Config)
    requires 1 <= cfg.depth
    ensures NodeIds(Generation(cfg, 1, 0)) == NumRange(0, 1 + NodesFrom(cfg, 1, 1))
    ensures EdgeIds(Generation(cfg, 1, 0)) == Ladder(0, EdgesFrom(cfg, 1, 1), cfg.reverse)
    ensures Distinct(Texts(NodeIds(Generation(cfg, 1, 0))))
    ensures Distinct(Texts(EdgeIds(Generation(cfg, 1, 0))))
  {
    GenerationIdsFrom(cfg, 1, 0);
    assert NumRange(0, 1) == [Num(0)];
    NumRangeSplit(0, 1, NodesFrom(cfg, 1, 1));
    TextsDistinct(NumRange(0, 1 + NodesFrom(cfg, 1, 1)));
    LadderDistinct(0, EdgesFrom(cfg, 1, 1), cfg.reverse);
    TextsDistinct(Ladder(0, EdgesFrom(cfg, 1, 1), cfg.reverse));
  }

  /** Calling `Generate()` a second time appends a second root "0": the
      accumulated entity list then holds a node id twice. */
  lemma {:induction false} SecondGenerateRepeatsRoot(cfg: Config, n1: nat, e1: nat, n2: nat, e2: nat)
    requires 1 <= cfg.depth
    ensures !Distinct(NodeIds(Generation(cfg, n1, e1) + Generation(cfg, n2, e2)))
  {
    var first := Generation(cfg, n1, e1);
    var second := Generation(cfg, n2, e2);
    GenerationIdsFrom(cfg, n1, e1);
    GenerationIdsFrom(cfg, n2, e2);
    NodeIdsAppend(first, second);
    var ids := NodeIds(first + second);
    assert ids[0] == Num(0) && ids[|NodeIds(first)|] == Num(0);
    assert !Apart(ids, 0, |NodeIds(first)|);
  }
}
