/** The two Cypher statement builders of `Neo4JIndexer`: for one node or one
    edge, the statement text, appended piece by piece to a `StringBuilder`,
    and the parameter dictionary filled with `Dictionary.Add`. */
module Neo4J {
  import opened Decimal
  import opened Entities
  import opened PropertySets

  /** A statement text and its parameters, in the order they were added. */
  datatype Query = Query(text: string, values: seq<Property>)

  /** How building a statement ends: with the statement, or with the
      `ArgumentException` that `Dictionary.Add` throws for a parameter name
      already present, carrying that name. */
  datatype Outcome = Built(query: Query) | DuplicateKey(key: string)

  /** How a dictionary key is written as a Cypher name: spliced as it is
      (what the indexer does), or between backticks. */
  datatype Naming = Spliced | Quoted

  function CypherNameOf(key: string, naming: Naming): string {
    match naming
    case Spliced => key
    case Quoted => "`" + key + "`"
  }

  /** `$"SET {v}.{key} = ${key} "`: the property and the parameter share
      the key as their name. */
  function SetClause(v: string, key: string, naming: Naming): string {
    "SET " + v + "." + CypherNameOf(key, naming) + " = $" + CypherNameOf(key, naming) + " "
  }

  /** The SET clauses of the entries `ps`, one per entry, in order. */
  function SetClauses(v: string, ps: seq<Property>, naming: Naming): string {
    if ps == [] then ""
    else SetClauses(v, ps[..|ps| - 1], naming) + SetClause(v, ps[|ps| - 1].0, naming)
  }

  /** A character that may start an unquoted Cypher name (ASCII only). */
  predicate NameStart(c: char) {
    'a' <= c <= 'z' || 'A' <= c <= 'Z' || c == '_'
  }

  /** A character that may follow in an unquoted Cypher name. */
  predicate NamePart(c: char) {
    NameStart(c) || IsDigit(c)
  }

  /** A Cypher symbolic name, as a property key after `.` or a parameter
      name after `$`: a letter or `_` followed by letters, digits and `_`,
      or any text without a backtick between two backticks. Anything else,
      such as `dyn-1`, is read by Cypher as an expression (`dyn - 1`). */
  predicate SymbolicName(name: string) {
    PlainName(name) || QuotedName(name)
  }

  predicate PlainName(name: string) {
    |name| > 0 && NameStart(name[0]) && forall i :: 1 <= i < |name| ==> NamePart(name[i])
  }

  predicate QuotedName(name: string) {
    |name| >= 2 && name[0] == '`' && name[|name| - 1] == '`' &&
    forall i :: 1 <= i < |name| - 1 ==> name[i] != '`'
  }

  /** A name that does not start with a backtick and holds a hyphen is not
      a symbolic name. */
  lemma HyphenatedName(name: string, k: nat)
    requires k < |name| && name[k] == '-' && name[0] != '`'
    ensures !SymbolicName(name)
  {
    assert !NamePart(name[k]);
  }

  /** Every SET clause written for the entries `ps` names its property and
      its parameter by a symbolic name. */
  ghost predicate ClausesNamed(ps: seq<Property>, naming: Naming) {
    forall i :: 0 <= i < |ps| ==> SymbolicName(CypherNameOf(ps[i].0, naming))
  }

  /** The start of the node statement: the id is spliced into the text
      between single quotes. */
  function NodeHeader(id: string): string {
    "MERGE (n {id: '" + id + "'}) " + "SET n.label = $label " + "SET n.partitionId = $partitionId "
  }

  /** The parameters the node statement starts with. */
  function NodeParams(nodeLabel: string, partitionId: string): seq<Property> {
    [("label", Str(nodeLabel)), ("partitionId", Str(partitionId))]
  }

  /** The start of the edge statement; the edge's own values travel only as
      parameters. */
  const EdgeHeader: string :=
    "MATCH (from), (to) " + "WHERE from.id = $fromId AND to.id = $toId " +
    "CREATE (from)-[e:rel]->(to) " + "SET e.id = $id " + "SET e.label = $label "

  /** The parameters the edge statement starts with. */
  function EdgeParams(id: string, fromId: string, toId: string, edgeLabel: string): seq<Property> {
    [("id", Str(id)), ("fromId", Str(fromId)), ("toId", Str(toId)), ("label", Str(edgeLabel))]
  }

  /** `ps[j]` is the first entry whose key is already a parameter: one of
      `fixed` or of the entries before it. */
  ghost predicate ClashesAt(fixed: seq<Property>, ps: seq<Property>, j: nat) {
    j < |ps| && UniqueKeys(fixed + ps[..j]) && ps[j].0 in KeysOf(fixed + ps[..j])
  }

  /** `r` is what a builder yields from the statement start `header`, the
      parameters `fixed` and the entries `ps`, whose clauses name variable
      `v`: the statement exactly when no key repeats among the parameters,
      and otherwise the exception for the first key that does. */
  ghost predicate Describes(r: Outcome, header: string, v: string, fixed: seq<Property>, ps: seq<Property>,
                            naming: Naming) {
    (r.Built? <==> UniqueKeys(fixed + ps)) &&
    (r.Built? ==> r.query == Query(header + SetClauses(v, ps, naming), fixed + ps)) &&
    (r.DuplicateKey? ==> exists j: nat :: ClashesAt(fixed, ps, j) && r.key == ps[j].0)
  }

  /** A key already among the parameters before entry `j` makes the
      parameters as a whole repeat a key. */
  lemma ClashRepeats(fixed: seq<Property>, ps: seq<Property>, j: nat)
    requires ClashesAt(fixed, ps, j)
    ensures !UniqueKeys(fixed + ps)
  {
    var all, before := fixed + ps, fixed + ps[..j];
    var t :| 0 <= t < |before| && KeysOf(before)[t] == ps[j].0;
    assert all[t] == before[t] && all[|fixed| + j] == ps[j];
  }

  /** One more entry adds one more clause at the end. */
  lemma SetClausesStep(v: string, ps: seq<Property>, i: nat, naming: Naming)
    requires i < |ps|
    ensures SetClauses(v, ps[..i + 1], naming) == SetClauses(v, ps[..i], naming) + SetClause(v, ps[i].0, naming)
  {
    assert ps[..i + 1][..i] == ps[..i];
  }

  /** The loop both builders share: for each entry, in order, append its
      SET clause to the statement and `Add` its value to the parameters;
      the `Add` of a key already present throws, after its clause was
      appended, and ends the build. */
  method AddProperties(v: string, createStatement: string, values: PropertyMap, props: seq<Property>,
                       naming: Naming)
    returns (r: Outcome)
    requires values.Valid()
    modifies values
    ensures Describes(r, createStatement, v, old(values.Entries), props, naming)
  {
    ghost var fixed := old(values.Entries);
    var statement := createStatement;
    var i := 0;
    var thrown := false;
    while i < |props|
      invariant 0 <= i <= |props|
      invariant values.Valid() && values.Entries == fixed + props[..i]
      invariant statement == createStatement + SetClauses(v, props[..i], naming)
    {
      var key, value := props[i].0, props[i].1;
      StatementStep(createStatement, statement, v, props, i, naming);
      var added;
      statement, added := AddProperty(v, statement, values, key, value, naming);
      if !added {
        thrown := true;
        break;
      }
      EntriesStep(fixed, props, i);
      i := i + 1;
    }
    if thrown {
      r := DuplicateKey(props[i].0);
      ClashDescribes(r, createStatement, v, fixed, props, i, naming);
    } else {
      assert props[..i] == props;
      r := Built(Query(statement, values.Entries));
      BuiltDescribes(r, createStatement, v, fixed, props, naming);
    }
  }

  /** One turn of the loop: append the clause of `key`, then `Add` its
      value, which throws, leaving the dictionary as it was, when the key
      is already present. */
  method AddProperty(v: string, statement: string, values: PropertyMap, key: string, value: Value, naming: Naming)
    returns (appended: string, added: bool)
    requires values.Valid()
    modifies values
    ensures appended == statement + SetClause(v, key, naming)
    ensures added <==> key !in KeysOf(old(values.Entries))
    ensures values.Valid()
    ensures values.Entries == if added then old(values.Entries) + [(key, value)] else old(values.Entries)
  {
    appended := statement + SetClause(v, key, naming);
    added := values.Add(key, value);
  }

  /** Appending the clause of entry `i` keeps the statement the start
      followed by the clauses so far. */
  lemma StatementStep(header: string, statement: string, v: string, ps: seq<Property>, i: nat, naming: Naming)
    requires i < |ps| && statement == header + SetClauses(v, ps[..i], naming)
    ensures statement + SetClause(v, ps[i].0, naming) == header + SetClauses(v, ps[..i + 1], naming)
  {
    SetClausesStep(v, ps, i, naming);
    var front, clause := SetClauses(v, ps[..i], naming), SetClause(v, ps[i].0, naming);
    Associative(header, front, clause);
  }

  /** Regrouping a concatenation of three strings; a lemma of its own so
      that the loop's proof does not search for the regrouping. */
  lemma Associative(a: string, b: string, c: string)
    ensures a + b + c == a + (b + c)
  {
  }

  /** A build that stops at the first clash is described. */
  lemma ClashDescribes(r: Outcome, header: string, v: string, fixed: seq<Property>, ps: seq<Property>, i: nat,
                       naming: Naming)
    requires i < |ps| && UniqueKeys(fixed + ps[..i]) && ps[i].0 in KeysOf(fixed + ps[..i])
    requires r == DuplicateKey(ps[i].0)
    ensures Describes(r, header, v, fixed, ps, naming)
  {
    assert ClashesAt(fixed, ps, i);
    ClashRepeats(fixed, ps, i);
  }

  /** A build that reaches the last entry is described. */
  lemma BuiltDescribes(r: Outcome, header: string, v: string, fixed: seq<Property>, ps: seq<Property>,
                       naming: Naming)
    requires UniqueKeys(fixed + ps)
    requires r == Built(Query(header + SetClauses(v, ps, naming), fixed + ps))
    ensures Describes(r, header, v, fixed, ps, naming)
  {
  }

  lemma EntriesStep(fixed: seq<Property>, props: seq<Property>, i: nat)
    requires i < |props|
    ensures fixed + props[..i + 1] == fixed + props[..i] + [props[i]]
  {
    assert props[..i + 1] == props[..i] + [props[i]];
  }

  /** `CreateNeo4JNode(node)`: the MERGE statement for a node, or the
      exception for a property key that repeats a parameter name. With
      `Spliced` the keys are written as the indexer writes them; with
      `Quoted` each key stands between backticks, so that a key such as
      `dyn-1` is one name. */
  method CreateNeo4JNode(node: GraphEntity, naming: Naming) returns (r: Outcome)
    requires node.Kind.NodeKind?
    ensures Describes(r, NodeHeader(node.Id), "n", NodeParams(node.Label, node.Kind.PartitionId), node.Properties,
                      naming)
  {
    var createStatement := "MERGE (n {id: '" + node.Id + "'}) ";
    createStatement := createStatement + "SET n.label = $label ";
    createStatement := createStatement + "SET n.partitionId = $partitionId ";
    var values := new PropertyMap.Of(NodeParams(node.Label, node.Kind.PartitionId));
    r := AddProperties("n", createStatement, values, node.Properties, naming);
  }

  /** `CreateNeo4JEdge(edge)`: the MATCH/CREATE statement for an edge, or
      the exception for a property key that repeats a parameter name. */
  method CreateNeo4JEdge(edge: GraphEntity) returns (r: Outcome)
    requires edge.Kind.EdgeKind?
    ensures Describes(r, EdgeHeader, "e", EdgeParams(edge.Id, edge.Kind.FromId, edge.Kind.ToId, edge.Label),
                      edge.Properties, Spliced)
  {
    var createStatement := "MATCH (from), (to) ";
    createStatement := createStatement + "WHERE from.id = $fromId AND to.id = $toId ";
    createStatement := createStatement + "CREATE (from)-[e:rel]->(to) ";
    createStatement := createStatement + "SET e.id = $id ";
    createStatement := createStatement + "SET e.label = $label ";
    var values := new PropertyMap.Of(EdgeParams(edge.Id, edge.Kind.FromId, edge.Kind.ToId, edge.Label));
    r := AddProperties("e", createStatement, values, edge.Properties, Spliced);
  }

  /** Since a dictionary's own keys differ, a build throws exactly when one
      of its keys is the name of a fixed parameter, and the key it throws
      for is such a name. */
  lemma {:induction false} ThrowsOnFixedName(r: Outcome, header: string, v: string, fixed: seq<Property>,
                                             ps: seq<Property>, naming: Naming)
    requires UniqueKeys(fixed) && UniqueKeys(ps) && Describes(r, header, v, fixed, ps, naming)
    ensures r.DuplicateKey? <==> exists i :: 0 <= i < |fixed| && fixed[i].0 in KeysOf(ps)
    ensures r.DuplicateKey? ==> r.key in KeysOf(fixed)
  {
    if exists i :: 0 <= i < |fixed| && fixed[i].0 in KeysOf(ps) {
      var i :| 0 <= i < |fixed| && fixed[i].0 in KeysOf(ps);
      var j :| 0 <= j < |ps| && KeysOf(ps)[j] == fixed[i].0;
      assert (fixed + ps)[i].0 == (fixed + ps)[|fixed| + j].0;
    } else {
      UniqueConcat(fixed, ps);
    }
    if r.DuplicateKey? {
      var j: nat :| ClashesAt(fixed, ps, j) && r.key == ps[j].0;
      KeysOfAppend(fixed, ps[..j]);
      forall t | 0 <= t < j
        ensures KeysOf(ps[..j])[t] != r.key
      {
        assert ps[..j][t] == ps[t];
      }
    }
  }

  /** The node statement throws exactly for a dictionary holding the key
      `label` or `partitionId`. */
  lemma NodeThrows(r: Outcome, id: string, nodeLabel: string, partitionId: string, ps: seq<Property>,
                   naming: Naming)
    requires UniqueKeys(ps) && Describes(r, NodeHeader(id), "n", NodeParams(nodeLabel, partitionId), ps, naming)
    ensures r.DuplicateKey? <==> "label" in KeysOf(ps) || "partitionId" in KeysOf(ps)
    ensures r.DuplicateKey? ==> r.key == "label" || r.key == "partitionId"
  {
    var fixed := NodeParams(nodeLabel, partitionId);
    ThrowsOnFixedName(r, NodeHeader(id), "n", fixed, ps, naming);
    assert KeysOf(fixed) == ["label", "partitionId"];
    assert fixed[0].0 == "label" && fixed[1].0 == "partitionId";
  }

  /** The edge statement throws exactly for a dictionary holding the key
      `id`, `fromId`, `toId` or `label`. */
  lemma EdgeThrows(r: Outcome, id: string, fromId: string, toId: string, edgeLabel: string, ps: seq<Property>)
    requires UniqueKeys(ps) && Describes(r, EdgeHeader, "e", EdgeParams(id, fromId, toId, edgeLabel), ps, Spliced)
    ensures r.DuplicateKey? <==>
      "id" in KeysOf(ps) || "fromId" in KeysOf(ps) || "toId" in KeysOf(ps) || "label" in KeysOf(ps)
    ensures r.DuplicateKey? ==> r.key in ["id", "fromId", "toId", "label"]
  {
    var fixed := EdgeParams(id, fromId, toId, edgeLabel);
    ThrowsOnFixedName(r, EdgeHeader, "e", fixed, ps, Spliced);
    assert KeysOf(fixed) == ["id", "fromId", "toId", "label"];
    assert fixed[0].0 == "id" && fixed[1].0 == "fromId" && fixed[2].0 == "toId" && fixed[3].0 == "label";
  }

  /** The node parameters never collide with a key of a node dictionary
      `GetNode` makes, so the node statement is always built. */
  lemma NodeParamsAvoid(ps: seq<Property>, depth: nat, extra: nat, nodeLabel: string, partitionId: string)
    requires NodeProps(ps, depth, extra)
    ensures UniqueKeys(NodeParams(nodeLabel, partitionId) + ps)
  {
    NodePropsUnique(ps, depth, extra);
    NodeKeyInitialsOf(ps, depth, extra);
    var fixed := NodeParams(nodeLabel, partitionId);
    KeysOfAppend(ps[..7], ps[7..]);
    assert ps[..7] + ps[7..] == ps;
    forall i | 0 <= i < |fixed|
      ensures fixed[i].0 !in KeysOf(ps)
    {
      var k := fixed[i].0;
      ExtraKeysAvoid(ps[7..], extra, k);
      forall j | 0 <= j < 7
        ensures ps[j].0 != k
      {
        if j == 3 { assert ps[j].0[2] != k[2]; }
        else if j == 2 { assert ps[j].0[2] != k[2]; }
        else { assert ps[j].0[0] != k[0]; }
      }
    }
    UniqueConcat(fixed, ps);
  }

  /** The edge parameters never collide with a key of an edge dictionary
      `GetEdge` makes, so the edge statement is always built. */
  lemma EdgeParamsAvoid(ps: seq<Property>, extra: nat, id: string, fromId: string, toId: string, edgeLabel: string)
    requires EdgeProps(ps, extra)
    ensures UniqueKeys(EdgeParams(id, fromId, toId, edgeLabel) + ps)
  {
    EdgePropsUnique(ps, extra);
    var fixed := EdgeParams(id, fromId, toId, edgeLabel);
    forall i, j | 0 <= i < |fixed| && 0 <= j < |ps|
      ensures KeysOf(ps)[j] != fixed[i].0
    {
      if j > 0 {
        assert IntIn(ps[1..][j - 1], PropKey(j - 1), 0, 100);
        PropKeyStart(j - 1);
      }
    }
    UniqueConcat(fixed, ps);
  }

  /** `Update` keeps only keys a dictionary had, so the statement for a
      refreshed node or edge is built whenever the one before it was. */
  lemma RefreshedParamsAvoid(fixed: seq<Property>, before: seq<Property>, after: seq<Property>,
                             issued: set<string>)
    requires UniqueKeys(fixed + before) && Refreshed(before, after, issued)
    ensures UniqueKeys(fixed + after)
  {
    UniqueSplit(fixed, before);
    RefreshedUnique(before, after, issued);
    RefreshedKeysOf(before, after, issued);
    forall i | 0 <= i < |fixed|
      ensures fixed[i].0 !in KeysOf(after)
    {
      if fixed[i].0 in KeysOf(after) {
        assert fixed[i].0 in KeysOf(Scalars(before));
        ScalarKeysFrom(before, fixed[i].0);
        assert false;
      }
    }
    UniqueConcat(fixed, after);
  }

  /** The indexer never throws on a dictionary `GetNode` makes, before or
      after `Update`s: it always builds the statement. */
  lemma GeneratedNodeBuilds(r: Outcome, r': Outcome, id: string, nodeLabel: string, partitionId: string,
                            before: seq<Property>, after: seq<Property>, depth: nat, extra: nat, issued: set<string>)
    requires NodeProps(before, depth, extra) && Refreshed(before, after, issued)
    requires Describes(r, NodeHeader(id), "n", NodeParams(nodeLabel, partitionId), before, Spliced)
    requires Describes(r', NodeHeader(id), "n", NodeParams(nodeLabel, partitionId), after, Spliced)
    ensures r.Built? && r'.Built?
  {
    NodeParamsAvoid(before, depth, extra, nodeLabel, partitionId);
    RefreshedParamsAvoid(NodeParams(nodeLabel, partitionId), before, after, issued);
  }

  /** The same for a dictionary `GetEdge` makes. */
  lemma GeneratedEdgeBuilds(r: Outcome, r': Outcome, id: string, fromId: string, toId: string, edgeLabel: string,
                            before: seq<Property>, after: seq<Property>, extra: nat, issued: set<string>)
    requires EdgeProps(before, extra) && Refreshed(before, after, issued)
    requires Describes(r, EdgeHeader, "e", EdgeParams(id, fromId, toId, edgeLabel), before, Spliced)
    requires Describes(r', EdgeHeader, "e", EdgeParams(id, fromId, toId, edgeLabel), after, Spliced)
    ensures r.Built? && r'.Built?
  {
    EdgeParamsAvoid(before, extra, id, fromId, toId, edgeLabel);
    RefreshedParamsAvoid(EdgeParams(id, fromId, toId, edgeLabel), before, after, issued);
  }

  /** The clauses of the first `n` entries begin the clauses of all. */
  lemma {:induction false} SetClausesPrefix(v: string, ps: seq<Property>, naming: Naming, n: nat)
    requires n <= |ps|
    ensures SetClauses(v, ps[..n], naming) <= SetClauses(v, ps, naming)
    decreases |ps| - n
  {
    if n < |ps| {
      SetClausesPrefix(v, ps, naming, n + 1);
      SetClausesStep(v, ps, n, naming);
      var shorter, longer := SetClauses(v, ps[..n], naming), SetClauses(v, ps[..n + 1], naming);
      assert shorter <= longer;
      assert longer <= SetClauses(v, ps, naming);
    } else {
      assert ps[..n] == ps;
    }
  }

  /** The clause of entry `i` comes right after the clauses before it. */
  lemma ClauseAt(v: string, ps: seq<Property>, naming: Naming, i: nat)
    requires i < |ps|
    ensures SetClauses(v, ps[..i], naming) + SetClause(v, ps[i].0, naming) <= SetClauses(v, ps, naming)
  {
    SetClausesStep(v, ps, i, naming);
    SetClausesPrefix(v, ps, naming, i + 1);
  }

  /** As written, every node statement sets the property `dyn-<depth>`
      with the key spliced in: `SET n.dyn-1 = $dyn-1`, which Cypher reads as
      a subtraction and rejects; the `guid-` key fares the same. */
  lemma NodeStatementMalformed(r: Outcome, id: string, nodeLabel: string, partitionId: string,
                               ps: seq<Property>, depth: nat, extra: nat)
    requires NodeProps(ps, depth, extra)
    requires Describes(r, NodeHeader(id), "n", NodeParams(nodeLabel, partitionId), ps, Spliced)
    ensures r.Built? && !ClausesNamed(ps, Spliced)
    ensures NodeHeader(id) + SetClauses("n", ps[..5], Spliced) + SetClause("n", "dyn-" + Dec(depth), Spliced)
            <= r.query.text
    ensures !SymbolicName(ps[5].0) && !SymbolicName(ps[6].0)
  {
    NodeParamsAvoid(ps, depth, extra, nodeLabel, partitionId);
    ClauseAt("n", ps, Spliced, 5);
    assert ps[5].0 == "dyn-" + Dec(depth);
    PrefixAfter(NodeHeader(id), SetClauses("n", ps[..5], Spliced), SetClause("n", ps[5].0, Spliced),
                SetClauses("n", ps, Spliced));
    DynKeyHyphenated(depth);
    GuidKeyHyphenated(ps[6].0);
  }

  lemma PrefixAfter(header: string, front: string, clause: string, whole: string)
    requires front + clause <= whole
    ensures header + front + clause <= header + whole
  {
    assert header + front + clause == header + (front + clause);
    assert (header + whole)[..|header| + |front + clause|] == header + whole[..|front + clause|];
  }

  lemma DynKeyHyphenated(depth: nat)
    ensures !SymbolicName("dyn-" + Dec(depth))
  {
    HyphenatedName("dyn-" + Dec(depth), 3);
  }

  lemma GuidKeyHyphenated(key: string)
    requires GuidKey(key)
    ensures !SymbolicName(key)
  {
    assert key[..5][4] == '-' && key[..5][0] == 'g';
    HyphenatedName(key, 4);
  }

  /** Between backticks, a key without a backtick is a symbolic name. */
  lemma QuotedKey(key: string)
    requires forall j :: 0 <= j < |key| ==> key[j] != '`'
    ensures SymbolicName(CypherNameOf(key, Quoted))
  {
    var name := CypherNameOf(key, Quoted);
    forall i | 1 <= i < |name| - 1
      ensures name[i] != '`'
    {
      assert name[i] == key[i - 1];
    }
  }

  /** With the keys between backticks, every clause of a node statement
      built from a dictionary `GetNode` makes names a symbolic name. */
  lemma QuotedNodeClausesNamed(ps: seq<Property>, depth: nat, extra: nat)
    requires NodeProps(ps, depth, extra)
    ensures ClausesNamed(ps, Quoted)
  {
    forall i | 0 <= i < |ps|
      ensures SymbolicName(CypherNameOf(ps[i].0, Quoted))
    {
      NoBacktick(ps, depth, extra, i);
      QuotedKey(ps[i].0);
    }
  }

  /** The keys of a dictionary `GetEdge` makes are symbolic names even as
      written, so the edge statement needs no quoting. */
  lemma EdgeClausesNamed(ps: seq<Property>, extra: nat)
    requires EdgeProps(ps, extra)
    ensures ClausesNamed(ps, Spliced)
  {
    forall i | 0 <= i < |ps|
      ensures PlainName(ps[i].0)
    {
      if i > 0 {
        assert IntIn(ps[1..][i - 1], PropKey(i - 1), 0, 100);
        PropKeyPlain(i - 1);
      }
    }
  }

  /** `prop` followed by digits is a plain name. */
  lemma PropKeyPlain(i: nat)
    ensures PlainName(PropKey(i))
  {
    var key := PropKey(i);
    forall j | 1 <= j < |key|
      ensures NamePart(key[j])
    {
      if j >= 4 {
        assert key[j] == D3(i)[j - 4];
      }
    }
  }

  /** No key of a dictionary `GetNode` makes holds a backtick. */
  lemma NoBacktick(ps: seq<Property>, depth: nat, extra: nat, i: nat)
    requires NodeProps(ps, depth, extra) && i < |ps|
    ensures forall j :: 0 <= j < |ps[i].0| ==> ps[i].0[j] != '`'
  {
    if i == 5 {
      assert ps[5].0 == "dyn-" + Dec(depth);
    } else if i == 6 {
      assert ps[6].0 == ps[6].0[..5] + ps[6].0[5..];
    } else if i >= 7 {
      assert IntIn(ps[7..][i - 7], PropKey(i - 7), 0, 100);
      assert ps[i].0 == "prop" + D3(i - 7);
    }
  }
}
