# TwinDataLoader: the synthetic digital-twin graph and its Cypher statements

TwinDataLoader fills a graph store with a synthetic "digital twin" graph. Its
`DataGenerator` builds a complete tree of nodes. The tree has `level` levels
and `factor` children under every node. Each child is joined to its parent by
an edge. Each node is also chained to the next node of its own level by a
sibling edge. Optionally every edge gets a mirrored "re:" companion. Every
entity carries a dictionary of random properties. `Update()` re-rolls those
values. `GetCount()` reports the totals. The Neo4J indexer turns one node or
one edge into a parameterised Cypher statement.

This project models:

- `DataGenerator.cs`: the entities (`GraphEntity`, `Node`, `Edge`), `GraphEntity.Update`, and the
  `DataGenerator` class with `Generate`, `Update`, `GetCount`, `GenerateLevel`,
  `GetNode` and `GetEdge`. These are imperative Dafny classes and methods.
  Each is proved against pure specification functions of the configuration.
- `Neo4JIndexer.cs`: `CreateNeo4JNode` and `CreateNeo4JEdge`, as methods that append to the
  statement and `Add` to a parameter dictionary. They are proved against a
  specification of the statement text, the parameters and the exception.

Modules:

- `Decimal` (decimal.dfy): `Int32.ToString()` and the `D3` format on non-negative
  values, with a parser that proves both injective.
- `Sequences` (sequences.dfy): duplicate-free sequences and the set of a sequence's elements.
- `Oracles` (oracles.dfy): `System.Random` (only the ranges of its draws) and the process-wide GUID
  source. Every GUID it hands out is new, and a ghost log records them in order.
- `Entities` (entities.dfy): property values, the insertion-ordered `PropertyMap` dictionary
  (`Add` of a key already present throws and leaves the dictionary as it
  was, which `Add` reports by returning false; the indexer writes in place), the
  `GraphEntity` class, its `Update`, and the `Refreshed` relation that `Update`
  establishes. A ghost field `Built` keeps the dictionary an entity was built with,
  so that the GUIDs a node holds can be named after its dictionary is replaced.
- `PropertySets` (property_sets.dfy): the exact dictionary `GetNode` and `GetEdge` build, and
  what `Update` makes of it.
- `GenerationSpec` (generation_spec.dfy): what `Generate()` emits, as a pure function of the
  configuration and of the two id counters. It gives the shapes (kind, id,
  label, depth or endpoints) in emission order.
- `GenerationIds` (generation_ids.dfy) and `GenerationLevels` (generation_levels.dfy): the properties of that
  function. These cover consecutive and unique ids, edge counts and nodes per depth.
- `Generator` (generator.dfy): the `DataGenerator` class itself.
- `Neo4J` (cypher.dfy): the two statement builders. It also defines Cypher's symbolic names,
  which expose the finding below.

## Model

| member | source | states |
|---|---|---|
| Entities.PropertyMap.Add | Neo4JIndexer.cs:91 | `Dictionary.Add` succeeds if and only if the key is not yet present; it then appends the entry at the end, and otherwise (the `ArgumentException`) leaves the dictionary unchanged; keys stay unique |
| Entities.PropertyMap.Put | DataGenerator.cs:175 | the indexer `d[key] = v` appends a new key, or replaces the value in place and keeps the order and every other entry |
| Entities.GraphEntity.Update | DataGenerator.cs:17-35 | the new dictionary is `Refreshed` from the old: string values become new GUIDs, int values become draws in [50, 100), int-array values are dropped, and keys keep their order and stay unique; the GUIDs handed out are exactly the new string values in entry order, pairwise distinct and none handed out before (`FreshRun`), and every GUID-shaped value of the new dictionary was handed out |
| Entities.GraphEntity.RefreshEntry | DataGenerator.cs:21-31 | one turn of the loop: a string entry is appended with a fresh GUID, an int entry with a draw in [50, 100), an int-array entry is not copied; the GUIDs handed out are the string values appended |
| Entities.RefreshLogged | DataGenerator.cs:17-35 | the string values a refresh logged are a fresh run, and every GUID-shaped value of the refreshed dictionary was handed out |
| Entities.StrValuesIssued | DataGenerator.cs:23-26 | a dictionary whose string values were all handed out holds only handed-out GUIDs |
| Entities.LogFreshRun | DataGenerator.cs:25 | the GUIDs a sound GUID source logs between two states are pairwise distinct, none was handed out before, and the handed-out set grows by exactly them |
| Entities.RefreshedKeys | DataGenerator.cs:21-31 | a key survives `Update` if and only if its old value was not an int array |
| Entities.RefreshedKeysOf | DataGenerator.cs:21-31 | the key sequence after `Update` is the old key sequence with the int-array keys removed |
| Entities.ScalarsMember | DataGenerator.cs:23-30 | an entry is kept by the filter if and only if it was present and is not an int array |
| Entities.RefreshedUnique | DataGenerator.cs:19-33 | `Update` of a dictionary with unique keys gives unique keys |
| Entities.RefreshTwiceSameKeys | DataGenerator.cs:17-35 | a second `Update` keeps exactly the keys of the first one (it is idempotent on keys) |
| Entities.RefreshedStringsChange | DataGenerator.cs:23-26 | every string value is replaced by a different string after `Update` |
| Decimal.DecInjective | DataGenerator.cs:119 | two counter values have the same `ToString()` text if and only if they are equal |
| Decimal.PaddedInjective | DataGenerator.cs:174 | the zero-padded `D3` texts of two numbers are equal if and only if the numbers are |
| Decimal.ParseDec | DataGenerator.cs:119 | reading back the decimal text of `n` gives `n` |
| Oracles.Random.Next | DataGenerator.cs:164 | `rand.Next(min, max)` returns a value in [min, max) |
| Oracles.Random.NextNonNegative | DataGenerator.cs:168 | `rand.Next()` returns a value in [0, Int32.MaxValue) |
| Oracles.GuidSource.NewGuid | DataGenerator.cs:169-170 | `Guid.NewGuid()` returns a GUID text never handed out before; the handed-out set and the log grow by exactly that GUID |
| PropertySets.PropKeyInjective | DataGenerator.cs:174 | `prop{i:D3}` names differ exactly when their numbers differ |
| PropertySets.NodePropsUnique | DataGenerator.cs:164-176 | the keys of a node's dictionary are all distinct, so none of the seven `Add` calls throws |
| PropertySets.EdgePropsUnique | DataGenerator.cs:183-188 | the keys of an edge's dictionary are all distinct |
| PropertySets.UniqueSplit | DataGenerator.cs:164-170 | when the keys of `a + b` are unique, each part has unique keys and no key of `a` is in `b` |
| PropertySets.NodeGuids | DataGenerator.cs:164-176 | the GUID strings of a node's dictionary are exactly its `dyn-` value and the GUID in its `guid-` key, in that order |
| PropertySets.UpdateNodeKeys | DataGenerator.cs:17-35 | `Update` of a generated node drops exactly the "coordinates" key and keeps every other key in order |
| PropertySets.UpdateNodeValues | DataGenerator.cs:23-29 | after `Update`, a node's "level" is a draw in [50, 100), its `dyn-` value is a new GUID, and its `guid-` entry no longer holds "dynProp" |
| PropertySets.UpdateEdgeProps | DataGenerator.cs:27-29 | `Update` of an edge keeps all its keys and makes every value a draw in [50, 100) |
| Generator.DataGenerator.constructor | DataGenerator.cs:63-80 | stores the settings; no entities yet; the node counter starts at 1 and the edge counter at 0 |
| Generator.DataGenerator.DrawGuids | DataGenerator.cs:169-170 | the two `Guid.NewGuid()` calls return two different GUIDs, neither handed out before; the handed-out set grows by exactly those two |
| Generator.DataGenerator.GetNode | DataGenerator.cs:155-179 | the node has the given id and label, partition id equal to its id, and the dictionary temperature, humidity, pressure in [50, 100), level, coordinates `[0, x, y, z, level]`, `dyn-{level}` holding a new GUID, `guid-{GUID}` holding "dynProp", then prop000... in [0, 100); its keys are unique; the two GUIDs differ from each other and from every GUID handed out before the call, and they are exactly the GUIDs the call hands out |
| Generator.DataGenerator.AddSyntheticProperties | DataGenerator.cs:172-176 | the loop appends exactly `numTwinProperties` (negative read as 0) entries prop000, prop001, ... in [0, 100) and keeps the earlier entries |
| Generator.DataGenerator.GetEdge | DataGenerator.cs:181-212 | one "Outgoing" edge from `from` to `to` with length in [0, 10) and the synthetic props; when asked, a "Reverse" edge "re:{id}" from `to` to `from` carrying the same dictionary contents |
| Generator.DataGenerator.SpawnChildren | DataGenerator.cs:115-130 | every previous node gets `factor` children, each followed by its parent edge(s); node and edge counters advance by the number of children; the emitted entities are `Children` of the specification |
| Generator.DataGenerator.LinkSiblings | DataGenerator.cs:132-147 | each node of the level is linked to the next one, so `n` nodes get `n - 1` sibling edges labelled `{rel}-next-{level}`; the edge counter advances by `n - 1` |
| Generator.DataGenerator.GenerateLevel | DataGenerator.cs:106-153 | the entities emitted from `currentLevel` on are exactly `Level` of the specification, in order; both counters advance by `NodesFrom`/`EdgesFrom`; every entity is new and none repeats |
| Generator.DataGenerator.Generate | DataGenerator.cs:82-89 | appends the root "0" and then the levels below it, exactly `Generation` of the specification, to the entity list and returns that list; every added entity and its `Random` are new objects, so a caller may follow with `Update()` (Program.cs:24-29); the GUIDs of the new nodes, node after node, are a fresh run, and every GUID string in the list's dictionaries was handed out |
| Generator.GuidsApart | DataGenerator.cs:169-170 | in a duplicate-free run of GUIDs no two entities share a GUID and no entity holds one twice |
| Generator.GeneratedGuidsFresh | DataGenerator.cs:82-89 | the nodes `Generate()` adds each hold two different GUIDs, no two of them share one, none was handed out before the call, and all were handed out by its end |
| Generator.GuidsOfIssued | DataGenerator.cs:169-170 | entities built as `GetNode` and `GetEdge` build them, whose GUIDs were handed out, hold only handed-out GUID strings |
| Generator.GenerationLogged | DataGenerator.cs:82-89 | the GUIDs logged by one `Generate()` are a fresh run, and the old and new entities hold only handed-out GUID strings |
| Generator.DataGenerator.Update | DataGenerator.cs:91-95 | every entity keeps its id, label and kind and gets a `Refreshed` dictionary; the list and `GetCount()` are unchanged; the string values of all new dictionaries, dictionary after dictionary, are a fresh run of GUIDs, and every GUID string in them was handed out |
| Generator.DataGenerator.RefreshAll | DataGenerator.cs:93 | the entities refresh their dictionaries in list order; the GUID log grows by their new string values in that order |
| Generator.DataGenerator.RefreshAt | DataGenerator.cs:93 | one entity refreshes its dictionary and no other entity's dictionary changes |
| Generator.RefreshAllLogged | DataGenerator.cs:91-95 | the string values logged by one pass of refreshes are a fresh run, and each refreshed dictionary holds only handed-out GUIDs |
| Generator.DataGenerator.GetCount | DataGenerator.cs:97-104 | "total", "nodes", "edges" in that order, and total == nodes + edges == the number of entities |
| Generator.TallySplit | DataGenerator.cs:100-102 | every entity is a node or an edge, so the node count plus the edge count is the total |
| Generator.PortraysTally | DataGenerator.cs:101-102 | the entities counted as nodes (edges) are as many as the node (edge) ids of the shapes they depict |
| Generator.GenerationTally | DataGenerator.cs:82-89 | one `Generate()` emits `1 + NodesFrom` nodes and `EdgesFrom` edges, twice as many edges with reverse edges on |
| Generator.GenerateCounts | DataGenerator.cs:97-104 | after `Generate()`, "nodes" and "edges" of `GetCount()` grow by exactly those numbers |
| Generator.FixedNodeShape | DataGenerator.cs:163-170 | the seven fixed entries of a node have unique keys and the shape `GetNode` promises |
| GenerationIds.BroodIds | DataGenerator.cs:117-123 | the `k` children of one parent take node ids `n .. n+k-1` and edge ids `e .. e+k-1` in order |
| GenerationIds.SiblingsIds | DataGenerator.cs:132-147 | the sibling edges of `j` nodes create no node and take `j - 1` consecutive edge ids |
| GenerationIds.LevelNodeIds | DataGenerator.cs:106-153 | the node ids emitted from a level on are the consecutive counter values from the node counter |
| GenerationIds.LevelEdgeIds | DataGenerator.cs:106-153 | the edge ids emitted from a level on are the consecutive counter values from the edge counter, each followed by its "re:" twin when reverse edges are on |
| GenerationIds.GenerationIdsFrom | DataGenerator.cs:82-89 | `Generate()` emits node "0" first and then consecutive node ids; its edge ids are consecutive |
| GenerationIds.LadderLength | DataGenerator.cs:200-211 | `k` edge numbers give `2k` edges with reverse edges on and `k` without |
| GenerationIds.IdTextInjective | DataGenerator.cs:119-123 | two ids (counter values, and the "re:" ids of reverse edges) have the same text if and only if they are the same id |
| GenerationIds.FreshGenerationIds | DataGenerator.cs:82-89 | on a fresh generator (node counter 1, edge counter 0) the node ids are "0", "1", ... and all node ids and all edge ids are distinct |
| GenerationIds.SecondGenerateRepeatsRoot | DataGenerator.cs:84-85 | a second `Generate()` on the same generator adds another node "0", so the node ids of the list are no longer distinct |
| GenerationLevels.LevelTally | DataGenerator.cs:106-153 | from `p` parents at level `c`, each depth `d` with `c <= d < level` holds `p * factor^(d-c+1)` nodes, and no other depth holds any |
| GenerationLevels.GenerationLevels | DataGenerator.cs:106-121 | depth `d` of a generated tree holds `factor^d` nodes for `d < level`, and none at depth `level` or below |
| GenerationLevels.OnlyRoot | DataGenerator.cs:108-117 | with `level == 1` or `factor == 0`, `Generate()` emits the root alone |
| Neo4J.AddProperties | Neo4JIndexer.cs:88-92 | the loop appends one `SET v.key = $key` clause and one parameter per entry, in order; it stops with the exception for the first key already among the parameters |
| Neo4J.AddProperty | Neo4JIndexer.cs:90-91 | one step appends the clause and adds the entry exactly when its key is new |
| Neo4J.CreateNeo4JNode | Neo4JIndexer.cs:75-95 | with the keys spliced as written (`Spliced`), the statement is `MERGE (n {id: '<id>'})`, then the label and partitionId clauses, then one clause per property; the parameters are label, partitionId, then the properties; the result is built if and only if no key repeats, else the first repeated key is thrown; with `Quoted` (the corrected builder) the same holds with every property name in backticks |
| Neo4J.CreateNeo4JEdge | Neo4JIndexer.cs:97-149 | the statement is `MATCH ... CREATE (from)-[e:rel]->(to) SET e.id ... SET e.label ...` with one clause per property; the parameters are id, fromId, toId, label, then the properties; it is built if and only if no key repeats |
| Neo4J.ClashRepeats | Neo4JIndexer.cs:91 | a key already among the parameters means the whole parameter list repeats a key |
| Neo4J.ThrowsOnFixedName | Neo4JIndexer.cs:82-91 | for a dictionary with unique keys, the builder throws if and only if some fixed parameter name is also a property key, and then it throws that name |
| Neo4J.NodeThrows | Neo4JIndexer.cs:82-91 | a node statement throws if and only if the node has a "label" or "partitionId" property, and then it throws that key |
| Neo4J.EdgeThrows | Neo4JIndexer.cs:133-145 | an edge statement throws if and only if the edge has an "id", "fromId", "toId" or "label" property, and then it throws that key |
| Neo4J.NodeParamsAvoid | Neo4JIndexer.cs:82-91 | no key of a generated node's dictionary is "label" or "partitionId" |
| Neo4J.EdgeParamsAvoid | Neo4JIndexer.cs:133-145 | no key of a generated edge's dictionary is "id", "fromId", "toId" or "label" |
| Neo4J.RefreshedParamsAvoid | Neo4JIndexer.cs:82-91 | what avoids the fixed parameters before `Update` still avoids them after it |
| Neo4J.GeneratedNodeBuilds | Neo4JIndexer.cs:75-95 | a node from `GetNode`, before and after `Update`, always yields a statement and never throws |
| Neo4J.GeneratedEdgeBuilds | Neo4JIndexer.cs:97-149 | an edge from `GetEdge`, before and after `Update`, always yields a statement and never throws |
| Neo4J.SetClausesPrefix | Neo4JIndexer.cs:88-92 | the clauses of the first `n` properties are a prefix of the clauses of all of them |
| Neo4J.ClauseAt | Neo4JIndexer.cs:90 | the clause of property `i` follows those of the properties before it in the statement |
| Neo4J.HyphenatedName | Neo4JIndexer.cs:90 | a name holding a hyphen and not in backticks is not a Cypher symbolic name |
| Neo4J.DynKeyHyphenated | DataGenerator.cs:169 | the key `dyn-{level}` is not a Cypher symbolic name |
| Neo4J.GuidKeyHyphenated | DataGenerator.cs:170 | the key `guid-{GUID}` is not a Cypher symbolic name |
| Neo4J.NodeStatementMalformed | Neo4JIndexer.cs:88-91 | the statement of every generated node is built, but it contains the clause `SET n.dyn-<level> = $dyn-<level>`, whose names are not symbolic names |
| Neo4J.QuotedKey | Neo4JIndexer.cs:90 | any key without a backtick, once put in backticks, is a symbolic name |
| Neo4J.QuotedNodeClausesNamed | Neo4JIndexer.cs:88-91 | in the corrected builder every clause of a generated node names the property by a symbolic name |
| Neo4J.EdgeClausesNamed | Neo4JIndexer.cs:141-145 | every clause of a generated edge ("length", prop000, ...) uses a symbolic name as written |
| Neo4J.PropKeyPlain | DataGenerator.cs:174 | a `prop{i:D3}` name is a plain Cypher name |

`GraphEntity.Update` copies only string and int values into the new
dictionary, so the `int[]` "coordinates" entry is dropped. Keeping the key
set unchanged is evidently intended. The model follows the code, and
`UpdateNodeKeys` proves the drop.

Two other behaviours are modelled exactly as written:

- The sibling label is `{rel}-next-{level}` with the configured `level`, not
  the level the edge belongs to (`TagText`).
- A second `Generate()` continues the counters but emits another root "0"
  (`SecondGenerateRepeatsRoot`).

## Left out

- `Neo4JIndexer.IngestAsync`, its constructor and `Dispose`, the reporters, `HexIndexer` and
  `Program`: they are I/O against the database and the console.
- The lazy `yield` of `GenerateLevel` and `GetEdge` is modelled eagerly. Each method returns the
  whole sequence, in the same order. The order in which the caller's enumeration
  interleaves the random draws with `entities.AddRange` is not observable in the
  model, because random values are specified only by their ranges.
- `System.Random`: only the range of each draw is modelled, and the seed taken from the clock is left out.
  `Oracles.Random.Next` has an arbitrary deterministic body.
- `Guid.NewGuid()`: modelled as a fresh digit string of at least 32 digits, not as the
  hyphenated "D" format. Only freshness and the absence of backticks matter to the properties proved.
- Generator.DataGenerator.Generate: requires `level >= 1`. With `level <= 0`,
  `GenerateLevel(roots, 1)` never meets `currentLevel == level` and recurses without end.
- Generator.DataGenerator.GenerateLevel: does not model 32-bit overflow of `nodeCount`/`edgeCount`,
  which it and the methods it calls (`SpawnChildren`, `SpawnChild`, `LinkSiblings`, `LinkPair`) increment. Counters are unbounded naturals.
- Generator.Clip: a negative `factor`, `numTwinProperties` or `numEdgeProperties` is read as 0,
  because the loops `i < n` then never run.
- Generator.DataGenerator.GetEdge: the forward and reverse edges are two objects whose
  dictionaries hold equal entries. In the source they share one dictionary object. Nothing
  writes to an edge dictionary after `GetEdge` (`Update` builds a new one), so the
  aliasing is not observable. The two edges of a pair may drift apart after `Update`, as
  they do in the source.
- Entities.GraphEntity.Update: the returned `this` is not modelled. The method updates in place, and
  `DataGenerator.Update` keeps the same objects.
- `Dictionary<string, object>` enumeration order: a dictionary is modelled as its entries in
  insertion order, and `foreach` and the indexer's append follow that order. .NET does not promise
  this order, but its dictionary keeps it when no entry is removed, and no code here removes one.
- Neo4J.SymbolicName: covers ASCII letters, digits and `_` only. Cypher also admits other Unicode
  letters; no generated key uses them.
- Statements are not parsed or executed against a database. Malformedness is stated as "a
  property or parameter name that is not a symbolic name".

## Findings

| source | as written | input that shows it | evidently intended | confidence | as-written member | corrected member |
|---|---|---|---|---|---|---|
| Neo4JIndexer.cs:90 with DataGenerator.cs:169-170 | each property key is spliced unquoted into `SET n.{key} = ${key}`, and every generated node has the keys `dyn-{level}` and `guid-{GUID}` | the root node (level 0) yields `SET n.dyn-0 = $dyn-0`, which Cypher reads as `n.dyn - 0` | property and parameter names quoted in backticks, `` SET n.`dyn-0` = $`dyn-0` `` | not executed | Neo4J.NodeStatementMalformed | Neo4J.CreateNeo4JNode, Neo4J.QuotedNodeClausesNamed |
