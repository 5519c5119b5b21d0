/**
 * The project boundary check (scripts/check-project-boundaries.ts:31-94) under the policy's tags
 * and dependency constraints (tools/project-boundaries/policy.ts:1-9, 266-289).
 */
module ProjectGraph {
  import opened Wrappers
  import opened Seqs

  const PUBLIC_SOURCE := "visibility:public-source"
  const PRIVATE_SOURCE := "visibility:private-source"
  const PUBLISHABLE := "distribution:publishable"
  const WORKSPACE_INTERNAL := "distribution:workspace-internal"

  const VISIBILITY_TAGS := [PUBLIC_SOURCE, PRIVATE_SOURCE]
  const DISTRIBUTION_TAGS := [PUBLISHABLE, WORKSPACE_INTERNAL]

  datatype Constraint = Constraint(sourceTag: string, allowedTargetTags: seq<string>)

  const DEPENDENCY_CONSTRAINTS := [
    Constraint(PUBLIC_SOURCE, [PUBLIC_SOURCE]),
    Constraint(PRIVATE_SOURCE, VISIBILITY_TAGS),
    Constraint(PUBLISHABLE, DISTRIBUTION_TAGS),
    Constraint(WORKSPACE_INTERNAL, DISTRIBUTION_TAGS)]

  datatype Node = Node(name: string, root: string, tags: seq<string>)

  datatype Dependency = Dependency(target: string, kind: string)

  datatype Entry = Entry(key: string, node: Node)

  datatype Outgoing = Outgoing(source: string, targets: seq<Dependency>)

  /** The graph's two records, in the order of their keys. */
  datatype Graph = Graph(nodes: seq<Entry>, dependencies: seq<Outgoing>)

  datatype Error =
    | VisibilityTags(node: Node, found: seq<string>)
    | DistributionTags(node: Node, found: seq<string>)
    | PrivateButPublishable(node: Node)
    | Violates(source: Node, target: Node, kind: string, constraint: Constraint)

  function Lookup(nodes: seq<Entry>, key: string): (node: Option<Node>)
    ensures node.Some? ==> exists i :: 0 <= i < |nodes| && nodes[i].key == key && nodes[i].node == node.value
  {
    if nodes == [] then None
    else if nodes[0].key == key then Some(nodes[0].node)
    else
      assert forall i :: 0 <= i < |nodes[1..]| ==> nodes[1..][i] == nodes[i + 1];
      Lookup(nodes[1..], key)
  }

  function TagsInDimension(tags: seq<string>, dimension: seq<string>): (found: seq<string>)
    ensures forall tag :: tag in found <==> tag in tags && tag in dimension
  {
    if tags == [] then []
    else (if tags[0] in dimension then [tags[0]] else []) + TagsInDimension(tags[1..], dimension)
  }

  // ----- What the check reports -----

  function NodeErrors(node: Node): seq<Error> {
    var visibility := TagsInDimension(node.tags, VISIBILITY_TAGS);
    var distribution := TagsInDimension(node.tags, DISTRIBUTION_TAGS);
    (if |visibility| != 1 then [VisibilityTags(node, visibility)] else [])
    + (if |distribution| != 1 then [DistributionTags(node, distribution)] else [])
    + (if PRIVATE_SOURCE in visibility && PUBLISHABLE in distribution then [PrivateButPublishable(node)] else [])
  }

  predicate Allowed(constraint: Constraint, target: Node) {
    exists tag :: tag in constraint.allowedTargetTags && tag in target.tags
  }

  function EdgeErrors(source: Node, target: Node, kind: string, constraints: seq<Constraint>): seq<Error> {
    if constraints == [] then []
    else (if constraints[0].sourceTag in source.tags && !Allowed(constraints[0], target)
          then [Violates(source, target, kind, constraints[0])] else [])
         + EdgeErrors(source, target, kind, constraints[1..])
  }

  function ErrorsTo(graph: Graph, source: Node, dependency: Dependency): seq<Error> {
    match Lookup(graph.nodes, dependency.target)
    case Some(target) => EdgeErrors(source, target, dependency.kind, DEPENDENCY_CONSTRAINTS)
    case None => []
  }

  function TargetErrors(graph: Graph, source: Node, targets: seq<Dependency>): seq<Error> {
    if targets == [] then []
    else ErrorsTo(graph, source, targets[0]) + TargetErrors(graph, source, targets[1..])
  }

  function NodesErrors(nodes: seq<Entry>): seq<Error> {
    if nodes == [] then [] else NodeErrors(nodes[0].node) + NodesErrors(nodes[1..])
  }

  function OutgoingErrors(graph: Graph, outgoing: Outgoing): seq<Error> {
    match Lookup(graph.nodes, outgoing.source)
    case Some(source) => TargetErrors(graph, source, outgoing.targets)
    case None => []
  }

  function DependencyErrors(graph: Graph, dependencies: seq<Outgoing>): seq<Error> {
    if dependencies == [] then []
    else OutgoingErrors(graph, dependencies[0]) + DependencyErrors(graph, dependencies[1..])
  }

  function GraphErrors(graph: Graph): seq<Error> {
    NodesErrors(graph.nodes) + DependencyErrors(graph, graph.dependencies)
  }

  // ----- What it means -----

  ghost predicate Classified(node: Node) {
    && |TagsInDimension(node.tags, VISIBILITY_TAGS)| == 1
    && |TagsInDimension(node.tags, DISTRIBUTION_TAGS)| == 1
    && !(PRIVATE_SOURCE in node.tags && PUBLISHABLE in node.tags)
  }

  ghost predicate AllClassified(nodes: seq<Entry>) {
    forall i :: 0 <= i < |nodes| ==> Classified(nodes[i].node)
  }

  ghost predicate HasTag(graph: Graph, key: string, tag: string) {
    Lookup(graph.nodes, key).Some? && tag in Lookup(graph.nodes, key).value.tags
  }

  ghost predicate Depends(graph: Graph, source: string, target: string) {
    exists i, j :: 0 <= i < |graph.dependencies| && 0 <= j < |graph.dependencies[i].targets|
                   && graph.dependencies[i].source == source && graph.dependencies[i].targets[j].target == target
  }

  /** A dependency path through nodes of the graph. */
  ghost predicate Path(graph: Graph, path: seq<string>) {
    && path != []
    && (forall i :: 0 <= i < |path| ==> Lookup(graph.nodes, path[i]).Some?)
    && (forall i :: 0 <= i < |path| - 1 ==> Depends(graph, path[i], path[i + 1]))
  }

  ghost predicate NoPrivateReached(graph: Graph) {
    forall path :: Path(graph, path) && HasTag(graph, path[0], PUBLIC_SOURCE) ==>
      !HasTag(graph, path[|path| - 1], PRIVATE_SOURCE)
  }

  lemma {:induction false} NodesErrorsEmpty(nodes: seq<Entry>)
    ensures NodesErrors(nodes) == [] <==> AllClassified(nodes)
  {
    if nodes != [] {
      NodesErrorsEmpty(nodes[1..]);
      assert nodes == [nodes[0]] + nodes[1..];
      assert NodeErrors(nodes[0].node) == [] <==> Classified(nodes[0].node);
      assert AllClassified(nodes) <==> Classified(nodes[0].node) && AllClassified(nodes[1..]);
    }
  }

  /** An edge is allowed if every constraint on its source is met by its target. */
  ghost predicate EdgeAllowed(source: Node, target: Node) {
    forall i :: 0 <= i < |DEPENDENCY_CONSTRAINTS| && DEPENDENCY_CONSTRAINTS[i].sourceTag in source.tags ==>
      Allowed(DEPENDENCY_CONSTRAINTS[i], target)
  }

  lemma {:induction false} EdgeErrorsEmpty(source: Node, target: Node, kind: string, constraints: seq<Constraint>)
    ensures EdgeErrors(source, target, kind, constraints) == [] <==>
            forall i :: 0 <= i < |constraints| && constraints[i].sourceTag in source.tags ==> Allowed(constraints[i], target)
  {
    if constraints != [] {
      EdgeErrorsEmpty(source, target, kind, constraints[1..]);
      assert constraints == [constraints[0]] + constraints[1..];
    }
  }

  /** Exactly one of two tags. */
  lemma OneOfTwo(tags: seq<string>, a: string, b: string)
    requires a != b && |TagsInDimension(tags, [a, b])| == 1
    ensures a in tags <==> b !in tags
  {
    var found := TagsInDimension(tags, [a, b]);
    assert found[0] in found;
  }

  lemma ClassifiedTags(node: Node)
    requires Classified(node)
    ensures PUBLIC_SOURCE in node.tags <==> PRIVATE_SOURCE !in node.tags
    ensures PUBLISHABLE in node.tags <==> WORKSPACE_INTERNAL !in node.tags
  {
    assert |PUBLIC_SOURCE| != |PRIVATE_SOURCE| && |PUBLISHABLE| != |WORKSPACE_INTERNAL|;
    OneOfTwo(node.tags, PUBLIC_SOURCE, PRIVATE_SOURCE);
    OneOfTwo(node.tags, PUBLISHABLE, WORKSPACE_INTERNAL);
  }

  /** Between classified nodes the constraints come down to one: public source depends on public source only. */
  lemma EdgeAllowedIff(source: Node, target: Node)
    requires Classified(target)
    ensures EdgeAllowed(source, target) <==> (PUBLIC_SOURCE in source.tags ==> PUBLIC_SOURCE in target.tags)
  {
    ClassifiedTags(target);
    var constraints := DEPENDENCY_CONSTRAINTS;
    assert constraints[0].allowedTargetTags[0] == PUBLIC_SOURCE;
    assert Allowed(constraints[0], target) <==> PUBLIC_SOURCE in target.tags;
    assert VISIBILITY_TAGS[0] in VISIBILITY_TAGS && VISIBILITY_TAGS[1] in VISIBILITY_TAGS;
    assert DISTRIBUTION_TAGS[0] in DISTRIBUTION_TAGS && DISTRIBUTION_TAGS[1] in DISTRIBUTION_TAGS;
    assert Allowed(constraints[1], target) && Allowed(constraints[2], target) && Allowed(constraints[3], target);
    if EdgeAllowed(source, target) && PUBLIC_SOURCE in source.tags {
      assert constraints[0].sourceTag in source.tags;
    }
  }

  ghost predicate EdgeAllowedTo(graph: Graph, source: Node, dependency: Dependency) {
    match Lookup(graph.nodes, dependency.target)
    case Some(target) => EdgeAllowed(source, target)
    case None => true
  }

  lemma {:induction false} TargetErrorsEmpty(graph: Graph, source: Node, targets: seq<Dependency>)
    ensures TargetErrors(graph, source, targets) == [] <==>
            forall j :: 0 <= j < |targets| ==> EdgeAllowedTo(graph, source, targets[j])
  {
    if targets != [] {
      TargetErrorsEmpty(graph, source, targets[1..]);
      assert targets == [targets[0]] + targets[1..];
      if Lookup(graph.nodes, targets[0].target).Some? {
        EdgeErrorsEmpty(source, Lookup(graph.nodes, targets[0].target).value, targets[0].kind, DEPENDENCY_CONSTRAINTS);
      }
    }
  }

  ghost predicate OutgoingAllowed(graph: Graph, outgoing: Outgoing) {
    match Lookup(graph.nodes, outgoing.source)
    case Some(source) => forall j :: 0 <= j < |outgoing.targets| ==> EdgeAllowedTo(graph, source, outgoing.targets[j])
    case None => true
  }

  lemma {:induction false} DependencyErrorsEmpty(graph: Graph, dependencies: seq<Outgoing>)
    ensures DependencyErrors(graph, dependencies) == [] <==>
            forall i :: 0 <= i < |dependencies| ==> OutgoingAllowed(graph, dependencies[i])
  {
    if dependencies != [] {
      DependencyErrorsEmpty(graph, dependencies[1..]);
      assert dependencies == [dependencies[0]] + dependencies[1..];
      if Lookup(graph.nodes, dependencies[0].source).Some? {
        TargetErrorsEmpty(graph, Lookup(graph.nodes, dependencies[0].source).value, dependencies[0].targets);
      }
    }
  }

  ghost predicate EdgesAllowed(graph: Graph) {
    forall i :: 0 <= i < |graph.dependencies| ==> OutgoingAllowed(graph, graph.dependencies[i])
  }

  lemma LookupClassified(graph: Graph, key: string)
    requires AllClassified(graph.nodes) && Lookup(graph.nodes, key).Some?
    ensures Classified(Lookup(graph.nodes, key).value)
  {
    var i :| 0 <= i < |graph.nodes| && graph.nodes[i].node == Lookup(graph.nodes, key).value;
  }

  lemma DependsAllowed(graph: Graph, source: string, target: string)
    requires AllClassified(graph.nodes) && EdgesAllowed(graph) && Depends(graph, source, target)
    requires HasTag(graph, source, PUBLIC_SOURCE) && Lookup(graph.nodes, target).Some?
    ensures HasTag(graph, target, PUBLIC_SOURCE)
  {
    var i, j :| 0 <= i < |graph.dependencies| && 0 <= j < |graph.dependencies[i].targets|
                && graph.dependencies[i].source == source && graph.dependencies[i].targets[j].target == target;
    assert OutgoingAllowed(graph, graph.dependencies[i]);
    assert EdgeAllowedTo(graph, Lookup(graph.nodes, source).value, graph.dependencies[i].targets[j]);
    LookupClassified(graph, target);
    EdgeAllowedIff(Lookup(graph.nodes, source).value, Lookup(graph.nodes, target).value);
  }

  /** Everything on a path from public source is public source. */
  lemma {:induction false} PathStaysPublic(graph: Graph, path: seq<string>, k: nat)
    requires AllClassified(graph.nodes) && EdgesAllowed(graph)
    requires Path(graph, path) && HasTag(graph, path[0], PUBLIC_SOURCE) && k < |path|
    ensures HasTag(graph, path[k], PUBLIC_SOURCE)
  {
    if k > 0 {
      PathStaysPublic(graph, path, k - 1);
      assert Depends(graph, path[k - 1], path[k - 1 + 1]);
      DependsAllowed(graph, path[k - 1], path[k]);
    }
  }

  lemma EdgePath(graph: Graph, source: string, target: string)
    requires NoPrivateReached(graph) && Depends(graph, source, target)
    requires Lookup(graph.nodes, source).Some? && Lookup(graph.nodes, target).Some?
    ensures HasTag(graph, source, PUBLIC_SOURCE) ==> !HasTag(graph, target, PRIVATE_SOURCE)
  {
    var path := [source, target];
    assert Path(graph, path);
    assert path[|path| - 1] == target;
  }

  lemma EdgeIsPath(graph: Graph, i: nat, j: nat)
    requires AllClassified(graph.nodes) && NoPrivateReached(graph)
    requires i < |graph.dependencies| && j < |graph.dependencies[i].targets|
    requires Lookup(graph.nodes, graph.dependencies[i].source).Some?
    ensures EdgeAllowedTo(graph, Lookup(graph.nodes, graph.dependencies[i].source).value, graph.dependencies[i].targets[j])
  {
    var source, target := graph.dependencies[i].source, graph.dependencies[i].targets[j].target;
    if Lookup(graph.nodes, target).Some? {
      LookupClassified(graph, target);
      ClassifiedTags(Lookup(graph.nodes, target).value);
      EdgeAllowedIff(Lookup(graph.nodes, source).value, Lookup(graph.nodes, target).value);
      assert Depends(graph, source, target);
      EdgePath(graph, source, target);
    }
  }

  /**
   * The check reports nothing exactly if every project has one tag of each kind, no private project
   * is publishable, and no private source is reached from public source along dependencies.
   */
  lemma CheckMeansSeparation(graph: Graph)
    ensures GraphErrors(graph) == [] <==> AllClassified(graph.nodes) && NoPrivateReached(graph)
  {
    NodesErrorsEmpty(graph.nodes);
    DependencyErrorsEmpty(graph, graph.dependencies);
    if AllClassified(graph.nodes) {
      if EdgesAllowed(graph) {
        forall path | Path(graph, path) && HasTag(graph, path[0], PUBLIC_SOURCE)
          ensures !HasTag(graph, path[|path| - 1], PRIVATE_SOURCE)
        {
          var last := path[|path| - 1];
          PathStaysPublic(graph, path, |path| - 1);
          LookupClassified(graph, last);
          ClassifiedTags(Lookup(graph.nodes, last).value);
        }
      }
      if NoPrivateReached(graph) {
        forall i | 0 <= i < |graph.dependencies| ensures OutgoingAllowed(graph, graph.dependencies[i]) {
          if Lookup(graph.nodes, graph.dependencies[i].source).Some? {
            forall j: nat | j < |graph.dependencies[i].targets| ensures
              EdgeAllowedTo(graph, Lookup(graph.nodes, graph.dependencies[i].source).value, graph.dependencies[i].targets[j])
            {
              EdgeIsPath(graph, i, j);
            }
          }
        }
      }
    }
  }

  // ----- The check -----

  method ValidateNode(node: Node, before: seq<Error>) returns (errors: seq<Error>)
    ensures errors == before + NodeErrors(node)
  {
    errors := before;
    var visibility := TagsInDimension(node.tags, VISIBILITY_TAGS);
    var distribution := TagsInDimension(node.tags, DISTRIBUTION_TAGS);
    if |visibility| != 1 {
      errors := errors + [VisibilityTags(node, visibility)];
    }
    if |distribution| != 1 {
      errors := errors + [DistributionTags(node, distribution)];
    }
    if PRIVATE_SOURCE in visibility && PUBLISHABLE in distribution {
      errors := errors + [PrivateButPublishable(node)];
    }
  }

  method ValidateEdge(source: Node, target: Node, kind: string, before: seq<Error>) returns (errors: seq<Error>)
    ensures errors == before + EdgeErrors(source, target, kind, DEPENDENCY_CONSTRAINTS)
  {
    errors := before;
    var constraints := DEPENDENCY_CONSTRAINTS;
    ghost var all := before + EdgeErrors(source, target, kind, constraints);
    assert constraints[0..] == constraints;
    for i := 0 to |constraints|
      invariant errors + EdgeErrors(source, target, kind, constraints[i..]) == all
    {
      var constraint := constraints[i];
      assert constraints[i..][1..] == constraints[i + 1..];
      if constraint.sourceTag !in source.tags {
        continue;
      }
      if !Allowed(constraint, target) {
        ghost var rest := EdgeErrors(source, target, kind, constraints[i + 1..]);
        Associate(errors, [Violates(source, target, kind, constraint)], rest);
        errors := errors + [Violates(source, target, kind, constraint)];
      }
    }
  }

  method ValidateTarget(graph: Graph, source: Node, dependency: Dependency, before: seq<Error>)
    returns (errors: seq<Error>)
    ensures errors == before + ErrorsTo(graph, source, dependency)
  {
    errors := before;
    var target := Lookup(graph.nodes, dependency.target);
    if target.Some? {
      errors := ValidateEdge(source, target.value, dependency.kind, errors);
    }
  }

  lemma TargetStep(errors: seq<Error>, graph: Graph, source: Node, targets: seq<Dependency>, j: nat)
    requires j < |targets|
    ensures errors + TargetErrors(graph, source, targets[j..])
         == (errors + ErrorsTo(graph, source, targets[j])) + TargetErrors(graph, source, targets[j + 1..])
  {
    assert targets[j..][1..] == targets[j + 1..];
    Associate(errors, ErrorsTo(graph, source, targets[j]), TargetErrors(graph, source, targets[j + 1..]));
  }

  method ValidateTargets(graph: Graph, source: Node, targets: seq<Dependency>, before: seq<Error>)
    returns (errors: seq<Error>)
    ensures errors == before + TargetErrors(graph, source, targets)
  {
    errors := before;
    ghost var all := before + TargetErrors(graph, source, targets);
    assert targets[0..] == targets;
    for j := 0 to |targets|
      invariant errors + TargetErrors(graph, source, targets[j..]) == all
    {
      TargetStep(errors, graph, source, targets, j);
      errors := ValidateTarget(graph, source, targets[j], errors);
    }
  }

  method ValidateOutgoing(graph: Graph, outgoing: Outgoing, before: seq<Error>) returns (errors: seq<Error>)
    ensures errors == before + OutgoingErrors(graph, outgoing)
  {
    errors := before;
    var source := Lookup(graph.nodes, outgoing.source);
    if source.Some? {
      errors := ValidateTargets(graph, source.value, outgoing.targets, errors);
    }
  }

  lemma NodesStep(errors: seq<Error>, nodes: seq<Entry>, i: nat)
    requires i < |nodes|
    ensures errors + NodesErrors(nodes[i..]) == (errors + NodeErrors(nodes[i].node)) + NodesErrors(nodes[i + 1..])
  {
    assert nodes[i..][1..] == nodes[i + 1..];
    Associate(errors, NodeErrors(nodes[i].node), NodesErrors(nodes[i + 1..]));
  }

  lemma DependencyStep(errors: seq<Error>, graph: Graph, dependencies: seq<Outgoing>, i: nat)
    requires i < |dependencies|
    ensures errors + DependencyErrors(graph, dependencies[i..])
         == (errors + OutgoingErrors(graph, dependencies[i])) + DependencyErrors(graph, dependencies[i + 1..])
  {
    assert dependencies[i..][1..] == dependencies[i + 1..];
    Associate(errors, OutgoingErrors(graph, dependencies[i]), DependencyErrors(graph, dependencies[i + 1..]));
  }

  method ValidateNodes(nodes: seq<Entry>) returns (errors: seq<Error>)
    ensures errors == NodesErrors(nodes)
  {
    errors := [];
    ghost var all := NodesErrors(nodes);
    assert nodes[0..] == nodes;
    for i := 0 to |nodes|
      invariant errors + NodesErrors(nodes[i..]) == all
    {
      NodesStep(errors, nodes, i);
      errors := ValidateNode(nodes[i].node, errors);
    }
  }

  method ValidateDependencies(graph: Graph, before: seq<Error>) returns (errors: seq<Error>)
    ensures errors == before + DependencyErrors(graph, graph.dependencies)
  {
    errors := before;
    var dependencies := graph.dependencies;
    ghost var all := before + DependencyErrors(graph, dependencies);
    assert dependencies[0..] == dependencies;
    for i := 0 to |dependencies|
      invariant errors + DependencyErrors(graph, dependencies[i..]) == all
    {
      DependencyStep(errors, graph, dependencies, i);
      errors := ValidateOutgoing(graph, dependencies[i], errors);
    }
  }

  method ValidateProjectGraph(graph: Graph) returns (errors: seq<Error>)
    ensures errors == GraphErrors(graph)
  {
    errors := ValidateNodes(graph.nodes);
    errors := ValidateDependencies(graph, errors);
  }

  // ----- The tags that the policy gives a project -----

  datatype Inventory = Inventory(publicRoots: set<string>, privateRoots: set<string>, publishableRoots: set<string>)

  /** `tagsForProjectRoot`. */
  function TagsForProjectRoot(root: string, inventory: Inventory): Option<seq<string>> {
    if root !in inventory.publicRoots && root !in inventory.privateRoots then None
    else Some([if root in inventory.publicRoots then PUBLIC_SOURCE else PRIVATE_SOURCE,
               if root in inventory.publishableRoots then PUBLISHABLE else WORKSPACE_INTERNAL])
  }

  lemma TagsOfTwo(a: string, b: string, dimension: seq<string>)
    ensures TagsInDimension([a, b], dimension)
         == (if a in dimension then [a] else []) + (if b in dimension then [b] else [])
  {
    assert [a, b][1..] == [b] && [b][1..] == [];
    assert TagsInDimension([b], dimension) == (if b in dimension then [b] else []) + [];
  }

  /** Inferred tags pass the check, unless a private root is listed as publishable. */
  lemma InferredTagsClassified(name: string, root: string, inventory: Inventory)
    requires TagsForProjectRoot(root, inventory).Some?
    ensures Classified(Node(name, root, TagsForProjectRoot(root, inventory).value))
            <==> (root in inventory.publishableRoots ==> root in inventory.publicRoots)
  {
    var tags := TagsForProjectRoot(root, inventory).value;
    assert |PUBLIC_SOURCE| == 24 && |PRIVATE_SOURCE| == 25 && |PUBLISHABLE| == 24 && |WORKSPACE_INTERNAL| == 31;
    assert PUBLIC_SOURCE[0] == 'v' && PUBLISHABLE[0] == 'd';
    assert tags[0] in VISIBILITY_TAGS && tags[0] !in DISTRIBUTION_TAGS;
    assert tags[1] in DISTRIBUTION_TAGS && tags[1] !in VISIBILITY_TAGS;
    TagsOfTwo(tags[0], tags[1], VISIBILITY_TAGS);
    TagsOfTwo(tags[0], tags[1], DISTRIBUTION_TAGS);
  }

  /** A root is tagged public exactly if it is a public root, and publishable exactly if it is a publishable one. */
  lemma InferredTagsAre(root: string, inventory: Inventory)
    ensures TagsForProjectRoot(root, inventory).None? <==> root !in inventory.publicRoots && root !in inventory.privateRoots
    ensures TagsForProjectRoot(root, inventory).Some? ==>
              var tags := TagsForProjectRoot(root, inventory).value;
              && ("visibility:public-source" in tags <==> root in inventory.publicRoots)
              && ("visibility:private-source" in tags <==> root !in inventory.publicRoots)
              && ("distribution:publishable" in tags <==> root in inventory.publishableRoots)
              && ("distribution:workspace-internal" in tags <==> root !in inventory.publishableRoots)
  {
    assert |PUBLIC_SOURCE| == 24 && |PRIVATE_SOURCE| == 25 && |PUBLISHABLE| == 24 && |WORKSPACE_INTERNAL| == 31;
    assert PUBLIC_SOURCE[0] == 'v' && PUBLISHABLE[0] == 'd';
    if TagsForProjectRoot(root, inventory).Some? {
      var tags := TagsForProjectRoot(root, inventory).value;
      assert tags[0] in tags && tags[1] in tags;
    }
  }

  // ----- Which errors are reported -----

  /** Repeated tags count. */
  lemma {:induction false} TagsCount(tags: seq<string>, dimension: seq<string>)
    ensures |TagsInDimension(tags, dimension)| == Count((tag: string) => tag in dimension, tags)
  {
    if tags != [] {
      TagsCount(tags[1..], dimension);
    }
  }

  /** What is wrong with a node. */
  predicate NodeFault(node: Node, e: Error) {
    match e
    case VisibilityTags(n, found) => n == node && found == TagsInDimension(node.tags, VISIBILITY_TAGS) && |found| != 1
    case DistributionTags(n, found) => n == node && found == TagsInDimension(node.tags, DISTRIBUTION_TAGS) && |found| != 1
    case PrivateButPublishable(n) => n == node && PRIVATE_SOURCE in node.tags && PUBLISHABLE in node.tags
    case Violates(_, _, _, _) => false
  }

  lemma NodeErrorsIff(node: Node, e: Error)
    ensures e in NodeErrors(node) <==> NodeFault(node, e)
  {
    assert VISIBILITY_TAGS[1] in VISIBILITY_TAGS && DISTRIBUTION_TAGS[0] in DISTRIBUTION_TAGS;
  }

  ghost predicate NodesFault(nodes: seq<Entry>, e: Error) {
    exists entry :: entry in nodes && NodeFault(entry.node, e)
  }

  lemma NodesFaultUnfold(nodes: seq<Entry>, e: Error)
    requires nodes != []
    ensures NodesFault(nodes, e) <==> NodeFault(nodes[0].node, e) || NodesFault(nodes[1..], e)
  {
    assert nodes == [nodes[0]] + nodes[1..];
  }

  /** The errors about nodes are the faults of the nodes. */
  lemma {:induction false} NodesErrorsIff(nodes: seq<Entry>, e: Error)
    ensures e in NodesErrors(nodes) <==> NodesFault(nodes, e)
  {
    if nodes != [] {
      NodeErrorsIff(nodes[0].node, e);
      NodesErrorsIff(nodes[1..], e);
      NodesFaultUnfold(nodes, e);
    }
  }

  /** The dependency is named, and one of the constraints on its source is not met by its target. */
  ghost predicate EdgeFault(source: Node, target: Node, kind: string, e: Error) {
    && e.Violates? && e.source == source && e.target == target && e.kind == kind
    && e.constraint in DEPENDENCY_CONSTRAINTS && e.constraint.sourceTag in source.tags
    && forall tag :: tag in e.constraint.allowedTargetTags ==> tag !in target.tags
  }

  lemma {:induction false} EdgeErrorsIff(source: Node, target: Node, kind: string, constraints: seq<Constraint>, e: Error)
    ensures e in EdgeErrors(source, target, kind, constraints) <==>
            && e.Violates? && e.source == source && e.target == target && e.kind == kind
            && e.constraint in constraints && e.constraint.sourceTag in source.tags
            && forall tag :: tag in e.constraint.allowedTargetTags ==> tag !in target.tags
  {
    if constraints != [] {
      EdgeErrorsIff(source, target, kind, constraints[1..], e);
      assert constraints == [constraints[0]] + constraints[1..];
    }
  }

  /** The fault of one dependency of the graph between two of its nodes. */
  ghost predicate DependencyFault(graph: Graph, source: string, dependency: Dependency, e: Error) {
    && Lookup(graph.nodes, source).Some? && Lookup(graph.nodes, dependency.target).Some?
    && EdgeFault(Lookup(graph.nodes, source).value, Lookup(graph.nodes, dependency.target).value, dependency.kind, e)
  }

  ghost predicate TargetsFault(graph: Graph, source: string, targets: seq<Dependency>, e: Error) {
    exists dependency :: dependency in targets && DependencyFault(graph, source, dependency, e)
  }

  lemma TargetsFaultUnfold(graph: Graph, source: string, targets: seq<Dependency>, e: Error)
    requires targets != []
    ensures TargetsFault(graph, source, targets, e) <==>
            DependencyFault(graph, source, targets[0], e) || TargetsFault(graph, source, targets[1..], e)
  {
    assert targets == [targets[0]] + targets[1..];
  }

  lemma {:induction false} TargetErrorsIff(graph: Graph, key: string, source: Node, targets: seq<Dependency>, e: Error)
    requires Lookup(graph.nodes, key) == Some(source)
    ensures e in TargetErrors(graph, source, targets) <==> TargetsFault(graph, key, targets, e)
  {
    if targets != [] {
      TargetErrorsIff(graph, key, source, targets[1..], e);
      TargetsFaultUnfold(graph, key, targets, e);
      if Lookup(graph.nodes, targets[0].target).Some? {
        EdgeErrorsIff(source, Lookup(graph.nodes, targets[0].target).value, targets[0].kind, DEPENDENCY_CONSTRAINTS, e);
      }
    }
  }

  ghost predicate OutgoingFault(graph: Graph, outgoing: Outgoing, e: Error) {
    TargetsFault(graph, outgoing.source, outgoing.targets, e)
  }

  lemma OutgoingErrorsIff(graph: Graph, outgoing: Outgoing, e: Error)
    ensures e in OutgoingErrors(graph, outgoing) <==> OutgoingFault(graph, outgoing, e)
  {
    if Lookup(graph.nodes, outgoing.source).Some? {
      TargetErrorsIff(graph, outgoing.source, Lookup(graph.nodes, outgoing.source).value, outgoing.targets, e);
    }
  }

  ghost predicate DependenciesFault(graph: Graph, dependencies: seq<Outgoing>, e: Error) {
    exists outgoing :: outgoing in dependencies && OutgoingFault(graph, outgoing, e)
  }

  lemma DependenciesFaultUnfold(graph: Graph, dependencies: seq<Outgoing>, e: Error)
    requires dependencies != []
    ensures DependenciesFault(graph, dependencies, e) <==>
            OutgoingFault(graph, dependencies[0], e) || DependenciesFault(graph, dependencies[1..], e)
  {
    assert dependencies == [dependencies[0]] + dependencies[1..];
  }

  /** The errors about dependencies are the violated constraints of dependencies between nodes of the graph. */
  lemma {:induction false} DependencyErrorsIff(graph: Graph, dependencies: seq<Outgoing>, e: Error)
    ensures e in DependencyErrors(graph, dependencies) <==> DependenciesFault(graph, dependencies, e)
  {
    if dependencies != [] {
      OutgoingErrorsIff(graph, dependencies[0], e);
      DependencyErrorsIff(graph, dependencies[1..], e);
      DependenciesFaultUnfold(graph, dependencies, e);
    }
  }

  /** The check reports exactly the faults of nodes and of dependencies. */
  lemma ReportedIff(graph: Graph, e: Error)
    ensures e in GraphErrors(graph) <==>
            NodesFault(graph.nodes, e)
            || DependenciesFault(graph, graph.dependencies, e)
  {
    NodesErrorsIff(graph.nodes, e);
    DependencyErrorsIff(graph, graph.dependencies, e);
  }

  /** Towards any target, classified or not: the four constraints. */
  lemma EdgeAllowedTowardsAny(source: Node, target: Node)
    ensures EdgeAllowed(source, target) <==>
            && ("visibility:public-source" in source.tags ==> "visibility:public-source" in target.tags)
            && ("visibility:private-source" in source.tags ==>
                  "visibility:public-source" in target.tags || "visibility:private-source" in target.tags)
            && ("distribution:publishable" in source.tags || "distribution:workspace-internal" in source.tags ==>
                  "distribution:publishable" in target.tags || "distribution:workspace-internal" in target.tags)
  {
    var constraints := DEPENDENCY_CONSTRAINTS;
    AllowedOne(constraints[0], PUBLIC_SOURCE, target);
    AllowedTwo(constraints[1], PUBLIC_SOURCE, PRIVATE_SOURCE, target);
    AllowedTwo(constraints[2], PUBLISHABLE, WORKSPACE_INTERNAL, target);
    AllowedTwo(constraints[3], PUBLISHABLE, WORKSPACE_INTERNAL, target);
    if EdgeAllowed(source, target) {
      assert constraints[0].sourceTag in source.tags ==> Allowed(constraints[0], target);
      assert constraints[1].sourceTag in source.tags ==> Allowed(constraints[1], target);
      assert constraints[2].sourceTag in source.tags ==> Allowed(constraints[2], target);
      assert constraints[3].sourceTag in source.tags ==> Allowed(constraints[3], target);
    }
  }

  lemma AllowedOne(constraint: Constraint, tag: string, target: Node)
    requires constraint.allowedTargetTags == [tag]
    ensures Allowed(constraint, target) <==> tag in target.tags
  {
    assert constraint.allowedTargetTags[0] == tag;
  }

  lemma AllowedTwo(constraint: Constraint, a: string, b: string, target: Node)
    requires constraint.allowedTargetTags == [a, b]
    ensures Allowed(constraint, target) <==> a in target.tags || b in target.tags
  {
    assert constraint.allowedTargetTags[0] == a && constraint.allowedTargetTags[1] == b;
  }
}
