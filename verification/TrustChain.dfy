/** Trust-chain search and validation of protocol/identity/trust-chain.ts: a breadth-first search over
    delegation grants, and the depth and link check its result must pass. */
module TrustChain {
  import opened Sequences

  datatype Grant = Grant(grantId: string, delegatorActorId: string, delegateActorId: string)

  datatype Link = Link(fromActorId: string, toActorId: string, grantId: string)

  datatype Validity = ValidChain | InvalidChain

  datatype Chain = Chain(
    rootActorId: string,
    delegatedActors: seq<string>,
    trustPath: seq<Link>,
    validity: Validity,
    evaluatedAt: string,
    reasons: seq<string>)

  /** An entry of the search queue: an actor and the path that led to it. */
  datatype Node = Node(actorId: string, path: seq<Link>, actors: seq<string>)

  function LinkOf(grant: Grant): Link {
    Link(grant.delegatorActorId, grant.delegateActorId, grant.grantId)
  }

  function Child(node: Node, grant: Grant): Node {
    Node(grant.delegateActorId, node.path + [LinkOf(grant)], node.actors + [grant.delegateActorId])
  }

  function DelegatedBy(actorId: string): Grant -> bool {
    (g: Grant) => g.delegatorActorId == actorId
  }

  function Outgoing(grants: seq<Grant>, actorId: string): seq<Grant> {
    Filter(grants, DelegatedBy(actorId))
  }

  function Targets(path: seq<Link>): seq<string> {
    seq(|path|, i requires 0 <= i < |path| => path[i].toActorId)
  }

  /** A walk from `source` to `dest` each link of which is one of the grants. */
  ghost predicate IsGrantPath(grants: seq<Grant>, source: string, dest: string, path: seq<Link>)
    decreases |path|
  {
    if path == [] then source == dest
    else
      && Last(path).toActorId == dest
      && (exists g :: g in grants && Last(path) == Link(g.delegatorActorId, g.delegateActorId, g.grantId))
      && IsGrantPath(grants, source, Last(path).fromActorId, DropLast(path))
  }

  ghost predicate Reachable(grants: seq<Grant>, source: string, dest: string) {
    exists path :: IsGrantPath(grants, source, dest, path)
  }

  ghost predicate IsShortestPath(grants: seq<Grant>, source: string, dest: string, path: seq<Link>) {
    && IsGrantPath(grants, source, dest, path)
    && forall other :: IsGrantPath(grants, source, dest, other) ==> |path| <= |other|
  }

  /** What a chain built for these arguments must be. */
  ghost predicate IsTrustChain(chain: Chain, root: string, target: string, grants: seq<Grant>, evaluatedAt: string) {
    && chain.rootActorId == root
    && chain.evaluatedAt == evaluatedAt
    && chain.delegatedActors == Targets(chain.trustPath)
    && if Reachable(grants, root, target) then
         && chain.validity == ValidChain
         && chain.reasons == []
         && IsShortestPath(grants, root, target, chain.trustPath)
       else
         && chain.validity == InvalidChain
         && chain.reasons == ["NO_TRUST_PATH"]
         && chain.trustPath == []
  }

  function Actors(root: string, grants: seq<Grant>): set<string> {
    {root} + set g | g in grants :: g.delegateActorId
  }

  // ---------------------------------------------------------------- the search invariant

  ghost predicate InQueue(queue: seq<Node>, actorId: string, depth: nat) {
    exists n :: n in queue && n.actorId == actorId && |n.path| <= depth
  }

  /** The actor has been expanded, or waits in the queue, at a depth of at most `depth`. */
  ghost predicate Reached(queue: seq<Node>, dist: map<string, nat>, actorId: string, depth: nat) {
    (actorId in dist && dist[actorId] <= depth) || InQueue(queue, actorId, depth)
  }

  ghost predicate SoundNode(node: Node, root: string, grants: seq<Grant>) {
    && IsGrantPath(grants, root, node.actorId, node.path)
    && node.actors == [root] + Targets(node.path)
    && node.actorId in Actors(root, grants)
  }

  ghost predicate Layered(queue: seq<Node>) {
    forall i, j :: 0 <= i <= j < |queue| ==> |queue[i].path| <= |queue[j].path| <= |queue[0].path| + 1
  }

  /** `dist` records the depth at which every visited actor was expanded. */
  ghost predicate SearchInvariant(
      root: string, target: string, grants: seq<Grant>, queue: seq<Node>, dist: map<string, nat>) {
    && (forall n :: n in queue ==> SoundNode(n, root, grants))
    && Layered(queue)
    && dist.Keys <= Actors(root, grants)
    && target !in dist
    && Reached(queue, dist, root, 0)
    && (forall g :: g in grants && g.delegatorActorId in dist ==>
          Reached(queue, dist, g.delegateActorId, dist[g.delegatorActorId] + 1))
    && (forall v :: v in dist && queue != [] ==> dist[v] <= |queue[0].path|)
  }

  /** Dropping an already visited actor from the front keeps the invariant. */
  lemma SkipStep(root: string, target: string, grants: seq<Grant>, queue: seq<Node>, dist: map<string, nat>)
    requires SearchInvariant(root, target, grants, queue, dist)
    requires queue != [] && queue[0].actorId in dist
    ensures SearchInvariant(root, target, grants, queue[1..], dist)
  {
    var rest := queue[1..];
    forall w: string, d: nat | Reached(queue, dist, w, d) ensures Reached(rest, dist, w, d) {
      ReachedDequeue(queue, dist, w, d);
    }
    assert forall n :: n in rest ==> n in queue;
    assert forall i :: 0 <= i < |rest| ==> rest[i] == queue[i + 1];
  }

  lemma ReachedDequeue(queue: seq<Node>, dist: map<string, nat>, w: string, d: nat)
    requires queue != [] && queue[0].actorId in dist && dist[queue[0].actorId] <= |queue[0].path|
    requires Reached(queue, dist, w, d)
    ensures Reached(queue[1..], dist, w, d)
  {
    if !(w in dist && dist[w] <= d) {
      var n :| n in queue && n.actorId == w && |n.path| <= d;
      assert n != queue[0];
      assert n in queue[1..];
    }
  }

  function Children(node: Node, outgoing: seq<Grant>): seq<Node> {
    seq(|outgoing|, i requires 0 <= i < |outgoing| => Child(node, outgoing[i]))
  }

  lemma ChildSound(node: Node, grant: Grant, root: string, grants: seq<Grant>)
    requires SoundNode(node, root, grants) && grant in grants && grant.delegatorActorId == node.actorId
    ensures SoundNode(Child(node, grant), root, grants)
  {
    var child := Child(node, grant);
    assert DropLast(child.path) == node.path && Last(child.path) == LinkOf(grant);
    assert Targets(child.path) == Targets(node.path) + [grant.delegateActorId];
  }

  /** Expanding an unvisited actor keeps the invariant. */
  lemma ExpandStep(root: string, target: string, grants: seq<Grant>, queue: seq<Node>, dist: map<string, nat>)
    requires SearchInvariant(root, target, grants, queue, dist)
    requires queue != [] && queue[0].actorId !in dist && queue[0].actorId != target
    ensures var node := queue[0];
            SearchInvariant(root, target, grants,
                            queue[1..] + Children(node, Outgoing(grants, node.actorId)),
                            dist[node.actorId := |node.path|])
  {
    var node, rest := queue[0], queue[1..];
    var outgoing := Outgoing(grants, node.actorId);
    var children := Children(node, outgoing);
    var queue', dist' := rest + children, dist[node.actorId := |node.path|];
    FilterMembers(grants, DelegatedBy(node.actorId));
    assert node in queue && SoundNode(node, root, grants);
    forall n | n in queue' ensures SoundNode(n, root, grants) {
      if n in rest {
        assert n in queue;
      } else {
        var i :| 0 <= i < |children| && children[i] == n;
        assert outgoing[i] in outgoing;
        ChildSound(node, outgoing[i], root, grants);
      }
    }
    forall i | 0 <= i < |queue'| ensures |node.path| <= |queue'[i].path| <= |node.path| + 1 {
      if i < |rest| {
        assert queue'[i] == queue[i + 1];
      }
    }
    assert Layered(queue') by {
      forall i, j | 0 <= i <= j < |queue'| ensures |queue'[i].path| <= |queue'[j].path| <= |queue'[0].path| + 1 {
        if j < |rest| {
          assert queue'[i] == queue[i + 1] && queue'[j] == queue[j + 1];
        }
      }
    }
    forall w: string, d: nat | Reached(queue, dist, w, d) ensures Reached(queue', dist', w, d) {
      ReachedExpand(queue, children, dist, w, d);
    }
    forall g | g in grants && g.delegatorActorId in dist'
      ensures Reached(queue', dist', g.delegateActorId, dist'[g.delegatorActorId] + 1)
    {
      if g.delegatorActorId == node.actorId {
        assert g in outgoing;
        var i :| 0 <= i < |outgoing| && outgoing[i] == g;
        assert children[i] in queue';
      }
    }
  }

  lemma ReachedExpand(queue: seq<Node>, children: seq<Node>, dist: map<string, nat>, w: string, d: nat)
    requires queue != [] && queue[0].actorId !in dist
    requires Reached(queue, dist, w, d)
    ensures Reached(queue[1..] + children, dist[queue[0].actorId := |queue[0].path|], w, d)
  {
    if !(w in dist && dist[w] <= d) {
      var n :| n in queue && n.actorId == w && |n.path| <= d;
      if n != queue[0] {
        assert n in queue[1..] + children;
      }
    }
  }

  // ---------------------------------------------------------------- completeness and shortness

  /** Any walk has been followed to its end, or some queue entry is not deeper than it. */
  lemma {:induction false} Frontier(root: string, target: string, grants: seq<Grant>, queue: seq<Node>,
                                    dist: map<string, nat>, dest: string, path: seq<Link>)
    requires SearchInvariant(root, target, grants, queue, dist)
    requires IsGrantPath(grants, root, dest, path)
    ensures (dest in dist && dist[dest] <= |path|) || exists n :: n in queue && |n.path| <= |path|
    decreases |path|
  {
    if path != [] {
      var previous := Last(path).fromActorId;
      Frontier(root, target, grants, queue, dist, previous, DropLast(path));
      if previous in dist && dist[previous] <= |path| - 1 {
        var g :| g in grants && LinkOf(g) == Last(path);
        assert Reached(queue, dist, dest, dist[previous] + 1);
      }
    }
  }

  lemma FrontIsShortest(root: string, target: string, grants: seq<Grant>, queue: seq<Node>, dist: map<string, nat>)
    requires SearchInvariant(root, target, grants, queue, dist)
    requires queue != [] && queue[0].actorId == target
    ensures IsShortestPath(grants, root, target, queue[0].path)
  {
    assert queue[0] in queue;
    forall other | IsGrantPath(grants, root, target, other) ensures |queue[0].path| <= |other| {
      Frontier(root, target, grants, queue, dist, target, other);
      var n :| n in queue && |n.path| <= |other|;
      var i :| 0 <= i < |queue| && queue[i] == n;
    }
  }

  lemma ExhaustedMeansUnreachable(root: string, target: string, grants: seq<Grant>, dist: map<string, nat>)
    requires SearchInvariant(root, target, grants, [], dist)
    ensures !Reachable(grants, root, target)
  {
    if path :| IsGrantPath(grants, root, target, path) {
      Frontier(root, target, grants, [], dist, target, path);
    }
  }

  function At(adjacency: map<string, seq<Grant>>, actorId: string): seq<Grant> {
    if actorId in adjacency then adjacency[actorId] else []
  }

  ghost predicate Adjacent(adjacency: map<string, seq<Grant>>, grants: seq<Grant>) {
    forall a: string :: At(adjacency, a) == Outgoing(grants, a)
  }

  lemma AdjacentStep(adjacency: map<string, seq<Grant>>, grants: seq<Grant>, grant: Grant)
    requires Adjacent(adjacency, grants)
    ensures Adjacent(adjacency[grant.delegatorActorId := At(adjacency, grant.delegatorActorId) + [grant]],
                     grants + [grant])
  {
    var from := grant.delegatorActorId;
    var adjacency' := adjacency[from := At(adjacency, from) + [grant]];
    forall a: string ensures At(adjacency', a) == Outgoing(grants + [grant], a) {
      FilterAppend(grants, grant, DelegatedBy(a));
      assert At(adjacency, a) == Outgoing(grants, a);
    }
  }

  /** The first loop: grants grouped by delegator, in their given order. */
  method BuildAdjacency(grants: seq<Grant>) returns (adjacency: map<string, seq<Grant>>)
    ensures Adjacent(adjacency, grants)
  {
    adjacency := map[];
    for i := 0 to |grants|
      invariant Adjacent(adjacency, grants[..i])
    {
      var grant := grants[i];
      AdjacentStep(adjacency, grants[..i], grant);
      assert grants[..i + 1] == grants[..i] + [grant];
      var existing := At(adjacency, grant.delegatorActorId);
      adjacency := adjacency[grant.delegatorActorId := existing + [grant]];
    }
    assert grants[..|grants|] == grants;
  }

  /** The inner loop: one queue entry for every outgoing grant. */
  method EnqueueChildren(rest: seq<Node>, current: Node, outgoing: seq<Grant>) returns (queue: seq<Node>)
    ensures queue == rest + Children(current, outgoing)
  {
    queue := rest;
    for i := 0 to |outgoing|
      invariant queue == rest + Children(current, outgoing[..i])
    {
      assert Children(current, outgoing[..i + 1]) == Children(current, outgoing[..i]) + [Child(current, outgoing[i])];
      queue := queue + [Child(current, outgoing[i])];
    }
    assert outgoing[..|outgoing|] == outgoing;
  }

  lemma SearchStarts(root: string, target: string, grants: seq<Grant>)
    ensures SearchInvariant(root, target, grants, [Node(root, [], [root])], map[])
  {
    var queue := [Node(root, [], [root])];
    assert SoundNode(queue[0], root, grants);
    assert InQueue(queue, root, 0) by { assert queue[0] in queue; }
  }

  lemma FrontIsActor(root: string, target: string, grants: seq<Grant>, queue: seq<Node>, dist: map<string, nat>)
    requires SearchInvariant(root, target, grants, queue, dist) && queue != []
    ensures queue[0].actorId in Actors(root, grants)
    ensures queue[0].actors != [] && queue[0].actors[1..] == Targets(queue[0].path)
  {
    assert queue[0] in queue;
  }

  lemma FrontGivesChain(
      root: string, target: string, grants: seq<Grant>, queue: seq<Node>, dist: map<string, nat>, evaluatedAt: string)
    requires SearchInvariant(root, target, grants, queue, dist)
    requires queue != [] && queue[0].actorId == target
    ensures IsTrustChain(Chain(root, Targets(queue[0].path), queue[0].path, ValidChain, evaluatedAt, []), root, target,
                         grants, evaluatedAt)
  {
    FrontIsShortest(root, target, grants, queue, dist);
  }

  lemma ExhaustionGivesChain(
      root: string, target: string, grants: seq<Grant>, dist: map<string, nat>, evaluatedAt: string)
    requires SearchInvariant(root, target, grants, [], dist)
    ensures IsTrustChain(Chain(root, [], [], InvalidChain, evaluatedAt, ["NO_TRUST_PATH"]), root, target, grants,
                         evaluatedAt)
  {
    ExhaustedMeansUnreachable(root, target, grants, dist);
  }

  method BuildTrustChain(root: string, target: string, grants: seq<Grant>, evaluatedAt: string) returns (chain: Chain)
    ensures IsTrustChain(chain, root, target, grants, evaluatedAt)
  {
    var adjacency := BuildAdjacency(grants);
    var queue := [Node(root, [], [root])];
    var visited: set<string> := {};
    ghost var dist: map<string, nat> := map[];
    SearchStarts(root, target, grants);
    while |queue| > 0
      invariant SearchInvariant(root, target, grants, queue, dist)
      invariant visited == dist.Keys
      decreases Actors(root, grants) - visited, |queue|
    {
      var current := queue[0];
      FrontIsActor(root, target, grants, queue, dist);
      if current.actorId == target {
        FrontGivesChain(root, target, grants, queue, dist, evaluatedAt);
        chain := Chain(root, current.actors[1..], current.path, ValidChain, evaluatedAt, []);
        return;
      }
      if current.actorId in visited {
        SkipStep(root, target, grants, queue, dist);
        queue := queue[1..];
      } else {
        ExpandStep(root, target, grants, queue, dist);
        assert At(adjacency, current.actorId) == Outgoing(grants, current.actorId);
        visited := visited + {current.actorId};
        dist := dist[current.actorId := |current.path|];
        queue := EnqueueChildren(queue[1..], current, At(adjacency, current.actorId));
      }
    }
    ExhaustionGivesChain(root, target, grants, dist, evaluatedAt);
    chain := Chain(root, [], [], InvalidChain, evaluatedAt, ["NO_TRUST_PATH"]);
  }

  // ---------------------------------------------------------------- validation

  ghost predicate Linked(path: seq<Link>) {
    forall i :: 0 < i < |path| ==> path[i - 1].toActorId == path[i].fromActorId
  }

  ghost function ValidationReasons(chain: Chain, maxDepth: int): seq<string> {
    (if chain.validity != ValidChain then ["CHAIN_MARKED_INVALID"] else []) +
    (if |chain.trustPath| == 0 then ["EMPTY_TRUST_PATH"] else []) +
    (if |chain.trustPath| > maxDepth then ["MAX_DELEGATION_DEPTH_EXCEEDED"] else []) +
    (if !Linked(chain.trustPath) then ["BROKEN_TRUST_LINK"] else [])
  }

  /** The link loop: it stops at the first broken link. */
  method ReportBrokenLink(path: seq<Link>, before: seq<string>) returns (reasons: seq<string>)
    ensures reasons == before + if !Linked(path) then ["BROKEN_TRUST_LINK"] else []
  {
    reasons := before;
    var i := 1;
    while i < |path|
      invariant 1 <= i
      invariant reasons == before
      invariant forall k :: 0 < k < i && k < |path| ==> path[k - 1].toActorId == path[k].fromActorId
    {
      if path[i - 1].toActorId != path[i].fromActorId {
        return before + ["BROKEN_TRUST_LINK"];
      }
      i := i + 1;
    }
  }

  method ValidateTrustChain(chain: Chain, maxDepth: int) returns (valid: bool, reasons: seq<string>)
    ensures reasons == ValidationReasons(chain, maxDepth)
    ensures valid <==> chain.validity == ValidChain && 0 < |chain.trustPath| <= maxDepth && Linked(chain.trustPath)
  {
    reasons := [];
    if chain.validity != ValidChain { reasons := reasons + ["CHAIN_MARKED_INVALID"]; }
    if |chain.trustPath| == 0 { reasons := reasons + ["EMPTY_TRUST_PATH"]; }
    if |chain.trustPath| > maxDepth { reasons := reasons + ["MAX_DELEGATION_DEPTH_EXCEEDED"]; }
    reasons := ReportBrokenLink(chain.trustPath, reasons);
    valid := |reasons| == 0;
  }

  /** Each reason says what is wrong with the chain, and nothing else is reported. */
  lemma ReasonsSay(chain: Chain, maxDepth: int)
    ensures var reasons := ValidationReasons(chain, maxDepth);
            && ("CHAIN_MARKED_INVALID" in reasons <==> chain.validity != ValidChain)
            && ("EMPTY_TRUST_PATH" in reasons <==> chain.trustPath == [])
            && ("MAX_DELEGATION_DEPTH_EXCEEDED" in reasons <==> |chain.trustPath| > maxDepth)
            && ("BROKEN_TRUST_LINK" in reasons <==>
                  exists i :: 0 < i < |chain.trustPath|
                              && chain.trustPath[i].fromActorId != chain.trustPath[i - 1].toActorId)
            && forall r :: r in reasons ==> r in {"CHAIN_MARKED_INVALID", "EMPTY_TRUST_PATH",
                                                  "MAX_DELEGATION_DEPTH_EXCEEDED", "BROKEN_TRUST_LINK"}
  {
    ReasonsDiffer();
  }

  lemma ReasonsDiffer()
    ensures Distinct(["CHAIN_MARKED_INVALID", "EMPTY_TRUST_PATH", "MAX_DELEGATION_DEPTH_EXCEEDED", "BROKEN_TRUST_LINK"])
  {
    assert "CHAIN_MARKED_INVALID"[0] == 'C' && "EMPTY_TRUST_PATH"[0] == 'E';
    assert "MAX_DELEGATION_DEPTH_EXCEEDED"[0] == 'M' && "BROKEN_TRUST_LINK"[0] == 'B';
  }

  lemma {:induction false} GrantPathIsLinked(grants: seq<Grant>, source: string, dest: string, path: seq<Link>)
    requires IsGrantPath(grants, source, dest, path)
    ensures Linked(path)
    ensures path != [] ==> path[0].fromActorId == source && Last(path).toActorId == dest
    decreases |path|
  {
    if path != [] {
      GrantPathIsLinked(grants, source, Last(path).fromActorId, DropLast(path));
    }
  }

  /** The validator accepts what the search built exactly when the two actors differ and some chain of
      grants between them is short enough. */
  lemma AcceptedIffWithinDepth(chain: Chain, root: string, target: string, grants: seq<Grant>,
                               evaluatedAt: string, maxDepth: int)
    requires IsTrustChain(chain, root, target, grants, evaluatedAt)
    ensures ValidationReasons(chain, maxDepth) == [] <==>
            root != target && exists path :: IsGrantPath(grants, root, target, path) && |path| <= maxDepth
  {
    if Reachable(grants, root, target) {
      GrantPathIsLinked(grants, root, target, chain.trustPath);
      if root == target {
        assert IsGrantPath(grants, root, target, []);
      }
    }
  }
}
