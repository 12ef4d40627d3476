/** What a graph built by `schedule` means: it orders exactly the conflicting systems. */
module GraphFacts {
  import opened Access
  import opened ScheduleGraph

  type Relation = (nat, nat) -> bool

  ghost predicate IsPath(related: Relation, path: seq<nat>) {
    |path| >= 2 && forall k :: 0 <= k < |path| - 1 ==> related(path[k], path[k + 1])
  }

  ghost predicate PathFromTo(related: Relation, path: seq<nat>, i: nat, j: nat) {
    IsPath(related, path) && path[0] == i && path[|path| - 1] == j
  }

  /** Transitive closure. */
  ghost predicate Reaches(related: Relation, i: nat, j: nat) {
    exists path :: PathFromTo(related, path, i, j)
  }

  lemma ReachesStep(related: Relation, i: nat, j: nat)
    requires related(i, j)
    ensures Reaches(related, i, j)
  {
    assert PathFromTo(related, [i, j], i, j);
  }

  lemma ReachesTrans(related: Relation, i: nat, j: nat, k: nat)
    requires Reaches(related, i, j) && Reaches(related, j, k)
    ensures Reaches(related, i, k)
  {
    var a :| PathFromTo(related, a, i, j);
    var b :| PathFromTo(related, b, j, k);
    var c := a + b[1..];
    forall m | 0 <= m < |c| - 1 ensures related(c[m], c[m + 1]) {
      if m >= |a| - 1 {
        assert c[m] == b[m - (|a| - 1)] && c[m + 1] == b[m + 1 - (|a| - 1)];
      }
    }
    assert PathFromTo(related, c, i, k);
  }

  /** A path whose every step is covered by the closure of another relation is covered by it too. */
  lemma {:induction false} ReachesMono(finer: Relation, coarser: Relation, path: seq<nat>)
    requires IsPath(finer, path)
    requires forall i: nat, j: nat :: finer(i, j) ==> Reaches(coarser, i, j)
    ensures Reaches(coarser, path[0], path[|path| - 1])
    decreases |path|
  {
    assert finer(path[0], path[1]);
    if |path| > 2 {
      ReachesMono(finer, coarser, path[1..]);
      ReachesTrans(coarser, path[0], path[1], path[|path| - 1]);
    }
  }

  /** Something that comes before itself comes before `k`, or is `k`. */
  ghost predicate Blocked(related: Relation, k: nat) {
    exists i: nat :: related(i, i) && Reaches(related, i, k)
  }

  lemma BlockedStep(related: Relation, p: nat, k: nat)
    requires related(p, k) && (p == k || Blocked(related, p))
    ensures Blocked(related, k)
  {
    ReachesStep(related, p, k);
    if p != k {
      var i: nat :| related(i, i) && Reaches(related, i, p);
      ReachesTrans(related, i, p, k);
    }
  }

  ghost function EdgeRelation(edges: Edges): Relation {
    (a: nat, b: nat) => a < |edges| && b in edges[a]
  }

  /** `i` comes first and the two conflict, or `i` is `j` and conflicts with itself. */
  ghost function ConflictRelation(systems: AccessLists): Relation {
    (a: nat, b: nat) =>
      a <= b < |systems| && if a == b then SelfConflict(systems[a]) else SystemsConflict(systems[a], systems[b])
  }

  lemma EdgesConflict(systems: AccessLists, edges: Edges, a: nat, b: nat)
    requires IsScheduleGraph(systems, edges)
    requires a < |edges| && b in edges[a]
    ensures a <= b < |systems|
    ensures a < b ==> SystemsConflict(systems[a], systems[b])
  {
    var events := Flatten(systems);
    var p, q :| Direct(events, p, q) && events[p].sys == a && events[q].sys == b;
    FlattenBounds(systems);
    if a < b {
      var k :| 0 <= k < |systems[a]| && systems[a][k] == events[p].desc;
      var m :| 0 <= m < |systems[b]| && systems[b][m] == events[q].desc;
      assert Conflicts(systems[a][k], systems[b][m]);
    }
  }

  /** Any two conflicting accesses are joined by a path: either the edge is drawn directly, or the
      earlier access was superseded by one that conflicts with both. */
  lemma {:induction false} ConflictingEventsReach(systems: AccessLists, edges: Edges, p: int, q: int)
    requires IsScheduleGraph(systems, edges)
    requires var events := Flatten(systems); 0 <= p < q < |events| && Conflicts(events[p].desc, events[q].desc)
    ensures Reaches(EdgeRelation(edges), Flatten(systems)[p].sys, Flatten(systems)[q].sys)
    decreases q - p
  {
    var events := Flatten(systems);
    FlattenBounds(systems);
    if OnFrontier(events, p, q) {
      assert Direct(events, p, q);
      assert DirectEdge(events, events[p].sys, events[q].sys);
      assert events[q].sys in edges[events[p].sys];
      ReachesStep(EdgeRelation(edges), events[p].sys, events[q].sys);
    } else {
      var r :| p < r < q && Supersedes(events[r].desc, events[p].desc);
      ConflictingEventsReach(systems, edges, p, r);
      ConflictingEventsReach(systems, edges, r, q);
      ReachesTrans(EdgeRelation(edges), events[p].sys, events[r].sys, events[q].sys);
    }
  }

  /** Graph completeness: every conflicting pair is joined by a path, earlier system first. */
  lemma ConflictingSystemsReach(systems: AccessLists, edges: Edges, i: nat, j: nat)
    requires IsScheduleGraph(systems, edges)
    requires i < j < |systems| && SystemsConflict(systems[i], systems[j])
    ensures Reaches(EdgeRelation(edges), i, j)
  {
    var k, m :| 0 <= k < |systems[i]| && 0 <= m < |systems[j]| && Conflicts(systems[i][k], systems[j][m]);
    var events := Flatten(systems);
    FlattenBlock(systems, i);
    FlattenBlock(systems, j);
    FlattenBounds(systems);
    var p, q := |Flatten(systems[..i])| + k, |Flatten(systems[..j])| + m;
    assert events[p] == Event(i, systems[i][k]) && events[q] == Event(j, systems[j][m]);
    assert p < q;
    ConflictingEventsReach(systems, edges, p, q);
  }

  /** Between two conflicting accesses of one system every superseding access is its own, so the
      self-edge itself is drawn. */
  lemma {:induction false} OwnConflictDrawsSelfEdge(systems: AccessLists, edges: Edges, i: nat, p: int, q: int)
    requires IsScheduleGraph(systems, edges) && i < |systems|
    requires var events := Flatten(systems);
      0 <= p < q < |events| && Conflicts(events[p].desc, events[q].desc) && events[p].sys == i && events[q].sys == i
    ensures i in edges[i]
    decreases q - p
  {
    var events := Flatten(systems);
    FlattenBounds(systems);
    if OnFrontier(events, p, q) {
      assert Direct(events, p, q);
    } else {
      var r :| p < r < q && Supersedes(events[r].desc, events[p].desc);
      assert events[p].sys <= events[r].sys <= events[q].sys;
      OwnConflictDrawsSelfEdge(systems, edges, i, p, r);
    }
  }

  lemma SelfEdgeNeedsSelfConflict(systems: AccessLists, i: nat, p: int, q: int)
    requires i < |systems|
    requires var events := Flatten(systems);
      0 <= p < q < |events| && Conflicts(events[p].desc, events[q].desc) && events[p].sys == i && events[q].sys == i
    ensures SelfConflict(systems[i])
  {
    var base := |Flatten(systems[..i])|;
    FlattenBlock(systems, i);
    assert Conflicts(systems[i][p - base], systems[i][q - base]);
  }

  lemma SelfConflictNeedsSelfEdge(systems: AccessLists, edges: Edges, i: nat, k: int, m: int)
    requires IsScheduleGraph(systems, edges) && i < |systems|
    requires 0 <= k < m < |systems[i]| && Conflicts(systems[i][k], systems[i][m])
    ensures i in edges[i]
  {
    var base, events := |Flatten(systems[..i])|, Flatten(systems);
    assert events[base + k] == Event(i, systems[i][k]) && events[base + m] == Event(i, systems[i][m]) by {
      FlattenBlock(systems, i);
    }
    OwnConflictDrawsSelfEdge(systems, edges, i, base + k, base + m);
  }

  /** A self-edge appears exactly on the systems whose own descriptors conflict. */
  lemma SelfEdgeIffSelfConflict(systems: AccessLists, edges: Edges, i: nat)
    requires IsScheduleGraph(systems, edges) && i < |systems|
    ensures i in edges[i] <==> SelfConflict(systems[i])
  {
    if i in edges[i] {
      var p, q :| Direct(Flatten(systems), p, q) && Flatten(systems)[p].sys == i && Flatten(systems)[q].sys == i;
      SelfEdgeNeedsSelfConflict(systems, i, p, q);
    }
    if SelfConflict(systems[i]) {
      var k, m :| 0 <= k < m < |systems[i]| && Conflicts(systems[i][k], systems[i][m]);
      SelfConflictNeedsSelfEdge(systems, edges, i, k, m);
    }
  }

  /** Graph exactness: the graph and "conflicts and comes earlier" have the same transitive closure. */
  lemma ClosureIsConflictClosure(systems: AccessLists, edges: Edges, i: nat, j: nat)
    requires IsScheduleGraph(systems, edges)
    ensures Reaches(EdgeRelation(edges), i, j) <==> Reaches(ConflictRelation(systems), i, j)
  {
    var drawn, conflict := EdgeRelation(edges), ConflictRelation(systems);
    forall a: nat, b: nat | drawn(a, b) ensures Reaches(conflict, a, b) {
      EdgesConflict(systems, edges, a, b);
      SelfEdgeIffSelfConflict(systems, edges, a);
      ReachesStep(conflict, a, b);
    }
    forall a: nat, b: nat | conflict(a, b) ensures Reaches(drawn, a, b) {
      if a == b {
        SelfEdgeIffSelfConflict(systems, edges, a);
        ReachesStep(drawn, a, b);
      } else {
        ConflictingSystemsReach(systems, edges, a, b);
      }
    }
    if path :| PathFromTo(drawn, path, i, j) { ReachesMono(drawn, conflict, path); }
    if path :| PathFromTo(conflict, path, i, j) { ReachesMono(conflict, drawn, path); }
  }

  /** A system is behind a self-edge exactly if a chain of conflicts leads to it from a self-conflicting system. */
  lemma BlockedIff(systems: AccessLists, edges: Edges, k: nat)
    requires IsScheduleGraph(systems, edges)
    ensures Blocked(EdgeRelation(edges), k) <==> Blocked(ConflictRelation(systems), k)
  {
    var drawn, conflict := EdgeRelation(edges), ConflictRelation(systems);
    forall i: nat ensures drawn(i, i) && Reaches(drawn, i, k) <==> conflict(i, i) && Reaches(conflict, i, k) {
      ClosureIsConflictClosure(systems, edges, i, k);
      if i < |systems| { SelfEdgeIffSelfConflict(systems, edges, i); }
    }
  }

  /** A system has a predecessor exactly if it conflicts with an earlier system or with itself. */
  lemma PredecessorIff(systems: AccessLists, edges: Edges, k: nat)
    requires IsScheduleGraph(systems, edges)
    ensures (exists p: nat :: EdgeRelation(edges)(p, k)) <==> exists i: nat :: ConflictRelation(systems)(i, k)
  {
    var drawn, conflict := EdgeRelation(edges), ConflictRelation(systems);
    if p: nat :| drawn(p, k) {
      EdgesConflict(systems, edges, p, k);
      SelfEdgeIffSelfConflict(systems, edges, p);
      assert conflict(p, k);
    }
    if i: nat :| conflict(i, k) {
      ReachesStep(conflict, i, k);
      ClosureIsConflictClosure(systems, edges, i, k);
      var path :| PathFromTo(drawn, path, i, k);
      assert drawn(path[|path| - 2], path[|path| - 2 + 1]);
    }
  }

  /** The access lists alone fix the returned graph, whatever order the hash maps were visited in. */
  lemma ScheduleGraphIsUnique(systems: AccessLists, e: Edges, f: Edges)
    requires IsScheduleGraph(systems, e) && IsScheduleGraph(systems, f)
    ensures e == f
  {
    forall a | 0 <= a < |e| ensures e[a] == f[a] {
      forall b: nat ensures b in e[a] <==> b in f[a] {}
      StrictlyIncreasingUnique(e[a], f[a]);
    }
  }

  lemma {:induction false} StrictlyIncreasingUnique(s: seq<nat>, t: seq<nat>)
    requires StrictlyIncreasing(s) && StrictlyIncreasing(t)
    requires forall b: nat :: b in s <==> b in t
    ensures s == t
  {
    if |s| > 0 { assert s[0] in t; }
    if |t| > 0 { assert t[0] in s; }
    if |s| > 0 && |t| > 0 {
      var m, n := |s| - 1, |t| - 1;
      assert s[m] in t && t[n] in s;
      assert s[m] == t[n];
      forall b: nat ensures b in s[..m] <==> b in t[..n] {
        assert b in s[..m] <==> b in s && b != s[m];
        assert b in t[..n] <==> b in t && b != t[n];
      }
      StrictlyIncreasingUnique(s[..m], t[..n]);
    }
  }
}
