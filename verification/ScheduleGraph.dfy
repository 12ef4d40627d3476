/**
 The dependency graph that `ScheduleBuilder::schedule` builds.

 All accesses of all systems, in registration order, form one sequence of events. The builder's
 two hash maps hold the events that no later event has superseded, and an edge is pushed from each
 of those that conflicts with the event at hand. `Direct` says this without the maps.
 */
module ScheduleGraph {
  import opened Access

  type AccessLists = seq<seq<AccessDesc>>
  type Edges = seq<seq<nat>>

  datatype Event = Event(sys: nat, desc: AccessDesc)

  function Tag(i: nat, access: seq<AccessDesc>): (events: seq<Event>)
    ensures |events| == |access|
    ensures forall k :: 0 <= k < |access| ==> events[k] == Event(i, access[k])
  {
    seq(|access|, k requires 0 <= k < |access| => Event(i, access[k]))
  }

  function Flatten(systems: AccessLists): seq<Event> {
    if systems == [] then []
    else
      var n := |systems| - 1;
      Flatten(systems[..n]) + Tag(n, systems[n])
  }

  /** `later` takes over from `earlier` in the builder's maps: a World access replaces everything,
      a mutable access replaces the accesses of its own type. */
  predicate Supersedes(later: AccessDesc, earlier: AccessDesc) {
    later.ty.World? || (later.ty == earlier.ty && later.mutable)
  }

  /** No event strictly between `p` and `q` supersedes event `p`. */
  predicate OnFrontier(events: seq<Event>, p: int, q: int)
    requires 0 <= p < q <= |events|
  {
    forall r :: p < r < q ==> !Supersedes(events[r].desc, events[p].desc)
  }

  predicate Direct(events: seq<Event>, p: int, q: int) {
    0 <= p < q < |events| && Conflicts(events[p].desc, events[q].desc) && OnFrontier(events, p, q)
  }

  ghost predicate DirectEdge(events: seq<Event>, a: int, b: int) {
    exists p, q :: Direct(events, p, q) && events[p].sys == a && events[q].sys == b
  }

  predicate StrictlyIncreasing(s: seq<nat>) {
    forall i, j :: 0 <= i < j < |s| ==> s[i] < s[j]
  }

  predicate NonDecreasing(s: seq<nat>) {
    forall i, j :: 0 <= i < j < |s| ==> s[i] <= s[j]
  }

  /** What the builder returns: it fixes the edge lists completely. */
  ghost predicate IsScheduleGraph(systems: AccessLists, edges: Edges) {
    && |edges| == |systems|
    && (forall a :: 0 <= a < |edges| ==> StrictlyIncreasing(edges[a]))
    && (forall a: nat, b: nat :: a < |edges| ==> (b in edges[a] <==> DirectEdge(Flatten(systems), a, b)))
  }

  // ---------------------------------------------------------------- flattening

  lemma {:induction false} FlattenBounds(systems: AccessLists)
    ensures forall p :: 0 <= p < |Flatten(systems)| ==>
      Flatten(systems)[p].sys < |systems| && Flatten(systems)[p].desc in systems[Flatten(systems)[p].sys]
    ensures forall p, q :: 0 <= p < q < |Flatten(systems)| ==> Flatten(systems)[p].sys <= Flatten(systems)[q].sys
  {
    if systems != [] {
      FlattenBounds(systems[..|systems| - 1]);
    }
  }

  /** System `i`'s accesses form one block of the flattened sequence. */
  lemma {:induction false} FlattenBlock(systems: AccessLists, i: nat)
    requires i < |systems|
    ensures var base := |Flatten(systems[..i])|; var events := Flatten(systems);
            && base + |systems[i]| <= |events|
            && (forall p :: base <= p < base + |systems[i]| ==> events[p] == Event(i, systems[i][p - base]))
            && (forall p :: 0 <= p < |events| && events[p].sys == i ==> base <= p < base + |systems[i]|)
  {
    var n := |systems| - 1;
    var init := Flatten(systems[..n]);
    assert Flatten(systems) == init + Tag(n, systems[n]);
    FlattenBounds(systems[..n]);
    if i < n {
      assert systems[..n][..i] == systems[..i];
      FlattenBlock(systems[..n], i);
    }
  }

  // ---------------------------------------------------------------- the frontier kept in the two maps

  type Writers = map<AccessType, nat>
  type Readers = map<AccessType, seq<nat>>

  predicate IsWrite(d: AccessDesc) {
    d.ty.World? || d.mutable
  }

  /** Event `p`, by system `sys` on type `t`, is still on the frontier after all of `events`. */
  predicate Held(events: seq<Event>, p: int, write: bool, t: AccessType, sys: nat) {
    && 0 <= p < |events|
    && OnFrontier(events, p, |events|)
    && IsWrite(events[p].desc) == write
    && events[p].desc.ty == t
    && events[p].sys == sys
  }

  /** The maps hold exactly the frontier of the events seen so far. */
  ghost predicate FrontierHeld(events: seq<Event>, writers: Writers, readers: Readers) {
    && (forall p, t, s :: Held(events, p, true, t, s) ==> t in writers && writers[t] == s)
    && (forall p, t, s :: Held(events, p, false, t, s) ==> t in readers && s in readers[t])
    && (forall t :: t in writers ==> exists p :: Held(events, p, true, t, writers[t]))
    && (forall t, s :: t in readers && s in readers[t] ==> exists p :: Held(events, p, false, t, s))
  }

  /** The systems from which the builder draws an edge when it meets `desc`. */
  function Sources(writers: Writers, readers: Readers, desc: AccessDesc): set<nat> {
    (if AccessType.World in writers then {writers[AccessType.World]} else {}) +
    if desc.ty.World? then
      (set t | t in writers :: writers[t]) + (set t, s | t in readers && s in readers[t] :: s)
    else
      (if desc.ty in writers then {writers[desc.ty]} else {}) +
      (if desc.mutable && desc.ty in readers then (set s | s in readers[desc.ty]) else {})
  }

  function NextWriters(writers: Writers, i: nat, desc: AccessDesc): Writers {
    if desc.ty.World? then map[desc.ty := i]
    else if desc.mutable then writers[desc.ty := i]
    else writers
  }

  function NextReaders(readers: Readers, i: nat, desc: AccessDesc): Readers {
    if desc.ty.World? then map[]
    else if desc.mutable then (if desc.ty in readers then readers[desc.ty := []] else readers)
    else readers[desc.ty := (if desc.ty in readers then readers[desc.ty] else []) + [i]]
  }

  /** The sources are the systems of the frontier events that conflict with `desc`. */
  lemma SourcesAreConflictingFrontier(events: seq<Event>, writers: Writers, readers: Readers, desc: AccessDesc, a: nat)
    requires FrontierHeld(events, writers, readers)
    ensures a in Sources(writers, readers, desc) <==>
      exists p ::
        0 <= p < |events| && OnFrontier(events, p, |events|) && Conflicts(events[p].desc, desc) && events[p].sys == a
  {
    if p :|
        0 <= p < |events| && OnFrontier(events, p, |events|) && Conflicts(events[p].desc, desc) && events[p].sys == a
    {
      assert Held(events, p, IsWrite(events[p].desc), events[p].desc.ty, a);
    }
  }

  lemma FrontierAdvances(events: seq<Event>, p: int, e: Event)
    requires 0 <= p < |events|
    ensures OnFrontier(events + [e], p, |events| + 1) <==>
      OnFrontier(events, p, |events|) && !Supersedes(e.desc, events[p].desc)
    ensures OnFrontier(events + [e], |events|, |events| + 1)
  {
    var next := events + [e];
    if OnFrontier(next, p, |next|) {
      assert next[|events|] == e;
      forall r | p < r < |events| ensures !Supersedes(events[r].desc, events[p].desc) {
        assert next[r] == events[r];
      }
    }
  }

  lemma HeldAdvances(events: seq<Event>, e: Event, p: int, write: bool, t: AccessType, s: nat)
    ensures Held(events + [e], p, write, t, s) <==>
      || (p < |events| && Held(events, p, write, t, s) && !Supersedes(e.desc, events[p].desc))
      || (p == |events| && IsWrite(e.desc) == write && e.desc.ty == t && e.sys == s)
  {
    if 0 <= p < |events| {
      FrontierAdvances(events, p, e);
    }
  }

  lemma FrontierStep(events: seq<Event>, writers: Writers, readers: Readers, e: Event)
    requires FrontierHeld(events, writers, readers)
    ensures FrontierHeld(events + [e], NextWriters(writers, e.sys, e.desc), NextReaders(readers, e.sys, e.desc))
  {
    var next := events + [e];
    var w, r := NextWriters(writers, e.sys, e.desc), NextReaders(readers, e.sys, e.desc);
    forall p, write, t, s | Held(next, p, write, t, s)
      ensures write ==> t in w && w[t] == s
      ensures !write ==> t in r && s in r[t]
    {
      HeldAdvances(events, e, p, write, t, s);
    }
    forall t | t in w ensures exists p :: Held(next, p, true, t, w[t]) {
      HeldAdvances(events, e, |events|, true, t, w[t]);
      if !Held(next, |events|, true, t, w[t]) {
        var p :| Held(events, p, true, t, w[t]);
        HeldAdvances(events, e, p, true, t, w[t]);
      }
    }
    forall t, s | t in r && s in r[t] ensures exists p :: Held(next, p, false, t, s) {
      HeldAdvances(events, e, |events|, false, t, s);
      if !Held(next, |events|, false, t, s) {
        var p :| Held(events, p, false, t, s);
        HeldAdvances(events, e, p, false, t, s);
      }
    }
  }

  // ---------------------------------------------------------------- the builder

  /** `after` is `before` with some copies of `i` pushed, at least one exactly when `pushed`. */
  ghost predicate Extended(before: seq<nat>, after: seq<nat>, i: nat, pushed: bool) {
    && before <= after
    && (forall k :: |before| <= k < |after| ==> after[k] == i)
    && (pushed <==> |before| < |after|)
  }

  /** `edges` with `i` pushed at least once on exactly the lists in `sources`. */
  ghost predicate PushedFrom(before: Edges, after: Edges, i: nat, sources: set<nat>) {
    && |after| == |before|
    && forall a :: 0 <= a < |before| ==> Extended(before[a], after[a], i, a in sources)
  }

  lemma PushedTrans(a: Edges, b: Edges, c: Edges, i: nat, s: set<nat>, t: set<nat>)
    requires PushedFrom(a, b, i, s) && PushedFrom(b, c, i, t)
    ensures PushedFrom(a, c, i, s + t)
  {
  }

  /** `graph.edges[from].push(i)`. */
  function Push(edges: Edges, from: nat, i: nat): (r: Edges)
    requires from < |edges|
    ensures PushedFrom(edges, r, i, {from})
  {
    edges[from := edges[from] + [i]]
  }

  function Elems(s: seq<nat>): set<nat> {
    set x | x in s
  }

  method PushAll(edges: Edges, sources: seq<nat>, i: nat) returns (r: Edges)
    requires forall s :: s in sources ==> s < |edges|
    ensures PushedFrom(edges, r, i, Elems(sources))
  {
    r := edges;
    for k := 0 to |sources|
      invariant PushedFrom(edges, r, i, Elems(sources[..k]))
    {
      var s := sources[k];
      assert s in sources;
      PushedTrans(edges, r, Push(r, s, i), i, Elems(sources[..k]), {s});
      r := Push(r, s, i);
      assert sources[..k + 1] == sources[..k] + [s];
      assert Elems(sources[..k + 1]) == Elems(sources[..k]) + {s};
    }
    assert sources[..|sources|] == sources;
  }

  function WritersOf(writers: Writers, types: set<AccessType>): set<nat>
    requires types <= writers.Keys
  {
    set t | t in types :: writers[t]
  }

  function ReadersOf(readers: Readers, types: set<AccessType>): set<nat>
    requires types <= readers.Keys
  {
    set t, s | t in types && s in readers[t] :: s
  }

  /** `for writer in writers.values()`, in whatever order the hash map yields them. */
  method PushWriters(edges: Edges, writers: Writers, i: nat) returns (r: Edges)
    requires forall t :: t in writers ==> writers[t] < |edges|
    ensures PushedFrom(edges, r, i, WritersOf(writers, writers.Keys))
  {
    r := edges;
    var rest := writers.Keys;
    while rest != {}
      invariant rest <= writers.Keys
      invariant PushedFrom(edges, r, i, WritersOf(writers, writers.Keys - rest))
    {
      var t :| t in rest;
      PushedTrans(edges, r, Push(r, writers[t], i), i, WritersOf(writers, writers.Keys - rest), {writers[t]});
      r := Push(r, writers[t], i);
      assert writers.Keys - (rest - {t}) == (writers.Keys - rest) + {t};
      assert WritersOf(writers, writers.Keys - (rest - {t})) == WritersOf(writers, writers.Keys - rest) + {writers[t]};
      rest := rest - {t};
    }
  }

  /** `for vec in readers.values()`, in whatever order the hash map yields them. */
  method PushReaders(edges: Edges, readers: Readers, i: nat) returns (r: Edges)
    requires forall t, s :: t in readers && s in readers[t] ==> s < |edges|
    ensures PushedFrom(edges, r, i, ReadersOf(readers, readers.Keys))
  {
    r := edges;
    var rest := readers.Keys;
    while rest != {}
      invariant rest <= readers.Keys
      invariant PushedFrom(edges, r, i, ReadersOf(readers, readers.Keys - rest))
    {
      var t :| t in rest;
      ghost var before := r;
      r := PushAll(r, readers[t], i);
      PushedTrans(edges, before, r, i, ReadersOf(readers, readers.Keys - rest), Elems(readers[t]));
      assert readers.Keys - (rest - {t}) == (readers.Keys - rest) + {t};
      assert ReadersOf(readers, readers.Keys - (rest - {t})) ==
        ReadersOf(readers, readers.Keys - rest) + Elems(readers[t]);
      rest := rest - {t};
    }
  }

  predicate InRange(writers: Writers, readers: Readers, n: nat) {
    && (forall t :: t in writers ==> writers[t] < n)
    && (forall t, s :: t in readers && s in readers[t] ==> s < n)
  }

  /** The inner loop body of `schedule`: access `desc` of system `i`. */
  method Visit(edges: Edges, writers: Writers, readers: Readers, i: nat, desc: AccessDesc)
    returns (edges': Edges, writers': Writers, readers': Readers)
    requires InRange(writers, readers, |edges|)
    ensures PushedFrom(edges, edges', i, Sources(writers, readers, desc))
    ensures writers' == NextWriters(writers, i, desc)
    ensures readers' == NextReaders(readers, i, desc)
  {
    edges', writers', readers' := edges, writers, readers;
    ghost var pushed: set<nat> := {};
    if AccessType.World in writers {
      edges' := Push(edges', writers[AccessType.World], i);
      pushed := {writers[AccessType.World]};
    }
    ghost var mid := edges';
    if desc.ty.World? {
      edges' := PushWriters(edges', writers, i);
      PushedTrans(edges, mid, edges', i, pushed, WritersOf(writers, writers.Keys));
      mid, pushed := edges', pushed + WritersOf(writers, writers.Keys);
      edges' := PushReaders(edges', readers, i);
      PushedTrans(edges, mid, edges', i, pushed, ReadersOf(readers, readers.Keys));
      pushed := pushed + ReadersOf(readers, readers.Keys);
      writers', readers' := map[desc.ty := i], map[];
    } else if desc.mutable {
      if desc.ty in writers {
        edges' := Push(edges', writers[desc.ty], i);
        PushedTrans(edges, mid, edges', i, pushed, {writers[desc.ty]});
        mid, pushed := edges', pushed + {writers[desc.ty]};
      }
      writers' := writers[desc.ty := i];
      if desc.ty in readers {
        edges' := PushAll(edges', readers[desc.ty], i);
        PushedTrans(edges, mid, edges', i, pushed, Elems(readers[desc.ty]));
        pushed := pushed + Elems(readers[desc.ty]);
        readers' := readers[desc.ty := []];
      }
    } else {
      if desc.ty in writers {
        edges' := Push(edges', writers[desc.ty], i);
        PushedTrans(edges, mid, edges', i, pushed, {writers[desc.ty]});
        pushed := pushed + {writers[desc.ty]};
      }
      readers' := readers[desc.ty := (if desc.ty in readers then readers[desc.ty] else []) + [i]];
    }
    assert pushed == Sources(writers, readers, desc);
  }

  /** `Vec::dedup`: drops an element equal to its predecessor. */
  function Dedup(s: seq<nat>): (r: seq<nat>)
    ensures forall x :: x in r <==> x in s
    ensures NonDecreasing(s) ==> StrictlyIncreasing(r)
    ensures s != [] ==> r != [] && r[|r| - 1] == s[|s| - 1]
  {
    if |s| <= 1 then s
    else
      var init, last := Dedup(s[..|s| - 1]), s[|s| - 1];
      assert s == s[..|s| - 1] + [last];
      if s[|s| - 2] == last then init else init + [last]
  }

  /** Loop invariant: the edge lists of the events seen so far, sorted but with adjacent repeats. */
  ghost predicate EdgesSoFar(events: seq<Event>, edges: Edges, i: nat) {
    && (forall a :: 0 <= a < |edges| ==> NonDecreasing(edges[a]) && forall b :: b in edges[a] ==> b <= i)
    && (forall a: nat, b: nat :: a < |edges| ==> (b in edges[a] <==> DirectEdge(events, a, b)))
  }

  lemma DirectEdgesOfOneMore(events: seq<Event>, e: Event, a: nat, b: nat)
    ensures DirectEdge(events + [e], a, b) <==>
      || DirectEdge(events, a, b)
      || (b == e.sys && exists p ::
            0 <= p < |events| && OnFrontier(events, p, |events|)
            && Conflicts(events[p].desc, e.desc) && events[p].sys == a)
  {
    var next := events + [e];
    forall p, q | 0 <= p < q <= |events|
      ensures Direct(next, p, q) <==> if q < |events| then Direct(events, p, q)
                                      else OnFrontier(events, p, q) && Conflicts(events[p].desc, e.desc)
    {
      assert next[p] == events[p] && forall r :: p < r < q ==> next[r] == events[r];
    }
    if p, q :| Direct(events, p, q) && events[p].sys == a && events[q].sys == b {
      assert Direct(next, p, q);
    }
    if p :|
        b == e.sys && 0 <= p < |events| && OnFrontier(events, p, |events|)
        && Conflicts(events[p].desc, e.desc) && events[p].sys == a
    {
      assert Direct(next, p, |events|);
    }
  }

  lemma ExtendedContents(before: seq<nat>, after: seq<nat>, i: nat, pushed: bool)
    requires Extended(before, after, i, pushed)
    requires NonDecreasing(before) && forall b :: b in before ==> b <= i
    ensures forall b: nat :: b in after <==> b in before || (pushed && b == i)
    ensures NonDecreasing(after)
  {
    forall k | 0 <= k < |before| ensures after[k] == before[k] && before[k] in after {
      assert after[..|before|] == before;
    }
    if pushed {
      assert after[|before|] == i;
    }
    forall k | 0 <= k < |before| ensures before[k] <= i {
      assert before[k] in before;
    }
  }

  lemma EdgesStep(events: seq<Event>, edges: Edges, edges': Edges, writers: Writers, readers: Readers, e: Event)
    requires FrontierHeld(events, writers, readers)
    requires EdgesSoFar(events, edges, e.sys)
    requires PushedFrom(edges, edges', e.sys, Sources(writers, readers, e.desc))
    ensures EdgesSoFar(events + [e], edges', e.sys)
  {
    forall a: nat, b: nat | a < |edges| ensures b in edges'[a] <==> DirectEdge(events + [e], a, b) {
      ExtendedContents(edges[a], edges'[a], e.sys, a in Sources(writers, readers, e.desc));
      DirectEdgesOfOneMore(events, e, a, b);
      SourcesAreConflictingFrontier(events, writers, readers, e.desc, a);
    }
    forall a | 0 <= a < |edges| ensures NonDecreasing(edges'[a]) && forall b :: b in edges'[a] ==> b <= e.sys {
      ExtendedContents(edges[a], edges'[a], e.sys, a in Sources(writers, readers, e.desc));
    }
  }

  lemma FrontierInRange(events: seq<Event>, writers: Writers, readers: Readers, n: nat)
    requires FrontierHeld(events, writers, readers)
    requires forall p :: 0 <= p < |events| ==> events[p].sys < n
    ensures InRange(writers, readers, n)
  {
  }

  /** `ScheduleBuilder::schedule` up to the deduplicated graph. */
  method Schedule(systems: AccessLists) returns (edges: Edges)
    ensures IsScheduleGraph(systems, edges)
  {
    var writers: Writers, readers: Readers := map[], map[];
    edges := seq(|systems|, _ => []);
    for i := 0 to |systems|
      invariant |edges| == |systems|
      invariant FrontierHeld(Flatten(systems[..i]), writers, readers)
      invariant EdgesSoFar(Flatten(systems[..i]), edges, i)
    {
      var access := systems[i];
      ghost var past := Flatten(systems[..i]);
      FlattenBounds(systems[..i]);
      assert past + Tag(i, access)[..0] == past;
      for k := 0 to |access|
        invariant |edges| == |systems|
        invariant FrontierHeld(past + Tag(i, access)[..k], writers, readers)
        invariant EdgesSoFar(past + Tag(i, access)[..k], edges, i)
      {
        ghost var events := past + Tag(i, access)[..k];
        ghost var e := Event(i, access[k]);
        FrontierInRange(events, writers, readers, |edges|);
        var edges', writers', readers' := Visit(edges, writers, readers, i, access[k]);
        EdgesStep(events, edges, edges', writers, readers, e);
        FrontierStep(events, writers, readers, e);
        assert events + [e] == past + Tag(i, access)[..k + 1];
        edges, writers, readers := edges', writers', readers';
      }
      assert Flatten(systems[..i + 1]) == past + Tag(i, access)[..|access|] by {
        assert systems[..i + 1][..i] == systems[..i];
      }
    }
    assert systems[..|systems|] == systems;
    edges := seq(|edges|, a requires 0 <= a < |edges| => Dedup(edges[a]));
  }
}
