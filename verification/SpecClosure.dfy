/**
 The transitive expansion of a set of references: a worklist over a finite tree, proved to compute the least set
 that contains the initial references and everything they lead to.
 */
module SpecClosure {
  import opened Common
  import opened SpecTree

  ghost predicate Closed(spec: Fields, refs: set<string>) {
    forall r :: r in refs ==> Targets(spec, r) <= refs
  }

  /** A chain of references, each found where the one before it resolves to. */
  ghost predicate Chain(spec: Fields, from: set<string>, path: seq<string>, to: string) {
    && path != [] && path[0] in from && path[|path| - 1] == to
    && forall i :: 0 <= i < |path| - 1 ==> path[i + 1] in Targets(spec, path[i])
  }

  ghost predicate Reaches(spec: Fields, from: set<string>, to: string) {
    exists path :: Chain(spec, from, path, to)
  }

  /** All references there are to be found. */
  function Universe(spec: Fields, from: set<string>): set<string> {
    from + Refs(Obj(spec))
  }

  ghost function Closure(spec: Fields, from: set<string>): set<string> {
    set r | r in Universe(spec, from) && Reaches(spec, from, r)
  }

  lemma TargetsInUniverse(spec: Fields, from: set<string>, ref: string)
    ensures Targets(spec, ref) <= Universe(spec, from)
  {
    if "#/" <= ref {
      ResolveRefs(Some(Obj(spec)), Split(ref[2..], '/'));
    }
  }

  lemma StartReached(spec: Fields, from: set<string>, ref: string)
    requires ref in from
    ensures Reaches(spec, from, ref)
  {
    assert Chain(spec, from, [ref], ref);
  }

  lemma NextReached(spec: Fields, from: set<string>, ref: string, next: string)
    requires Reaches(spec, from, ref) && next in Targets(spec, ref)
    ensures Reaches(spec, from, next)
  {
    var path :| Chain(spec, from, path, ref);
    assert Chain(spec, from, path + [next], next);
  }

  lemma {:induction false} ChainStaysInside(spec: Fields, from: set<string>, path: seq<string>, to: string,
                                            s: set<string>)
    requires Chain(spec, from, path, to) && from <= s && Closed(spec, s)
    ensures to in s
    decreases |path|
  {
    if |path| > 1 {
      var shorter := path[..|path| - 1];
      assert to in Targets(spec, shorter[|shorter| - 1]);
      ChainStaysInside(spec, from, shorter, shorter[|shorter| - 1], s);
    }
  }

  /** The closure contains the start, is closed, and is contained in every set that does both. */
  lemma ClosureIsLeast(spec: Fields, from: set<string>)
    ensures from <= Closure(spec, from) && Closed(spec, Closure(spec, from))
    ensures forall s: set<string> :: from <= s && Closed(spec, s) ==> Closure(spec, from) <= s
  {
    forall r | r in from ensures r in Closure(spec, from) {
      StartReached(spec, from, r);
    }
    forall r, t | r in Closure(spec, from) && t in Targets(spec, r) ensures t in Closure(spec, from) {
      NextReached(spec, from, r, t);
      TargetsInUniverse(spec, from, r);
    }
    forall s: set<string>, r | from <= s && Closed(spec, s) && r in Closure(spec, from) ensures r in s {
      var path :| Chain(spec, from, path, r);
      ChainStaysInside(spec, from, path, r, s);
    }
  }

  /** Membership in the closure is reachability along a chain, so no order of working off the list matters. */
  lemma ClosureIsReachability(spec: Fields, from: set<string>, ref: string)
    ensures ref in Closure(spec, from) <==> Reaches(spec, from, ref)
  {
    if path :| Chain(spec, from, path, ref) {
      ClosureIsLeast(spec, from);
      ChainStaysInside(spec, from, path, ref, Closure(spec, from));
    }
  }

  /** Two trees that answer alike for every reference reached in one of them have the same closure. */
  lemma SameTargetsSameClosure(spec: Fields, other: Fields, from: set<string>)
    requires forall r :: r in Closure(spec, from) ==> Targets(other, r) == Targets(spec, r)
    ensures Closure(other, from) == Closure(spec, from)
  {
    ClosureIsLeast(spec, from);
    ClosureIsLeast(other, from);
    assert Closed(other, Closure(spec, from));
    assert Closed(spec, Closure(other, from));
  }

  /** The queue in whatever order a set is spread into an array. */
  method Spread(refs: set<string>) returns (queue: seq<string>)
    ensures forall r :: r in queue <==> r in refs
  {
    queue := [];
    var rest := refs;
    while rest != {}
      invariant rest <= refs && forall r :: r in queue <==> r in refs - rest
      decreases |rest|
    {
      var r :| r in rest;
      queue, rest := queue + [r], rest - {r};
    }
  }

  /** Pushes the references that are not known yet. */
  method PushNew(nested: set<string>, allRefs: set<string>, queue: seq<string>)
    returns (all: set<string>, longer: seq<string>)
    ensures all == allRefs + nested
    ensures forall r :: r in longer <==> r in queue || r in nested - allRefs
    ensures nested <= allRefs ==> longer == queue
  {
    all, longer := allRefs, queue;
    var rest := nested;
    while rest != {}
      invariant rest <= nested && all == allRefs + (nested - rest)
      invariant forall r :: r in longer <==> r in queue || r in (nested - rest) - allRefs
      invariant nested <= allRefs ==> longer == queue
      decreases |rest|
    {
      var r :| r in rest;
      if r !in all {
        all, longer := all + {r}, longer + [r];
      }
      rest := rest - {r};
    }
  }

  /** What one reference leads to; one that is not a pointer, or points nowhere, leads to nothing. */
  method FollowRef(spec: Fields, ref: string) returns (nested: set<string>)
    ensures nested == Targets(spec, ref)
  {
    nested := {};
    if "#/" <= ref {
      var found := Resolve(Some(Obj(spec)), Split(ref[2..], '/'));
      if found.Some? {
        nested := CollectRefs(found.value, {});
      }
    }
  }

  /** Only queued references may still lead somewhere new. */
  ghost predicate WorkedOff(spec: Fields, allRefs: set<string>, queue: seq<string>) {
    forall r :: r in allRefs ==> r in queue || Targets(spec, r) <= allRefs
  }

  lemma StillWorkedOff(spec: Fields, known: set<string>, rest: seq<string>, ref: string, longer: seq<string>)
    requires WorkedOff(spec, known, rest + [ref])
    requires forall r :: r in longer <==> r in rest || r in Targets(spec, ref) - known
    ensures WorkedOff(spec, known + Targets(spec, ref), longer)
  {
    forall r | r in known + Targets(spec, ref) && r !in longer ensures Targets(spec, r) <= known + Targets(spec, ref) {
      assert r in known && (r in rest + [ref] ==> r == ref);
    }
  }

  lemma AllQueued(spec: Fields, allRefs: set<string>, queue: seq<string>)
    requires forall r :: r in allRefs ==> r in queue
    ensures WorkedOff(spec, allRefs, queue)
  {
  }

  lemma TargetsStayInside(spec: Fields, refs: set<string>, ref: string)
    requires Closed(spec, refs) && ref in refs
    ensures Targets(spec, ref) <= refs
  {
  }

  lemma WorkedOffIsClosed(spec: Fields, allRefs: set<string>)
    requires WorkedOff(spec, allRefs, [])
    ensures Closed(spec, allRefs)
  {
  }

  /** The worklist: every reference taken from it has its targets added. */
  method CollectRefsTransitive(spec: Fields, initialRefs: set<string>) returns (allRefs: set<string>)
    ensures allRefs == Closure(spec, initialRefs)
  {
    hide Targets, WorkedOff, Closure, Closed, Refs;
    ClosureIsLeast(spec, initialRefs);
    allRefs := initialRefs;
    var queue := Spread(initialRefs);
    AllQueued(spec, initialRefs, queue);
    while |queue| > 0
      invariant initialRefs <= allRefs <= Closure(spec, initialRefs)
      invariant forall r :: r in queue ==> r in allRefs
      invariant WorkedOff(spec, allRefs, queue)
      decreases Universe(spec, initialRefs) - allRefs, |queue|
    {
      ghost var known := allRefs;
      var ref := queue[|queue| - 1];
      assert queue == queue[..|queue| - 1] + [ref];
      ghost var rest := queue[..|queue| - 1];
      queue := queue[..|queue| - 1];
      var nested := FollowRef(spec, ref);
      TargetsInUniverse(spec, initialRefs, ref);
      TargetsStayInside(spec, Closure(spec, initialRefs), ref);
      allRefs, queue := PushNew(nested, allRefs, queue);
      StillWorkedOff(spec, known, rest, ref, queue);
      if !(nested <= known) {
        var r :| r in nested && r !in known;
        assert r in Universe(spec, initialRefs) - known && r in allRefs;
      }
    }
    WorkedOffIsClosed(spec, allRefs);
  }
}
