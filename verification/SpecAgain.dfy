/**
 Filtering a filtered specification: exactly when it changes nothing, a condition on the input that guarantees it,
 and an input for which it does not.
 */
module SpecAgain {
  import opened Common
  import opened SpecTree
  import opened SpecClosure
  import opened SpecPrune
  import opened SpecFilter

  // ------------------------------------------------------------------------------------------------
  // A filtered tree has nothing in it that the original does not have in the same place
  // ------------------------------------------------------------------------------------------------

  /** `a` is `b` with some fields of some objects left out; an empty object may stand in for anything. */
  predicate Below(a: Node, b: Option<Node>)
    decreases a
  {
    || a == Obj(map[])
    || Some(a) == b
    || (a.Obj? && forall k :: k in a.fields ==> Below(a.fields[k], Field(b, k)))
  }

  lemma {:induction false} BelowRefs(a: Node, b: Option<Node>)
    requires Below(a, b)
    ensures Refs(a) <= RefsOf(b)
    decreases a
  {
    if a != Obj(map[]) && Some(a) != b {
      forall k, r | k in a.fields && r in FieldRefs(k, a.fields[k]) ensures r in RefsOf(b) {
        var x, y := a.fields[k], Field(b, k);
        assert Below(x, y);
        BelowRefs(x, y);
        FieldHasRefs(b, k);
        assert y.Some? && r in FieldRefs(k, y.value);
      }
    }
  }

  lemma {:induction false} BelowResolves(a: Option<Node>, b: Option<Node>, parts: seq<string>)
    requires a.Some? ==> Below(a.value, b)
    ensures RefsOf(Resolve(a, parts)) <= RefsOf(Resolve(b, parts))
    decreases |parts|
  {
    if parts == [] {
      if a.Some? { BelowRefs(a.value, b); }
    } else {
      BelowResolves(Field(a, parts[0]), Field(b, parts[0]), parts[1..]);
    }
  }

  lemma ReducedBelow(a: Node, b: Option<Node>)
    requires a.Obj? && forall n :: n in a.fields ==> Field(b, n) == Some(a.fields[n])
    ensures Below(a, b)
  {
    if n :| n in a.fields {
      assert Field(b, n).Some?;
    } else {
      assert a.fields == map[];
    }
  }

  lemma PrunedBelow(components: Option<Node>, kept: set<string>)
    ensures Pruned(components, kept).Some? ==> Below(Pruned(components, kept).value, components)
  {
    if Present(components) {
      var sections, pruned := Entries(components), Pruned(components, kept).value.fields;
      forall s | s in pruned ensures Below(pruned[s], Field(components, s)) {
        ReducedBelow(pruned[s], Some(sections[s]));
      }
    }
  }

  lemma AssembledBelow(spec: Fields, replaced: Fields, roots: set<string>)
    requires Reduces(spec, replaced)
    ensures Below(Obj(Assembled(spec, replaced, roots)), Some(Obj(spec)))
  {
    var out := Assembled(spec, replaced, roots);
    AssembledParts(spec, replaced, roots);
    forall k | k in out ensures Below(out[k], Field(Some(Obj(spec)), k)) {
      assert Top(out, k) == Some(out[k]) && Field(Some(Obj(spec)), k) == Top(spec, k);
      if k in replaced {
        ReducedBelow(out[k], Top(spec, k));
      } else if k == COMPONENTS {
        PrunedBelow(Top(spec, COMPONENTS), Closure(spec, roots));
      }
    }
  }

  /** No reference leads further in the filtered tree than it did in the original. */
  lemma TargetsShrink(spec: Fields, replaced: Fields, roots: set<string>, ref: string)
    requires Reduces(spec, replaced)
    ensures Targets(Assembled(spec, replaced, roots), ref) <= Targets(spec, ref)
  {
    if "#/" <= ref {
      AssembledBelow(spec, replaced, roots);
      BelowResolves(Some(Obj(Assembled(spec, replaced, roots))), Some(Obj(spec)), Split(ref[2..], '/'));
    }
  }

  // ------------------------------------------------------------------------------------------------
  // References that survive
  // ------------------------------------------------------------------------------------------------

  /**
   What a reference may point to without being affected by the filter: nothing with references in it, a part
   that is not filtered, the inside of a kept channel or operation, or the inside of a kept component.
   */
  ghost predicate Survives(spec: Fields, replaced: Fields, kept: set<string>, ref: string) {
    || Targets(spec, ref) == {}
    || var parts := Split(ref[2..], '/');
       || (parts[0] !in replaced && parts[0] != COMPONENTS)
       || (parts[0] in replaced && |parts| >= 2 && Field(Some(replaced[parts[0]]), parts[1]).Some?)
       || (parts[0] == COMPONENTS && |parts| >= 3 && Canonical(parts[1], parts[2]) in kept)
  }

  lemma ResolveTwo(n: Option<Node>, parts: seq<string>)
    requires |parts| >= 2
    ensures Resolve(n, parts) == Resolve(Field(Field(n, parts[0]), parts[1]), parts[2..])
  {
    assert parts[1..][1..] == parts[2..];
  }

  lemma SameComponent(spec: Fields, replaced: Fields, roots: set<string>, parts: seq<string>)
    requires Reduces(spec, replaced)
    requires |parts| >= 3 && parts[0] == COMPONENTS && Canonical(parts[1], parts[2]) in Closure(spec, roots)
    ensures Resolve(Some(Obj(Assembled(spec, replaced, roots))), parts) == Resolve(Some(Obj(spec)), parts)
  {
    var out := Assembled(spec, replaced, roots);
    AssembledParts(spec, replaced, roots);
    ResolveTwo(Some(Obj(out)), parts);
    ResolveTwo(Some(Obj(spec)), parts);
    var x, y := Field(Top(out, COMPONENTS), parts[1]), Field(Top(spec, COMPONENTS), parts[1]);
    assert Component(out, parts[1], parts[2]) == Component(spec, parts[1], parts[2]);
    assert y.Some? ==> parts[1] in Entries(Top(spec, COMPONENTS));
    assert parts[2..] != [] && parts[2..][0] == parts[2];
  }

  lemma SurvivorsKeepTargets(spec: Fields, replaced: Fields, roots: set<string>, ref: string)
    requires Reduces(spec, replaced)
    requires Survives(spec, replaced, Closure(spec, roots), ref)
    ensures Targets(Assembled(spec, replaced, roots), ref) == Targets(spec, ref)
  {
    hide Split, Closure, Refs;
    TargetsShrink(spec, replaced, roots, ref);
    if Targets(spec, ref) != {} {
      var parts := Split(ref[2..], '/');
      var out := Assembled(spec, replaced, roots);
      var a, b := Some(Obj(out)), Some(Obj(spec));
      AssembledParts(spec, replaced, roots);
      assert Field(a, parts[0]) == Top(out, parts[0]) && Field(b, parts[0]) == Top(spec, parts[0]);
      if parts[0] in replaced || parts[0] == COMPONENTS {
        ResolveTwo(a, parts);
        ResolveTwo(b, parts);
      }
      if parts[0] == COMPONENTS && parts[0] !in replaced {
        SameComponent(spec, replaced, roots, parts);
      }
    }
  }

  /** If every reference that is followed survives, the same references are followed again, and all components stay. */
  lemma SurvivorsKeepAll(spec: Fields, replaced: Fields, roots: set<string>)
    requires Reduces(spec, replaced)
    requires forall r :: r in Closure(spec, roots) ==> Survives(spec, replaced, Closure(spec, roots), r)
    ensures AllNeeded(Assembled(spec, replaced, roots), roots)
  {
    var out := Assembled(spec, replaced, roots);
    forall r | r in Closure(spec, roots) ensures Targets(out, r) == Targets(spec, r) {
      SurvivorsKeepTargets(spec, replaced, roots, r);
    }
    SameTargetsSameClosure(spec, out, roots);
    AssembledParts(spec, replaced, roots);
  }

  // ------------------------------------------------------------------------------------------------
  // What a reference still leads to, read off the input
  // ------------------------------------------------------------------------------------------------

  /** The references in those entries of a section that are kept. */
  function KeptIn(spec: Fields, kept: set<string>, section: string): set<string> {
    var entries := Entries(Field(Top(spec, COMPONENTS), section));
    set n, r | n in entries && Canonical(section, n) in kept && r in FieldRefs(n, entries[n]) :: r
  }

  function KeptAnywhere(spec: Fields, kept: set<string>): set<string> {
    set s, r | s in Entries(Top(spec, COMPONENTS)) && r in KeptIn(spec, kept, s) :: r
  }

  /** The part of a reference's targets that the filter leaves in its place. */
  function StillLeadsTo(spec: Fields, replaced: Fields, kept: set<string>, ref: string): set<string> {
    if !("#/" <= ref) then {}
    else
      var parts := Split(ref[2..], '/');
      if parts[0] in replaced then
        if |parts| == 1 then Refs(replaced[parts[0]])
        else if Field(Some(replaced[parts[0]]), parts[1]).Some? then Targets(spec, ref)
        else {}
      else if parts[0] == COMPONENTS then
        if |parts| == 1 then KeptAnywhere(spec, kept)
        else if |parts| == 2 then KeptIn(spec, kept, parts[1])
        else if Canonical(parts[1], parts[2]) in kept then Targets(spec, ref)
        else {}
      else Targets(spec, ref)
  }

  /** A chain of references that lead on after the filter, too. */
  ghost predicate KeptChain(spec: Fields, replaced: Fields, roots: set<string>, path: seq<string>, to: string) {
    && path != [] && path[0] in roots && path[|path| - 1] == to
    && forall i :: 0 <= i < |path| - 1 ==> path[i + 1] in StillLeadsTo(spec, replaced, Closure(spec, roots), path[i])
  }

  /** Every component that is kept is at the end of such a chain. */
  ghost predicate KeptForGood(spec: Fields, replaced: Fields, roots: set<string>) {
    forall s, n :: Component(spec, s, n).Some? && Canonical(s, n) in Closure(spec, roots) ==>
      exists path :: KeptChain(spec, replaced, roots, path, Canonical(s, n))
  }

  lemma SectionRefs(spec: Fields, kept: set<string>, section: string)
    ensures RefsOf(Field(Pruned(Top(spec, COMPONENTS), kept), section)) == KeptIn(spec, kept, section)
  {
    var components := Top(spec, COMPONENTS);
    if section in Entries(components) {
      var entries := Entries(Field(components, section));
      var left := PrunedSection(section, entries, kept);
      assert Field(Pruned(components, kept), section) == Some(Obj(left));
      assert forall n :: n in left <==> n in entries && Canonical(section, n) in kept;
      assert forall r :: r in Refs(Obj(left)) <==> exists n :: n in left && r in FieldRefs(n, left[n]);
    }
  }

  lemma ComponentsRefs(spec: Fields, kept: set<string>)
    ensures RefsOf(Pruned(Top(spec, COMPONENTS), kept)) == KeptAnywhere(spec, kept)
  {
    hide Canonical, KeptIn, PrunedSection;
    var components := Top(spec, COMPONENTS);
    if Present(components) {
      var pruned := Pruned(components, kept).value.fields;
      forall s | s in pruned ensures FieldRefs(s, pruned[s]) == KeptIn(spec, kept, s) {
        SectionRefs(spec, kept, s);
        assert pruned[s].Obj? && Field(Pruned(components, kept), s) == Some(pruned[s]);
      }
      assert pruned.Keys == Entries(components).Keys;
      assert forall r :: r in Refs(Obj(pruned)) <==> exists s :: s in pruned && r in FieldRefs(s, pruned[s]);
    }
  }

  lemma ResolveOne(n: Option<Node>, parts: seq<string>)
    requires |parts| == 1
    ensures Resolve(n, parts) == Field(n, parts[0])
  {
    assert parts[1..] == [];
  }

  lemma ReducedTargets(spec: Fields, replaced: Fields, roots: set<string>, parts: seq<string>)
    requires Reduces(spec, replaced) && |parts| >= 2 && parts[0] in replaced
    ensures var there := Resolve(Some(Obj(Assembled(spec, replaced, roots))), parts);
            if Field(Some(replaced[parts[0]]), parts[1]).Some? then there == Resolve(Some(Obj(spec)), parts)
            else RefsOf(there) == {}
  {
    hide Closure, Refs, Pruned;
    var a, b := Some(Obj(Assembled(spec, replaced, roots))), Some(Obj(spec));
    AssembledParts(spec, replaced, roots);
    ResolveTwo(a, parts);
    ResolveTwo(b, parts);
    ResolveNothing(parts[2..]);
  }

  lemma ComponentTargets(spec: Fields, replaced: Fields, roots: set<string>, parts: seq<string>)
    requires Reduces(spec, replaced) && |parts| >= 2 && parts[0] == COMPONENTS
    ensures var there := Resolve(Some(Obj(Assembled(spec, replaced, roots))), parts);
            if |parts| == 2 then RefsOf(there) == KeptIn(spec, Closure(spec, roots), parts[1])
            else if Canonical(parts[1], parts[2]) in Closure(spec, roots) then there == Resolve(Some(Obj(spec)), parts)
            else RefsOf(there) == {}
  {
    hide Closure, Refs, PrunedSection, KeptIn, Canonical;
    var out, kept := Assembled(spec, replaced, roots), Closure(spec, roots);
    AssembledParts(spec, replaced, roots);
    var section := Field(Top(out, COMPONENTS), parts[1]);
    ResolveTwo(Some(Obj(out)), parts);
    SectionRefs(spec, kept, parts[1]);
    if |parts| > 2 {
      assert parts[2..][0] == parts[2];
      ResolveNothing(parts[2..][1..]);
      if Canonical(parts[1], parts[2]) in kept {
        SameComponent(spec, replaced, roots, parts);
      } else {
        assert Component(out, parts[1], parts[2]) == None;
      }
    }
  }

  /** In the filtered tree a reference leads exactly where it still led in the input. */
  lemma TargetsAfter(spec: Fields, replaced: Fields, roots: set<string>, ref: string)
    requires Reduces(spec, replaced)
    ensures Targets(Assembled(spec, replaced, roots), ref) == StillLeadsTo(spec, replaced, Closure(spec, roots), ref)
  {
    hide Split, Closure, Refs, Canonical, KeptIn, KeptAnywhere, PrunedSection;
    if "#/" <= ref {
      var parts, kept := Split(ref[2..], '/'), Closure(spec, roots);
      var out := Assembled(spec, replaced, roots);
      var a := Some(Obj(out));
      AssembledParts(spec, replaced, roots);
      assert Field(a, parts[0]) == Top(out, parts[0]) && Field(Some(Obj(spec)), parts[0]) == Top(spec, parts[0]);
      if |parts| == 1 {
        assert parts[1..] == [] && Targets(out, ref) == RefsOf(Top(out, parts[0])) by { ResolveOne(a, parts); }
        ResolveOne(Some(Obj(spec)), parts);
        ComponentsRefs(spec, kept);
      } else if parts[0] in replaced {
        ReducedTargets(spec, replaced, roots, parts);
      } else if parts[0] == COMPONENTS {
        ComponentTargets(spec, replaced, roots, parts);
      }
    }
  }

  /** All components that were kept are needed again exactly if they are kept for good. */
  lemma NeededWhenKeptForGood(spec: Fields, replaced: Fields, roots: set<string>)
    requires Reduces(spec, replaced)
    ensures AllNeeded(Assembled(spec, replaced, roots), roots) <==> KeptForGood(spec, replaced, roots)
  {
    hide Closure, Targets, StillLeadsTo;
    var out := Assembled(spec, replaced, roots);
    forall path, to ensures Chain(out, roots, path, to) <==> KeptChain(spec, replaced, roots, path, to) {
      forall r ensures Targets(out, r) == StillLeadsTo(spec, replaced, Closure(spec, roots), r) {
        TargetsAfter(spec, replaced, roots, r);
      }
    }
    AssembledParts(spec, replaced, roots);
    forall s, n ensures Canonical(s, n) in Closure(out, roots) <==>
                        exists path :: KeptChain(spec, replaced, roots, path, Canonical(s, n))
    {
      ClosureIsReachability(out, roots, Canonical(s, n));
    }
  }

  // ------------------------------------------------------------------------------------------------
  // Both versions are instances
  // ------------------------------------------------------------------------------------------------

  /** The roots cover every reference in a reduced part. */
  ghost predicate Covers(replaced: Fields, roots: set<string>) {
    forall k :: k in replaced ==> Refs(replaced[k]) <= roots
  }

  lemma InstanceV2(spec: Fields, tag: string)
    ensures Reduces(spec, ReplacedV2(spec, tag)) && Covers(ReplacedV2(spec, tag), RootsV2(spec, tag))
  {
  }

  lemma InstanceV3(spec: Fields, tag: string)
    ensures Reduces(spec, ReplacedV3(spec, tag)) && Covers(ReplacedV3(spec, tag), RootsV3(spec, tag))
  {
    var replaced := ReplacedV3(spec, tag);
    forall k, r | k in replaced && r in Refs(replaced[k]) ensures r in RootsV3(spec, tag) {
      assert k != REF && r in FieldRefs(k, replaced[k]);
    }
  }

  /** The filtered document has regular components, and its filtered parts are in place. */
  lemma AssembledIsRegular(spec: Fields, replaced: Fields, roots: set<string>)
    requires Reduces(spec, replaced) && !NullSection(Top(spec, COMPONENTS))
    ensures var out := Assembled(spec, replaced, roots);
            && Regular(Top(out, COMPONENTS)) && !NullSection(Top(out, COMPONENTS)) && Reduces(out, replaced)
  {
    var out := Assembled(spec, replaced, roots);
    AssembledParts(spec, replaced, roots);
    forall k, n | k in replaced && n in replaced[k].fields
      ensures Field(Top(out, k), n) == Some(replaced[k].fields[n]) {}
  }

  /** All channels that were kept are kept again. */
  lemma KeptAgainV2(spec: Fields, tag: string)
    requires !ThrowsV2(spec)
    ensures var out := FilteredV2(spec, tag);
            && !ThrowsV2(out) && KeptChannelsV2(out, tag) == KeptChannelsV2(spec, tag)
  {
    var out, replaced := FilteredV2(spec, tag), ReplacedV2(spec, tag);
    InstanceV2(spec, tag);
    AssembledIsRegular(spec, replaced, RootsV2(spec, tag));
    AssembledParts(spec, replaced, RootsV2(spec, tag));
    assert Entries(Top(out, CHANNELS)) == KeptChannelsV2(spec, tag);
    assert forall n :: n in KeptChannelsV2(spec, tag) ==> KeptChannelsV2(spec, tag)[n] != Null;
  }

  /** Filtering twice is filtering once exactly when every component kept is reached through what is kept. */
  lemma TwiceV2(spec: Fields, tag: string)
    requires !ThrowsV2(spec)
    ensures var out := FilteredV2(spec, tag);
            FilteredV2(out, tag) == out <==> KeptForGood(spec, ReplacedV2(spec, tag), RootsV2(spec, tag))
  {
    var out, replaced, roots := FilteredV2(spec, tag), ReplacedV2(spec, tag), RootsV2(spec, tag);
    InstanceV2(spec, tag);
    KeptAgainV2(spec, tag);
    AssembledIsRegular(spec, replaced, roots);
    AssembledParts(spec, replaced, roots);
    FixedPoint(out, replaced, roots);
    NeededWhenKeptForGood(spec, replaced, roots);
  }

  /** When every followed reference survives, the v2 filter is idempotent. */
  lemma IdempotentV2(spec: Fields, tag: string)
    requires !ThrowsV2(spec)
    requires forall r :: r in Closure(spec, RootsV2(spec, tag)) ==>
                         Survives(spec, ReplacedV2(spec, tag), Closure(spec, RootsV2(spec, tag)), r)
    ensures FilteredV2(FilteredV2(spec, tag), tag) == FilteredV2(spec, tag)
  {
    InstanceV2(spec, tag);
    SurvivorsKeepAll(spec, ReplacedV2(spec, tag), RootsV2(spec, tag));
    NeededWhenKeptForGood(spec, ReplacedV2(spec, tag), RootsV2(spec, tag));
    TwiceV2(spec, tag);
  }

  lemma ChannelKeptWithOperation(spec: Fields, tag: string, op: string)
    requires op in KeptOperations(spec, tag)
    ensures RelevantV3(KeptOperations(spec, tag)[op], Some(Obj(KeptChannelsV3(spec, tag))), tag)
  {
    var ops, channels := KeptOperations(spec, tag), Top(spec, CHANNELS);
    var name := ChannelName(ops[op]);
    if !HasTag(Some(ops[op]), tag) {
      assert Field(channels, name.value).Some? && UsedBy(ops, name.value);
    }
  }

  lemma OperationsKeptAgain(spec: Fields, tag: string)
    ensures var ops := KeptOperations(spec, tag);
            RelevantOperations(ops, Some(Obj(KeptChannelsV3(spec, tag))), tag) == ops
  {
    var ops := KeptOperations(spec, tag);
    forall n | n in ops ensures RelevantV3(ops[n], Some(Obj(KeptChannelsV3(spec, tag))), tag) {
      ChannelKeptWithOperation(spec, tag, n);
    }
  }

  /** All operations that were kept are kept again: a channel whose tag decided was kept with it. */
  lemma KeptAgainV3(spec: Fields, tag: string)
    requires !ThrowsV3(spec)
    ensures var out := FilteredV3(spec, tag);
            && !ThrowsV3(out)
            && KeptOperations(out, tag) == KeptOperations(spec, tag)
            && KeptChannelsV3(out, tag) == KeptChannelsV3(spec, tag)
  {
    var out, replaced := FilteredV3(spec, tag), ReplacedV3(spec, tag);
    InstanceV3(spec, tag);
    AssembledIsRegular(spec, replaced, RootsV3(spec, tag));
    AssembledParts(spec, replaced, RootsV3(spec, tag));
    var ops, channels := KeptOperations(spec, tag), KeptChannelsV3(spec, tag);
    assert Top(out, OPERATIONS) == Some(Obj(ops)) && Top(out, CHANNELS) == Some(Obj(channels));
    OperationsKeptAgain(spec, tag);
    assert UsedChannels(ops, channels) == channels;
    assert forall n :: n in ops ==> !BadOperation(ops[n]);
  }

  lemma TwiceV3(spec: Fields, tag: string)
    requires !ThrowsV3(spec)
    ensures var out := FilteredV3(spec, tag);
            FilteredV3(out, tag) == out <==> KeptForGood(spec, ReplacedV3(spec, tag), RootsV3(spec, tag))
  {
    var out, replaced, roots := FilteredV3(spec, tag), ReplacedV3(spec, tag), RootsV3(spec, tag);
    InstanceV3(spec, tag);
    KeptAgainV3(spec, tag);
    AssembledIsRegular(spec, replaced, roots);
    AssembledParts(spec, replaced, roots);
    FixedPoint(out, replaced, roots);
    NeededWhenKeptForGood(spec, replaced, roots);
  }

  lemma IdempotentV3(spec: Fields, tag: string)
    requires !ThrowsV3(spec)
    requires forall r :: r in Closure(spec, RootsV3(spec, tag)) ==>
                         Survives(spec, ReplacedV3(spec, tag), Closure(spec, RootsV3(spec, tag)), r)
    ensures FilteredV3(FilteredV3(spec, tag), tag) == FilteredV3(spec, tag)
  {
    InstanceV3(spec, tag);
    SurvivorsKeepAll(spec, ReplacedV3(spec, tag), RootsV3(spec, tag));
    NeededWhenKeptForGood(spec, ReplacedV3(spec, tag), RootsV3(spec, tag));
    TwiceV3(spec, tag);
  }

  lemma ClosedAndMinimal(spec: Fields, replaced: Fields, roots: set<string>, section: string, name: string)
    requires SlashFreeNames(spec) && SlashFree(section) && SlashFree(name)
    requires Reduces(spec, replaced) && Covers(replaced, roots)
    ensures var out, ref := Assembled(spec, replaced, roots), Canonical(section, name);
            && (Occurs(out, replaced, ref) && Component(spec, section, name).Some? ==>
                  Component(out, section, name) == Component(spec, section, name))
            && (Component(out, section, name).Some? ==> exists path :: Chain(spec, roots, path, ref))
  {
    var out := Assembled(spec, replaced, roots);
    if Occurs(out, replaced, Canonical(section, name)) && Component(spec, section, name).Some? {
      OutputIsClosed(spec, replaced, roots, section, name);
    }
    if Component(out, section, name).Some? {
      OutputIsMinimal(spec, replaced, roots, section, name);
    }
  }

  /** The documented promise of both filters: the output is closed and minimal. */
  lemma ClosedAndMinimalV2(spec: Fields, tag: string, section: string, name: string)
    requires SlashFreeNames(spec) && SlashFree(section) && SlashFree(name)
    ensures var out, ref := FilteredV2(spec, tag), Canonical(section, name);
            && (Occurs(out, ReplacedV2(spec, tag), ref) && Component(spec, section, name).Some? ==>
                  Component(out, section, name) == Component(spec, section, name))
            && (Component(out, section, name).Some? ==> exists path :: Chain(spec, RootsV2(spec, tag), path, ref))
  {
    InstanceV2(spec, tag);
    ClosedAndMinimal(spec, ReplacedV2(spec, tag), RootsV2(spec, tag), section, name);
  }

  lemma ClosedAndMinimalV3(spec: Fields, tag: string, section: string, name: string)
    requires SlashFreeNames(spec) && SlashFree(section) && SlashFree(name)
    ensures var out, ref := FilteredV3(spec, tag), Canonical(section, name);
            && (Occurs(out, ReplacedV3(spec, tag), ref) && Component(spec, section, name).Some? ==>
                  Component(out, section, name) == Component(spec, section, name))
            && (Component(out, section, name).Some? ==> exists path :: Chain(spec, RootsV3(spec, tag), path, ref))
  {
    InstanceV3(spec, tag);
    ClosedAndMinimal(spec, ReplacedV3(spec, tag), RootsV3(spec, tag), section, name);
  }

  // ------------------------------------------------------------------------------------------------
  // When the whole output is closed
  // ------------------------------------------------------------------------------------------------

  /** Every canonical reference anywhere in the output that resolved in the input resolves to the same component. */
  ghost predicate WhollyClosed(spec: Fields, out: Fields) {
    forall s, n :: SlashFree(s) && SlashFree(n) && Canonical(s, n) in Refs(Obj(out)) && Component(spec, s, n).Some? ==>
      Component(out, s, n) == Component(spec, s, n)
  }

  /** The reference is in a part that is not filtered, or is a string component that goes by the name of a reference. */
  ghost predicate NotFollowed(spec: Fields, replaced: Fields, kept: set<string>, ref: string) {
    || (exists k :: k in spec && k !in replaced && k != COMPONENTS && ref in FieldRefs(k, spec[k]))
    || (exists s :: Component(spec, s, REF) == Some(Str(ref)) && Canonical(s, REF) in kept)
  }

  /** The canonical references that are not followed and resolve are among those that are. */
  ghost predicate OthersAreKept(spec: Fields, replaced: Fields, kept: set<string>) {
    forall s, n :: SlashFree(s) && SlashFree(n) && NotFollowed(spec, replaced, kept, Canonical(s, n))
                   && Component(spec, s, n).Some? ==>
      Canonical(s, n) in kept
  }

  lemma KeptInIsKept(spec: Fields, roots: set<string>, section: string, ref: string)
    requires SlashFreeNames(spec) && ref in KeptIn(spec, Closure(spec, roots), section)
    ensures ref in Closure(spec, roots)
            || (Component(spec, section, REF) == Some(Str(ref)) && Canonical(section, REF) in Closure(spec, roots))
  {
    hide Closure;
    var entries := Entries(Field(Top(spec, COMPONENTS), section));
    var n :| n in entries && Canonical(section, n) in Closure(spec, roots) && ref in FieldRefs(n, entries[n]);
    if !(n == REF && entries[n].Str?) {
      assert section in Entries(Top(spec, COMPONENTS));
      CanonicalResolves(spec, section, n);
      ClosureIsLeast(spec, roots);
    }
  }

  /** Every reference in the output was followed, or belongs to those that are not. */
  lemma OutputRefs(spec: Fields, replaced: Fields, roots: set<string>, ref: string)
    requires SlashFreeNames(spec) && Reduces(spec, replaced) && Covers(replaced, roots)
    requires ref in Refs(Obj(Assembled(spec, replaced, roots)))
    ensures ref in Closure(spec, roots) || NotFollowed(spec, replaced, Closure(spec, roots), ref)
  {
    hide Closure, KeptIn;
    var out, kept := Assembled(spec, replaced, roots), Closure(spec, roots);
    AssembledParts(spec, replaced, roots);
    ClosureIsLeast(spec, roots);
    var k :| k in out && ref in FieldRefs(k, out[k]);
    assert Top(out, k) == Some(out[k]);
    if k == COMPONENTS {
      ComponentsRefs(spec, kept);
      assert k != REF;
      if Present(Top(spec, COMPONENTS)) {
        var s :| s in Entries(Top(spec, COMPONENTS)) && ref in KeptIn(spec, kept, s);
        KeptInIsKept(spec, roots, s, ref);
      }
    } else if k in replaced {
      assert k != REF && out[k] == replaced[k];
    } else {
      assert k in spec && spec[k] == out[k];
    }
  }

  /** All the references that are not followed are in the output. */
  lemma OthersRemain(spec: Fields, replaced: Fields, roots: set<string>, ref: string)
    requires Reduces(spec, replaced) && NotFollowed(spec, replaced, Closure(spec, roots), ref)
    ensures ref in Refs(Obj(Assembled(spec, replaced, roots)))
  {
    hide Closure;
    var out, kept := Assembled(spec, replaced, roots), Closure(spec, roots);
    AssembledParts(spec, replaced, roots);
    if k :| k in spec && k !in replaced && k != COMPONENTS && ref in FieldRefs(k, spec[k]) {
      assert Top(out, k) == Some(spec[k]) && ref in FieldRefs(k, out[k]);
    } else if s :| Component(spec, s, REF) == Some(Str(ref)) && Canonical(s, REF) in kept {
      ComponentsRefs(spec, kept);
      var entries := Entries(Field(Top(spec, COMPONENTS), s));
      assert REF in entries && Canonical(s, REF) in kept && ref in FieldRefs(REF, entries[REF]);
      assert ref in KeptIn(spec, kept, s) && s in Entries(Top(spec, COMPONENTS));
      assert Top(out, COMPONENTS).Some? && ref in FieldRefs(COMPONENTS, out[COMPONENTS]);
    }
  }

  /** The whole output is closed exactly if the references nobody follows resolve to what is kept anyway. */
  lemma WhollyClosedExactly(spec: Fields, replaced: Fields, roots: set<string>)
    requires SlashFreeNames(spec) && Reduces(spec, replaced) && Covers(replaced, roots)
    ensures WhollyClosed(spec, Assembled(spec, replaced, roots)) <==>
            OthersAreKept(spec, replaced, Closure(spec, roots))
  {
    hide Closure, NotFollowed, Refs, Canonical;
    var out, kept := Assembled(spec, replaced, roots), Closure(spec, roots);
    AssembledParts(spec, replaced, roots);
    forall s, n | Component(spec, s, n).Some?
      ensures Canonical(s, n) in Refs(Obj(out)) && Canonical(s, n) !in kept <==>
              NotFollowed(spec, replaced, kept, Canonical(s, n)) && Canonical(s, n) !in kept
    {
      if Canonical(s, n) in Refs(Obj(out)) { OutputRefs(spec, replaced, roots, Canonical(s, n)); }
      if NotFollowed(spec, replaced, kept, Canonical(s, n)) { OthersRemain(spec, replaced, roots, Canonical(s, n)); }
    }
    assert forall s, n :: Component(out, s, n) == Component(spec, s, n) <==>
                          Canonical(s, n) in kept || Component(spec, s, n).None?;
  }

  lemma WhollyClosedV2(spec: Fields, tag: string)
    requires SlashFreeNames(spec)
    ensures WhollyClosed(spec, FilteredV2(spec, tag)) <==>
            OthersAreKept(spec, ReplacedV2(spec, tag), Closure(spec, RootsV2(spec, tag)))
  {
    InstanceV2(spec, tag);
    WhollyClosedExactly(spec, ReplacedV2(spec, tag), RootsV2(spec, tag));
  }

  lemma WhollyClosedV3(spec: Fields, tag: string)
    requires SlashFreeNames(spec)
    ensures WhollyClosed(spec, FilteredV3(spec, tag)) <==>
            OthersAreKept(spec, ReplacedV3(spec, tag), Closure(spec, RootsV3(spec, tag)))
  {
    InstanceV3(spec, tag);
    WhollyClosedExactly(spec, ReplacedV3(spec, tag), RootsV3(spec, tag));
  }

  // ------------------------------------------------------------------------------------------------
  // A reference into the inside of a component does not keep the component
  // ------------------------------------------------------------------------------------------------

  const X: string := "x"
  const D: string := "d"
  const E: string := "e"
  const DEEP: string := "deep"

  function DeepRef(): string {
    "#/" + (COMPONENTS + "/" + (X + "/" + (D + "/" + DEEP)))
  }

  /** A channel refers into component `d` of section `x`; what it finds there refers to component `e`. */
  function DeepComponents(): Fields {
    map[D := Obj(map[DEEP := Obj(map[REF := Str(Canonical(X, E))])]), E := Obj(map[])]
  }

  function DeepChannel(): Node {
    Obj(map["tags" := Arr([Str("t")]), "message" := Obj(map[REF := Str(DeepRef())])])
  }

  function DeepSpec(): Fields {
    map[CHANNELS := Obj(map["c" := DeepChannel()]), COMPONENTS := Obj(map[X := Obj(DeepComponents())])]
  }

  lemma DeepSplits()
    ensures "#/" <= DeepRef() && Split(DeepRef()[2..], '/') == [COMPONENTS, X, D, DEEP]
    ensures DeepRef() != Canonical(X, E) && DeepRef() != Canonical(X, D)
  {
    hide Split;
    var a, b := D + "/" + DEEP, X + "/" + (D + "/" + DEEP);
    assert DeepRef()[2..] == COMPONENTS + "/" + b;
    SplitFirst(COMPONENTS, b, '/');
    SplitFirst(X, a, '/');
    SplitFirst(D, DEEP, '/');
    SplitWhole(DEEP, '/');
    CanonicalSplits(X, E);
    CanonicalSplits(X, D);
    assert |Split(DeepRef()[2..], '/')| == 4;
  }

  lemma ResolveFour(n: Option<Node>, a: string, b: string, c: string, d: string)
    ensures Resolve(n, [a, b, c, d]) == Field(Field(Field(Field(n, a), b), c), d)
  {
    assert [a, b, c, d][1..] == [b, c, d];
    ResolveThree(Field(n, a), b, c, d);
  }

  /** The deep reference leads to `e` as long as `d` is there, and nowhere when it is not. */
  lemma DeepTargets(spec: Fields)
    ensures Targets(spec, DeepRef()) == RefsOf(Field(Component(spec, X, D), DEEP))
  {
    DeepSplits();
    ResolveFour(Some(Obj(spec)), COMPONENTS, X, D, DEEP);
  }

  lemma OneField(key: string, value: Node)
    ensures Refs(Obj(map[key := value])) == FieldRefs(key, value)
  {
    assert key in map[key := value];
  }

  lemma DeepChannelRefs()
    ensures Refs(DeepChannel()) == {DeepRef()}
  {
    var tags, message := Arr([Str("t")]), Obj(map[REF := Str(DeepRef())]);
    var fields := map["tags" := tags, "message" := message];
    assert Refs(tags) == {};
    OneField(REF, Str(DeepRef()));
    assert FieldRefs("tags", fields["tags"]) == {} && FieldRefs("message", fields["message"]) == {DeepRef()};
    assert DeepRef() in Refs(Obj(fields));
  }

  lemma DeepRoots()
    ensures RootsV2(DeepSpec(), "t") == {DeepRef()}
    ensures !ThrowsV2(DeepSpec())
  {
    hide DeepRef;
    var ch := DeepChannel();
    assert HasTag(Some(ch), "t") by {
      var tags := Field(Some(ch), "tags");
      assert tags.value.items[0] == Str("t");
    }
    assert KeptChannelsV2(DeepSpec(), "t") == map["c" := ch];
    DeepChannelRefs();
    OneField("c", ch);
  }

  lemma TwoStepClosure(spec: Fields, a: string, b: string)
    requires Targets(spec, a) == {b} && Targets(spec, b) == {}
    ensures Closure(spec, {a}) == {a, b}
  {
    hide Targets, Closure;
    ClosureIsLeast(spec, {a});
    assert Closed(spec, {a, b});
  }

  lemma DeepClosure()
    ensures Closure(DeepSpec(), {DeepRef()}) == {DeepRef(), Canonical(X, E)}
  {
    hide Split, Resolve, DeepRef, Closure;
    var spec := DeepSpec();
    assert Field(Top(spec, COMPONENTS), X) == Some(Obj(DeepComponents()));
    DeepTargets(spec);
    OneField(REF, Str(Canonical(X, E)));
    CanonicalResolves(spec, X, E);
    TwoStepClosure(spec, DeepRef(), Canonical(X, E));
  }

  /** A component that only an inner reference leads to is lost when the component around that reference is. */
  lemma LostOnTheWay(spec: Fields, tag: string, inner: string, section: string, name: string)
    requires !ThrowsV2(spec)
    requires RootsV2(spec, tag) == {inner} && Canonical(section, name) in Closure(spec, {inner})
    requires Component(spec, section, name).Some? && inner != Canonical(section, name)
    requires Targets(FilteredV2(spec, tag), inner) == {}
    ensures FilteredV2(FilteredV2(spec, tag), tag) != FilteredV2(spec, tag)
  {
    hide Targets, Closure, KeptChannelsV2;
    var out := FilteredV2(spec, tag);
    InstanceV2(spec, tag);
    AssembledParts(spec, ReplacedV2(spec, tag), {inner});
    assert Component(out, section, name).Some?;
    ClosureIsLeast(out, {inner});
    assert Closed(out, {inner});
    assert Canonical(section, name) !in Closure(out, {inner});
  }

  lemma NameTells(section: string, a: string, b: string)
    requires SlashFree(section) && SlashFree(a) && SlashFree(b) && a != b
    ensures Canonical(section, a) != Canonical(section, b)
  {
    CanonicalSplits(section, a);
    CanonicalSplits(section, b);
    assert [COMPONENTS, section, a][2] != [COMPONENTS, section, b][2];
  }

  /** The filter drops the component around the reference. */
  lemma DeepComponentLost()
    ensures Component(FilteredV2(DeepSpec(), "t"), X, D) == None
  {
    hide Split, Resolve, DeepRef, Targets, Closure, Component, Canonical, ReplacedV2, RootsV2, Refs, Pruned;
    var spec, replaced, roots := DeepSpec(), ReplacedV2(DeepSpec(), "t"), RootsV2(DeepSpec(), "t");
    DeepRoots();
    DeepSplits();
    DeepClosure();
    InstanceV2(spec, "t");
    AssembledParts(spec, replaced, roots);
    NameTells(X, D, E);
    assert Canonical(X, D) !in Closure(spec, roots);
  }

  lemma DeepTargetsAfter()
    ensures Targets(FilteredV2(DeepSpec(), "t"), DeepRef()) == {}
  {
    hide Split, Resolve, DeepRef, Targets, Component, FilteredV2;
    DeepComponentLost();
    DeepTargets(FilteredV2(DeepSpec(), "t"));
  }

  /** Filtering this document keeps `e` without `d`; filtering the result drops `e` as well. */
  lemma DeepReferenceIsNotStable()
    ensures !ThrowsV2(DeepSpec())
    ensures FilteredV2(FilteredV2(DeepSpec(), "t"), "t") != FilteredV2(DeepSpec(), "t")
  {
    hide Split, Resolve, DeepRef, Targets, Closure;
    DeepRoots();
    DeepSplits();
    DeepClosure();
    DeepTargetsAfter();
    LostOnTheWay(DeepSpec(), "t", DeepRef(), X, E);
  }

  // ------------------------------------------------------------------------------------------------
  // A reference from a part that is not filtered dangles
  // ------------------------------------------------------------------------------------------------

  function ServerSpec(): Fields {
    map["servers" := Obj(map[REF := Str(Canonical(X, D))]), COMPONENTS := Obj(map[X := Obj(map[D := Obj(map[])])])]
  }

  /** When the filter keeps nothing that refers to anything, a reference outside loses its component. */
  lemma OutsideReferenceDangles(spec: Fields, tag: string, key: string, section: string, name: string)
    requires SlashFreeNames(spec) && SlashFree(section) && SlashFree(name) && RootsV2(spec, tag) == {}
    requires key in spec && key != CHANNELS && key != COMPONENTS
    requires Canonical(section, name) in FieldRefs(key, spec[key])
    requires Component(spec, section, name).Some?
    ensures !WhollyClosed(spec, FilteredV2(spec, tag))
  {
    hide Canonical, Refs, Closure, KeptChannelsV2;
    ClosureIsLeast(spec, {});
    assert Closed(spec, {}) && Closure(spec, {}) == {};
    assert NotFollowed(spec, ReplacedV2(spec, tag), {}, Canonical(section, name));
    WhollyClosedV2(spec, tag);
  }

  lemma ServersNameComponent()
    ensures Canonical(X, D) in FieldRefs("servers", ServerSpec()["servers"])
    ensures Component(ServerSpec(), X, D) == Some(Obj(map[]))
  {
    hide Canonical;
    OneField(REF, Str(Canonical(X, D)));
    assert Field(Top(ServerSpec(), COMPONENTS), X) == Some(Obj(map[D := Obj(map[])]));
  }

  /** A server refers to component `d` of section `x`; no channel does, so the filter drops it. */
  lemma ServerReferenceDangles()
    ensures SlashFreeNames(ServerSpec()) && !ThrowsV2(ServerSpec())
    ensures !WhollyClosed(ServerSpec(), FilteredV2(ServerSpec(), "t"))
  {
    hide Canonical, Component, FilteredV2, WhollyClosed;
    assert KeptChannelsV2(ServerSpec(), "t") == map[];
    ServersNameComponent();
    OutsideReferenceDangles(ServerSpec(), "t", "servers", X, D);
  }
}
