/**
 Pruning the components of a specification to what a set of root references needs, and what that guarantees:
 the result is closed and minimal, and pruning again changes nothing exactly when all that is left is still needed.
 */
module SpecPrune {
  import opened Common
  import opened SpecTree
  import opened SpecClosure

  const CHANNELS: string := "channels"
  const OPERATIONS: string := "operations"
  const COMPONENTS: string := "components"

  /** The reference that names a component. */
  function Canonical(section: string, name: string): string {
    "#/components/" + section + "/" + name
  }

  function Top(spec: Fields, key: string): Option<Node> {
    if key in spec then Some(spec[key]) else None
  }

  /** What counts as true in a condition. */
  predicate Truthy(n: Node) {
    n != Null && n != Bool(false) && n != Num(0.0) && n != Str("")
  }

  predicate Present(n: Option<Node>) {
    n.Some? && Truthy(n.value)
  }

  /** Listing the entries of a null section raises a TypeError. */
  predicate NullSection(components: Option<Node>) {
    exists s :: s in Entries(components) && Entries(components)[s] == Null
  }

  function PrunedSection(section: string, entries: Fields, kept: set<string>): Fields {
    map n | n in entries && Canonical(section, n) in kept :: entries[n]
  }

  function Pruned(components: Option<Node>, kept: set<string>): Option<Node> {
    if Present(components) then
      var sections := Entries(components);
      Some(Obj(map s | s in sections :: Obj(PrunedSection(s, Entries(Some(sections[s])), kept))))
    else components
  }

  /** The sections done so far hold what they should. */
  predicate SectionsPruned(pruned: Fields, sections: Fields, kept: set<string>) {
    forall s :: s in pruned ==>
      s in sections && sections[s] != Null
      && pruned[s] == Obj(PrunedSection(s, Entries(Some(sections[s])), kept))
  }

  lemma AllSectionsPruned(pruned: Fields, components: Option<Node>, kept: set<string>)
    requires Present(components) && SectionsPruned(pruned, Entries(components), kept)
    requires pruned.Keys == Entries(components).Keys
    ensures !NullSection(components) && Some(Obj(pruned)) == Pruned(components, kept)
  {
    assert pruned == Pruned(components, kept).value.fields;
  }

  lemma NothingToPrune(components: Option<Node>, kept: set<string>)
    requires !Present(components)
    ensures !NullSection(components) && Pruned(components, kept) == components
  {
  }

  lemma HasNullSection(components: Option<Node>, section: string)
    requires section in Entries(components) && Entries(components)[section] == Null
    ensures NullSection(components)
  {
  }

  method PruneSection(section: string, entries: Fields, kept: set<string>) returns (pruned: Fields)
    ensures pruned == PrunedSection(section, entries, kept)
  {
    pruned := map[];
    var rest := entries.Keys;
    while rest != {}
      invariant rest <= entries.Keys
      invariant pruned == map n | n in entries && n !in rest && Canonical(section, n) in kept :: entries[n]
      decreases |rest|
    {
      var n :| n in rest;
      if "#/components/" + section + "/" + n in kept {
        pruned := pruned[n := entries[n]];
      }
      rest := rest - {n};
    }
  }

  /** Keeps the components whose canonical reference is kept; every section stays, if only as an empty one. */
  method PruneComponents(components: Option<Node>, kept: set<string>) returns (r: Result<Option<Node>>)
    ensures r == if NullSection(components) then Failed else Ok(Pruned(components, kept))
  {
    hide PrunedSection, Pruned, NullSection, Entries;
    if components.None? || !Truthy(components.value) {
      NothingToPrune(components, kept);
      return Ok(components);
    }
    var sections := Entries(components);
    var pruned: Fields := map[];
    var rest := sections.Keys;
    while rest != {}
      invariant rest <= sections.Keys && pruned.Keys == sections.Keys - rest
      invariant SectionsPruned(pruned, sections, kept)
      decreases |rest|
    {
      var s :| s in rest;
      if sections[s].Null? {
        HasNullSection(components, s);
        return Failed;
      }
      var section := PruneSection(s, Entries(Some(sections[s])), kept);
      pruned, rest := pruned[s := Obj(section)], rest - {s};
    }
    AllSectionsPruned(pruned, components, kept);
    return Ok(Some(Obj(pruned)));
  }

  // ------------------------------------------------------------------------------------------------
  // The filtered specification, given what replaces its channels and operations
  // ------------------------------------------------------------------------------------------------

  function WithComponents(spec: Fields, replaced: Fields, components: Option<Node>): Fields {
    spec + replaced + if components.Some? then map[COMPONENTS := components.value] else map[]
  }

  /** `replaced` holds the reduced channels and operations; components are pruned to what `roots` need. */
  ghost function Assembled(spec: Fields, replaced: Fields, roots: set<string>): Fields {
    WithComponents(spec, replaced, Pruned(Top(spec, COMPONENTS), Closure(spec, roots)))
  }

  /** Only channels and operations are replaced, each by a part of what was there. */
  ghost predicate Reduces(spec: Fields, replaced: Fields) {
    && replaced.Keys <= {CHANNELS, OPERATIONS}
    && forall k :: k in replaced ==>
         && replaced[k].Obj?
         && forall n :: n in replaced[k].fields ==> Field(Top(spec, k), n) == Some(replaced[k].fields[n])
  }

  function Component(spec: Fields, section: string, name: string): Option<Node> {
    Field(Field(Top(spec, COMPONENTS), section), name)
  }

  lemma AssembledParts(spec: Fields, replaced: Fields, roots: set<string>)
    requires Reduces(spec, replaced)
    ensures var out := Assembled(spec, replaced, roots);
            && (forall k :: k in replaced ==> Top(out, k) == Some(replaced[k]))
            && (forall k :: k !in replaced && k != COMPONENTS ==> Top(out, k) == Top(spec, k))
            && Top(out, COMPONENTS) == Pruned(Top(spec, COMPONENTS), Closure(spec, roots))
            && forall s, n :: Component(out, s, n) ==
                              if Canonical(s, n) in Closure(spec, roots) then Component(spec, s, n) else None
  {
  }

  // ------------------------------------------------------------------------------------------------
  // Canonical references
  // ------------------------------------------------------------------------------------------------

  predicate SlashFree(s: string) { '/' !in s }

  lemma CanonicalSplits(section: string, name: string)
    requires SlashFree(section) && SlashFree(name)
    ensures "#/" <= Canonical(section, name)
    ensures Split(Canonical(section, name)[2..], '/') == [COMPONENTS, section, name]
  {
    var tail := section + "/" + name;
    assert Canonical(section, name) == "#/" + (COMPONENTS + "/" + tail);
    assert Canonical(section, name)[2..] == COMPONENTS + "/" + tail;
    SplitFirst(COMPONENTS, tail, '/');
    SplitFirst(section, name, '/');
    SplitWhole(name, '/');
    assert [COMPONENTS] + ([section] + [name]) == [COMPONENTS, section, name];
  }

  lemma ResolveThree(n: Option<Node>, a: string, b: string, c: string)
    ensures Resolve(n, [a, b, c]) == Field(Field(Field(n, a), b), c)
  {
    assert [a, b, c][1..] == [b, c] && [b, c][1..] == [c] && [c][1..] == [];
    assert Resolve(n, [a, b, c]) == Resolve(Field(n, a), [b, c]);
    assert Resolve(Field(n, a), [b, c]) == Resolve(Field(Field(n, a), b), [c]);
  }

  /** A canonical reference resolves to its component. */
  lemma CanonicalResolves(spec: Fields, section: string, name: string)
    requires SlashFree(section) && SlashFree(name)
    ensures Resolve(Some(Obj(spec)), Split(Canonical(section, name)[2..], '/')) == Component(spec, section, name)
    ensures Targets(spec, Canonical(section, name)) == RefsOf(Component(spec, section, name))
  {
    CanonicalSplits(section, name);
    var parts := [COMPONENTS, section, name];
    ResolveThree(Some(Obj(spec)), COMPONENTS, section, name);
  }

  // ------------------------------------------------------------------------------------------------
  // Closed: what is kept finds what it refers to
  // ------------------------------------------------------------------------------------------------

  predicate SlashFreeNames(spec: Fields) {
    var sections := Entries(Top(spec, COMPONENTS));
    forall s :: s in sections ==> SlashFree(s) && forall n :: n in Entries(Some(sections[s])) ==> SlashFree(n)
  }

  /** The reference occurs in a reduced part or in a kept component of the output. */
  ghost predicate Occurs(out: Fields, replaced: Fields, ref: string) {
    || (exists k :: k in replaced && ref in RefsOf(Top(out, k)))
    || (exists s, n :: ref in RefsOf(Component(out, s, n)))
  }

  /** Every reference that occurs in the filtered parts was followed. */
  lemma OccurringIsKept(spec: Fields, replaced: Fields, roots: set<string>, ref: string)
    requires SlashFreeNames(spec) && Reduces(spec, replaced)
    requires forall k :: k in replaced ==> Refs(replaced[k]) <= roots
    requires Occurs(Assembled(spec, replaced, roots), replaced, ref)
    ensures ref in Closure(spec, roots)
  {
    hide Closure, Canonical, Refs, Pruned;
    var out, kept := Assembled(spec, replaced, roots), Closure(spec, roots);
    AssembledParts(spec, replaced, roots);
    ClosureIsLeast(spec, roots);
    if s, n :| ref in RefsOf(Component(out, s, n)) {
      assert Canonical(s, n) in kept && Component(spec, s, n).Some?;
      assert s in Entries(Top(spec, COMPONENTS)) && n in Entries(Some(Entries(Top(spec, COMPONENTS))[s]));
      CanonicalResolves(spec, s, n);
      assert Targets(spec, Canonical(s, n)) <= kept;
    }
  }

  /** A canonical reference that occurs in the output and resolved in the input resolves to the same component. */
  lemma OutputIsClosed(spec: Fields, replaced: Fields, roots: set<string>, section: string, name: string)
    requires SlashFreeNames(spec) && Reduces(spec, replaced)
    requires forall k :: k in replaced ==> Refs(replaced[k]) <= roots
    requires Occurs(Assembled(spec, replaced, roots), replaced, Canonical(section, name))
    requires SlashFree(section) && SlashFree(name) && Component(spec, section, name).Some?
    ensures var out := Assembled(spec, replaced, roots);
            && Component(out, section, name) == Component(spec, section, name)
            && Resolve(Some(Obj(out)), Split(Canonical(section, name)[2..], '/')) == Component(spec, section, name)
  {
    OccurringIsKept(spec, replaced, roots, Canonical(section, name));
    AssembledParts(spec, replaced, roots);
    CanonicalSplits(section, name);
    ResolveThree(Some(Obj(Assembled(spec, replaced, roots))), COMPONENTS, section, name);
  }

  /** Every component of the output is at the end of a chain of references that starts in a reduced part. */
  lemma OutputIsMinimal(spec: Fields, replaced: Fields, roots: set<string>, section: string, name: string)
    requires Reduces(spec, replaced)
    requires Component(Assembled(spec, replaced, roots), section, name).Some?
    ensures exists path :: Chain(spec, roots, path, Canonical(section, name))
  {
    AssembledParts(spec, replaced, roots);
    ClosureIsReachability(spec, roots, Canonical(section, name));
  }

  /** The components of the output are, unchanged, exactly those that a chain from a reduced part leads to. */
  lemma ComponentsExactly(spec: Fields, replaced: Fields, roots: set<string>, section: string, name: string)
    requires Reduces(spec, replaced)
    ensures Component(Assembled(spec, replaced, roots), section, name) ==
            if exists path :: Chain(spec, roots, path, "#/components/" + section + "/" + name)
            then Component(spec, section, name) else None
  {
    hide Closure, Pruned;
    AssembledParts(spec, replaced, roots);
    ClosureIsReachability(spec, roots, Canonical(section, name));
  }

  // ------------------------------------------------------------------------------------------------
  // Filtering again
  // ------------------------------------------------------------------------------------------------

  ghost predicate AllNeeded(spec: Fields, roots: set<string>) {
    forall s, n :: Component(spec, s, n).Some? ==> Canonical(s, n) in Closure(spec, roots)
  }

  lemma SameTops(a: Fields, b: Fields)
    requires forall k :: Top(a, k) == Top(b, k)
    ensures a == b
  {
    forall k ensures k in a <==> k in b {
      assert Top(a, k) == Top(b, k);
    }
    forall k | k in a ensures a[k] == b[k] {
      assert Top(a, k) == Top(b, k);
    }
  }

  /** Components as a filter leaves them: absent, or falsy, or an object of objects. */
  predicate Regular(components: Option<Node>) {
    Present(components) ==>
      components.value.Obj? && forall s :: s in components.value.fields ==> components.value.fields[s].Obj?
  }

  /** Pruning leaves the components alone exactly when they are an object of objects and all of them are needed. */
  lemma PruneIsIdentity(components: Option<Node>, kept: set<string>)
    ensures Pruned(components, kept) == components <==>
            Regular(components) && forall s, n :: Field(Field(components, s), n).Some? ==> Canonical(s, n) in kept
  {
    if Present(components) && Regular(components) {
      var sections, pruned := components.value.fields, Pruned(components, kept).value.fields;
      forall s | s in sections
        ensures pruned[s] == sections[s] <==> forall n :: n in sections[s].fields ==> Canonical(s, n) in kept
      {
        var entries, left := sections[s].fields, PrunedSection(s, Entries(Some(sections[s])), kept);
        assert left == entries <==> left.Keys == entries.Keys;
      }
      assert forall s, n :: Field(Field(components, s), n).Some? <==> s in sections && n in sections[s].fields;
      assert pruned == sections <==> forall s :: s in sections ==> pruned[s] == sections[s];
    }
  }

  /**
   A specification is its own filtered form exactly when its parts are reduced, its components an object of objects,
   and all of them needed.
   */
  lemma FixedPoint(spec: Fields, replaced: Fields, roots: set<string>)
    requires Reduces(spec, replaced)
    ensures Assembled(spec, replaced, roots) == spec <==>
            && (forall k :: k in replaced ==> Top(spec, k) == Some(replaced[k]))
            && Regular(Top(spec, COMPONENTS)) && AllNeeded(spec, roots)
  {
    var out := Assembled(spec, replaced, roots);
    AssembledParts(spec, replaced, roots);
    PruneIsIdentity(Top(spec, COMPONENTS), Closure(spec, roots));
    if out == spec {
      forall k | k in replaced ensures Top(spec, k) == Some(replaced[k]) {}
    } else if (forall k :: k in replaced ==> Top(spec, k) == Some(replaced[k])) {
      if Top(out, COMPONENTS) == Top(spec, COMPONENTS) {
        forall k ensures Top(out, k) == Top(spec, k) {}
        SameTops(out, spec);
      }
    }
  }
}
