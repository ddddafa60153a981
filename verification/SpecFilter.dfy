/**
 The two filters: AsyncAPI v2 keeps channels by tag, v3 keeps operations by their own or their channel's tag and
 the channels they use. Both then prune the components.
 */
module SpecFilter {
  import opened Common
  import opened SpecTree
  import opened SpecClosure
  import opened SpecPrune

  // ------------------------------------------------------------------------------------------------
  // Tags
  // ------------------------------------------------------------------------------------------------

  predicate TagIs(t: Node, tag: string) {
    if t.Str? then t.s == tag else Field(Some(t), "name") == Some(Str(tag))
  }

  predicate HasTag(obj: Option<Node>, tag: string) {
    var tags := Field(obj, "tags");
    tags.Some? && tags.value.Arr? && exists i :: 0 <= i < |tags.value.items| && TagIs(tags.value.items[i], tag)
  }

  // ------------------------------------------------------------------------------------------------
  // What the filters are to select, read off the document
  // ------------------------------------------------------------------------------------------------

  /** An item of the tags array is the tag, or an object with the tag as its name. */
  ghost predicate Carries(n: Node, tag: string) {
    && n.Obj? && "tags" in n.fields && n.fields["tags"].Arr?
    && exists i :: 0 <= i < |n.fields["tags"].items| &&
         var item := n.fields["tags"].items[i];
         item == Str(tag) || (item.Obj? && "name" in item.fields && item.fields["name"] == Str(tag))
  }

  /** A v2 channel carries the tag, or its subscribe or publish operation does. */
  ghost predicate SelectedV2(ch: Node, tag: string) {
    || Carries(ch, tag)
    || (ch.Obj? && "subscribe" in ch.fields && Carries(ch.fields["subscribe"], tag))
    || (ch.Obj? && "publish" in ch.fields && Carries(ch.fields["publish"], tag))
  }

  /** The operation's channel is a reference to the channel of this name, with or without the usual prefix. */
  ghost predicate RefersTo(op: Node, name: string) {
    && op.Obj? && "channel" in op.fields && op.fields["channel"].Obj?
    && "$ref" in op.fields["channel"].fields
    && op.fields["channel"].fields["$ref"].Str?
    && var ref := op.fields["channel"].fields["$ref"].s;
       ref == "#/channels/" + name || (ref == name && !("#/channels/" <= ref))
  }

  /** A v3 operation carries the tag, or the channel it refers to does. */
  ghost predicate SelectedV3(op: Node, channels: Fields, tag: string) {
    || Carries(op, tag)
    || exists name :: name != "" && RefersTo(op, name) && name in channels && Carries(channels[name], tag)
  }

  /** The operation is null, or its channel reference is neither absent nor null nor a string. */
  ghost predicate Malformed(op: Node) {
    || op == Null
    || (op.Obj? && "channel" in op.fields && op.fields["channel"].Obj?
        && "$ref" in op.fields["channel"].fields
        && !op.fields["channel"].fields["$ref"].Null? && !op.fields["channel"].fields["$ref"].Str?)
  }

  ghost predicate HasNull(fields: Fields) {
    exists n :: n in fields && fields[n] == Null
  }

  /** Outside the given parts, the document is the same. */
  ghost predicate SameOtherwise(spec: Fields, out: Fields, parts: set<string>) {
    forall k :: k !in parts ==> (k in out <==> k in spec) && (k in spec ==> out[k] == spec[k])
  }

  /** The part of the output holds exactly the selected entries of the input, as they were. */
  ghost predicate Holds(out: Fields, part: string, entries: Fields, selected: set<string>) {
    && part in out && out[part].Obj?
    && forall n :: (n in out[part].fields <==> n in entries && n in selected)
                   && (n in out[part].fields ==> out[part].fields[n] == entries[n])
  }

  /** The channels with the tag are in the output, and nothing else but the components changes. */
  ghost predicate SelectsV2(spec: Fields, tag: string, out: Fields) {
    var channels := Entries(Top(spec, "channels"));
    && Holds(out, "channels", channels, set n | n in channels && SelectedV2(channels[n], tag))
    && SameOtherwise(spec, out, {"channels", "components"})
  }

  /** A channel that is there and that some of the operations refers to. */
  ghost predicate InUse(channels: Fields, ops: Fields, name: string) {
    && name in channels && name != ""
    && channels[name] !in {Null, Bool(false), Num(0.0), Str("")}
    && exists n :: n in ops && RefersTo(ops[n], name)
  }

  /** The operations with the tag and the channels they use are in the output; only the components change besides. */
  ghost predicate SelectsV3(spec: Fields, tag: string, out: Fields) {
    var ops, channels := Entries(Top(spec, "operations")), Entries(Top(spec, "channels"));
    && Holds(out, "operations", ops, set n | n in ops && SelectedV3(ops[n], channels, tag))
    && Holds(out, "channels", channels, set n | n in channels && InUse(channels, out["operations"].fields, n))
    && SameOtherwise(spec, out, {"operations", "channels", "components"})
  }

  /** A property that is no index is one of an object. */
  lemma NamedField(n: Option<Node>, key: string)
    requires key != "" && !('0' <= key[0] <= '9')
    ensures Field(n, key) ==
            if n.Some? && n.value.Obj? && key in n.value.fields then Some(n.value.fields[key]) else None
  {
    match n
    case Some(Arr(items)) => NumberedItems(items);
    case Some(Str(s)) => NumberedItems(seq(|s|, i requires 0 <= i < |s| => Str([s[i]])));
    case _ =>
  }

  lemma TagIsRead(item: Node, tag: string)
    ensures TagIs(item, tag) <==>
            item == Str(tag) || (item.Obj? && "name" in item.fields && item.fields["name"] == Str(tag))
  {
    NamedField(Some(item), "name");
  }

  lemma TagsAreRead(n: Option<Node>, tag: string)
    ensures HasTag(n, tag) <==> n.Some? && Carries(n.value, tag)
  {
    hide TagIs, Field;
    NamedField(n, "tags");
    forall item ensures TagIs(item, tag) <==>
                        item == Str(tag) || (item.Obj? && "name" in item.fields && item.fields["name"] == Str(tag)) {
      TagIsRead(item, tag);
    }
  }

  // ------------------------------------------------------------------------------------------------
  // Version 2
  // ------------------------------------------------------------------------------------------------

  predicate RelevantV2(ch: Node, tag: string) {
    HasTag(Some(ch), tag) || HasTag(Field(Some(ch), "subscribe"), tag) || HasTag(Field(Some(ch), "publish"), tag)
  }

  function RelevantChannels(channels: Fields, tag: string): Fields {
    map n | n in channels && RelevantV2(channels[n], tag) :: channels[n]
  }

  function KeptChannelsV2(spec: Fields, tag: string): Fields {
    RelevantChannels(Entries(Top(spec, CHANNELS)), tag)
  }

  lemma RelevantIsSelectedV2(ch: Node, tag: string)
    ensures RelevantV2(ch, tag) <==> SelectedV2(ch, tag)
  {
    hide HasTag, Carries, Field;
    TagsAreRead(Some(ch), tag);
    TagsAreRead(Field(Some(ch), "subscribe"), tag);
    TagsAreRead(Field(Some(ch), "publish"), tag);
    NamedField(Some(ch), "subscribe");
    NamedField(Some(ch), "publish");
  }

  predicate NullEntry(fields: Fields) {
    exists n :: n in fields && fields[n] == Null
  }

  /** Reading a property of a null channel, or listing a null section, raises a TypeError. */
  predicate ThrowsV2(spec: Fields) {
    NullEntry(Entries(Top(spec, CHANNELS))) || NullSection(Top(spec, COMPONENTS))
  }

  function ReplacedV2(spec: Fields, tag: string): Fields {
    map[CHANNELS := Obj(KeptChannelsV2(spec, tag))]
  }

  function RootsV2(spec: Fields, tag: string): set<string> {
    Refs(Obj(KeptChannelsV2(spec, tag)))
  }

  ghost function FilteredV2(spec: Fields, tag: string): Fields {
    Assembled(spec, ReplacedV2(spec, tag), RootsV2(spec, tag))
  }

  lemma NothingHasNoTag(tag: string)
    ensures !HasTag(None, tag)
  {
  }

  lemma FalsyHasNoTag(n: Node, tag: string)
    requires !Truthy(n)
    ensures !HasTag(Some(n), tag)
  {
  }

  /** The channel has the tag, or one of its operations that are there. */
  method CheckChannel(ch: Node, tag: string) returns (relevant: bool)
    ensures relevant == RelevantV2(ch, tag)
  {
    hide HasTag, Field, Truthy;
    var subscribe, publish := Field(Some(ch), "subscribe"), Field(Some(ch), "publish");
    assert !HasTag(None, tag) by { NothingHasNoTag(tag); }
    relevant := HasTag(Some(ch), tag);
    if subscribe.Some? {
      if Truthy(subscribe.value) {
        relevant := relevant || HasTag(subscribe, tag);
      } else {
        FalsyHasNoTag(subscribe.value, tag);
      }
    }
    if publish.Some? {
      if Truthy(publish.value) {
        relevant := relevant || HasTag(publish, tag);
      } else {
        FalsyHasNoTag(publish.value, tag);
      }
    }
  }

  method KeepChannelsV2(channels: Fields, tag: string) returns (r: Result<Fields>)
    ensures r == if NullEntry(channels) then Failed else Ok(RelevantChannels(channels, tag))
    ensures r.Failed? <==> HasNull(channels)
    ensures r.Ok? ==> forall n :: n in r.value <==> n in channels && SelectedV2(channels[n], tag)
  {
    hide RelevantV2, SelectedV2;
    forall ch ensures RelevantV2(ch, tag) <==> SelectedV2(ch, tag) {
      RelevantIsSelectedV2(ch, tag);
    }
    var kept: Fields := map[];
    var rest := channels.Keys;
    while rest != {}
      invariant rest <= channels.Keys
      invariant forall n :: n in channels && n !in rest ==> channels[n] != Null
      invariant kept == map n | n in channels && n !in rest && RelevantV2(channels[n], tag) :: channels[n]
      decreases |rest|
    {
      var n :| n in rest;
      if channels[n] == Null {
        return Failed;
      }
      var relevant := CheckChannel(channels[n], tag);
      if relevant {
        kept := kept[n := channels[n]];
      }
      rest := rest - {n};
    }
    assert kept == RelevantChannels(channels, tag);
    return Ok(kept);
  }

  lemma FilteredSelectsV2(spec: Fields, tag: string)
    ensures SelectsV2(spec, tag, FilteredV2(spec, tag))
  {
    hide RelevantV2, SelectedV2, Entries, Closure, Pruned;
    var out, channels := FilteredV2(spec, tag), Entries(Top(spec, CHANNELS));
    forall ch ensures RelevantV2(ch, tag) <==> SelectedV2(ch, tag) {
      RelevantIsSelectedV2(ch, tag);
    }
    assert out[CHANNELS] == Obj(KeptChannelsV2(spec, tag));
  }

  method FilterV2(spec: Fields, tag: string) returns (r: Result<Fields>)
    ensures r == if ThrowsV2(spec) then Failed else Ok(FilteredV2(spec, tag))
    ensures r.Failed? <==> HasNull(Entries(Top(spec, "channels"))) || HasNull(Entries(Top(spec, "components")))
    ensures r.Ok? ==> SelectsV2(spec, tag, r.value)
  {
    hide SelectsV2, RelevantChannels, Entries;
    FilteredSelectsV2(spec, tag);
    var kept := KeepChannelsV2(Entries(Top(spec, CHANNELS)), tag);
    if kept.Failed? {
      return Failed;
    }
    var roots := CollectRefs(Obj(kept.value), {});
    var refs := CollectRefsTransitive(spec, roots);
    var components := PruneComponents(Top(spec, COMPONENTS), refs);
    if components.Failed? {
      return Failed;
    }
    assert roots == RootsV2(spec, tag);
    return Ok(WithComponents(spec, map[CHANNELS := Obj(kept.value)], components.value));
  }

  // ------------------------------------------------------------------------------------------------
  // Version 3
  // ------------------------------------------------------------------------------------------------

  const CHANNEL_PREFIX: string := "#/channels/"

  /** The name of the channel an operation refers to, if it refers to one. */
  function ChannelName(op: Node): Option<string> {
    match Field(Field(Some(op), "channel"), REF)
    case Some(Str(s)) => Some(if CHANNEL_PREFIX <= s then s[|CHANNEL_PREFIX|..] else s)
    case _ => None
  }

  /** A null operation has no properties, and a channel reference that is no string cannot be shortened. */
  predicate BadOperation(op: Node) {
    var ref := Field(Field(Some(op), "channel"), REF);
    op == Null || (ref.Some? && !ref.value.Null? && !ref.value.Str?)
  }

  predicate RelevantV3(op: Node, channels: Option<Node>, tag: string) {
    var name := ChannelName(op);
    HasTag(Some(op), tag) || (name.Some? && name.value != "" && HasTag(Field(channels, name.value), tag))
  }

  lemma ReferenceIsRead(op: Node, name: string)
    ensures ChannelName(op) == Some(name) <==> RefersTo(op, name)
    ensures BadOperation(op) <==> Malformed(op)
  {
    hide Field;
    NamedField(Some(op), "channel");
    NamedField(Field(Some(op), "channel"), REF);
    assert CHANNEL_PREFIX <= CHANNEL_PREFIX + name && (CHANNEL_PREFIX + name)[|CHANNEL_PREFIX|..] == name;
  }

  lemma RelevantIsSelectedV3(op: Node, channels: Option<Node>, tag: string)
    ensures RelevantV3(op, channels, tag) <==> SelectedV3(op, Entries(channels), tag)
  {
    hide HasTag, Carries, ChannelName, RefersTo, BadOperation, Malformed, Entries;
    TagsAreRead(Some(op), tag);
    forall name ensures ChannelName(op) == Some(name) <==> RefersTo(op, name) {
      ReferenceIsRead(op, name);
    }
    forall name ensures HasTag(Field(channels, name), tag) <==>
                        name in Entries(channels) && Carries(Entries(channels)[name], tag) {
      TagsAreRead(Field(channels, name), tag);
    }
  }

  function RelevantOperations(ops: Fields, channels: Option<Node>, tag: string): Fields {
    map n | n in ops && RelevantV3(ops[n], channels, tag) :: ops[n]
  }

  function KeptOperations(spec: Fields, tag: string): Fields {
    RelevantOperations(Entries(Top(spec, OPERATIONS)), Top(spec, CHANNELS), tag)
  }

  /** Some of the operations uses the channel. */
  predicate UsedBy(ops: Fields, name: string) {
    name != "" && exists n :: n in ops && ChannelName(ops[n]) == Some(name)
  }

  function UsedChannels(ops: Fields, channels: Fields): Fields {
    map n | n in channels && UsedBy(ops, n) && Truthy(channels[n]) :: channels[n]
  }

  function KeptChannelsV3(spec: Fields, tag: string): Fields {
    UsedChannels(KeptOperations(spec, tag), Entries(Top(spec, CHANNELS)))
  }

  predicate ThrowsV3(spec: Fields) {
    || (exists n :: n in Entries(Top(spec, OPERATIONS)) && BadOperation(Entries(Top(spec, OPERATIONS))[n]))
    || NullSection(Top(spec, COMPONENTS))
  }

  function ReplacedV3(spec: Fields, tag: string): Fields {
    map[OPERATIONS := Obj(KeptOperations(spec, tag)), CHANNELS := Obj(KeptChannelsV3(spec, tag))]
  }

  function RootsV3(spec: Fields, tag: string): set<string> {
    Refs(Obj(ReplacedV3(spec, tag)))
  }

  ghost function FilteredV3(spec: Fields, tag: string): Fields {
    Assembled(spec, ReplacedV3(spec, tag), RootsV3(spec, tag))
  }

  lemma NothingUsed()
    ensures forall name :: !UsedBy(map[], name)
  {
  }

  lemma UsedByOneMore(ops: Fields, n: string, op: Node)
    requires n !in ops
    ensures forall name :: UsedBy(ops[n := op], name) <==>
                           UsedBy(ops, name) || (name != "" && ChannelName(op) == Some(name))
  {
    var more := ops[n := op];
    forall name ensures UsedBy(more, name) <==> UsedBy(ops, name) || (name != "" && ChannelName(op) == Some(name)) {
      if k :| k in ops && ChannelName(ops[k]) == Some(name) {
        assert k in more && ChannelName(more[k]) == Some(name);
      }
      if name != "" && ChannelName(op) == Some(name) {
        assert n in more && ChannelName(more[n]) == Some(name);
      }
    }
  }

  /** The operations worth keeping, and the names of the channels they use. */
  /** How the operations are told apart is how they are to be. */
  lemma OperationsAreRead(channels: Option<Node>, tag: string)
    ensures forall op :: BadOperation(op) <==> Malformed(op)
    ensures forall op :: RelevantV3(op, channels, tag) <==> SelectedV3(op, Entries(channels), tag)
    ensures forall ops, name :: UsedBy(ops, name) <==>
              name != "" && exists n :: n in ops && RefersTo(ops[n], name)
  {
    hide BadOperation, RelevantV3, ChannelName, Malformed, SelectedV3, RefersTo, Entries;
    forall op, name
      ensures ChannelName(op) == Some(name) <==> RefersTo(op, name)
      ensures BadOperation(op) <==> Malformed(op)
    {
      ReferenceIsRead(op, name);
    }
    forall op ensures BadOperation(op) <==> Malformed(op) {
      ReferenceIsRead(op, "");
    }
    forall op ensures RelevantV3(op, channels, tag) <==> SelectedV3(op, Entries(channels), tag) {
      RelevantIsSelectedV3(op, channels, tag);
    }
  }

  /** Exactly the selected operations are kept, and the names are those of the channels they refer to. */
  ghost predicate KeepsSelected(ops: Fields, channels: Fields, tag: string, kept: Fields, names: set<string>) {
    && (forall n :: (n in kept <==> n in ops && SelectedV3(ops[n], channels, tag)) && (n in kept ==> kept[n] == ops[n]))
    && (forall name :: name in names <==> name != "" && exists n :: n in kept && RefersTo(kept[n], name))
  }

  lemma KeptAreSelected(ops: Fields, channels: Option<Node>, tag: string)
    ensures (exists n :: n in ops && BadOperation(ops[n])) <==> exists n :: n in ops && Malformed(ops[n])
    ensures forall names :: (forall name :: name in names <==> UsedBy(RelevantOperations(ops, channels, tag), name)) ==>
              KeepsSelected(ops, Entries(channels), tag, RelevantOperations(ops, channels, tag), names)
  {
    hide BadOperation, RelevantV3, ChannelName, UsedBy, Malformed, SelectedV3, RefersTo, Entries;
    OperationsAreRead(channels, tag);
  }

  method KeepOperations(ops: Fields, channels: Option<Node>, tag: string)
    returns (r: Result<Fields>, names: set<string>)
    ensures r == if exists n :: n in ops && BadOperation(ops[n]) then Failed
                 else Ok(RelevantOperations(ops, channels, tag))
    ensures r.Ok? ==> forall name :: name in names <==> UsedBy(r.value, name)
    ensures r.Failed? <==> exists n :: n in ops && Malformed(ops[n])
    ensures r.Ok? ==> KeepsSelected(ops, Entries(channels), tag, r.value, names)
  {
    hide BadOperation, RelevantV3, ChannelName, UsedBy, Malformed, Entries, KeepsSelected;
    KeptAreSelected(ops, channels, tag);
    NothingUsed();
    var kept: Fields := map[];
    names := {};
    var rest := ops.Keys;
    while rest != {}
      invariant rest <= ops.Keys
      invariant forall n :: n in ops && n !in rest ==> !BadOperation(ops[n])
      invariant kept == map n | n in ops && n !in rest && RelevantV3(ops[n], channels, tag) :: ops[n]
      invariant forall name :: name in names <==> UsedBy(kept, name)
      decreases |rest|
    {
      var n :| n in rest;
      var op := ops[n];
      if BadOperation(op) {
        return Failed, names;
      }
      ghost var before := kept;
      if RelevantV3(op, channels, tag) {
        kept := kept[n := op];
        var name := ChannelName(op);
        if name.Some? && name.value != "" {
          names := names + {name.value};
        }
        UsedByOneMore(before, n, op);
      }
      rest := rest - {n};
    }
    assert kept == RelevantOperations(ops, channels, tag);
    return Ok(kept), names;
  }

  method KeepUsedChannels(names: set<string>, channels: Fields) returns (kept: Fields)
    ensures kept == map n | n in channels && n in names && Truthy(channels[n]) :: channels[n]
  {
    kept := map[];
    var rest := names;
    while rest != {}
      invariant rest <= names
      invariant kept == map n | n in channels && n in names - rest && Truthy(channels[n]) :: channels[n]
      decreases |rest|
    {
      var n :| n in rest;
      if n in channels && Truthy(channels[n]) {
        kept := kept[n := channels[n]];
      }
      rest := rest - {n};
    }
  }

  lemma HoldsSelectedOperations(spec: Fields, tag: string)
    ensures var ops, channels := Entries(Top(spec, OPERATIONS)), Entries(Top(spec, CHANNELS));
            forall n :: (n in KeptOperations(spec, tag) <==> n in ops && SelectedV3(ops[n], channels, tag))
                        && (n in KeptOperations(spec, tag) ==> KeptOperations(spec, tag)[n] == ops[n])
  {
    hide BadOperation, RelevantV3, ChannelName, UsedBy, SelectedV3, RefersTo, Entries;
    OperationsAreRead(Top(spec, CHANNELS), tag);
  }

  lemma HoldsChannelsInUse(ops: Fields, channels: Fields)
    ensures forall n :: (n in UsedChannels(ops, channels) <==> InUse(channels, ops, n))
                        && (n in UsedChannels(ops, channels) ==> UsedChannels(ops, channels)[n] == channels[n])
  {
    hide BadOperation, ChannelName, UsedBy, RefersTo;
    OperationsAreRead(None, "");
  }

  lemma InUseIsThere()
    ensures forall channels, ops, name :: InUse(channels, ops, name) ==> name in channels
  {
  }

  lemma FilteredSelectsV3(spec: Fields, tag: string)
    ensures SelectsV3(spec, tag, FilteredV3(spec, tag))
  {
    hide UsedBy, SelectedV3, InUse, Entries, Closure, Pruned, KeptOperations, UsedChannels;
    var out, channels := FilteredV3(spec, tag), Entries(Top(spec, CHANNELS));
    HoldsSelectedOperations(spec, tag);
    HoldsChannelsInUse(KeptOperations(spec, tag), channels);
    assert out[OPERATIONS] == Obj(KeptOperations(spec, tag));
    assert out[CHANNELS] == Obj(UsedChannels(KeptOperations(spec, tag), channels));
    assert SameOtherwise(spec, out, {OPERATIONS, CHANNELS, COMPONENTS});
    var ops := Entries(Top(spec, OPERATIONS));
    assert Holds(out, "operations", ops, set n | n in ops && SelectedV3(ops[n], channels, tag));
    assert out["operations"].fields == KeptOperations(spec, tag);
    var used := set n | n in channels && InUse(channels, KeptOperations(spec, tag), n);
    assert forall n :: n in UsedChannels(KeptOperations(spec, tag), channels) <==> n in channels && n in used by {
      assert forall n :: InUse(channels, KeptOperations(spec, tag), n) ==> n in channels by { InUseIsThere(); }
    }
    assert Holds(out, "channels", channels, used);
  }

  method FilterV3(spec: Fields, tag: string) returns (r: Result<Fields>)
    ensures r == if ThrowsV3(spec) then Failed else Ok(FilteredV3(spec, tag))
    ensures r.Failed? <==> || HasNull(Entries(Top(spec, "components")))
                           || exists n :: n in Entries(Top(spec, "operations"))
                                          && Malformed(Entries(Top(spec, "operations"))[n])
    ensures r.Ok? ==> SelectsV3(spec, tag, r.value)
  {
    hide SelectsV3, RelevantOperations, Entries, BadOperation, Malformed, RelevantV3, SelectedV3, RefersTo, UsedBy;
    FilteredSelectsV3(spec, tag);
    OperationsAreRead(Top(spec, CHANNELS), tag);
    var ops, names := KeepOperations(Entries(Top(spec, OPERATIONS)), Top(spec, CHANNELS), tag);
    if ops.Failed? {
      return Failed;
    }
    var channels := KeepUsedChannels(names, Entries(Top(spec, CHANNELS)));
    assert channels == KeptChannelsV3(spec, tag);
    var replaced := map[OPERATIONS := Obj(ops.value), CHANNELS := Obj(channels)];
    assert replaced == ReplacedV3(spec, tag);
    var roots := CollectRefs(Obj(replaced), {});
    var refs := CollectRefsTransitive(spec, roots);
    assert roots == RootsV3(spec, tag);
    var components := PruneComponents(Top(spec, COMPONENTS), refs);
    if components.Failed? {
      return Failed;
    }
    return Ok(WithComponents(spec, replaced, components.value));
  }
}
