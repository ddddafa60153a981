/**
 Specifications as finite trees, the references in them, and how a reference resolves: section 4 of RFC 6901
 without the unescaping of "~0" and "~1", as the script does it.
 */
module SpecTree {
  import opened Common

  type Fields = map<string, Node>

  datatype Node =
    | Null
    | Bool(b: bool)
    | Num(n: real)
    | Str(s: string)
    | Arr(items: seq<Node>)
    | Obj(fields: Fields)

  /** The key whose string value is a reference. */
  const REF: string := "$ref"

  /** Every reference anywhere in a tree. */
  function Refs(n: Node): set<string>
    decreases n, 0
  {
    match n
    case Arr(items) => set i, r | 0 <= i < |items| && r in Refs(items[i]) :: r
    case Obj(fields) => set k, r | k in fields && r in FieldRefs(k, fields[k]) :: r
    case _ => {}
  }

  /** What one field contributes: its own string if it is a reference, else what is below it. */
  function FieldRefs(key: string, value: Node): set<string>
    decreases value, 1
  {
    if key == REF && value.Str? then {value.s} else Refs(value)
  }

  /** The recursive collector: adds the references of a tree to an accumulated set, in any order of the fields. */
  method CollectRefs(n: Node, refs: set<string>) returns (all: set<string>)
    ensures all == refs + Refs(n)
    decreases n
  {
    all := refs;
    match n
    case Arr(items) =>
      for i := 0 to |items|
        invariant forall r :: r in all <==> r in refs || exists j :: 0 <= j < i && r in Refs(items[j])
      {
        all := CollectRefs(items[i], all);
      }
    case Obj(fields) =>
      var rest := fields.Keys;
      while rest != {}
        invariant rest <= fields.Keys
        invariant forall r :: r in all <==>
          r in refs || exists k :: k in fields.Keys - rest && r in FieldRefs(k, fields[k])
        decreases |rest|
      {
        ghost var before := fields.Keys - rest;
        var key :| key in rest;
        var value := fields[key];
        if key == REF && value.Str? {
          all := all + {value.s};
        } else {
          all := CollectRefs(value, all);
        }
        rest := rest - {key};
        assert forall k :: k in fields.Keys - rest <==> k in before || k == key;
      }
    case _ =>
  }

  // ------------------------------------------------------------------------------------------------
  // Pointers
  // ------------------------------------------------------------------------------------------------

  /** The name of a property that is an index. */
  function Decimal(n: nat): (name: string)
    ensures name != "" && forall i :: 0 <= i < |name| ==> '0' <= name[i] <= '9'
  {
    (if n < 10 then "" else Decimal(n / 10)) + [('0' as int + n % 10) as char]
  }

  lemma {:induction false} DecimalIsInjective(m: nat, n: nat)
    requires Decimal(m) == Decimal(n)
    ensures m == n
  {
    var x, y := Decimal(m), Decimal(n);
    assert x[|x| - 1] as int - '0' as int == m % 10 && y[|y| - 1] as int - '0' as int == n % 10;
    assert x[..|x| - 1] == y[..|y| - 1];
    if m >= 10 && n >= 10 {
      assert x[..|x| - 1] == Decimal(m / 10) && y[..|y| - 1] == Decimal(n / 10);
      DecimalIsInjective(m / 10, n / 10);
    }
  }

  /** The properties of an array or a string, by index. */
  function Numbered(items: seq<Node>): Fields {
    if items == [] then map[]
    else Numbered(items[..|items| - 1])[Decimal(|items| - 1) := items[|items| - 1]]
  }

  lemma DecimalsDiffer(n: nat)
    ensures forall i :: 0 <= i < n ==> Decimal(i) != Decimal(n)
  {
    forall i | 0 <= i < n ensures Decimal(i) != Decimal(n) {
      if Decimal(i) == Decimal(n) { DecimalIsInjective(i, n); }
    }
  }

  lemma {:induction false} NumberedItems(items: seq<Node>)
    ensures forall i :: 0 <= i < |items| ==> Decimal(i) in Numbered(items) && Numbered(items)[Decimal(i)] == items[i]
    ensures forall k :: k in Numbered(items) ==> exists i :: 0 <= i < |items| && k == Decimal(i)
  {
    hide Decimal;
    if items != [] {
      var n := |items| - 1;
      NumberedItems(items[..n]);
      DecimalsDiffer(n);
      assert Numbered(items) == Numbered(items[..n])[Decimal(n) := items[n]];
    }
  }

  /** The properties of a value of its own; only objects, arrays and strings have any. */
  function Entries(n: Option<Node>): Fields {
    match n
    case Some(Obj(fields)) => fields
    case Some(Arr(items)) => Numbered(items)
    case Some(Str(s)) => Numbered(seq(|s|, i requires 0 <= i < |s| => Str([s[i]])))
    case _ => map[]
  }

  /** A property read. */
  function Field(n: Option<Node>, key: string): Option<Node> {
    if key in Entries(n) then Some(Entries(n)[key]) else None
  }

  function Resolve(n: Option<Node>, parts: seq<string>): Option<Node>
    decreases |parts|
  {
    if parts == [] then n else Resolve(Field(n, parts[0]), parts[1..])
  }

  function RefsOf(n: Option<Node>): set<string> {
    if n.Some? then Refs(n.value) else {}
  }

  /** The references one reference leads to: those in the subtree it resolves to. */
  function Targets(spec: Fields, ref: string): set<string> {
    if "#/" <= ref then RefsOf(Resolve(Some(Obj(spec)), Split(ref[2..], '/'))) else {}
  }

  lemma FieldHasRefs(n: Option<Node>, key: string)
    ensures RefsOf(Field(n, key)) <= RefsOf(n)
    ensures Field(n, key).Some? ==> FieldRefs(key, Field(n, key).value) <= RefsOf(n)
  {
    assert REF[0] == '$';
    match n
    case Some(Obj(fields)) =>
      if key in fields { assert forall r :: r in Refs(fields[key]) ==> r in FieldRefs(key, fields[key]); }
    case Some(Arr(items)) => NumberedItems(items);
    case Some(Str(s)) => NumberedItems(seq(|s|, i requires 0 <= i < |s| => Str([s[i]])));
    case _ =>
  }

  /** Resolving never leads to references the tree does not have. */
  lemma {:induction false} ResolveRefs(n: Option<Node>, parts: seq<string>)
    ensures RefsOf(Resolve(n, parts)) <= RefsOf(n)
    decreases |parts|
  {
    if parts != [] {
      FieldHasRefs(n, parts[0]);
      ResolveRefs(Field(n, parts[0]), parts[1..]);
    }
  }

  /** Following the properties of the path leads to this string, as the value of a property of that name. */
  ghost predicate RefAt(n: Node, path: seq<string>, r: string) {
    path != [] && path[|path| - 1] == "$ref" && Resolve(Some(n), path) == Some(Str(r))
  }

  lemma {:induction false} RefHasPath(n: Node, r: string) returns (path: seq<string>)
    requires r in Refs(n)
    ensures RefAt(n, path, r)
    decreases n
  {
    var key, value;
    match n {
      case Arr(items) =>
        var i :| 0 <= i < |items| && r in Refs(items[i]);
        NumberedItems(items);
        key, value := Decimal(i), items[i];
      case Obj(fields) =>
        key :| key in fields && r in FieldRefs(key, fields[key]);
        value := fields[key];
    }
    if n.Obj? && key == REF && value.Str? {
      path := [key];
      assert path[1..] == [] && Resolve(Some(n), path) == Resolve(Field(Some(n), key), []);
    } else {
      var rest := RefHasPath(value, r);
      path := [key] + rest;
      assert path[1..] == rest && path[|path| - 1] == rest[|rest| - 1];
    }
  }

  lemma {:induction false} ResolveNothing(parts: seq<string>)
    ensures Resolve(None, parts) == None
    decreases |parts|
  {
    if parts != [] { ResolveNothing(parts[1..]); }
  }

  lemma {:induction false} PathHasRef(n: Node, path: seq<string>, r: string)
    requires RefAt(n, path, r)
    ensures r in Refs(n)
    decreases |path|
  {
    FieldHasRefs(Some(n), path[0]);
    var value := Field(Some(n), path[0]);
    if |path| == 1 {
      assert path[1..] == [] && Resolve(value, []) == value;
    } else {
      if value.None? { ResolveNothing(path[1..]); }
      PathHasRef(value.value, path[1..], r);
    }
  }

  /** The references of a tree are the strings found under the name of a reference along any path into it. */
  lemma RefsAreFoundByPaths(n: Node, r: string)
    ensures r in Refs(n) <==> exists path :: RefAt(n, path, r)
  {
    if r in Refs(n) {
      var path := RefHasPath(n, r);
    } else if path :| RefAt(n, path, r) {
      PathHasRef(n, path, r);
    }
  }

  lemma TargetsOfTail(spec: Fields, tail: string)
    ensures Targets(spec, "#/" + tail) == RefsOf(Resolve(Some(Obj(spec)), Split(tail, '/')))
  {
    hide Resolve, Split, Refs;
    assert ("#/" + tail)[2..] == tail;
  }

  lemma OthersLeadNowhere(spec: Fields)
    ensures forall ref :: !("#/" <= ref) ==> Targets(spec, ref) == {}
  {
  }

  /** A local pointer leads to what is found along its pieces, and any other reference leads nowhere. */
  lemma TargetsOfPointer(spec: Fields, parts: seq<string>, r: string)
    requires parts != [] && forall i :: 0 <= i < |parts| ==> '/' !in parts[i]
    ensures r in Targets(spec, "#/" + Join(parts, '/')) <==>
            var found := Resolve(Some(Obj(spec)), parts);
            found.Some? && exists path :: RefAt(found.value, path, r)
    ensures forall ref :: !("#/" <= ref) ==> Targets(spec, ref) == {}
  {
    OthersLeadNowhere(spec);
    hide RefAt, Refs, Resolve, Split, Join, Targets;
    TargetsOfTail(spec, Join(parts, '/'));
    JoinSplits(parts, '/');
    var found := Resolve(Some(Obj(spec)), parts);
    if found.Some? { RefsAreFoundByPaths(found.value, r); }
  }
}
