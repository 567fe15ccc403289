/** frontend/src/forms.tsx, resolve: a schema with its references followed. */
module FormSchemas {
  import opened Wrappers
  import opened JsValues

  datatype Types = One(name: string) | Several(names: seq<string>)

  /** The keywords of a schema the forms read; None where one is absent. */
  datatype Schema = Schema(
    ref: Option<string>, allOf: Schemas, oneOf: Schemas,
    types: Option<Types>, properties: Option<seq<Property>>, required: Option<seq<string>>, items: Option<Schema>,
    minLength: Option<int>, maxItems: Option<int>, pattern: Option<string>, format: Option<string>, values: Option<seq<Js>>)

  datatype Schemas = Absent | These(list: seq<Schema>)

  datatype Property = Property(key: string, raw: Schema)

  const ANYTHING := Schema(None, Absent, Absent, None, None, None, None, None, None, None, None, None)

  function Over<T>(under: Option<T>, over: Option<T>): Option<T> {
    if over.Some? then over else under
  }

  /** Spreading one schema over another. */
  function Spread(a: Schema, b: Schema): Schema {
    Schema(Over(a.ref, b.ref), if b.allOf.These? then b.allOf else a.allOf, if b.oneOf.These? then b.oneOf else a.oneOf, Over(a.types, b.types),
           Over(a.properties, b.properties), Over(a.required, b.required), Over(a.items, b.items),
           Over(a.minLength, b.minLength), Over(a.maxItems, b.maxItems), Over(a.pattern, b.pattern),
           Over(a.format, b.format), Over(a.values, b.values))
  }

  function LastPart(path: string): string {
    if '/' !in path then path else LastPart(path[1..])
  }

  predicate Typed(s: Schema) {
    s.types.Some? && (s.types.value.One? ==> s.types.value.name != "")
  }

  /** Named schemas, and how many references in a row are followed before giving up. */
  datatype Book = Book(contracts: map<string, Schema>, depth: nat)

  /** resolve, following at most `depth` references in a row; None if that is not enough. */
  function Resolve(contracts: map<string, Schema>, raw: Schema, depth: nat): Option<Schema>
    decreases depth, raw
  {
    if raw.ref.Some? && raw.ref.value != "" then
      var name, own := LastPart(raw.ref.value), raw.(ref := None);
      if name !in contracts then Some(Spread(ANYTHING, own))
      else if depth == 0 then None
      else
        var target := Resolve(contracts, contracts[name], depth - 1);
        if target.None? then None else Some(Spread(target.value, own))
    else if raw.allOf.These? then
      var parts := ResolveAll(contracts, raw.allOf.list, depth);
      if parts.None? then None else Some(Spread(SpreadAll(parts.value), raw.(allOf := Absent)))
    else if raw.oneOf.These? && !Typed(raw) && raw.properties.None? then
      var branches := ResolveAll(contracts, raw.oneOf.list, depth);
      if branches.None? then None
      else
        var found := FirstObject(branches.value);
        if found.None? then Some(raw)
        else Some(Spread(found.value, raw).(types := Some(Several(["object", "null"]))))
    else Some(raw)
  }

  function ResolveAll(contracts: map<string, Schema>, raws: seq<Schema>, depth: nat): (r: Option<seq<Schema>>)
    ensures r.Some? ==> |r.value| == |raws|
    decreases depth, raws
  {
    if raws == [] then Some([])
    else
      var first, rest := Resolve(contracts, raws[0], depth), ResolveAll(contracts, raws[1..], depth);
      if first.None? || rest.None? then None else Some([first.value] + rest.value)
  }

  function SpreadAll(parts: seq<Schema>): Schema {
    if parts == [] then ANYTHING else Spread(SpreadAll(parts[..|parts| - 1]), parts[|parts| - 1])
  }

  function FirstObject(branches: seq<Schema>): Option<Schema> {
    if branches == [] then None
    else if branches[0].types == Some(One("object")) then Some(branches[0]) else FirstObject(branches[1..])
  }

  // ----- an answer does not depend on the allowance -----

  lemma {:induction false} MoreDepth(contracts: map<string, Schema>, raw: Schema, depth: nat, more: nat)
    requires depth <= more && Resolve(contracts, raw, depth).Some?
    ensures Resolve(contracts, raw, more) == Resolve(contracts, raw, depth)
    decreases depth, raw
  {
    hide Spread, SpreadAll, FirstObject, LastPart;
    if raw.ref.Some? && raw.ref.value != "" {
      var name := LastPart(raw.ref.value);
      if name in contracts { MoreDepth(contracts, contracts[name], depth - 1, more - 1); }
    } else if raw.allOf.These? {
      MoreDepthAll(contracts, raw.allOf.list, depth, more);
    } else if raw.oneOf.These? && !Typed(raw) && raw.properties.None? {
      MoreDepthAll(contracts, raw.oneOf.list, depth, more);
    }
  }

  lemma {:induction false} MoreDepthAll(contracts: map<string, Schema>, raws: seq<Schema>, depth: nat, more: nat)
    requires depth <= more && ResolveAll(contracts, raws, depth).Some?
    ensures ResolveAll(contracts, raws, more) == ResolveAll(contracts, raws, depth)
    decreases depth, raws
  {
    if raws != [] {
      MoreDepth(contracts, raws[0], depth, more);
      MoreDepthAll(contracts, raws[1..], depth, more);
    }
  }

  // ----- references that do not run in circles always end -----

  /** The names a schema refers to before any reference is followed. */
  function References(raw: Schema): set<string>
    decreases raw
  {
    if raw.ref.Some? && raw.ref.value != "" then {LastPart(raw.ref.value)}
    else if raw.allOf.These? then ReferencesOf(raw.allOf.list)
    else if raw.oneOf.These? then ReferencesOf(raw.oneOf.list)
    else {}
  }

  function ReferencesOf(raws: seq<Schema>): set<string>
    decreases raws
  {
    if raws == [] then {} else References(raws[0]) + ReferencesOf(raws[1..])
  }

  /** Every name refers to lower ones only. */
  ghost predicate Ranked(contracts: map<string, Schema>, rank: string -> nat) {
    forall a, b :: a in contracts && b in References(contracts[a]) && b in contracts ==> rank(b) < rank(a)
  }

  /** Following references ends, after at most as many steps as the highest rank referred to. */
  lemma {:induction false} ResolveEnds(contracts: map<string, Schema>, raw: Schema, depth: nat, rank: string -> nat)
    requires Ranked(contracts, rank)
    requires forall n :: n in References(raw) && n in contracts ==> rank(n) < depth
    ensures Resolve(contracts, raw, depth).Some?
    decreases depth, raw
  {
    hide Spread, SpreadAll, FirstObject, LastPart;
    if raw.ref.Some? && raw.ref.value != "" {
      var name := LastPart(raw.ref.value);
      if name in contracts {
        assert name in References(raw);
        ResolveEnds(contracts, contracts[name], depth - 1, rank);
      }
    } else if raw.allOf.These? {
      ResolveEndsAll(contracts, raw.allOf.list, depth, rank);
    } else if raw.oneOf.These? && !Typed(raw) && raw.properties.None? {
      ResolveEndsAll(contracts, raw.oneOf.list, depth, rank);
    }
  }

  lemma {:induction false} ResolveEndsAll(contracts: map<string, Schema>, raws: seq<Schema>, depth: nat, rank: string -> nat)
    requires Ranked(contracts, rank)
    requires forall n :: n in ReferencesOf(raws) && n in contracts ==> rank(n) < depth
    ensures ResolveAll(contracts, raws, depth).Some?
    decreases depth, raws
  {
    if raws != [] {
      ResolveEnds(contracts, raws[0], depth, rank);
      ResolveEndsAll(contracts, raws[1..], depth, rank);
    }
  }

  /** A schema that refers to itself never resolves, whatever the allowance. */
  lemma {:induction false} CircleNeverEnds(contracts: map<string, Schema>, name: string, depth: nat)
    requires name in contracts && contracts[name].ref == Some(name) && name != "" && '/' !in name
    ensures Resolve(contracts, contracts[name], depth) == None
  {
    if depth > 0 {
      CircleNeverEnds(contracts, name, depth - 1);
    }
  }

  // ----- what following a reference keeps -----

  /** The keywords one schema states are those of another; so is its type. */
  predicate States(raw: Schema, r: Schema) {
    && (raw.properties.Some? ==> r.properties == raw.properties) && (raw.required.Some? ==> r.required == raw.required)
    && (raw.items.Some? ==> r.items == raw.items) && (raw.minLength.Some? ==> r.minLength == raw.minLength)
    && (raw.maxItems.Some? ==> r.maxItems == raw.maxItems) && (raw.pattern.Some? ==> r.pattern == raw.pattern)
    && (raw.format.Some? ==> r.format == raw.format) && (raw.values.Some? ==> r.values == raw.values)
    && (Typed(raw) ==> r.types == raw.types)
  }

  lemma SpreadStates(a: Schema, b: Schema)
    ensures States(b, Spread(a, b))
  {
  }

  /** A schema's own keywords win over those it refers to. */
  lemma OwnKeywordsWin(contracts: map<string, Schema>, raw: Schema, depth: nat)
    requires Resolve(contracts, raw, depth).Some?
    ensures States(raw, Resolve(contracts, raw, depth).value)
  {
    hide LastPart, SpreadAll, FirstObject, Spread;
    if raw.ref.Some? && raw.ref.value != "" {
      var name := LastPart(raw.ref.value);
      var target := if name in contracts then Resolve(contracts, contracts[name], depth - 1).value else ANYTHING;
      SpreadStates(target, raw.(ref := None));
    } else if raw.allOf.These? {
      SpreadStates(SpreadAll(ResolveAll(contracts, raw.allOf.list, depth).value), raw.(allOf := Absent));
    } else if raw.oneOf.These? && !Typed(raw) && raw.properties.None? {
      var found := FirstObject(ResolveAll(contracts, raw.oneOf.list, depth).value);
      if found.Some? { SpreadStates(found.value, raw); }
    }
  }

  /** The keywords one schema leaves out come from another. */
  predicate Fills(raw: Schema, under: Schema, r: Schema) {
    && (raw.properties.None? ==> r.properties == under.properties) && (raw.required.None? ==> r.required == under.required)
    && (raw.items.None? ==> r.items == under.items) && (raw.minLength.None? ==> r.minLength == under.minLength)
    && (raw.maxItems.None? ==> r.maxItems == under.maxItems) && (raw.pattern.None? ==> r.pattern == under.pattern)
    && (raw.format.None? ==> r.format == under.format) && (raw.values.None? ==> r.values == under.values)
  }

  lemma SpreadFills(a: Schema, b: Schema)
    ensures Fills(b, a, Spread(a, b)) && (b.types.None? ==> Spread(a, b).types == a.types)
    ensures b.types.Some? ==> Spread(a, b).types == b.types
  {
  }

  /** A reference gives the resolved target's keywords wherever the schema has none of its own, and
      its type; an unknown name gives nothing. */
  lemma ReferenceFills(contracts: map<string, Schema>, raw: Schema, depth: nat)
    requires raw.ref.Some? && raw.ref.value != "" && Resolve(contracts, raw, depth).Some?
    ensures var name, r := LastPart(raw.ref.value), Resolve(contracts, raw, depth).value;
            if name !in contracts then Fills(raw, ANYTHING, r) && r.types == raw.types
            else
              && depth > 0 && Resolve(contracts, contracts[name], depth - 1).Some?
              && var target := Resolve(contracts, contracts[name], depth - 1).value;
              Fills(raw, target, r) && r.types == if raw.types.Some? then raw.types else target.types
  {
    hide LastPart, Spread;
    var name := LastPart(raw.ref.value);
    var target := if name in contracts then Resolve(contracts, contracts[name], depth - 1).value else ANYTHING;
    SpreadFills(target, raw.(ref := None));
  }

  /** The schema that several parts make, the later ones going over the earlier. */
  ghost predicate Overlaid(parts: seq<Schema>, r: Schema)
    decreases |parts|
  {
    if parts == [] then r == ANYTHING
    else
      var last := parts[|parts| - 1];
      exists under :: Overlaid(parts[..|parts| - 1], under) && States(last, r) && Fills(last, under, r)
                      && r.types == if last.types.Some? then last.types else under.types
  }

  lemma {:induction false} SpreadAllOverlays(parts: seq<Schema>)
    ensures Overlaid(parts, SpreadAll(parts))
    decreases |parts|
  {
    hide Spread, States, Fills;
    if parts != [] {
      var before, last := parts[..|parts| - 1], parts[|parts| - 1];
      SpreadAllOverlays(before);
      SpreadStates(SpreadAll(before), last);
      SpreadFills(SpreadAll(before), last);
    }
  }

  /** The parts of an allOf, each resolved, lie over one another below the schema's own keywords. */
  lemma AllOfFills(contracts: map<string, Schema>, raw: Schema, depth: nat)
    requires (raw.ref.None? || raw.ref.value == "") && raw.allOf.These? && Resolve(contracts, raw, depth).Some?
    ensures var parts, r := ResolveAll(contracts, raw.allOf.list, depth), Resolve(contracts, raw, depth).value;
            && parts.Some? && (forall i :: 0 <= i < |parts.value| ==> Resolve(contracts, raw.allOf.list[i], depth) == Some(parts.value[i]))
            && exists under :: Overlaid(parts.value, under) && States(raw, r) && Fills(raw, under, r)
  {
    var parts := ResolveAll(contracts, raw.allOf.list, depth).value;
    EachResolved(contracts, raw.allOf.list, depth);
    SpreadAllOverlays(parts);
    SpreadFills(SpreadAll(parts), raw.(allOf := Absent));
    OwnKeywordsWin(contracts, raw, depth);
    assert Overlaid(parts, SpreadAll(parts)) && Fills(raw, SpreadAll(parts), Resolve(contracts, raw, depth).value);
    hide Spread, SpreadAll, States, Fills, Overlaid;
  }

  lemma {:induction false} EachResolved(contracts: map<string, Schema>, raws: seq<Schema>, depth: nat)
    requires ResolveAll(contracts, raws, depth).Some?
    ensures forall i :: 0 <= i < |raws| ==> Resolve(contracts, raws[i], depth) == Some(ResolveAll(contracts, raws, depth).value[i])
    decreases raws
  {
    hide Resolve;
    if raws != [] { EachResolved(contracts, raws[1..], depth); }
  }

  /** An alternative without a type or fields of its own stands for its first object branch, made
      nullable, and for itself if there is none. */
  lemma OneOfFills(contracts: map<string, Schema>, raw: Schema, depth: nat)
    requires (raw.ref.None? || raw.ref.value == "") && raw.allOf.Absent? && raw.oneOf.These?
    requires !Typed(raw) && raw.properties.None? && Resolve(contracts, raw, depth).Some?
    ensures var branches, r := ResolveAll(contracts, raw.oneOf.list, depth), Resolve(contracts, raw, depth).value;
            && branches.Some?
            && ((r == raw && forall i :: 0 <= i < |branches.value| ==> branches.value[i].types != Some(One("object")))
                || exists i :: 0 <= i < |branches.value| && branches.value[i].types == Some(One("object"))
                     && (forall j :: 0 <= j < i ==> branches.value[j].types != Some(One("object")))
                     && States(raw, r) && Fills(raw, branches.value[i], r) && r.types == Some(Several(["object", "null"])))
  {
    var branches := ResolveAll(contracts, raw.oneOf.list, depth).value;
    FirstObjectIs(branches);
    var found := FirstObject(branches);
    OwnKeywordsWin(contracts, raw, depth);
    if found.Some? { SpreadFills(found.value, raw); }
    hide FirstObject, Spread, States;
  }

  lemma {:induction false} FirstObjectIs(branches: seq<Schema>)
    ensures FirstObject(branches).None? ==> forall i :: 0 <= i < |branches| ==> branches[i].types != Some(One("object"))
    ensures FirstObject(branches).Some? ==>
              exists i :: 0 <= i < |branches| && branches[i] == FirstObject(branches).value
                && branches[i].types == Some(One("object"))
                && forall j :: 0 <= j < i ==> branches[j].types != Some(One("object"))
  {
    if branches != [] {
      FirstObjectIs(branches[1..]);
      if branches[0].types == Some(One("object")) {
        assert branches[0] == FirstObject(branches).value;
      } else if FirstObject(branches[1..]).Some? {
        var i :| 0 <= i < |branches[1..]| && branches[1..][i] == FirstObject(branches[1..]).value
                 && branches[1..][i].types == Some(One("object"))
                 && forall j :: 0 <= j < i ==> branches[1..][j].types != Some(One("object"));
        assert branches[i + 1] == FirstObject(branches).value;
        assert forall j :: 0 < j < i + 1 ==> branches[j] == branches[1..][j - 1];
      } else {
        assert forall i :: 0 < i < |branches| ==> branches[i] == branches[1..][i - 1];
      }
    }
  }
}
