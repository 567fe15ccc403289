/** frontend/src/forms.tsx: a record as the values of its form's fields, and back. */
module Forms {
  import opened Wrappers
  import opened JsValues
  import opened FormSchemas
  import opened FormText
  import opened Sequences

  /** JSON printing and reading, pattern tests, and how numbers are spelled. */
  datatype Platform = Platform(pretty: Js -> string, parse: string -> Option<Js>, test: (string, string) -> bool,
                               numeral: real -> string)

  datatype Failure = NoObject | BadJson | MustBeObject | MustBeArray | TooManyItems | ItemNotAllowed | BadFormat | NotUuid | NoText

  /** A schema whose references never end reads as one without keywords. */
  function Resolved(book: Book, raw: Schema): Schema {
    var r := Resolve(book.contracts, raw, book.depth);
    if r.Some? then r.value else ANYTHING
  }

  function ItemsOf(book: Book, s: Schema): Schema {
    if s.items.Some? then Resolved(book, s.items.value) else ANYTHING
  }

  function NotNull(names: seq<string>): Option<string> {
    if names == [] then None else if names[0] != "null" then Some(names[0]) else NotNull(names[1..])
  }

  function Kind(s: Schema): Option<string> {
    match s.types
    case None => None
    case Some(One(name)) => Some(name)
    case Some(Several(names)) => NotNull(names)
  }

  /** The kind of a schema is its type, or of several types the first that is not null. */
  lemma {:induction false} KindIff(s: Schema, kind: string)
    ensures Kind(s) == Some(kind) <==>
              || s.types == Some(One(kind))
              || (s.types.Some? && s.types.value.Several?
                  && exists i :: 0 <= i < |s.types.value.names| && s.types.value.names[i] == kind != "null"
                       && forall j :: 0 <= j < i ==> s.types.value.names[j] == "null")
  {
    if s.types.Some? && s.types.value.Several? { NotNullIff(s.types.value.names, kind); }
  }

  lemma {:induction false} NotNullIff(names: seq<string>, kind: string)
    ensures NotNull(names) == Some(kind) <==>
              exists i :: 0 <= i < |names| && names[i] == kind != "null" && forall j :: 0 <= j < i ==> names[j] == "null"
  {
    if names != [] {
      var rest := names[1..];
      NotNullIff(rest, kind);
      assert forall i :: 0 < i < |names| ==> names[i] == rest[i - 1];
      if names[0] == "null" && NotNull(rest) == Some(kind) {
        var i :| 0 <= i < |rest| && rest[i] == kind != "null" && forall j :: 0 <= j < i ==> rest[j] == "null";
        assert names[i + 1] == kind;
      }
      if i :| 0 <= i < |names| && names[i] == kind != "null" && forall j :: 0 <= j < i ==> names[j] == "null" {
        if i > 0 {
          assert rest[i - 1] == kind && forall j :: 0 <= j < i - 1 ==> rest[j] == names[j + 1];
        }
      }
    }
  }

  predicate Nullable(s: Schema) {
    s.types.Some? && s.types.value.Several? && "null" in s.types.value.names
  }

  predicate IsObject(s: Schema) {
    Kind(s) == Some("object")
  }

  predicate IsArray(s: Schema) {
    Kind(s) == Some("array")
  }

  /** An object whose fields are shown one by one. */
  predicate Nested(s: Schema) {
    IsObject(s) && s.properties.Some?
  }

  function Properties(def: Schema): seq<Property> {
    if def.properties.Some? then def.properties.value else []
  }

  predicate Required(def: Schema, key: string) {
    def.required.Some? && key in def.required.value
  }

  predicate Truthy(n: Option<int>) {
    n.Some? && n.value != 0
  }

  /** The two fields with pickers of their own. */
  predicate Picked(key: string) {
    key in {"app_scope", "webhook_scope"}
  }

  /** Reading a property of any value. */
  function Prop(v: Js, key: string): (r: Option<Js>)
    ensures r.Some? ==> r.value < v
  {
    if v.Obj? then
      var i := Find(v.fields, key);
      if i < |v.fields| then Some(v.fields[i].value) else None
    else None
  }

  predicate Missing(v: Option<Js>) {
    v.None? || v.value.Null?
  }

  // ----- from a record to the form -----

  function InputOf(p: Platform, book: Book, key: string, s: Schema, value: Js): Js
    decreases value, |Properties(s)| + 1
  {
    if Picked(key) then value
    else if Nested(s) then Obj(InputFirst(p, book, s, value, |Properties(s)|))
    else match value
      case Arr(items) =>
        if IsObject(ItemsOf(book, s)) then Str(p.pretty(value)) else Str(Joined(p.numeral, items, "\n"))
      case Obj(_) => Str(p.pretty(value))
      case _ => value
  }

  /** What the first n properties give. */
  function InputFirst(p: Platform, book: Book, def: Schema, initial: Js, n: nat): seq<Field>
    requires n <= |Properties(def)|
    decreases initial, n
  {
    if n == 0 then []
    else
      var property := Properties(def)[n - 1];
      var value := Prop(initial, property.key);
      InputFirst(p, book, def, initial, n - 1)
      + if Missing(value) then []
        else [Field(property.key, InputOf(p, book, property.key, Resolved(book, property.raw), value.value))]
  }

  /** inputValues. */
  function Input(p: Platform, book: Book, def: Schema, initial: Js): seq<Field> {
    InputFirst(p, book, def, initial, |Properties(def)|)
  }

  // ----- from the form back to a record -----

  /** initial[key]; None is the missing default, null has no properties to read. */
  function Old(initial: Option<Js>, key: string): Result<Option<Js>, Failure> {
    match initial
    case None => Ok(None)
    case Some(Null) => Err(NoObject)
    case Some(v) => Ok(Prop(v, key))
  }

  /** A field left blank; `typed` if it holds the empty text. */
  function BlankOutput(def: Schema, key: string, s: Schema, typed: bool, initial: Option<Js>): Result<Option<Js>, Failure> {
    var was := Old(initial, key);
    if IsArray(s) && Required(def, key) then Ok(Some(Arr([])))
    else if IsArray(s) && typed && was.Err? then Err(was.error)
    else if IsArray(s) && typed && was.value.Some? then Ok(Some(Arr([])))
    else if Required(def, key) && Kind(s) == Some("string") && !Truthy(s.minLength) then Ok(Some(Str("")))
    else if was.Err? then Err(was.error)
    else if !Missing(was.value) && Nullable(s) then Ok(Some(Null))
    else Ok(None)
  }

  /** Membership by identity, which no object or list has in a schema. */
  predicate Includes(values: seq<Js>, item: Js) {
    !item.Arr? && !item.Obj? && item in values
  }

  predicate AllIncluded(values: seq<Js>, items: seq<Js>) {
    forall i :: 0 <= i < |items| ==> Includes(values, items[i])
  }

  function Strings(words: seq<string>): (r: seq<Js>)
    ensures |r| == |words| && forall i :: 0 <= i < |r| ==> r[i] == Str(words[i])
  {
    seq(|words|, i requires 0 <= i < |words| => Str(words[i]))
  }

  /** JSON.parse(value), None where it throws. */
  function Parsed(p: Platform, value: Js): Option<Js> {
    if Throws(value) then None else p.parse(Spelled(p.numeral, value))
  }

  function ItemsEntered(p: Platform, book: Book, s: Schema, value: Js): Option<Js> {
    var text := Spelled(p.numeral, value);
    if value.Arr? then Some(value)
    else if Throws(value) || IsObject(ItemsOf(book, s)) || (Trim(text) != "" && Trim(text)[0] == '[') then Parsed(p, value)
    else Some(Arr(Strings(Entries(text))))
  }

  /** A list within its limits. */
  function Limited(book: Book, s: Schema, items: seq<Js>): Option<Failure> {
    if Truthy(s.maxItems) && |items| > s.maxItems.value then Some(TooManyItems)
    else if ItemsOf(book, s).values.Some? && !AllIncluded(ItemsOf(book, s).values.value, items) then Some(ItemNotAllowed)
    else None
  }

  function ArrayOutput(p: Platform, book: Book, s: Schema, value: Js): Result<Option<Js>, Failure> {
    var items := ItemsEntered(p, book, s, value);
    if items.None? then Err(BadJson)
    else if !items.value.Arr? then Err(MustBeArray)
    else
      var failure := Limited(book, s, items.value.items);
      if failure.Some? then Err(failure.value) else Ok(items)
  }

  function ScalarFailure(p: Platform, s: Schema, value: Js): Option<Failure> {
    if Throws(value) && ((s.pattern.Some? && s.pattern.value != "") || s.format == Some("uuid")) then Some(NoText)
    else if s.pattern.Some? && s.pattern.value != "" && !p.test(s.pattern.value, Spelled(p.numeral, value)) then Some(BadFormat)
    else if s.format == Some("uuid") && !Uuid(Spelled(p.numeral, value)) then Some(NotUuid)
    else None
  }

  /** What one property gives, None if nothing. */
  function OutputOf(p: Platform, book: Book, def: Schema, property: Property, values: Js, initial: Option<Js>): Result<Option<Js>, Failure>
    decreases values, 0
  {
    if values.Null? then Err(NoObject)
    else
      var s, value := Resolved(book, property.raw), Prop(values, property.key);
      if value.None? || value == Some(Str("")) then BlankOutput(def, property.key, s, value.Some?, initial)
      else if Nested(s) then
        var was := Old(initial, property.key);
        if was.Err? then Err(was.error)
        else
          var fields := OutputFirst(p, book, s, value.value, was.value, |Properties(s)|);
          if fields.Err? then Err(fields.error) else Ok(Some(Obj(fields.value)))
      else if IsObject(s) then
        var parsed := Parsed(p, value.value);
        if parsed.None? then Err(BadJson) else if !parsed.value.Obj? then Err(MustBeObject) else Ok(parsed)
      else if IsArray(s) then ArrayOutput(p, book, s, value.value)
      else
        var failure := ScalarFailure(p, s, value.value);
        if failure.Some? then Err(failure.value) else Ok(value)
  }

  /** What the first n properties give. */
  function OutputFirst(p: Platform, book: Book, def: Schema, values: Js, initial: Option<Js>, n: nat): Result<seq<Field>, Failure>
    requires n <= |Properties(def)|
    decreases values, n + 1
  {
    if n == 0 then Ok([])
    else
      var before := OutputFirst(p, book, def, values, initial, n - 1);
      if before.Err? then before
      else
        var property := Properties(def)[n - 1];
        var value := OutputOf(p, book, def, property, values, initial);
        if value.Err? then Err(value.error)
        else Ok(before.value + if value.value.Some? then [Field(property.key, value.value.value)] else [])
  }

  /** outputValues. */
  function Output(p: Platform, book: Book, def: Schema, values: Js, initial: Option<Js>): Result<seq<Field>, Failure> {
    OutputFirst(p, book, def, values, initial, |Properties(def)|)
  }

  /** outputValues, property by property; the first failure ends it. */
  method OutputValues(p: Platform, book: Book, def: Schema, values: Js, initial: Option<Js>) returns (r: Result<seq<Field>, Failure>)
    ensures r == Output(p, book, def, values, initial)
    decreases values, 1
  {
    hide OutputOf;
    var result: seq<Field> := [];
    var properties := Properties(def);
    for n := 0 to |properties|
      invariant OutputFirst(p, book, def, values, initial, n) == Ok(result)
    {
      var value := OutputValue(p, book, def, properties[n], values, initial);
      FailureLasts(p, book, def, values, initial, n + 1);
      if value.Err? { return Err(value.error); }
      assert result + [] == result;
      if value.value.Some? {
        result := result + [Field(properties[n].key, value.value.value)];
      }
    }
    return Ok(result);
  }

  /** One turn of the loop. */
  method OutputValue(p: Platform, book: Book, def: Schema, property: Property, values: Js, initial: Option<Js>)
    returns (r: Result<Option<Js>, Failure>)
    ensures r == OutputOf(p, book, def, property, values, initial)
    decreases values, 0
  {
    if values.Null? { return Err(NoObject); }
    var s, value := Resolved(book, property.raw), Prop(values, property.key);
    if value.None? || value == Some(Str("")) {
      return BlankOutput(def, property.key, s, value.Some?, initial);
    }
    if Nested(s) {
      var was := Old(initial, property.key);
      if was.Err? { return Err(was.error); }
      var fields := OutputValues(p, book, s, value.value, was.value);
      return if fields.Err? then Err(fields.error) else Ok(Some(Obj(fields.value)));
    }
    if IsObject(s) {
      var parsed := Parsed(p, value.value);
      if parsed.None? { return Err(BadJson); }
      return if parsed.value.Obj? then Ok(parsed) else Err(MustBeObject);
    }
    if IsArray(s) {
      r := ArrayOutput(p, book, s, value.value);
      return;
    }
    var failure := ScalarFailure(p, s, value.value);
    return if failure.Some? then Err(failure.value) else Ok(value);
  }

  lemma {:induction false} FailureLasts(p: Platform, book: Book, def: Schema, values: Js, initial: Option<Js>, n: nat)
    requires n <= |Properties(def)|
    ensures OutputFirst(p, book, def, values, initial, n).Err? ==>
              Output(p, book, def, values, initial) == OutputFirst(p, book, def, values, initial, n)
    decreases |Properties(def)| - n
  {
    hide OutputOf;
    if n < |Properties(def)| {
      FailureLasts(p, book, def, values, initial, n + 1);
    }
  }

  // ----- records the form gives back -----

  /** A record restricted to the properties of a schema that are not null. */
  function RestrictFirst(book: Book, def: Schema, r: Js, n: nat): seq<Field>
    requires n <= |Properties(def)|
    decreases r, n
  {
    if n == 0 then []
    else
      var property := Properties(def)[n - 1];
      var s, value := Resolved(book, property.raw), Prop(r, property.key);
      RestrictFirst(book, def, r, n - 1)
      + if Missing(value) then []
        else [Field(property.key, if Nested(s) then Obj(RestrictFirst(book, s, value.value, |Properties(s)|)) else value.value)]
  }

  function Restricted(book: Book, def: Schema, r: Js): seq<Field> {
    RestrictFirst(book, def, r, |Properties(def)|)
  }

  ghost predicate DistinctKeys(properties: seq<Property>) {
    forall i, j :: 0 <= i < j < |properties| ==> properties[i].key != properties[j].key
  }

  /** A property may be left out when nothing is made up for it. */
  predicate MayBeMissing(def: Schema, key: string, s: Schema) {
    !(Required(def, key) && (IsArray(s) || (Kind(s) == Some("string") && !Truthy(s.minLength))))
  }

  /** A text, number or truth value within its checks; the empty text only where it is kept. */
  predicate ScalarFits(p: Platform, def: Schema, key: string, s: Schema, v: Js) {
    && (v == Str("") ==> Required(def, key) && Kind(s) == Some("string") && !Truthy(s.minLength))
    && (v != Str("") ==> ScalarFailure(p, s, v).None?)
  }

  /** JSON reads back what it printed. */
  predicate Printed(p: Platform, v: Js) {
    p.pretty(v) != "" && p.parse(p.pretty(v)) == Some(v)
  }

  predicate WordsFit(items: seq<Js>) {
    && (forall i :: 0 <= i < |items| ==> items[i].Str? && Plain(items[i].text))
    && (items != [] ==> items[0].text[0] != '[')
  }

  predicate ListFits(p: Platform, book: Book, s: Schema, v: Js) {
    && v.Arr? && Limited(book, s, v.items).None?
    && if IsObject(ItemsOf(book, s)) then Printed(p, v) else WordsFit(v.items)
  }

  /** A value its field shows and gives back; `shown` is false inside a picked field, whose value
      is handed over as it is. */
  ghost predicate ValueFits(p: Platform, book: Book, def: Schema, key: string, s: Schema, v: Js, shown: bool)
    decreases v, 1
  {
    if Nested(s) then v.Obj? && FieldsFit(p, book, s, v, shown)
    else if IsObject(s) then shown && v.Obj? && Printed(p, v)
    else if IsArray(s) then if shown then ListFits(p, book, s, v) else v.Arr? && Limited(book, s, v.items).None?
    else (shown ==> !v.Arr? && !v.Obj?) && ScalarFits(p, def, key, s, v)
  }

  /** A record whose form gives it back. */
  ghost predicate FieldsFit(p: Platform, book: Book, def: Schema, r: Js, shown: bool)
    decreases r, 0
  {
    && DistinctKeys(Properties(def))
    && forall i :: 0 <= i < |Properties(def)| ==>
         var key, s := Properties(def)[i].key, Resolved(book, Properties(def)[i].raw);
         var value := Prop(r, key);
         if value.None? then MayBeMissing(def, key, s)
         else if value.value.Null? then shown && MayBeMissing(def, key, s)
         else ValueFits(p, book, def, key, s, value.value, shown && !Picked(key))
  }

  // ----- there and back -----

  /** The form's value of a property. */
  function InputProp(p: Platform, book: Book, property: Property, r: Js): Option<Js> {
    var value := Prop(r, property.key);
    if Missing(value) then None else Some(InputOf(p, book, property.key, Resolved(book, property.raw), value.value))
  }

  lemma {:induction false} InputHas(p: Platform, book: Book, def: Schema, r: Js, n: nat, i: nat)
    requires DistinctKeys(Properties(def)) && i < |Properties(def)| && n <= |Properties(def)|
    ensures Prop(Obj(InputFirst(p, book, def, r, n)), Properties(def)[i].key)
         == if i < n then InputProp(p, book, Properties(def)[i], r) else None
    decreases n
  {
    hide InputOf, InputFirst, InputProp, DistinctKeys, Prop;
    if n == 0 {
      InputNone(p, book, def, r, Properties(def)[i].key);
    } else {
      InputHas(p, book, def, r, n - 1, i);
      InputStep(p, book, def, r, n);
      DistinctAt(Properties(def), i, n - 1);
      hide Properties;
      var last := Properties(def)[n - 1];
      MorePropGet(InputFirst(p, book, def, r, n - 1), last.key, InputProp(p, book, last, r), Properties(def)[i].key);
    }
  }

  lemma InputNone(p: Platform, book: Book, def: Schema, r: Js, key: string)
    ensures Prop(Obj(InputFirst(p, book, def, r, 0)), key) == None
  {
  }

  lemma DistinctAt(properties: seq<Property>, i: nat, j: nat)
    requires DistinctKeys(properties) && i < |properties| && j < |properties|
    ensures properties[i].key == properties[j].key ==> i == j
  {
  }

  function MaybeField(key: string, value: Option<Js>): seq<Field> {
    if value.Some? then [Field(key, value.value)] else []
  }

  lemma InputStep(p: Platform, book: Book, def: Schema, r: Js, n: nat)
    requires 0 < n <= |Properties(def)|
    ensures var last := Properties(def)[n - 1];
            InputFirst(p, book, def, r, n) == InputFirst(p, book, def, r, n - 1) + MaybeField(last.key, InputProp(p, book, last, r))
  {
    hide InputOf;
  }

  lemma MorePropGet(fields: seq<Field>, last: string, value: Option<Js>, key: string)
    requires last == key ==> Prop(Obj(fields), key).None?
    ensures Prop(Obj(fields + MaybeField(last, value)), key) == if last == key then value else Prop(Obj(fields), key)
  {
    GetJoin(fields, MaybeField(last, value), key);
    PropIsGet(fields, key);
    PropIsGet(fields + MaybeField(last, value), key);
    assert Get(MaybeField(last, value), key) == if last == key then value else None;
    hide Get, Prop;
  }

  lemma PropIsGet(fields: seq<Field>, key: string)
    ensures Prop(Obj(fields), key) == Get(fields, key)
  {
  }

  function Texts(items: seq<Js>): (r: seq<string>)
    requires forall i :: 0 <= i < |items| ==> items[i].Str?
    ensures |r| == |items| && forall i :: 0 <= i < |r| ==> r[i] == items[i].text
  {
    seq(|items|, i requires 0 <= i < |items| => items[i].text)
  }

  lemma {:induction false} JoinedTexts(numeral: real -> string, items: seq<Js>)
    requires forall i :: 0 <= i < |items| ==> items[i].Str?
    ensures Joined(numeral, items, "\n") == Join(Texts(items), "\n")
  {
    if |items| > 1 {
      JoinedTexts(numeral, items[1..]);
      assert Texts(items[1..]) == Texts(items)[1..];
    }
  }

  /** A list of plain words survives its text. */
  lemma WordsTrip(p: Platform, book: Book, s: Schema, v: Js)
    requires v.Arr? && WordsFit(v.items) && v.items != [] && !IsObject(ItemsOf(book, s))
    ensures var text := Joined(p.numeral, v.items, "\n");
            text != "" && ItemsEntered(p, book, s, Str(text)) == Some(v)
  {
    var words := Texts(v.items);
    JoinedTexts(p.numeral, v.items);
    JoinBegins(words);
    EntriesOfJoinIff(words);
    assert Strings(words) == v.items;
    hide Trim, Entries, Join, Plain, Joined, IsObject, ItemsOf;
  }

  /** What the form holds: what it shows of a record, or a picked value itself. */
  function Held(p: Platform, book: Book, def: Schema, r: Js, shown: bool): Js {
    if shown then Obj(Input(p, book, def, r)) else r
  }

  function RestrictedValue(book: Book, s: Schema, v: Js): Js {
    if Nested(s) then Obj(Restricted(book, s, v)) else v
  }

  /** A list, shown as text or picked. */
  lemma ListTrip(p: Platform, book: Book, def: Schema, property: Property, s: Schema, v: Js, values: Js, r: Js)
    requires s == Resolved(book, property.raw) && IsArray(s) && values.Obj?
    requires Prop(r, property.key) == Some(v) && r.Obj?
    requires (ListFits(p, book, s, v) && Prop(values, property.key) == Some(InputOf(p, book, "", s, v)))
          || (v.Arr? && Limited(book, s, v.items).None? && Prop(values, property.key) == Some(v))
    ensures OutputOf(p, book, def, property, values, Some(r)) == Ok(Some(v))
  {
    var value := Prop(values, property.key).value;
    if value != v && !IsObject(ItemsOf(book, s)) && v.items != [] {
      WordsTrip(p, book, s, v);
    }
    hide Resolved, ItemsOf, Entries, Trim, Plain, Limited;
  }

  /** What a field holds of a property, of a shown record or of a picked one. */
  lemma HeldProp(p: Platform, book: Book, def: Schema, r: Js, shown: bool, i: nat)
    requires DistinctKeys(Properties(def)) && i < |Properties(def)|
    ensures var property := Properties(def)[i];
            Prop(Held(p, book, def, r, shown), property.key)
              == if shown then InputProp(p, book, property, r) else Prop(r, property.key)
  {
    if shown { InputHas(p, book, def, r, |Properties(def)|, i); }
  }

  /** A property without a value gives nothing. */
  lemma MissingTrip(p: Platform, book: Book, def: Schema, property: Property, values: Js, r: Js)
    requires r.Obj? && values.Obj? && Missing(Prop(r, property.key)) && Prop(values, property.key).None?
    requires MayBeMissing(def, property.key, Resolved(book, property.raw))
    ensures OutputOf(p, book, def, property, values, Some(r)) == Ok(None)
  {
    hide Resolved;
  }

  /** A value that is neither a list nor shown field by field. */
  lemma PlainTrip(p: Platform, book: Book, def: Schema, property: Property, s: Schema, v: Js, values: Js, r: Js, shown: bool)
    requires s == Resolved(book, property.raw) && !Nested(s) && !IsArray(s) && values.Obj?
    requires Prop(r, property.key) == Some(v) && r.Obj?
    requires ValueFits(p, book, def, property.key, s, v, shown)
    requires Prop(values, property.key) == Some(if shown then InputOf(p, book, "", s, v) else v)
    ensures OutputOf(p, book, def, property, values, Some(r)) == Ok(Some(v))
  {
    hide Resolved, ItemsOf, ScalarFailure;
  }

  lemma {:induction false} ValueTrip(p: Platform, book: Book, def: Schema, i: nat, r: Js, shown: bool)
    requires i < |Properties(def)| && r.Obj? && FieldsFit(p, book, def, r, shown)
    requires !Missing(Prop(r, Properties(def)[i].key))
    ensures var property := Properties(def)[i];
            OutputOf(p, book, def, property, Held(p, book, def, r, shown), Some(r))
              == Ok(Some(RestrictedValue(book, Resolved(book, property.raw), Prop(r, property.key).value)))
    decreases r, 0
  {
    var property := Properties(def)[i];
    var s, v, values := Resolved(book, property.raw), Prop(r, property.key).value, Held(p, book, def, r, shown);
    var through := shown && !Picked(property.key);
    HeldProp(p, book, def, r, shown, i);
    assert ValueFits(p, book, def, property.key, s, v, through);
    assert Prop(values, property.key) == Some(if through then InputOf(p, book, "", s, v) else v);
    hide Resolved, FieldsFit;
    if Nested(s) {
      RoundTripFirst(p, book, s, v, through, |Properties(s)|);
      assert Prop(values, property.key) == Some(Held(p, book, s, v, through));
      hide ValueFits;
    } else if IsArray(s) {
      ListTrip(p, book, def, property, s, v, values, r);
    } else {
      PlainTrip(p, book, def, property, s, v, values, r, through);
    }
  }

  lemma {:induction false} RoundTripFirst(p: Platform, book: Book, def: Schema, r: Js, shown: bool, n: nat)
    requires n <= |Properties(def)| && r.Obj? && FieldsFit(p, book, def, r, shown)
    ensures OutputFirst(p, book, def, Held(p, book, def, r, shown), Some(r), n) == Ok(RestrictFirst(book, def, r, n))
    decreases r, n + 2
  {
    hide OutputOf, Held, Resolved, FieldsFit, Nested, RestrictedValue;
    if n > 0 {
      RoundTripFirst(p, book, def, r, shown, n - 1);
      PropertyTrip(p, book, def, n - 1, r, shown);
      RestrictStep(book, def, r, n);
    }
  }

  lemma RestrictStep(book: Book, def: Schema, r: Js, n: nat)
    requires 0 < n <= |Properties(def)|
    ensures var property := Properties(def)[n - 1]; var value := Prop(r, property.key);
            RestrictFirst(book, def, r, n)
              == RestrictFirst(book, def, r, n - 1)
                 + if Missing(value) then []
                   else [Field(property.key, RestrictedValue(book, Resolved(book, property.raw), value.value))]
  {
    hide Resolved;
  }

  lemma PropertyTrip(p: Platform, book: Book, def: Schema, i: nat, r: Js, shown: bool)
    requires i < |Properties(def)| && r.Obj? && FieldsFit(p, book, def, r, shown)
    ensures var property := Properties(def)[i];
            OutputOf(p, book, def, property, Held(p, book, def, r, shown), Some(r))
              == Ok(if Missing(Prop(r, property.key)) then None
                    else Some(RestrictedValue(book, Resolved(book, property.raw), Prop(r, property.key).value)))
    decreases r, 1
  {
    hide OutputOf, RestrictedValue, Resolved, InputFirst, Nested;
    var property := Properties(def)[i];
    if Missing(Prop(r, property.key)) {
      HeldProp(p, book, def, r, shown, i);
      MissingTrip(p, book, def, property, Held(p, book, def, r, shown), r);
    } else {
      ValueTrip(p, book, def, i, r, shown);
    }
  }

  /** A record of the schema comes back from its form as it was, restricted to the properties the
      schema has that are not null, nested records included. */
  lemma RoundTrip(p: Platform, book: Book, def: Schema, r: Js)
    requires r.Obj? && FieldsFit(p, book, def, r, true)
    ensures Output(p, book, def, Obj(Input(p, book, def, r)), Some(r)) == Ok(Restricted(book, def, r))
  {
    RoundTripFirst(p, book, def, r, true, |Properties(def)|);
  }

  // ----- where a form does not give its record back -----

  /** A list of texts shown as words comes back exactly if every word is plain, unless its text
      opens like JSON. */
  lemma WordsTripIff(p: Platform, book: Book, s: Schema, items: seq<Js>)
    requires !IsObject(ItemsOf(book, s)) && forall i :: 0 <= i < |items| ==> items[i].Str?
    requires var text := Trim(Joined(p.numeral, items, "\n")); text != "" ==> text[0] != '['
    ensures ItemsEntered(p, book, s, Str(Joined(p.numeral, items, "\n"))) == Some(Arr(items))
       <==> forall i :: 0 <= i < |items| ==> Plain(items[i].text)
  {
    hide Trim, Entries, Join, Plain, Joined, IsObject, ItemsOf, Strings, ItemsEntered;
    var text := Joined(p.numeral, items, "\n");
    JoinedTexts(p.numeral, items);
    EntriesOfJoinIff(Texts(items));
    WordsEntered(p, book, s, text);
    StringsOfTexts(Entries(text), items);
  }

  lemma WordsEntered(p: Platform, book: Book, s: Schema, text: string)
    requires !IsObject(ItemsOf(book, s)) && (Trim(text) != "" ==> Trim(text)[0] != '[')
    ensures ItemsEntered(p, book, s, Str(text)) == Some(Arr(Strings(Entries(text))))
  {
    hide Trim, Entries, IsObject, ItemsOf;
  }

  lemma StringsOfTexts(words: seq<string>, items: seq<Js>)
    requires forall i :: 0 <= i < |items| ==> items[i].Str?
    ensures Strings(words) == items <==> words == Texts(items)
  {
    var same := Strings(words) == items;
    if same {
      assert |words| == |items| && forall i :: 0 <= i < |words| ==> Strings(words)[i] == Str(words[i]);
      assert words == Texts(items);
    }
  }

  /** What a blank field gives, on a record that was not null: an emptied list where there was one or
      one is required, the empty text where it is required, null where there was a value that may be
      null, and else nothing. */
  lemma BlankGives(def: Schema, key: string, s: Schema, typed: bool, initial: Option<Js>)
    requires initial != Some(Null)
    ensures var was := if initial.Some? then Prop(initial.value, key) else None;
            var r := BlankOutput(def, key, s, typed, initial);
            && r.Ok?
            && (r.value == Some(Arr([])) <==> IsArray(s) && (Required(def, key) || (typed && was.Some?)))
            && (r.value == Some(Str("")) <==> Required(def, key) && Kind(s) == Some("string") && !Truthy(s.minLength))
            && (r.value == Some(Null) <==>
                  MayBeMissing(def, key, s) && !(IsArray(s) && typed && was.Some?) && !Missing(was) && Nullable(s))
            && r.value in {Some(Arr([])), Some(Str("")), Some(Null), None}
  {
  }

  predicate PatternFits(p: Platform, s: Schema, v: Js) {
    s.pattern.Some? && s.pattern.value != "" ==> p.test(s.pattern.value, Spelled(p.numeral, v))
  }

  /** What a filled field must satisfy to be sent, and what is sent of it: an object, a list within its
      limits, or the value itself if it matches its pattern and format. */
  lemma FilledIsChecked(p: Platform, book: Book, def: Schema, property: Property, values: Js, initial: Option<Js>)
    requires values.Obj? && !Unfilled(Prop(values, property.key))
    ensures var s, v := Resolved(book, property.raw), Prop(values, property.key).value;
            var r := OutputOf(p, book, def, property, values, initial);
            && (r.Ok? ==> r.value.Some?)
            && (IsObject(s) && r.Ok? ==> r.value.value.Obj?)
            && (IsArray(s) && r.Ok? ==>
                  && r.value.value.Arr?
                  && (Truthy(s.maxItems) ==> |r.value.value.items| <= s.maxItems.value)
                  && (ItemsOf(book, s).values.Some? ==>
                        forall i :: 0 <= i < |r.value.value.items| ==> r.value.value.items[i] in ItemsOf(book, s).values.value))
            && (!IsObject(s) && !IsArray(s) && !Throws(v) ==>
                  && (r.Ok? <==> PatternFits(p, s, v) && (s.format == Some("uuid") ==> Uuid(Spelled(p.numeral, v))))
                  && (r.Ok? ==> r.value.value == v))
  {
    hide Resolved, ItemsOf, Uuid, ItemsEntered, OutputFirst;
  }

  /** What the form shows of a value that has no picker: words line by line, everything else of a
      list or record as printed JSON, and texts, numbers and truth values as they are. */
  lemma Shown(p: Platform, book: Book, key: string, s: Schema, v: Js)
    requires !Picked(key) && !Nested(s) && !v.Null?
    ensures v.Arr? && !IsObject(ItemsOf(book, s)) && (forall i :: 0 <= i < |v.items| ==> v.items[i].Str?) ==>
              InputOf(p, book, key, s, v) == Str(Join(Texts(v.items), "\n"))
    ensures v.Obj? || (v.Arr? && IsObject(ItemsOf(book, s))) ==> InputOf(p, book, key, s, v) == Str(p.pretty(v))
    ensures !v.Obj? && !v.Arr? ==> InputOf(p, book, key, s, v) == v
  {
    hide ItemsOf, IsObject, Texts, Join;
    if v.Arr? && forall i :: 0 <= i < |v.items| ==> v.items[i].Str? { JoinedTexts(p.numeral, v.items); }
  }

  /** A blank field breaks the form exactly if the record it belongs to was null before and nothing
      is made up for the field. */
  lemma BlankFailsIff(def: Schema, key: string, s: Schema, typed: bool, initial: Option<Js>)
    ensures BlankOutput(def, key, s, typed, initial).Err? <==> initial == Some(Null) && MayBeMissing(def, key, s)
  {
  }

  predicate Unfilled(value: Option<Js>) {
    value.None? || value == Some(Str(""))
  }

  /** A field that a record which was null can do with: filled in and not itself a record, or blank
      and made up for. */
  predicate FillsNull(book: Book, def: Schema, property: Property, values: Js) {
    var s := Resolved(book, property.raw);
    if Unfilled(Prop(values, property.key)) then !MayBeMissing(def, property.key, s) else !Nested(s)
  }

  lemma PropertyOnNull(p: Platform, book: Book, def: Schema, property: Property, values: Js)
    requires values.Obj? && OutputOf(p, book, def, property, values, None).Ok?
    ensures var onNull := OutputOf(p, book, def, property, values, Some(Null));
            && (onNull.Ok? <==> FillsNull(book, def, property, values))
            && (onNull.Ok? ==> onNull == OutputOf(p, book, def, property, values, None))
  {
    hide Resolved, ArrayOutput, ScalarFailure;
  }

  lemma {:induction false} FirstOnNull(p: Platform, book: Book, def: Schema, values: Js, n: nat)
    requires n <= |Properties(def)| && values.Obj? && OutputFirst(p, book, def, values, None, n).Ok?
    ensures var onNull := OutputFirst(p, book, def, values, Some(Null), n);
            && (onNull.Ok? <==> forall i :: 0 <= i < n ==> FillsNull(book, def, Properties(def)[i], values))
            && (onNull.Ok? ==> onNull == OutputFirst(p, book, def, values, None, n))
    decreases n
  {
    hide OutputOf, FillsNull;
    if n > 0 {
      FirstOnNull(p, book, def, values, n - 1);
      PropertyOnNull(p, book, def, Properties(def)[n - 1], values);
    }
  }

  /** When a nested record that was null can be filled in: a form that is fine for a new record
      is fine for it exactly if every blank field is made up for and no filled field is itself a
      nested record; it then gives the same. */
  lemma NullRecordIff(p: Platform, book: Book, def: Schema, values: Js)
    requires values.Obj? && Output(p, book, def, values, None).Ok?
    ensures var onNull := Output(p, book, def, values, Some(Null));
            && (onNull.Ok? <==> forall i :: 0 <= i < |Properties(def)| ==> FillsNull(book, def, Properties(def)[i], values))
            && (onNull.Ok? ==> onNull == Output(p, book, def, values, None))
  {
    FirstOnNull(p, book, def, values, |Properties(def)|);
  }

  /** So one optional field left out fails the whole form, whatever else it holds. */
  lemma NullRecordFails(p: Platform, book: Book, def: Schema, values: Js, i: nat)
    requires i < |Properties(def)| && values.Obj?
    requires var property := Properties(def)[i];
             Prop(values, property.key).None? && MayBeMissing(def, property.key, Resolved(book, property.raw))
    ensures Output(p, book, def, values, Some(Null)).Err?
  {
    var property := Properties(def)[i];
    BlankFailsIff(def, property.key, Resolved(book, property.raw), false, Some(Null));
    assert OutputOf(p, book, def, property, values, Some(Null)).Err?;
    FailureLasts(p, book, def, values, Some(Null), i);
    FailureLasts(p, book, def, values, Some(Null), i + 1);
    hide OutputOf;
  }

  /** And so does a nested record inside it, with no field blank at all. */
  lemma NullParentFails(p: Platform, contracts: map<string, Schema>)
    ensures var child := ANYTHING.(types := Some(One("object")), properties := Some([]));
            var def := ANYTHING.(properties := Some([Property("child", child)]));
            var values := Obj([Field("child", Obj([]))]);
            && Output(p, Book(contracts, 0), def, values, None) == Ok([Field("child", Obj([]))])
            && Output(p, Book(contracts, 0), def, values, Some(Null)).Err?
  {
    var child := ANYTHING.(types := Some(One("object")), properties := Some([]));
    var def := ANYTHING.(properties := Some([Property("child", child)]));
    var values, book := Obj([Field("child", Obj([]))]), Book(contracts, 0);
    assert Resolved(book, child) == child && Nested(child);
    assert Prop(values, "child") == Some(Obj([]));
    assert OutputOf(p, book, def, Property("child", child), values, None) == Ok(Some(Obj([])));
    assert [] + [Field("child", Obj([]))] == [Field("child", Obj([]))];
    assert OutputFirst(p, book, def, values, None, 1) == Ok([] + [Field("child", Obj([]))]);
    assert !FillsNull(book, def, Properties(def)[0], values);
    NullRecordIff(p, book, def, values);
  }
}
