/** JavaScript values as JSON carries them; an object keeps its keys in order. */
module JsValues {
  import opened Wrappers
  import opened Sequences

  /** A number that is no finite one is None. */
  datatype Js =
    | Null
    | Bool(truth: bool)
    | Num(amount: Option<real>)
    | Str(text: string)
    | Arr(items: seq<Js>)
    | Obj(fields: seq<Field>)

  datatype Field = Field(key: string, value: Js)

  function Find(fields: seq<Field>, key: string): (i: nat)
    ensures i <= |fields| && (i < |fields| ==> fields[i].key == key)
    ensures forall j :: 0 <= j < i ==> fields[j].key != key
  {
    IndexBy(fields, (f: Field) => f.key, key)
  }

  /** Reading a property. */
  function Get(fields: seq<Field>, key: string): Option<Js> {
    var i := Find(fields, key);
    if i < |fields| then Some(fields[i].value) else None
  }

  /** Assigning a property keeps its place; a new one goes last. */
  function Put(fields: seq<Field>, key: string, value: Js): seq<Field> {
    var i := Find(fields, key);
    if i < |fields| then fields[i := Field(key, value)] else fields + [Field(key, value)]
  }

  ghost predicate KeysDistinct(fields: seq<Field>) {
    forall i, j :: 0 <= i < j < |fields| ==> fields[i].key != fields[j].key
  }

  lemma PutDistinct(fields: seq<Field>, key: string, value: Js)
    requires KeysDistinct(fields)
    ensures KeysDistinct(Put(fields, key, value))
  {
    var i, r := Find(fields, key), Put(fields, key, value);
    assert i < |fields| ==> forall j :: 0 <= j < |fields| ==> r[j].key == fields[j].key;
    assert i == |fields| ==> forall j :: 0 <= j < |fields| ==> r[j] == fields[j];
  }

  lemma GetPut(fields: seq<Field>, key: string, value: Js, other: string)
    ensures Get(Put(fields, key, value), other) == if other == key then Some(value) else Get(fields, other)
  {
    var i, r := Find(fields, key), Put(fields, key, value);
    FindIs(r, key, i);
    if other != key {
      var k := Find(fields, other);
      FindIs(r, other, if k < |fields| then k else |r|);
    }
  }

  lemma FindIs(fields: seq<Field>, key: string, i: nat)
    requires i <= |fields| && (i < |fields| ==> fields[i].key == key)
    requires forall j :: 0 <= j < i ==> fields[j].key != key
    ensures Find(fields, key) == i
  {
  }

  lemma GetJoin(a: seq<Field>, b: seq<Field>, key: string)
    ensures Get(a + b, key) == if Get(a, key).Some? then Get(a, key) else Get(b, key)
  {
    var i, j, r := Find(a, key), Find(b, key), a + b;
    assert forall k :: 0 <= k < |r| ==> r[k] == if k < |a| then a[k] else b[k - |a|];
    FindIs(r, key, if i < |a| then i else |a| + j);
  }

  // ----- texts -----

  /** String(value) fails on an object, at any list depth, that has a property named toString: what
      JSON put there cannot be called. */
  predicate Throws(value: Js) {
    match value
    case Arr(items) => exists i :: 0 <= i < |items| && Throws(items[i])
    case Obj(fields) => exists i :: 0 <= i < |fields| && fields[i].key == "toString"
    case _ => false
  }

  /** String(value) where it does not fail, with the platform's spelling of numbers. */
  function Spelled(numeral: real -> string, value: Js): string {
    match value
    case Null => "null"
    case Bool(truth) => if truth then "true" else "false"
    case Num(amount) => if amount.Some? then numeral(amount.value) else "not finite"
    case Str(text) => text
    case Arr(items) => Joined(numeral, items, ",")
    case Obj(_) => "[object Object]"
  }

  /** items.join(separator). */
  function Joined(numeral: real -> string, items: seq<Js>, separator: string): string {
    if items == [] then ""
    else
      var first := if items[0].Null? then "" else Spelled(numeral, items[0]);
      if |items| == 1 then first else first + separator + Joined(numeral, items[1..], separator)
  }

  predicate Uuid(s: string) {
    |s| == 36 && forall i :: 0 <= i < 36 ==> if i in {8, 13, 18, 23} then s[i] == '-' else HexDigit(s[i])
  }
}
