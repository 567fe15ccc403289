/** src/api/membership_ids.rs, remove_principal_ids: internal identity field names renamed or
    dropped at every depth of a response. */
module PrincipalIds {
  import opened Json

  const PRINCIPAL := "principal_id"
  const REDUNDANT := "_principal_id"
  const IDENTITY_KEYS := {"id", "carbon_id", "silicon_id", "app_id", "public_id"}

  predicate Redundant(key: string) {
    EndsWith(key, REDUNDANT)
  }

  /** A name no public response may contain. */
  predicate Internal(key: string) {
    key == PRINCIPAL || Redundant(key)
  }

  /** str::replace of every "_principal_id", left to right, by "_id". */
  function Short(s: string): string {
    if s == "" then ""
    else if StartsWith(s, REDUNDANT) then "_id" + Short(s[13..])
    else [s[0]] + Short(s[1..])
  }

  /** The first "_principal_id" of a name becomes "_id", and so on behind it. */
  lemma {:induction false} ShortReplaces(s: string, at: nat)
    requires at + 13 <= |s| && StartsWith(s[at..], REDUNDANT)
    requires forall i :: 0 <= i < at ==> !StartsWith(s[i..], REDUNDANT)
    ensures Short(s) == s[..at] + "_id" + Short(s[at + 13..])
  {
    assert s[0..] == s;
    if at > 0 {
      hide StartsWith;
      var t := s[1..];
      assert forall i :: 0 <= i < at - 1 ==> t[i..] == s[i + 1..];
      assert t[at - 1..] == s[at..] && t[at - 1 + 13..] == s[at + 13..];
      ShortReplaces(t, at - 1);
      assert s[..at] == [s[0]] + t[..at - 1];
      assert Short(s) == [s[0]] + Short(t);
      hide Short;
    }
  }

  /** A name without "_principal_id" is its own short name. */
  lemma {:induction false} ShortKeeps(s: string)
    requires forall i :: 0 <= i <= |s| ==> !StartsWith(s[i..], REDUNDANT)
    ensures Short(s) == s
  {
    if s != "" {
      assert s[0..] == s;
      assert forall i :: 0 <= i < |s| ==> s[1..][i..] == s[i + 1..];
      ShortKeeps(s[1..]);
    }
  }

  // ----- the order in which a BTreeMap yields its keys -----

  predicate Less(a: string, b: string) {
    b != "" && (a == "" || a[0] < b[0] || (a[0] == b[0] && Less(a[1..], b[1..])))
  }

  lemma {:induction false} LessTotal(a: string, b: string)
    ensures a == b || Less(a, b) || Less(b, a)
    ensures !(Less(a, b) && Less(b, a))
    decreases |a| + |b|
  {
    if a != "" && b != "" {
      LessTotal(a[1..], b[1..]);
      assert a == [a[0]] + a[1..] && b == [b[0]] + b[1..];
    }
  }

  lemma {:induction false} LessTransitive(a: string, b: string, c: string)
    requires Less(a, b) && Less(b, c)
    ensures Less(a, c)
  {
    if a != "" && a[0] == b[0] == c[0] {
      LessTransitive(a[1..], b[1..], c[1..]);
    }
  }

  ghost predicate IsLeast(key: string, keys: set<string>) {
    key in keys && forall k :: k in keys && k != key ==> Less(key, k)
  }

  lemma {:induction false} LeastExists(keys: set<string>)
    requires keys != {}
    ensures exists key :: IsLeast(key, keys)
    decreases |keys|
  {
    var k :| k in keys;
    if keys == {k} {
      assert IsLeast(k, keys);
    } else {
      var rest := keys - {k};
      LeastExists(rest);
      var least :| IsLeast(least, rest);
      LessTotal(k, least);
      if Less(k, least) {
        forall j | j in keys && j != k && j != least ensures Less(k, j) {
          LessTransitive(k, least, j);
        }
        assert IsLeast(k, keys);
      } else {
        assert IsLeast(least, keys);
      }
    }
  }

  ghost function Least(keys: set<string>): (key: string)
    requires keys != {}
    ensures IsLeast(key, keys)
  {
    LeastExists(keys);
    var key :| IsLeast(key, keys);
    key
  }

  // ----- one object -----

  type Fields = map<string, Json>

  /** Removes the principal key; its value becomes the id when no identity key is there. */
  function TakePrincipal(fields: Fields): Fields {
    if PRINCIPAL !in fields then fields
    else
      var rest := fields - {PRINCIPAL};
      if exists k :: k in IDENTITY_KEYS && k in rest then rest else rest["id" := fields[PRINCIPAL]]
  }

  /** Moves one value to its short name, unless that name is taken. */
  function Rename(fields: Fields, key: string): Fields {
    if key !in fields then fields
    else
      var rest := fields - {key};
      if Short(key) in rest then rest else rest[Short(key) := fields[key]]
  }

  ghost function RenameAll(fields: Fields, keys: set<string>): (r: Fields)
    ensures r.Values <= fields.Values
    decreases |keys|
  {
    if keys == {} then fields
    else
      var key := Least(keys);
      var renamed := Rename(fields, key);
      assert renamed.Values <= fields.Values;
      RenameAll(renamed, keys - {key})
  }

  function RedundantKeys(fields: Fields): set<string> {
    set k | k in fields && Redundant(k)
  }

  ghost function OwnFields(fields: Fields): (r: Fields)
    ensures r.Values <= fields.Values
  {
    var taken := TakePrincipal(fields);
    RenameAll(taken, RedundantKeys(taken))
  }

  // ----- the whole tree -----

  ghost function Removed(value: Json): Json {
    match value
    case Object(fields) =>
      var own := OwnFields(fields);
      Object(map k | k in own :: assert own[k] in own.Values; Removed(own[k]))
    case Array(items) => Array(seq(|items|, i requires 0 <= i < |items| => Removed(items[i])))
    case _ => value
  }

  /** What the pass reports. */
  ghost predicate Changed(value: Json) {
    match value
    case Object(fields) =>
      || PRINCIPAL in fields
      || RedundantKeys(TakePrincipal(fields)) != {}
      || var own := OwnFields(fields); exists k :: k in own && (assert own[k] in own.Values; Changed(own[k]))
    case Array(items) => exists i :: 0 <= i < |items| && Changed(items[i])
    case _ => false
  }

  /** No internal name at any depth. */
  predicate Clean(value: Json) {
    match value
    case Object(fields) => forall k :: k in fields ==> !Internal(k) && Clean(fields[k])
    case Array(items) => forall i :: 0 <= i < |items| ==> Clean(items[i])
    case _ => true
  }

  // ----- short names -----

  /** "_principal_id" cannot overlap itself. */
  lemma NoOverlap(d: nat)
    requires 0 < d < 13
    ensures exists j: nat :: d + j < 13 && REDUNDANT[j] != REDUNDANT[d + j]
  {
    var j := if d == 10 then 1 else 0;
    assert d + j < 13 && REDUNDANT[j] != REDUNDANT[d + j];
  }

  lemma StartsByChars(s: string)
    ensures StartsWith(s, REDUNDANT) <==> |s| >= 13 && forall i :: 0 <= i < 13 ==> s[i] == REDUNDANT[i]
  {
    if |s| >= 13 {
      assert forall i :: 0 <= i < 13 ==> s[..13][i] == s[i];
    }
  }

  /** The last "_principal_id" is not swallowed by an earlier match. */
  lemma NoEarlierStart(p: string)
    requires p != "" && !StartsWith(p, REDUNDANT)
    ensures !StartsWith(p + REDUNDANT, REDUNDANT)
  {
    hide StartsWith;
    var s := p + REDUNDANT;
    StartsByChars(p);
    StartsByChars(s);
    if |p| >= 13 {
      assert forall i :: 0 <= i < 13 ==> s[i] == p[i];
    } else {
      NoOverlap(|p|);
      var j: nat :| |p| + j < 13 && REDUNDANT[j] != REDUNDANT[|p| + j];
      assert s[|p| + j] == REDUNDANT[j];
    }
  }

  lemma {:induction false} ShortOfTail(p: string)
    ensures Short(p + REDUNDANT) == Short(p) + "_id"
  {
    var s := p + REDUNDANT;
    if p == "" {
      assert s == REDUNDANT && StartsWith(s, REDUNDANT) && s[13..] == "";
    } else if StartsWith(p, REDUNDANT) {
      assert s[..13] == p[..13] && s[13..] == p[13..] + REDUNDANT;
      ShortOfTail(p[13..]);
    } else {
      NoEarlierStart(p);
      assert s[1..] == p[1..] + REDUNDANT && s[0] == p[0];
      ShortOfTail(p[1..]);
    }
  }

  lemma {:induction false} ShortIsShorter(s: string)
    ensures |Short(s)| <= |s| && (Short(s) == s || Less(Short(s), s))
    ensures '_' !in Short(s) ==> Short(s) == s
  {
    if s == "" {
    } else if StartsWith(s, REDUNDANT) {
      ShortIsShorter(s[13..]);
      var t := Short(s);
      assert s[..13][0] == '_' && s[..13][1] == 'p';
      assert t[0] == '_' && t[1] == 'i' && t[1..][0] == 'i' && s[1..][0] == 'p';
      assert Less(t[1..], s[1..]);
    } else {
      ShortIsShorter(s[1..]);
      assert Short(s)[1..] == Short(s[1..]);
    }
  }

  const TAIL := "_principal"

  /** A short name ends in "_principal" exactly when the long one does. */
  lemma {:induction false} ShortKeepsTail(p: string)
    ensures EndsWith(Short(p), TAIL) <==> EndsWith(p, TAIL)
  {
    if p == "" {
    } else if StartsWith(p, REDUNDANT) {
      ShortKeepsTail(p[13..]);
      TailAfterName(p);
    } else {
      ShortKeepsTail(p[1..]);
      TailAfterChar(p);
    }
  }

  lemma TailAfterName(p: string)
    requires StartsWith(p, REDUNDANT) && (EndsWith(Short(p[13..]), TAIL) <==> EndsWith(p[13..], TAIL))
    ensures EndsWith(Short(p), TAIL) <==> EndsWith(p, TAIL)
  {
    assert Short(p) == "_id" + Short(p[13..]) && p == REDUNDANT + p[13..];
    hide Short, EndsWith, StartsWith;
    TailBehind("_id", Short(p[13..]));
    TailBehind(REDUNDANT, p[13..]);
  }

  lemma TailAfterChar(p: string)
    requires p != "" && !StartsWith(p, REDUNDANT) && (EndsWith(Short(p[1..]), TAIL) <==> EndsWith(p[1..], TAIL))
    ensures EndsWith(Short(p), TAIL) <==> EndsWith(p, TAIL)
  {
    assert Short(p) == [p[0]] + Short(p[1..]) && p == [p[0]] + p[1..];
    hide Short, EndsWith, StartsWith;
    TailBehindByte(p[0], Short(p[1..]));
    TailBehindByte(p[0], p[1..]);
    PlainShort("principal", p[1..]);
  }

  /** Text without an underscore is a short name only of itself. */
  lemma PlainShort(plain: string, p: string)
    requires '_' !in plain
    ensures Short(p) == plain <==> p == plain
  {
    ShortIsShorter(p);
    if p == plain { ShortPlain(p); }
  }

  lemma {:induction false} ShortPlain(p: string)
    requires '_' !in p
    ensures Short(p) == p
  {
    if p != "" {
      StartsByChars(p);
      assert REDUNDANT[0] == '_' && p[0] in p;
      assert !StartsWith(p, REDUNDANT);
      ShortPlain(p[1..]);
    }
  }

  lemma TailChars(s: string)
    requires EndsWith(s, TAIL)
    ensures s[|s| - 10] == '_' && s[|s| - 9] == 'p'
  {
    assert s[|s| - 10..][0] == TAIL[0] && s[|s| - 10..][1] == TAIL[1];
  }

  lemma SameTail(prefix: string, rest: string)
    requires |rest| >= 10
    ensures EndsWith(prefix + rest, TAIL) <==> EndsWith(rest, TAIL)
  {
    var s := prefix + rest;
    assert s[|s| - 10..] == rest[|rest| - 10..];
  }

  /** No part of "_id" or "_principal_id" at the end of a prefix can begin "_principal". */
  lemma TailBehind(prefix: string, rest: string)
    requires prefix == "_id" || prefix == REDUNDANT
    ensures EndsWith(prefix + rest, TAIL) <==> EndsWith(rest, TAIL)
  {
    hide EndsWith;
    if |rest| >= 10 {
      SameTail(prefix, rest);
    } else {
      ShortText(rest);
      if EndsWith(prefix + rest, TAIL) { NoTailAcross(prefix, rest); }
    }
  }

  lemma ShortText(rest: string)
    requires |rest| < 10
    ensures !EndsWith(rest, TAIL)
  {
  }

  lemma NoTailAcross(prefix: string, rest: string)
    requires prefix == "_id" || prefix == REDUNDANT
    requires |rest| < 10
    ensures !EndsWith(prefix + rest, TAIL)
  {
    hide EndsWith;
    var s := prefix + rest;
    if EndsWith(s, TAIL) { StraddledTail(prefix, rest); }
  }

  lemma StraddledTail(prefix: string, rest: string)
    requires |rest| < 10 && EndsWith(prefix + rest, TAIL)
    ensures prefix != "_id" && prefix != REDUNDANT
  {
    var s := prefix + rest;
    TailChars(s);
    hide EndsWith;
    var at := |s| - 10;
    assert prefix[at] == '_' && (at + 1 < |prefix| ==> prefix[at + 1] == 'p');
  }

  lemma TailBehindByte(c: char, rest: string)
    ensures EndsWith([c] + rest, TAIL) <==> EndsWith(rest, TAIL) || (c == '_' && rest == "principal")
  {
    var s := [c] + rest;
    if |rest| >= 10 {
      assert s[|s| - 10..] == rest[|rest| - 10..];
    } else if |s| == 10 {
      assert s[0..] == s && TAIL == ['_'] + "principal";
      assert s == TAIL ==> s[1..] == TAIL[1..];
    }
  }

  /** Long names whose short form is itself internal. */
  predicate Stubborn(key: string) {
    key == "principal_principal_id" || EndsWith(key, "_principal_principal_id")
  }

  lemma RedundantSplits(key: string)
    requires Redundant(key)
    ensures var p := key[..|key| - 13];
            key == p + REDUNDANT && Short(key) == Short(p) + "_id"
    ensures |Short(key)| + 10 <= |key| && Less(Short(key), key)
  {
    var p := key[..|key| - 13];
    assert key == p + REDUNDANT;
    ShortOfTail(p);
    ShortIsShorter(p);
    ShortIsShorter(key);
  }

  lemma ShortInternal(key: string)
    requires Redundant(key)
    ensures Internal(Short(key)) <==> Stubborn(key)
  {
    RedundantSplits(key);
    var p := key[..|key| - 13];
    var x := Short(p);
    PlainShort("principal", p);
    ShortKeepsTail(p);
    SuffixBoth(x, TAIL, "_id");
    IdSuffixEqual(x);
    assert Internal(x + "_id") <==> x == "principal" || EndsWith(x, TAIL);
    LongSuffix(p);
  }

  lemma IdSuffixEqual(x: string)
    ensures x + "_id" == PRINCIPAL <==> x == "principal"
    ensures TAIL + "_id" == REDUNDANT
  {
    assert "principal" + "_id" == PRINCIPAL;
    assert (x + "_id")[..|x|] == x;
    assert PRINCIPAL[..9] == "principal";
  }

  lemma Literals()
    ensures TAIL + REDUNDANT == "_principal_principal_id"
    ensures "principal" + REDUNDANT == "principal_principal_id"
  {
  }

  lemma LongSuffix(p: string)
    ensures p + REDUNDANT == "principal_principal_id" <==> p == "principal"
    ensures EndsWith(p + REDUNDANT, "_principal_principal_id") <==> EndsWith(p, TAIL)
  {
    Literals();
    SuffixBoth(p, TAIL, REDUNDANT);
    assert (p + REDUNDANT)[..|p|] == p;
    assert ("principal" + REDUNDANT)[..9] == "principal";
  }

  lemma SuffixBoth(x: string, tail: string, suffix: string)
    ensures EndsWith(x + suffix, tail + suffix) <==> EndsWith(x, tail)
  {
    var s, t := x + suffix, tail + suffix;
    if |tail| <= |x| {
      var end := x[|x| - |tail|..];
      assert s[|s| - |t|..] == end + suffix;
      assert (end + suffix)[..|tail|] == end && t[..|tail|] == tail;
    }
  }

  // ----- renaming within one object -----

  function ShortNames(keys: set<string>): set<string> {
    set k | k in keys :: Short(k)
  }

  lemma RenameKeys(fields: Fields, key: string)
    requires key in fields && Redundant(key)
    ensures Rename(fields, key).Keys == fields.Keys - {key} + {Short(key)}
  {
    RedundantSplits(key);
  }

  /** The least key's short name is less than every key still to come. */
  lemma ShortOfLeast(key: string, keys: set<string>)
    requires IsLeast(key, keys) && Redundant(key)
    ensures Short(key) !in keys
  {
    RedundantSplits(key);
    LessTotal(Short(key), key);
    LessTotal(key, Short(key));
  }

  /** The renamed keys give way to their short forms; all others stay. */
  lemma {:induction false} RenameAllKeys(fields: Fields, keys: set<string>)
    requires forall k :: k in keys ==> Redundant(k) && k in fields
    ensures RenameAll(fields, keys).Keys == fields.Keys - keys + ShortNames(keys)
    decreases |keys|
  {
    hide Redundant, Rename;
    if keys != {} {
      var key := Least(keys);
      var renamed, rest := Rename(fields, key), keys - {key};
      RenameKeys(fields, key);
      ShortOfLeast(key, keys);
      RenameAllKeys(renamed, rest);
      assert ShortNames(keys) == ShortNames(rest) + {Short(key)};
      assert RenameAll(fields, keys) == RenameAll(renamed, rest);
      assert renamed.Keys - rest == fields.Keys - keys + {Short(key)};
    }
  }

  lemma TakePrincipalKeys(fields: Fields)
    ensures var r := TakePrincipal(fields);
            && PRINCIPAL !in r
            && r.Keys == fields.Keys - {PRINCIPAL}
                 + (if PRINCIPAL in fields && fields.Keys !! IDENTITY_KEYS then {"id"} else {})
  {
  }

  lemma IdentityKeysArePublic()
    ensures forall k :: k in IDENTITY_KEYS ==> !Internal(k)
  {
  }

  /** The keys an object ends up with are its public ones, the short forms of its redundant ones,
      and id where the principal takes that name; the internal ones among them are the short
      forms of stubborn keys. */
  lemma OwnKeys(fields: Fields)
    ensures var r := OwnFields(fields);
            && r.Keys == (set k | k in fields && !Internal(k)) + ShortNames(RedundantKeys(fields))
                 + (if PRINCIPAL in fields && fields.Keys !! IDENTITY_KEYS then {"id"} else {})
            && ((exists k :: k in r && Internal(k)) <==> exists k :: k in fields && Stubborn(k))
            && (PRINCIPAL in fields ==> exists k :: k in IDENTITY_KEYS && k in r)
  {
    var taken := TakePrincipal(fields);
    var keys := RedundantKeys(taken);
    TakePrincipalKeys(fields);
    IdentityKeysArePublic();
    RenameAllKeys(taken, keys);
    assert !Redundant(PRINCIPAL);
    assert keys == RedundantKeys(fields);
    forall k | k in keys ensures Internal(Short(k)) <==> Stubborn(k) {
      ShortInternal(k);
    }
    forall k | Stubborn(k) ensures Redundant(k) && k != PRINCIPAL {
      StubbornIsRedundant(k);
    }
    assert forall k :: k in fields && Stubborn(k) ==> k in keys && Short(k) in OwnFields(fields);
  }

  lemma StubbornIsRedundant(k: string)
    requires Stubborn(k)
    ensures Redundant(k) && k != PRINCIPAL
  {
    Literals();
    if k == "principal_principal_id" {
      assert k[9..] == REDUNDANT;
    } else {
      assert k[|k| - 13..] == k[|k| - 23..][10..] == REDUNDANT;
    }
  }

  // ----- total key length -----

  ghost function MapSum(m: map<string, nat>): nat {
    if m == map[] then 0
    else
      var k :| k in m;
      m[k] + MapSum(m - {k})
  }

  lemma {:induction false} MapSumSplit(m: map<string, nat>, key: string)
    requires key in m
    ensures MapSum(m) == m[key] + MapSum(m - {key})
    decreases |m|
  {
    var k :| k in m && MapSum(m) == m[k] + MapSum(m - {k});
    if k != key {
      MapSumSplit(m - {k}, key);
      MapSumSplit(m - {key}, k);
      assert m - {k} - {key} == m - {key} - {k};
    }
  }

  lemma {:induction false} MapSumMonotone(m: map<string, nat>, n: map<string, nat>)
    requires m.Keys == n.Keys && forall k :: k in m ==> m[k] <= n[k]
    ensures MapSum(m) <= MapSum(n)
    ensures (exists k :: k in m && m[k] < n[k]) ==> MapSum(m) < MapSum(n)
    decreases |m|
  {
    if m == map[] {
      assert n == map[];
    } else {
      var k :| k in m && ((exists j :: j in m && m[j] < n[j]) ==> m[k] < n[k]);
      MapSumSplit(m, k);
      MapSumSplit(n, k);
      MapSumMonotone(m - {k}, n - {k});
    }
  }

  ghost function SeqSum(s: seq<nat>): nat {
    if s == [] then 0 else s[0] + SeqSum(s[1..])
  }

  lemma {:induction false} SeqSumMonotone(s: seq<nat>, t: seq<nat>)
    requires |s| == |t| && forall i :: 0 <= i < |s| ==> s[i] <= t[i]
    ensures SeqSum(s) <= SeqSum(t)
    ensures (exists i :: 0 <= i < |s| && s[i] < t[i]) ==> SeqSum(s) < SeqSum(t)
  {
    if s != [] {
      SeqSumMonotone(s[1..], t[1..]);
      if i :| 0 <= i < |s| && s[i] < t[i] {
        assert i > 0 ==> s[1..][i - 1] < t[1..][i - 1];
      }
    }
  }

  ghost function Weight(value: Json): nat {
    match value
    case Object(fields) => MapSum(map k | k in fields :: |k| + Weight(fields[k]))
    case Array(items) => SeqSum(seq(|items|, i requires 0 <= i < |items| => Weight(items[i])))
    case _ => 0
  }

  ghost function Weights(fields: Fields): map<string, nat> {
    map k | k in fields :: |k| + Weight(fields[k])
  }

  ghost function FieldsWeight(fields: Fields): nat {
    MapSum(Weights(fields))
  }

  /** Taking a key away and putting its value under another, or nowhere. */
  lemma MoveWeight(fields: Fields, key: string, short: string, r: Fields)
    requires key in fields && |short| + 10 <= |key|
    requires r == fields - {key} || (short !in fields - {key} && r == (fields - {key})[short := fields[key]])
    ensures FieldsWeight(r) + 10 <= FieldsWeight(fields)
  {
    hide MapSum, Weight;
    MapSumSplit(Weights(fields), key);
    assert Weights(fields) - {key} == Weights(fields - {key});
    if r != fields - {key} {
      MapSumSplit(Weights(r), short);
      assert Weights(r) - {short} == Weights(fields - {key});
    }
  }

  lemma {:induction false} RenameAllWeight(fields: Fields, keys: set<string>)
    requires forall k :: k in keys ==> Redundant(k) && k in fields
    ensures FieldsWeight(RenameAll(fields, keys)) + 10 * |keys| <= FieldsWeight(fields)
    decreases |keys|
  {
    hide Redundant, FieldsWeight, Weights;
    if keys != {} {
      var key := Least(keys);
      var renamed, rest := Rename(fields, key), keys - {key};
      RedundantSplits(key);
      MoveWeight(fields, key, Short(key), renamed);
      RenameKeys(fields, key);
      RenameAllWeight(renamed, rest);
    }
  }

  lemma OwnWeight(fields: Fields)
    ensures FieldsWeight(OwnFields(fields)) <= FieldsWeight(fields)
    ensures PRINCIPAL in fields || RedundantKeys(TakePrincipal(fields)) != {} ==>
              FieldsWeight(OwnFields(fields)) < FieldsWeight(fields)
  {
    hide FieldsWeight, Weights;
    var taken := TakePrincipal(fields);
    if PRINCIPAL in fields {
      MoveWeight(fields, PRINCIPAL, "id", taken);
    }
    RenameAllWeight(taken, RedundantKeys(taken));
  }

  /** One object, once the passes over its values are known. */
  lemma ObjectWeight(fields: Fields, own: Fields, after: Fields, changed: bool)
    requires own.Keys == after.Keys
    requires forall k :: k in own ==> Weights(after)[k] <= Weights(own)[k]
    requires changed ==> exists k :: k in own && Weights(after)[k] < Weights(own)[k]
    requires FieldsWeight(own) <= FieldsWeight(fields)
    ensures Weight(Object(after)) <= Weight(Object(fields))
    ensures changed || FieldsWeight(own) < FieldsWeight(fields) ==> Weight(Object(after)) < Weight(Object(fields))
  {
    MapSumMonotone(Weights(after), Weights(own));
    ObjectWeighs(after);
    ObjectWeighs(fields);
  }

  lemma ObjectWeighs(fields: Fields)
    ensures Weight(Object(fields)) == FieldsWeight(fields)
  {
  }

  lemma RemovedObjectWeight(fields: Fields)
    requires var own := OwnFields(fields);
             forall k :: k in own ==> && Weight(Removed(own[k])) <= Weight(own[k])
                                      && (Changed(own[k]) ==> Weight(Removed(own[k])) < Weight(own[k]))
    ensures var v := Object(fields);
            Weight(Removed(v)) <= Weight(v) && (Changed(v) ==> Weight(Removed(v)) < Weight(v))
  {
    hide FieldsWeight, OwnFields, Weight;
    var own := OwnFields(fields);
    var after := Removed(Object(fields)).fields;
    OwnWeight(fields);
    assert forall k :: k in own ==> own[k] in own.Values && after[k] == Removed(own[k]);
    ObjectWeight(fields, own, after, exists k :: k in own && Changed(own[k]));
  }

  /** A pass never adds key text, and a pass that reports a change removes some. */
  lemma {:induction false} RemovedWeight(value: Json)
    ensures Weight(Removed(value)) <= Weight(value)
    ensures Changed(value) ==> Weight(Removed(value)) < Weight(value)
    decreases value
  {
    match value {
      case Object(fields) =>
        var own := OwnFields(fields);
        forall k | k in own
          ensures Weight(Removed(own[k])) <= Weight(own[k])
          ensures Changed(own[k]) ==> Weight(Removed(own[k])) < Weight(own[k])
        {
          assert own[k] in own.Values;
          RemovedWeight(own[k]);
        }
        RemovedObjectWeight(fields);
      case Array(items) =>
        forall i | 0 <= i < |items|
          ensures Weight(Removed(items[i])) <= Weight(items[i])
          ensures Changed(items[i]) ==> Weight(Removed(items[i])) < Weight(items[i])
        {
          RemovedWeight(items[i]);
        }
        ArrayWeight(items, Removed(value).items, Changed(value));
      case _ =>
    }
  }

  lemma ArrayWeight(items: seq<Json>, after: seq<Json>, changed: bool)
    requires |items| == |after| && forall i :: 0 <= i < |items| ==> Weight(after[i]) <= Weight(items[i])
    requires changed ==> exists i :: 0 <= i < |items| && Weight(after[i]) < Weight(items[i])
    ensures Weight(Array(after)) <= Weight(Array(items))
    ensures changed ==> Weight(Array(after)) < Weight(Array(items))
  {
    var s := seq(|after|, i requires 0 <= i < |after| => Weight(after[i]));
    var t := seq(|items|, i requires 0 <= i < |items| => Weight(items[i]));
    if changed {
      var i :| 0 <= i < |items| && Weight(after[i]) < Weight(items[i]);
      assert s[i] < t[i];
    }
    SeqSumMonotone(s, t);
  }

  // ----- one pass -----

  lemma {:induction false} UnchangedStays(value: Json)
    requires !Changed(value)
    ensures Removed(value) == value && Clean(value)
    decreases value
  {
    match value {
      case Object(fields) =>
        var own := OwnFields(fields);
        assert TakePrincipal(fields) == fields && RedundantKeys(fields) == {} && own == fields;
        forall k | k in fields ensures Removed(fields[k]) == fields[k] && Clean(fields[k]) && !Internal(k) {
          UnchangedStays(fields[k]);
          assert Redundant(k) ==> k in RedundantKeys(fields);
        }
      case Array(items) =>
        forall i | 0 <= i < |items| ensures Removed(items[i]) == items[i] && Clean(items[i]) {
          UnchangedStays(items[i]);
        }
      case _ =>
    }
  }

  lemma {:induction false} CleanStays(value: Json)
    requires Clean(value)
    ensures !Changed(value)
    decreases value
  {
    match value {
      case Object(fields) =>
        assert TakePrincipal(fields) == fields && RedundantKeys(fields) == {};
        assert OwnFields(fields) == fields;
        forall k | k in fields ensures !Changed(fields[k]) {
          CleanStays(fields[k]);
        }
      case Array(items) =>
        forall i | 0 <= i < |items| ensures !Changed(items[i]) {
          CleanStays(items[i]);
        }
      case _ =>
    }
  }

  /** The pass reports a change exactly when it makes one, which is exactly when there was an
      internal name somewhere. */
  lemma ChangedIff(value: Json)
    ensures Changed(value) <==> Removed(value) != value
    ensures Changed(value) <==> !Clean(value)
  {
    if Changed(value) {
      RemovedWeight(value);
      if Clean(value) { CleanStays(value); }
    } else {
      UnchangedStays(value);
    }
  }

  // ----- which values an object keeps -----

  /** Of the redundant keys with one short name, this is the first. */
  ghost predicate First(key: string, keys: set<string>) {
    forall k :: k in keys && Short(k) == Short(key) && k != key ==> Less(key, k)
  }

  /** The value under this key survives the pass: its key is public, or it becomes the id of an
      object without another identity, or it is the first to claim a free short name. */
  ghost predicate Kept(fields: Fields, key: string)
    requires key in fields
  {
    if key == PRINCIPAL then fields.Keys !! IDENTITY_KEYS
    else if !Redundant(key) then true
    else (Short(key) in fields ==> Redundant(Short(key)) || Short(key) == PRINCIPAL) && First(key, RedundantKeys(fields))
  }

  /** The name a kept key's value ends up under. */
  function NewName(key: string): string {
    if key == PRINCIPAL then "id" else if Redundant(key) then Short(key) else key
  }

  lemma {:induction false} RenameAllValues(fields: Fields, keys: set<string>)
    requires forall k :: k in keys ==> Redundant(k) && k in fields
    ensures var r := RenameAll(fields, keys);
            && (forall j :: j in fields && j !in keys ==> j in r && r[j] == fields[j])
            && forall k :: k in keys && First(k, keys) && (Short(k) in fields ==> Short(k) in keys) ==>
                 Short(k) in r && r[Short(k)] == fields[k]
    decreases |keys|
  {
    hide Redundant, Less, First, Short;
    if keys != {} {
      var key := Least(keys);
      var renamed, rest := Rename(fields, key), keys - {key};
      RenameKeys(fields, key);
      ShortOfLeast(key, keys);
      RenameAllValues(renamed, rest);
      assert RenameAll(fields, keys) == RenameAll(renamed, rest);
      hide RenameAll, IsLeast;
      forall k | k in rest && First(k, keys) ensures First(k, rest) && Short(k) != Short(key) {
        FirstOfRest(k, key, keys);
      }
    }
  }

  lemma FirstOfRest(k: string, key: string, keys: set<string>)
    requires IsLeast(key, keys) && k in keys && k != key && First(k, keys)
    ensures First(k, keys - {key}) && Short(k) != Short(key)
  {
    LessTotal(k, key);
  }

  lemma {:induction false} FirstExists(key: string, keys: set<string>) returns (first: string)
    requires key in keys
    ensures first in keys && Short(first) == Short(key) && First(first, keys)
  {
    var same := set k | k in keys && Short(k) == Short(key);
    assert key in same;
    first := Least(same);
  }

  /** Every kept value is found under its key's new name: a public key keeps its own, a redundant
      one has its short name, the principal becomes id. */
  lemma KeptValue(fields: Fields, k: string)
    requires k in fields && Kept(fields, k)
    ensures NewName(k) in OwnFields(fields) && OwnFields(fields)[NewName(k)] == fields[k]
  {
    var taken, r := TakePrincipal(fields), OwnFields(fields);
    var keys := RedundantKeys(taken);
    TakePrincipalKeys(fields);
    IdentityKeysArePublic();
    assert !Redundant(PRINCIPAL);
    assert keys == RedundantKeys(fields);
    RenameAllValues(taken, keys);
    ShortIsNoPlainName(keys);
    hide Redundant, First, Less, RedundantKeys, OwnFields, RenameAll, Internal, Short;
  }

  /** The values an object keeps are those of its kept keys. */
  lemma OwnValues(fields: Fields)
    ensures var r := OwnFields(fields);
            && (forall k :: k in fields && Kept(fields, k) ==> fields[k] in r.Values)
            && forall j :: j in r ==> exists k :: k in fields && Kept(fields, k) && r[j] == fields[k]
  {
    hide Kept, NewName;
    forall k | k in fields && Kept(fields, k) ensures fields[k] in OwnFields(fields).Values {
      KeptValue(fields, k);
    }
    forall j | j in OwnFields(fields) ensures exists k :: k in fields && Kept(fields, k) && OwnFields(fields)[j] == fields[k] {
      OwnValueKept(fields, j);
    }
  }

  lemma OwnValueKept(fields: Fields, j: string)
    requires j in OwnFields(fields)
    ensures exists k :: k in fields && Kept(fields, k) && OwnFields(fields)[j] == fields[k]
  {
    var taken, r := TakePrincipal(fields), OwnFields(fields);
    var keys := RedundantKeys(taken);
    TakePrincipalKeys(fields);
    assert !Redundant(PRINCIPAL);
    assert keys == RedundantKeys(fields);
    RenameAllKeys(taken, keys);
    if j in taken && j !in keys {
      RenameAllValues(taken, keys);
      KeptPlain(fields, j);
    } else {
      var named :| named in keys && Short(named) == j;
      var k := FirstExists(named, keys);
      ShortIsNoPlainName(keys);
      assert Redundant(k);
      assert Kept(fields, k) by { hide First; }
      KeptValue(fields, k);
    }
  }

  /** A name that is kept as it is, or the id a principal becomes. */
  lemma KeptPlain(fields: Fields, j: string)
    requires j in TakePrincipal(fields) && !Redundant(j)
    ensures exists k :: k in fields && Kept(fields, k) && TakePrincipal(fields)[j] == fields[k]
  {
    if j in fields && TakePrincipal(fields)[j] == fields[j] {
      assert Kept(fields, j);
    } else {
      assert Kept(fields, PRINCIPAL);
    }
  }

  lemma ShortIsNoPlainName(keys: set<string>)
    requires forall k :: k in keys ==> Redundant(k)
    ensures forall k :: k in keys ==> Short(k) != "id"
  {
    forall k | k in keys ensures Short(k) != "id" {
      RedundantSplits(k);
    }
  }

  // ----- one pass -----

  /** A stubborn name stands in the tree, not counting what the pass drops. */
  ghost predicate Obstructed(value: Json) {
    match value
    case Object(fields) => exists k :: k in fields && (Stubborn(k) || (Kept(fields, k) && Obstructed(fields[k])))
    case Array(items) => exists i :: 0 <= i < |items| && Obstructed(items[i])
    case _ => false
  }

  /** One pass is enough exactly when no stubborn name stands in what it keeps. */
  lemma {:induction false} OnePassCleansIff(value: Json)
    ensures Clean(Removed(value)) <==> !Obstructed(value)
    decreases value
  {
    match value {
      case Object(fields) =>
        forall k | k in fields ensures Clean(Removed(fields[k])) <==> !Obstructed(fields[k]) {
          OnePassCleansIff(fields[k]);
        }
        ObjectCleansIff(fields);
      case Array(items) =>
        forall i | 0 <= i < |items| ensures Clean(Removed(value).items[i]) <==> !Obstructed(items[i]) {
          OnePassCleansIff(items[i]);
        }
      case _ =>
    }
  }

  lemma ObjectCleansIff(fields: Fields)
    ensures Clean(Removed(Object(fields))) <==>
              forall k :: k in fields ==> !Stubborn(k) && (Kept(fields, k) ==> Clean(Removed(fields[k])))
  {
    hide Kept, Stubborn, Internal, OwnFields, Removed;
    InternalLeft(fields);
    ValuesCleanIff(fields);
    RemovedFields(fields);
    CleanObject(Removed(Object(fields)).fields);
    hide Clean;
  }

  lemma CleanObject(fields: Fields)
    ensures Clean(Object(fields)) <==> (forall k :: k in fields ==> !Internal(k)) && forall k :: k in fields ==> Clean(fields[k])
  {
    hide Internal;
  }

  lemma InternalLeft(fields: Fields)
    ensures (exists k :: k in OwnFields(fields) && Internal(k)) <==> exists k :: k in fields && Stubborn(k)
  {
    OwnKeys(fields);
    hide OwnFields, Internal, Stubborn;
  }

  lemma ValuesCleanIff(fields: Fields)
    ensures var after := Removed(Object(fields)).fields;
            (forall j :: j in after ==> Clean(after[j])) <==>
              forall k :: k in fields && Kept(fields, k) ==> Clean(Removed(fields[k]))
  {
    hide Kept, Clean, OwnFields, Removed;
    OwnValues(fields);
    RemovedFields(fields);
    var own, after := OwnFields(fields), Removed(Object(fields)).fields;
    if forall k :: k in fields && Kept(fields, k) ==> Clean(Removed(fields[k])) {
      forall j | j in after ensures Clean(after[j]) {
        var k :| k in fields && Kept(fields, k) && own[j] == fields[k];
      }
    }
    if forall j :: j in after ==> Clean(after[j]) {
      forall k | k in fields && Kept(fields, k) ensures Clean(Removed(fields[k])) {
        assert fields[k] in own.Values;
        var j :| j in own && own[j] == fields[k];
      }
    }
  }

  lemma RemovedFields(fields: Fields)
    ensures var own, after := OwnFields(fields), Removed(Object(fields));
            && after.Object? && after.fields.Keys == own.Keys
            && forall j :: j in own ==> after.fields[j] == Removed(own[j])
  {
    forall j | j in OwnFields(fields) ensures Removed(Object(fields)).fields[j] == Removed(OwnFields(fields)[j]) {
      assert OwnFields(fields)[j] in OwnFields(fields).Values;
    }
  }

  /** No name anywhere in the tree is principal_principal_id or ends in _principal_principal_id. */
  predicate NoStubborn(value: Json) {
    match value
    case Object(fields) => forall k :: k in fields ==> !Stubborn(k) && NoStubborn(fields[k])
    case Array(items) => forall i :: 0 <= i < |items| ==> NoStubborn(items[i])
    case _ => true
  }

  /** Without stubborn names at any depth one pass leaves no internal name. */
  lemma {:induction false} OnePassCleans(value: Json)
    requires NoStubborn(value)
    ensures !Obstructed(value) && Clean(Removed(value))
    decreases value
  {
    match value {
      case Object(fields) =>
        forall k | k in fields ensures !Obstructed(fields[k]) {
          OnePassCleans(fields[k]);
        }
      case Array(items) =>
        forall i | 0 <= i < |items| ensures !Obstructed(items[i]) {
          OnePassCleans(items[i]);
        }
      case _ =>
    }
    OnePassCleansIff(value);
  }

  /** One pass turns this object's only key into principal_id. */
  lemma OnePassCanFail(content: Json)
    ensures var value := Object(map["principal_principal_id" := content]);
            Obstructed(value) && !Clean(Removed(value)) && PRINCIPAL in Removed(value).fields
  {
    var fields: Fields := map["principal_principal_id" := content];
    var value := Object(fields);
    assert Stubborn("principal_principal_id") && "principal_principal_id" in fields;
    OnePassCleansIff(value);
    StubbornIsRedundant("principal_principal_id");
    ShortOfOnly();
    OwnKeys(fields);
    assert Short("principal_principal_id") in OwnFields(fields);
    assert Removed(value).fields.Keys == OwnFields(fields).Keys;
  }

  lemma ShortOfOnly()
    ensures Short("principal_principal_id") == PRINCIPAL
  {
    hide Short;
    Literals();
    assert "principal" + "_id" == PRINCIPAL;
    PlainBeforeName("principal");
  }

  lemma PlainBeforeName(p: string)
    requires '_' !in p
    ensures Short(p + REDUNDANT) == p + "_id"
  {
    ShortOfTail(p);
    ShortPlain(p);
  }

  /** An object that had a principal identity keeps an identity key, with that very value
      when it had no other. */
  lemma PrincipalKeepsIdentity(fields: Fields)
    requires PRINCIPAL in fields
    ensures var after := Removed(Object(fields)).fields;
            && (exists k :: k in IDENTITY_KEYS && k in after)
            && (fields.Keys !! IDENTITY_KEYS ==> "id" in after && after["id"] == Removed(fields[PRINCIPAL]))
  {
    OwnKeys(fields);
    var taken := TakePrincipal(fields);
    if fields.Keys !! IDENTITY_KEYS { RenameAllKeeps(taken, RedundantKeys(taken), "id"); }
    var own := OwnFields(fields);
    assert forall k :: k in own ==> own[k] in own.Values;
    assert Removed(Object(fields)).fields.Keys == own.Keys;
  }

  lemma {:induction false} RenameAllKeeps(fields: Fields, keys: set<string>, key: string)
    requires key in fields && key !in keys
    ensures key in RenameAll(fields, keys) && RenameAll(fields, keys)[key] == fields[key]
    decreases |keys|
  {
    if keys != {} {
      var least := Least(keys);
      RenameAllKeeps(Rename(fields, least), keys - {least}, key);
    }
  }

  // ----- repeated passes -----

  ghost function Passes(value: Json, n: nat): Json
    decreases n
  {
    if n == 0 then value else Passes(Removed(value), n - 1)
  }

  /** Passes reach a clean tree, and stay there, within as many as there are key characters. */
  lemma {:induction false} PassesReachClean(value: Json) returns (n: nat)
    ensures n <= Weight(value)
    ensures Clean(Passes(value, n)) && Removed(Passes(value, n)) == Passes(value, n)
    decreases Weight(value)
  {
    hide Removed, Changed, Clean, Weight;
    ChangedIff(value);
    if Changed(value) {
      RemovedWeight(value);
      n := PassesReachClean(Removed(value));
      n := n + 1;
    } else {
      n := 0;
    }
  }

  // ----- the pass over a response, in place -----

  class Response {
    var value: Json

    constructor (value: Json)
      ensures this.value == value
    {
      this.value := value;
    }

    method RemovePrincipalIds() returns (changed: bool)
      modifies this
      ensures value == Removed(old(value))
      ensures changed <==> value != old(value)
      ensures !changed <==> Clean(old(value))
    {
      ChangedIff(value);
      value, changed := Remove(value);
    }
  }

  method Remove(value: Json) returns (result: Json, changed: bool)
    ensures result == Removed(value) && changed == Changed(value)
    decreases value, 1
  {
    match value {
      case Object(fields) =>
        var own := TakePrincipal(fields);
        changed := PRINCIPAL in fields;
        var keys := RedundantKeys(own);
        changed := changed || keys != {};
        while keys != {}
          invariant RenameAll(own, keys) == OwnFields(fields)
          decreases |keys|
        {
          ghost var least := Least(keys);
          var key :| key in keys && forall k :: k in keys && k != key ==> Less(key, k);
          LessTotal(key, least);
          own, keys := Rename(own, key), keys - {key};
        }
        var valuesChanged;
        result, valuesChanged := RemoveValues(value, own);
        changed := changed || valuesChanged;
      case Array(items) =>
        var after := [];
        changed := false;
        while |after| < |items|
          invariant |after| <= |items|
          invariant forall i :: 0 <= i < |after| ==> after[i] == Removed(items[i])
          invariant changed <==> exists i :: 0 <= i < |after| && Changed(items[i])
        {
          var item, itemChanged := Remove(items[|after|]);
          after, changed := after + [item], changed || itemChanged;
        }
        assert after == Removed(value).items;
        result := Array(after);
      case _ =>
        result, changed := value, false;
    }
  }

  method RemoveValues(value: Json, own: Fields) returns (result: Json, changed: bool)
    requires value.Object? && own == OwnFields(value.fields)
    ensures result == Removed(value)
    ensures changed <==> exists k :: k in own && Changed(own[k])
    decreases value, 0
  {
    var after: Fields, todo := map[], own.Keys;
    changed := false;
    while todo != {}
      invariant todo <= own.Keys && after.Keys == own.Keys - todo
      invariant forall k :: k in after ==> after[k] == Removed(own[k])
      invariant changed <==> exists k :: k in after && Changed(own[k])
      decreases |todo|
    {
      var k :| k in todo;
      assert own[k] in own.Values;
      var item, itemChanged := Remove(own[k]);
      after, todo, changed := after[k := item], todo - {k}, changed || itemChanged;
    }
    assert after == Removed(value).fields;
    result := Object(after);
  }
}
