/** src/api/membership_ids.rs: membership identifiers translated at the transport boundary. */
module MembershipIds {
  import opened Wrappers
  import opened Json
  import opened Sequences

  // ----- private keys -----

  function Lower(c: char): char {
    if 'A' <= c <= 'F' then c - 'A' + 'a' else c
  }

  predicate LowerHex(s: string) {
    forall i :: 0 <= i < |s| ==> HexDigit(s[i]) && s[i] == Lower(s[i])
  }

  /** The 32 digits of a UUID. */
  type Key = k: string | |k| == 32 && LowerHex(k) witness seq(32, _ => '0')

  predicate Dash(i: int) {
    i == 8 || i == 13 || i == 18 || i == 23
  }

  /** How many dashes the hyphenated form has written before digit `i`. */
  function Shift(i: nat): nat {
    if i < 8 then 0 else if i < 12 then 1 else if i < 16 then 2 else if i < 20 then 3 else 4
  }

  function Unshift(i: nat): nat
    requires i < 36 && !Dash(i)
    ensures Unshift(i) < 32 && Unshift(i) + Shift(Unshift(i)) == i
  {
    if i < 8 then i else if i < 13 then i - 1 else if i < 18 then i - 2 else if i < 23 then i - 3 else i - 4
  }

  function PrintKey(k: Key): (s: string)
    ensures |s| == 36
    ensures forall i :: 0 <= i < 36 ==> s[i] == if Dash(i) then '-' else k[Unshift(i)]
  {
    seq(36, i requires 0 <= i < 36 => if Dash(i) then '-' else k[Unshift(i)])
  }

  function Simple(s: string): Option<Key> {
    if |s| == 32 && forall i :: 0 <= i < 32 ==> HexDigit(s[i])
    then Some(seq(32, i requires 0 <= i < 32 => Lower(s[i])))
    else None
  }

  function Hyphenated(s: string): Option<Key> {
    if |s| == 36 && forall i :: 0 <= i < 36 ==> if Dash(i) then s[i] == '-' else HexDigit(s[i])
    then
      assert forall i :: 0 <= i < 32 ==> !Dash(i + Shift(i));
      Some(seq(32, i requires 0 <= i < 32 => Lower(s[i + Shift(i)])))
    else None
  }

  /** The four spellings the UUID parser accepts. */
  function ParseKey(s: string): Option<Key> {
    if |s| == 32 then Simple(s)
    else if |s| == 36 then Hyphenated(s)
    else if |s| == 38 && s[0] == '{' && s[37] == '}' then Hyphenated(s[1..37])
    else if |s| == 45 && StartsWith(s, "urn:uuid:") then Hyphenated(s[9..])
    else None
  }

  lemma ParsePrint(k: Key)
    ensures ParseKey(PrintKey(k)) == Some(k)
  {
    var s := PrintKey(k);
    forall i | 0 <= i < 32 ensures !Dash(i + Shift(i)) && Lower(s[i + Shift(i)]) == k[i] {
      assert Unshift(i + Shift(i)) == i;
    }
    assert Hyphenated(s).value == k;
  }

  // ----- public identifiers -----

  predicate HandleChar(c: char) {
    'a' <= c <= 'z' || '0' <= c <= '9' || c == '_' || c == '-'
  }

  predicate Handle(s: string, max: nat) {
    3 <= |s| <= max && forall i :: 0 <= i < |s| ==> HandleChar(s[i])
  }

  function IndexOf(s: string, c: char): (i: nat)
    ensures i <= |s| && (i < |s| ==> s[i] == c) && forall j :: 0 <= j < i ==> s[j] != c
  {
    if s == "" || s[0] == c then 0 else 1 + IndexOf(s[1..], c)
  }

  /** The organization of a canonical membership identifier. */
  function MembershipOrg(id: string): Option<string> {
    if !EndsWith(id, "]") then None
    else
      var body := id[..|id| - 1];
      var open := IndexOf(body, '[');
      if open == |body| then None
      else
        var actor, org := body[..open], body[open + 1..];
        if !Handle(org, 50) then None
        else if (StartsWith(actor, "c:") && Handle(actor[2..], 30)) || (StartsWith(actor, "si:") && Handle(actor[3..], 50))
        then Some(org)
        else None
  }

  predicate Canonical(id: string) {
    MembershipOrg(id).Some?
  }

  /** A carbon or silicon handle in front of an organization handle in brackets, and nothing else. */
  lemma CanonicalIff(id: string)
    ensures Canonical(id) <==>
      exists actor, org :: Handle(org, 50)
        && ((Handle(actor, 30) && id == "c:" + actor + "[" + org + "]")
            || (Handle(actor, 50) && id == "si:" + actor + "[" + org + "]"))
  {
    if Canonical(id) {
      var body := id[..|id| - 1];
      var open := IndexOf(body, '[');
      var actor, org := body[..open], body[open + 1..];
      assert id == actor + "[" + org + "]";
      var n := if StartsWith(actor, "c:") && Handle(actor[2..], 30) then 2 else 3;
      assert actor == actor[..n] + actor[n..];
      assert Handle(actor[n..], if n == 2 then 30 else 50);
      assert id == actor[..n] + actor[n..] + "[" + org + "]";
    }
    forall actor, org, prefix | prefix in {"c:", "si:"} && Handle(org, 50)
        && Handle(actor, if prefix == "c:" then 30 else 50) && id == prefix + actor + "[" + org + "]"
      ensures Canonical(id)
    {
      CanonicalShape(prefix, actor, org);
    }
    assert forall actor, org :: Handle(org, 50) && Handle(actor, 30) && id == "c:" + actor + "[" + org + "]" ==> Canonical(id);
    assert forall actor, org :: Handle(org, 50) && Handle(actor, 50) && id == "si:" + actor + "[" + org + "]" ==> Canonical(id);
  }

  lemma CanonicalShape(prefix: string, actor: string, org: string)
    requires prefix in {"c:", "si:"} && Handle(org, 50) && Handle(actor, if prefix == "c:" then 30 else 50)
    ensures Canonical(prefix + actor + "[" + org + "]")
  {
    var id := prefix + actor + "[" + org + "]";
    var body := id[..|id| - 1];
    assert body == prefix + actor + "[" + org;
    var open := |prefix| + |actor|;
    assert forall j :: 0 <= j < open ==> body[j] != '[';
    assert body[open] == '[' && IndexOf(body, '[') == open;
    assert body[..open] == prefix + actor && body[open + 1..] == org;
    assert (prefix + actor)[|prefix|..] == actor && (prefix + actor)[..|prefix|] == prefix;
  }

  /** Lower-case letters, digits, underscores and hyphens make a handle, three to thirty of them for a
      carbon and to fifty for a silicon or an organization. */
  lemma HandlesMakeIds(actor: string, org: string)
    requires 3 <= |actor| <= 50 && 3 <= |org| <= 50
    requires forall i :: 0 <= i < |actor| ==> 'a' <= actor[i] <= 'z' || '0' <= actor[i] <= '9' || actor[i] in {'_', '-'}
    requires forall i :: 0 <= i < |org| ==> 'a' <= org[i] <= 'z' || '0' <= org[i] <= '9' || org[i] in {'_', '-'}
    ensures Canonical("si:" + actor + "[" + org + "]") && (|actor| <= 30 ==> Canonical("c:" + actor + "[" + org + "]"))
  {
    CanonicalShape("si:", actor, org);
    if |actor| <= 30 { CanonicalShape("c:", actor, org); }
    hide Canonical;
  }

  lemma CanonicalIsNoKey(id: string)
    requires Canonical(id)
    ensures ParseKey(id) == None
  {
    assert id[|id| - 1..] == "]";
    assert id[|id| - 1] == ']';
    assert !HexDigit(']');
  }

  // ----- which values are identifiers -----

  predicate MembershipField(key: string) {
    || key == "membership_id"
    || EndsWith(key, "_membership_id")
    || EndsWith(key, "_membership_ids")
    || key == "extra_silicons"
    || key == "reassign_reports_to"
  }

  predicate IdentifierField(key: string) {
    MembershipField(key) || key == "id" || EndsWith(key, "_id") || EndsWith(key, "_ids")
  }

  /** Rewrites every scalar that stands, at any array depth, under an identifier key. */
  function MapIds(value: Json, key: string, visit: (Json, string) -> Json): Json {
    match value
    case Object(fields) => Object(map k | k in fields :: MapIds(fields[k], k, visit))
    case Array(items) => Array(seq(|items|, i requires 0 <= i < |items| => MapIds(items[i], key, visit)))
    case _ => if IdentifierField(key) then visit(value, key) else value
  }

  predicate AllIds(value: Json, key: string, test: (Json, string) -> bool) {
    match value
    case Object(fields) => forall k :: k in fields ==> AllIds(fields[k], k, test)
    case Array(items) => forall i :: 0 <= i < |items| ==> AllIds(items[i], key, test)
    case _ => IdentifierField(key) ==> test(value, key)
  }

  function Texts(value: Json, key: string): set<string> {
    match value
    case Object(fields) => set k, t | k in fields && t in Texts(fields[k], k) :: t
    case Array(items) => set i, t | 0 <= i < |items| && t in Texts(items[i], key) :: t
    case String(text) => if IdentifierField(key) then {text} else {}
    case _ => {}
  }

  predicate NeedsTranslation(value: Json, key: string, input: bool) {
    match value
    case Object(fields) => exists k :: k in fields && NeedsTranslation(fields[k], k, input)
    case Array(items) => exists i :: 0 <= i < |items| && NeedsTranslation(items[i], key, input)
    case String(id) =>
      && IdentifierField(key)
      && if input then MembershipField(key) || Canonical(id) else ParseKey(id).Some?
    case _ => false
  }

  // ----- translation -----

  /** What the SQL resolver knows, in both directions, and whether its query succeeds. */
  datatype Directory = Directory(keyOf: map<string, Key>, idOf: map<Key, string>, answers: bool) {
    ghost predicate Bijective() {
      && (forall id :: id in keyOf ==> Canonical(id) && keyOf[id] in idOf && idOf[keyOf[id]] == id)
      && (forall k :: k in idOf ==> idOf[k] in keyOf && keyOf[idOf[k]] == k)
    }

    /** The text is exactly how a known private key is printed. */
    predicate KnowsKey(text: string) {
      ParseKey(text).Some? && ParseKey(text).value in idOf && PrintKey(ParseKey(text).value) == text
    }
  }

  datatype Error = InvalidId | NotFound | Internal | QueryFailed

  function Acceptable(): (Json, string) -> bool {
    (leaf: Json, key: string) => !MembershipField(key) || leaf.Null? || (leaf.String? && Canonical(leaf.value))
  }

  function ToKey(d: Directory): (Json, string) -> Json {
    (leaf: Json, key: string) =>
      if leaf.String? && Canonical(leaf.value) && leaf.value in d.keyOf
      then String(PrintKey(d.keyOf[leaf.value])) else leaf
  }

  function Decode(d: Directory, value: Json): Result<Json, Error> {
    if !AllIds(value, "", Acceptable()) then Err(InvalidId)
    else
      var ids := set t | t in Texts(value, "") && Canonical(t);
      if ids == {} then Ok(value)
      else if !d.answers then Err(QueryFailed)
      else if exists t :: t in ids && t !in d.keyOf then Err(NotFound)
      else Ok(MapIds(value, "", ToKey(d)))
  }

  function Encodable(d: Directory): (Json, string) -> bool {
    (leaf: Json, key: string) =>
      MembershipField(key) && leaf.String? && ParseKey(leaf.value).Some? ==> d.KnowsKey(leaf.value)
  }

  function ToId(d: Directory): (Json, string) -> Json {
    (leaf: Json, key: string) =>
      if leaf.String? && d.KnowsKey(leaf.value) then String(d.idOf[ParseKey(leaf.value).value]) else leaf
  }

  function Encode(d: Directory, value: Json): Result<Json, Error> {
    var keys := set t | t in Texts(value, "") && ParseKey(t).Some?;
    if keys == {} then Ok(value)
    else if !d.answers then Err(QueryFailed)
    else if AllIds(value, "", Encodable(d)) then Ok(MapIds(value, "", ToId(d)))
    else Err(Internal)
  }

  // ----- encode undoes decode -----

  function NoKnownKey(d: Directory): (Json, string) -> bool {
    (leaf: Json, key: string) => leaf.String? ==> !d.KnowsKey(leaf.value)
  }

  ghost predicate Resolved(d: Directory, value: Json, key: string) {
    forall t :: t in Texts(value, key) && Canonical(t) ==> t in d.keyOf
  }

  lemma LeafThere(d: Directory, leaf: Json, key: string)
    requires d.Bijective() && Acceptable()(leaf, key) && IdentifierField(key)
    requires leaf.String? && Canonical(leaf.value) ==> leaf.value in d.keyOf
    ensures var decoded := ToKey(d)(leaf, key);
            && (decoded.Object? <==> leaf.Object?) && (decoded.Array? <==> leaf.Array?)
            && Encodable(d)(decoded, key)
            && (ToId(d)(decoded, key) == leaf <==> NoKnownKey(d)(leaf, key))
  {
    if leaf.String? {
      if Canonical(leaf.value) {
        ParsePrint(d.keyOf[leaf.value]);
        CanonicalIsNoKey(leaf.value);
      } else if d.KnowsKey(leaf.value) {
        assert Canonical(d.idOf[ParseKey(leaf.value).value]);
      }
    }
  }

  lemma {:induction false} ThereAndBack(d: Directory, value: Json, key: string)
    requires d.Bijective() && AllIds(value, key, Acceptable()) && Resolved(d, value, key)
    ensures AllIds(MapIds(value, key, ToKey(d)), key, Encodable(d))
    ensures MapIds(MapIds(value, key, ToKey(d)), key, ToId(d)) == value <==> AllIds(value, key, NoKnownKey(d))
    decreases value
  {
    hide ToKey, ToId, Encodable, NoKnownKey, Acceptable, IdentifierField, Canonical;
    var decoded := MapIds(value, key, ToKey(d));
    var encoded := MapIds(decoded, key, ToId(d));
    match value {
      case Object(fields) =>
        forall k | k in fields
          ensures AllIds(decoded.fields[k], k, Encodable(d))
          ensures encoded.fields[k] == fields[k] <==> AllIds(fields[k], k, NoKnownKey(d))
        {
          assert forall t :: t in Texts(fields[k], k) ==> t in Texts(value, key);
          ThereAndBack(d, fields[k], k);
        }
        assert encoded == value <==> encoded.fields == fields;
      case Array(items) =>
        forall i | 0 <= i < |items|
          ensures AllIds(decoded.items[i], key, Encodable(d))
          ensures encoded.items[i] == items[i] <==> AllIds(items[i], key, NoKnownKey(d))
        {
          assert forall t :: t in Texts(items[i], key) ==> t in Texts(value, key);
          ThereAndBack(d, items[i], key);
        }
        assert encoded == value <==> encoded.items == items;
      case _ =>
        if IdentifierField(key) { LeafThere(d, value, key); }
    }
  }

  function Leaves(visit: (Json, string) -> Json): (Json, string) -> bool {
    (leaf: Json, key: string) => visit(leaf, key) == leaf
  }

  /** A visit that leaves every identifier alone leaves the tree alone. */
  lemma {:induction false} MapIdsIdentity(value: Json, key: string, visit: (Json, string) -> Json)
    requires AllIds(value, key, Leaves(visit))
    ensures MapIds(value, key, visit) == value
    decreases value
  {
    match value {
      case Object(fields) =>
        forall k | k in fields ensures MapIds(fields[k], k, visit) == fields[k] {
          MapIdsIdentity(fields[k], k, visit);
        }
      case Array(items) =>
        forall i | 0 <= i < |items| ensures MapIds(items[i], key, visit) == items[i] {
          MapIdsIdentity(items[i], key, visit);
        }
      case _ =>
    }
  }

  /** A test that only looks at strings follows from the set of identifier texts. */
  lemma {:induction false} AllIdsFromTexts(value: Json, key: string, test: (Json, string) -> bool)
    requires forall leaf: Json, k :: !leaf.String? ==> test(leaf, k)
    requires forall t, k :: t in Texts(value, key) ==> test(String(t), k)
    ensures AllIds(value, key, test)
    decreases value
  {
    match value {
      case Object(fields) =>
        forall k | k in fields ensures AllIds(fields[k], k, test) {
          assert forall t :: t in Texts(fields[k], k) ==> t in Texts(value, key);
          AllIdsFromTexts(fields[k], k, test);
        }
      case Array(items) =>
        forall i | 0 <= i < |items| ensures AllIds(items[i], key, test) {
          assert forall t :: t in Texts(items[i], key) ==> t in Texts(value, key);
          AllIdsFromTexts(items[i], key, test);
        }
      case _ =>
    }
  }

  ghost predicate HasCanonical(value: Json) {
    exists t :: t in Texts(value, "") && Canonical(t)
  }

  ghost predicate HasKey(value: Json) {
    exists t :: t in Texts(value, "") && ParseKey(t).Some?
  }

  /** Both shortcuts for trees without anything to translate agree with the full rewriting. */
  lemma DecodeForm(d: Directory, value: Json)
    ensures Decode(d, value) ==
            if !AllIds(value, "", Acceptable()) then Err(InvalidId)
            else if HasCanonical(value) && !d.answers then Err(QueryFailed)
            else if !Resolved(d, value, "") then Err(NotFound)
            else Ok(MapIds(value, "", ToKey(d)))
  {
    var ids := set t | t in Texts(value, "") && Canonical(t);
    if ids == {} {
      forall t | t in Texts(value, "") ensures !Canonical(t) {
        assert Canonical(t) ==> t in ids;
      }
      AllIdsFromTexts(value, "", Leaves(ToKey(d)));
      MapIdsIdentity(value, "", ToKey(d));
    }
  }

  lemma EncodeForm(d: Directory, value: Json)
    ensures Encode(d, value) ==
            if HasKey(value) && !d.answers then Err(QueryFailed)
            else if AllIds(value, "", Encodable(d)) then Ok(MapIds(value, "", ToId(d))) else Err(Internal)
  {
    var keys := set t | t in Texts(value, "") && ParseKey(t).Some?;
    if keys == {} {
      forall t | t in Texts(value, "") ensures ParseKey(t).None? {
        assert ParseKey(t).Some? ==> t in keys;
      }
      AllIdsFromTexts(value, "", Encodable(d));
      AllIdsFromTexts(value, "", Leaves(ToId(d)));
      MapIdsIdentity(value, "", ToId(d));
    }
  }

  /** When its query succeeds, encode accepts whatever decode accepted; and it gives the original
      back exactly when no identifier field of it held a raw key the resolver knows. */
  lemma EncodeUndoesDecode(d: Directory, value: Json)
    requires d.Bijective() && d.answers && Decode(d, value).Ok?
    ensures Encode(d, Decode(d, value).value).Ok?
    ensures Encode(d, Decode(d, value).value) == Ok(value) <==> AllIds(value, "", NoKnownKey(d))
  {
    DecodeForm(d, value);
    EncodeForm(d, Decode(d, value).value);
    ThereAndBack(d, value, "");
  }

  // ----- what translation writes, position by position -----

  /** Every canonical identifier has become the printed key of its member; all else is as it was. */
  ghost predicate DecodedAs(d: Directory, a: Json, b: Json, key: string) {
    match a
    case Object(fields) => b.Object? && b.fields.Keys == fields.Keys
                           && forall k :: k in fields ==> DecodedAs(d, fields[k], b.fields[k], k)
    case Array(items) => b.Array? && |b.items| == |items|
                         && forall i :: 0 <= i < |items| ==> DecodedAs(d, items[i], b.items[i], key)
    case String(text) =>
      if IdentifierField(key) && Canonical(text) then text in d.keyOf && b == String(PrintKey(d.keyOf[text])) else b == a
    case _ => b == a
  }

  /** Every printed key of a known member has become its identifier; all else is as it was. */
  ghost predicate EncodedAs(d: Directory, a: Json, b: Json, key: string) {
    match a
    case Object(fields) => b.Object? && b.fields.Keys == fields.Keys
                           && forall k :: k in fields ==> EncodedAs(d, fields[k], b.fields[k], k)
    case Array(items) => b.Array? && |b.items| == |items|
                         && forall i :: 0 <= i < |items| ==> EncodedAs(d, items[i], b.items[i], key)
    case String(text) =>
      if IdentifierField(key) && (exists k :: Prints(d, k, text)) then exists k :: Prints(d, k, text) && b == String(d.idOf[k])
      else b == a
    case _ => b == a
  }

  /** The text is how the key of a known member is printed. */
  ghost predicate Prints(d: Directory, k: Key, text: string) {
    k in d.idOf && text == PrintKey(k)
  }

  /** Null or a canonical identifier under every membership key. */
  ghost predicate NamesMembers(value: Json, key: string) {
    match value
    case Object(fields) => forall k :: k in fields ==> NamesMembers(fields[k], k)
    case Array(items) => forall i :: 0 <= i < |items| ==> NamesMembers(items[i], key)
    case Null => true
    case String(text) => MembershipField(key) ==> Canonical(text)
    case _ => !MembershipField(key)
  }

  /** Under membership keys nothing that parses as a key but the printed keys of known members. */
  ghost predicate KnowsMembers(d: Directory, value: Json, key: string) {
    match value
    case Object(fields) => forall k :: k in fields ==> KnowsMembers(d, fields[k], k)
    case Array(items) => forall i :: 0 <= i < |items| ==> KnowsMembers(d, items[i], key)
    case String(text) => MembershipField(key) && ParseKey(text).Some? ==> exists k :: Prints(d, k, text)
    case _ => true
  }

  lemma {:induction false} MapDecodes(d: Directory, value: Json, key: string)
    requires Resolved(d, value, key)
    ensures var r := MapIds(value, key, ToKey(d));
            DecodedAs(d, value, r, key) && forall t :: t in Texts(r, key) ==> !Canonical(t)
    decreases value
  {
    var r := MapIds(value, key, ToKey(d));
    match value {
      case Object(fields) =>
        forall k | k in fields
          ensures DecodedAs(d, fields[k], r.fields[k], k) && forall t :: t in Texts(r.fields[k], k) ==> !Canonical(t)
        {
          assert forall t :: t in Texts(fields[k], k) ==> t in Texts(value, key);
          MapDecodes(d, fields[k], k);
        }
      case Array(items) =>
        forall i | 0 <= i < |items|
          ensures DecodedAs(d, items[i], r.items[i], key) && forall t :: t in Texts(r.items[i], key) ==> !Canonical(t)
        {
          assert forall t :: t in Texts(items[i], key) ==> t in Texts(value, key);
          MapDecodes(d, items[i], key);
        }
      case String(text) =>
        if IdentifierField(key) && Canonical(text) {
          assert text in Texts(value, key);
          PrintedIsNotCanonical(d.keyOf[text]);
        }
      case _ =>
    }
  }

  lemma PrintedIsNotCanonical(k: Key)
    ensures !Canonical(PrintKey(k))
  {
    ParsePrint(k);
    if Canonical(PrintKey(k)) { CanonicalIsNoKey(PrintKey(k)); }
  }

  lemma KnownIff(d: Directory, text: string)
    ensures d.KnowsKey(text) <==> exists k :: Prints(d, k, text)
    ensures forall k :: Prints(d, k, text) ==> ParseKey(text) == Some(k)
  {
    forall k | Prints(d, k, text) ensures ParseKey(text) == Some(k) {
      ParsePrint(k);
    }
    if d.KnowsKey(text) { assert Prints(d, ParseKey(text).value, text); }
    hide ParseKey, PrintKey;
  }

  /** No identifier position holds the printed key of a known member. */
  ghost predicate NoPrinted(d: Directory, value: Json, key: string) {
    forall t :: t in Texts(value, key) ==> !d.KnowsKey(t)
  }

  lemma LeafEncodes(d: Directory, text: string, key: string)
    requires d.Bijective()
    ensures var r := MapIds(String(text), key, ToId(d));
            EncodedAs(d, String(text), r, key) && NoPrinted(d, r, key)
  {
    hide ParseKey, PrintKey, IdentifierField, Canonical;
    KnownIff(d, text);
    if d.KnowsKey(text) {
      var k := ParseKey(text).value;
      assert Prints(d, k, text) && Canonical(d.idOf[k]);
      CanonicalIsNoKey(d.idOf[k]);
      assert !d.KnowsKey(d.idOf[k]);
    }
    hide Prints;
  }

  lemma {:induction false} MapEncodes(d: Directory, value: Json, key: string)
    requires d.Bijective()
    ensures EncodedAs(d, value, MapIds(value, key, ToId(d)), key) && NoPrinted(d, MapIds(value, key, ToId(d)), key)
    decreases value
  {
    var r := MapIds(value, key, ToId(d));
    match value {
      case String(text) => LeafEncodes(d, text, key);
      case Object(fields) =>
        hide ToId, IdentifierField, Canonical;
        forall k | k in fields ensures EncodedAs(d, fields[k], r.fields[k], k) && NoPrinted(d, r.fields[k], k) {
          MapEncodes(d, fields[k], k);
        }
      case Array(items) =>
        hide ToId, IdentifierField, Canonical;
        forall i | 0 <= i < |items| ensures EncodedAs(d, items[i], r.items[i], key) && NoPrinted(d, r.items[i], key) {
          MapEncodes(d, items[i], key);
        }
      case _ =>
    }
  }

  lemma {:induction false} AcceptableIff(value: Json, key: string)
    ensures AllIds(value, key, Acceptable()) <==> NamesMembers(value, key)
    decreases value
  {
    match value {
      case Object(fields) =>
        forall k | k in fields ensures AllIds(fields[k], k, Acceptable()) <==> NamesMembers(fields[k], k) {
          AcceptableIff(fields[k], k);
        }
      case Array(items) =>
        forall i | 0 <= i < |items| ensures AllIds(items[i], key, Acceptable()) <==> NamesMembers(items[i], key) {
          AcceptableIff(items[i], key);
        }
      case _ =>
    }
  }

  lemma {:induction false} EncodableIff(d: Directory, value: Json, key: string)
    ensures AllIds(value, key, Encodable(d)) <==> KnowsMembers(d, value, key)
    decreases value
  {
    match value {
      case Object(fields) =>
        forall k | k in fields ensures AllIds(fields[k], k, Encodable(d)) <==> KnowsMembers(d, fields[k], k) {
          EncodableIff(d, fields[k], k);
        }
      case Array(items) =>
        forall i | 0 <= i < |items| ensures AllIds(items[i], key, Encodable(d)) <==> KnowsMembers(d, items[i], key) {
          EncodableIff(d, items[i], key);
        }
      case String(text) => KnownIff(d, text);
      case _ =>
    }
  }

  /** What decode writes: at every identifier position that held a canonical identifier, the
      printed key of its member, and everywhere else what was there; no canonical identifier is
      left. It refuses exactly a membership value that is neither null nor canonical. */
  lemma DecodeWrites(d: Directory, value: Json)
    ensures Decode(d, value) == Err(InvalidId) <==> !NamesMembers(value, "")
    ensures Decode(d, value).Ok? ==>
              && DecodedAs(d, value, Decode(d, value).value, "")
              && forall t :: t in Texts(Decode(d, value).value, "") ==> !Canonical(t)
  {
    DecodeForm(d, value);
    AcceptableIff(value, "");
    if Decode(d, value).Ok? { MapDecodes(d, value, ""); }
  }

  /** What encode writes: at every identifier position that held the printed key of a known
      member, that member's identifier, and everywhere else what was there; no such key is left.
      It refuses exactly a membership value that parses as a key but is none of a known member. */
  lemma EncodeWrites(d: Directory, value: Json)
    requires d.Bijective()
    ensures Encode(d, value) == Err(Internal) ==> !KnowsMembers(d, value, "")
    ensures d.answers && !KnowsMembers(d, value, "") ==> Encode(d, value) == Err(Internal)
    ensures Encode(d, value).Ok? ==>
              && EncodedAs(d, value, Encode(d, value).value, "")
              && forall t, k :: t in Texts(Encode(d, value).value, "") && k in d.idOf ==> t != PrintKey(k)
  {
    EncodeForm(d, value);
    EncodableIff(d, value, "");
    MapEncodes(d, value, "");
    hide MapIds, AllIds, EncodedAs, KnowsMembers, Texts, Encode;
    forall t, k | t in Texts(MapIds(value, "", ToId(d)), "") && k in d.idOf ensures t != PrintKey(k) {
      KnownIff(d, t);
      assert t == PrintKey(k) ==> Prints(d, k, t);
    }
    HasKeyIfUnknown(d, value);
  }

  lemma HasKeyIfUnknown(d: Directory, value: Json)
    ensures d.answers && !AllIds(value, "", Encodable(d)) ==> Encode(d, value) == Err(Internal)
  {
    EncodeForm(d, value);
  }

  // ----- what translation leaves alone -----

  /** Same containers, lengths and object keys; every value that is not identifier text is equal. */
  ghost predicate SameShape(a: Json, b: Json, key: string) {
    match a
    case Object(fields) => b.Object? && b.fields.Keys == fields.Keys
                           && forall k :: k in fields ==> SameShape(fields[k], b.fields[k], k)
    case Array(items) => b.Array? && |b.items| == |items|
                         && forall i :: 0 <= i < |items| ==> SameShape(items[i], b.items[i], key)
    case String(_) => if IdentifierField(key) then b.String? else b == a
    case _ => b == a
  }

  ghost predicate RewritesTextOnly(visit: (Json, string) -> Json) {
    forall leaf: Json, k {:trigger visit(leaf, k)} :: if leaf.String? then visit(leaf, k).String? else visit(leaf, k) == leaf
  }

  lemma {:induction false} MapIdsShape(value: Json, key: string, visit: (Json, string) -> Json)
    requires RewritesTextOnly(visit)
    ensures SameShape(value, MapIds(value, key, visit), key)
    decreases value
  {
    match value {
      case Object(fields) =>
        forall k | k in fields ensures SameShape(fields[k], MapIds(fields[k], k, visit), k) {
          MapIdsShape(fields[k], k, visit);
        }
      case Array(items) =>
        forall i | 0 <= i < |items| ensures SameShape(items[i], MapIds(items[i], key, visit), key) {
          MapIdsShape(items[i], key, visit);
        }
      case _ =>
        if IdentifierField(key) { var after := visit(value, key); }
    }
  }

  lemma TranslationKeepsShape(d: Directory, value: Json)
    ensures Decode(d, value).Ok? ==> SameShape(value, Decode(d, value).value, "")
    ensures Encode(d, value).Ok? ==> SameShape(value, Encode(d, value).value, "")
  {
    DecodeForm(d, value);
    EncodeForm(d, value);
    MapIdsShape(value, "", ToKey(d));
    MapIdsShape(value, "", ToId(d));
  }

  // ----- the test the transport makes before translating -----

  lemma {:induction false} NeedsOutput(value: Json, key: string)
    ensures NeedsTranslation(value, key, false) <==> exists t :: t in Texts(value, key) && ParseKey(t).Some?
    decreases value
  {
    match value {
      case Object(fields) =>
        forall k | k in fields
          ensures NeedsTranslation(fields[k], k, false) <==> exists t :: t in Texts(fields[k], k) && ParseKey(t).Some?
        {
          NeedsOutput(fields[k], k);
        }
        forall k, t | k in fields && t in Texts(fields[k], k) ensures t in Texts(value, key) {}
      case Array(items) =>
        forall i | 0 <= i < |items|
          ensures NeedsTranslation(items[i], key, false) <==> exists t :: t in Texts(items[i], key) && ParseKey(t).Some?
        {
          NeedsOutput(items[i], key);
        }
        forall i, t | 0 <= i < |items| && t in Texts(items[i], key) ensures t in Texts(value, key) {}
      case _ =>
    }
  }

  /** Skipping encode when the test says so changes nothing. */
  lemma EncodeIdentity(d: Directory, value: Json)
    requires !NeedsTranslation(value, "", false)
    ensures Encode(d, value) == Ok(value)
  {
    NeedsOutput(value, "");
    var keys := set t | t in Texts(value, "") && ParseKey(t).Some?;
    assert forall t :: t !in keys;
  }

  function NoScalarMembership(): (Json, string) -> bool {
    (leaf: Json, key: string) => MembershipField(key) ==> leaf.Null?
  }

  lemma {:induction false} NoInputNeeded(value: Json, key: string)
    requires !NeedsTranslation(value, key, true)
    ensures forall t :: t in Texts(value, key) ==> !Canonical(t)
    ensures AllIds(value, key, Acceptable()) <==> AllIds(value, key, NoScalarMembership())
    decreases value
  {
    match value {
      case Object(fields) =>
        forall k | k in fields
          ensures forall t :: t in Texts(fields[k], k) ==> !Canonical(t)
          ensures AllIds(fields[k], k, Acceptable()) <==> AllIds(fields[k], k, NoScalarMembership())
        {
          NoInputNeeded(fields[k], k);
        }
      case Array(items) =>
        forall i | 0 <= i < |items|
          ensures forall t :: t in Texts(items[i], key) ==> !Canonical(t)
          ensures AllIds(items[i], key, Acceptable()) <==> AllIds(items[i], key, NoScalarMembership())
        {
          NoInputNeeded(items[i], key);
        }
      case _ =>
        if IdentifierField(key) {
          assert Acceptable()(value, key) <==> NoScalarMembership()(value, key);
        }
    }
  }

  /** Skipping decode is not always the same as decoding: a number or boolean under a
      membership key is then passed on where decode would have refused it. */
  lemma DecodeSkipped(d: Directory, value: Json)
    requires !NeedsTranslation(value, "", true)
    ensures Decode(d, value) == Ok(value) <==> AllIds(value, "", NoScalarMembership())
    ensures Decode(d, value) != Ok(value) ==> Decode(d, value) == Err(InvalidId)
  {
    NoInputNeeded(value, "");
    var ids := set t | t in Texts(value, "") && Canonical(t);
    assert forall t :: t !in ids;
  }

  /** A request that names a member by a number: the transport passes it on, decode refuses it. */
  lemma NumberSkipsDecode(d: Directory, number: string)
    ensures var value := Object(map["membership_id" := Number(number)]);
            !NeedsTranslation(value, "", true) && Decode(d, value) == Err(InvalidId)
  {
    var fields := map["membership_id" := Number(number)];
    assert "membership_id" in fields && !AllIds(fields["membership_id"], "membership_id", Acceptable());
  }

  // ----- the request and response bodies, rewritten in place -----

  /** Each identifier is as it was or as the visit leaves it, and nothing else differs. */
  ghost predicate PartlyMapped(a: Json, b: Json, key: string, visit: (Json, string) -> Json) {
    match a
    case Object(fields) => b.Object? && b.fields.Keys == fields.Keys
                           && forall k :: k in fields ==> PartlyMapped(fields[k], b.fields[k], k, visit)
    case Array(items) => b.Array? && |b.items| == |items|
                         && forall i :: 0 <= i < |items| ==> PartlyMapped(items[i], b.items[i], key, visit)
    case _ => b == a || (IdentifierField(key) && b == visit(a, key))
  }

  lemma {:induction false} UnmappedIsPartly(value: Json, key: string, visit: (Json, string) -> Json)
    ensures PartlyMapped(value, value, key, visit)
    decreases value
  {
    match value {
      case Object(fields) =>
        forall k | k in fields ensures PartlyMapped(fields[k], fields[k], k, visit) {
          UnmappedIsPartly(fields[k], k, visit);
        }
      case Array(items) =>
        forall i | 0 <= i < |items| ensures PartlyMapped(items[i], items[i], key, visit) {
          UnmappedIsPartly(items[i], key, visit);
        }
      case _ =>
    }
  }

  /** visit_ids with a visit that changes what it sees and may fail: the walk stops at the first
      failure, in whatever order it meets the keys, and leaves what it had done. */
  method Rewrite(value: Json, key: string, test: (Json, string) -> bool, visit: (Json, string) -> Json)
    returns (after: Json, ok: bool)
    ensures ok <==> AllIds(value, key, test)
    ensures ok ==> after == MapIds(value, key, visit)
    ensures PartlyMapped(value, after, key, visit)
    decreases value, 1
  {
    match value {
      case Object(fields) =>
        after, ok := RewriteFields(value, test, visit);
      case Array(items) =>
        after, ok := RewriteItems(value, key, test, visit);
      case _ =>
        ok := IdentifierField(key) ==> test(value, key);
        after := if ok && IdentifierField(key) then visit(value, key) else value;
    }
  }

  method RewriteItems(value: Json, key: string, test: (Json, string) -> bool, visit: (Json, string) -> Json)
    returns (after: Json, ok: bool)
    requires value.Array?
    ensures ok <==> forall i :: 0 <= i < |value.items| ==> AllIds(value.items[i], key, test)
    ensures ok ==> after == MapIds(value, key, visit)
    ensures PartlyMapped(value, after, key, visit)
    decreases value, 0
  {
    hide PartlyMapped, MapIds, AllIds;
    var items, done := value.items, value.items;
    forall i | 0 <= i < |items| ensures PartlyMapped(items[i], items[i], key, visit) {
      UnmappedIsPartly(items[i], key, visit);
    }
    for i := 0 to |items|
      invariant |done| == |items|
      invariant forall j :: 0 <= j < |items| ==> PartlyMapped(items[j], done[j], key, visit)
      invariant forall j :: 0 <= j < i ==> AllIds(items[j], key, test) && done[j] == MapIds(items[j], key, visit)
    {
      var item, fine := Rewrite(items[i], key, test, visit);
      done := done[i := item];
      if !fine {
        ArrayMapped(value, key, done, visit);
        return Array(done), false;
      }
    }
    ArrayMapped(value, key, done, visit);
    after, ok := Array(done), true;
  }

  lemma ArrayMapped(value: Json, key: string, done: seq<Json>, visit: (Json, string) -> Json)
    requires value.Array? && |done| == |value.items|
    ensures (forall i :: 0 <= i < |done| ==> PartlyMapped(value.items[i], done[i], key, visit)) ==>
              PartlyMapped(value, Array(done), key, visit)
    ensures (forall i :: 0 <= i < |done| ==> done[i] == MapIds(value.items[i], key, visit)) ==>
              Array(done) == MapIds(value, key, visit)
  {
    var mapped := MapIds(value, key, visit).items;
    if forall i :: 0 <= i < |done| ==> done[i] == MapIds(value.items[i], key, visit) {
      assert done == mapped;
    }
  }

  method RewriteFields(value: Json, test: (Json, string) -> bool, visit: (Json, string) -> Json) returns (after: Json, ok: bool)
    requires value.Object?
    ensures ok <==> forall k :: k in value.fields ==> AllIds(value.fields[k], k, test)
    ensures ok ==> after == MapIds(value, "", visit)
    ensures PartlyMapped(value, after, "", visit)
    decreases value, 0
  {
    hide PartlyMapped, MapIds, AllIds;
    var fields, done, todo := value.fields, value.fields, value.fields.Keys;
    forall k | k in fields ensures PartlyMapped(fields[k], fields[k], k, visit) {
      UnmappedIsPartly(fields[k], k, visit);
    }
    while todo != {}
      invariant todo <= fields.Keys && done.Keys == fields.Keys
      invariant forall k :: k in fields ==> PartlyMapped(fields[k], done[k], k, visit)
      invariant forall k :: k in fields && k !in todo ==> AllIds(fields[k], k, test) && done[k] == MapIds(fields[k], k, visit)
      decreases |todo|
    {
      var k :| k in todo;
      var item, fine := Rewrite(fields[k], k, test, visit);
      done := done[k := item];
      if !fine {
        ObjectMapped(value, done, visit);
        return Object(done), false;
      }
      todo := todo - {k};
    }
    ObjectMapped(value, done, visit);
    after, ok := Object(done), true;
  }

  lemma ObjectMapped(value: Json, done: map<string, Json>, visit: (Json, string) -> Json)
    requires value.Object? && done.Keys == value.fields.Keys
    ensures (forall k :: k in done ==> PartlyMapped(value.fields[k], done[k], k, visit)) ==>
              PartlyMapped(value, Object(done), "", visit)
    ensures (forall k :: k in done ==> done[k] == MapIds(value.fields[k], k, visit)) ==> Object(done) == MapIds(value, "", visit)
  {
    var mapped := MapIds(value, "", visit).fields;
    if forall k :: k in done ==> done[k] == MapIds(value.fields[k], k, visit) {
      assert done == mapped;
    }
  }

  /** visit_ids with a visit that only gathers texts and may fail. */
  method Collect(value: Json, key: string, test: (Json, string) -> bool, wanted: string -> bool)
    returns (found: set<string>, ok: bool)
    ensures ok <==> AllIds(value, key, test)
    ensures ok ==> found == set t | t in Texts(value, key) && wanted(t)
    decreases value, 1
  {
    match value {
      case Object(fields) =>
        found, ok := CollectFields(value, test, wanted);
      case Array(items) =>
        found := {};
        for i := 0 to |items|
          invariant forall j :: 0 <= j < i ==> AllIds(items[j], key, test)
          invariant found == set j, t | 0 <= j < i && t in Texts(items[j], key) && wanted(t) :: t
        {
          var more, fine := Collect(items[i], key, test, wanted);
          if !fine { return found, false; }
          found := found + more;
        }
        ok := true;
      case String(text) =>
        ok := IdentifierField(key) ==> test(value, key);
        found := if IdentifierField(key) && wanted(text) then {text} else {};
      case _ =>
        ok := IdentifierField(key) ==> test(value, key);
        found := {};
    }
  }

  method CollectFields(value: Json, test: (Json, string) -> bool, wanted: string -> bool) returns (found: set<string>, ok: bool)
    requires value.Object?
    ensures ok <==> forall k :: k in value.fields ==> AllIds(value.fields[k], k, test)
    ensures ok ==> found == set t | t in Texts(value, "") && wanted(t)
    decreases value, 0
  {
    var fields, todo := value.fields, value.fields.Keys;
    found := {};
    while todo != {}
      invariant todo <= fields.Keys
      invariant forall k :: k in fields && k !in todo ==> AllIds(fields[k], k, test)
      invariant found == set k, t | k in fields && k !in todo && t in Texts(fields[k], k) && wanted(t) :: t
      decreases |todo|
    {
      var k :| k in todo;
      var more, fine := Collect(fields[k], k, test, wanted);
      if !fine { return found, false; }
      found, todo := found + more, todo - {k};
    }
    ok := true;
  }

  class Body {
    var value: Json

    constructor (value: Json)
      ensures this.value == value
    {
      this.value := value;
    }

    /** decode is all or nothing: an error leaves the tree untouched. */
    method DecodeInPlace(d: Directory) returns (error: Option<Error>)
      modifies this
      ensures error.Some? ==> value == old(value) && Decode(d, old(value)) == Err(error.value)
      ensures error.None? ==> Decode(d, old(value)) == Ok(value) && DecodedAs(d, old(value), value, "")
    {
      DecodeWrites(d, value);
      var ids, ok := Collect(value, "", Acceptable(), Canonical);
      if !ok { return Some(InvalidId); }
      if ids == {} { return None; }
      if !d.answers { return Some(QueryFailed); }
      if exists t :: t in ids && t !in d.keyOf { return Some(NotFound); }
      value, ok := Rewrite(value, "", Always(), ToKey(d));
      AlwaysHolds(old(value), "");
      error := None;
    }

    /** encode gives up at a membership key the resolver does not know: the tree may then be
        rewritten in part, which the caller discards with the response. */
    method EncodeInPlace(d: Directory) returns (error: Option<Error>)
      modifies this
      ensures error.Some? ==> Encode(d, old(value)) == Err(error.value) && PartlyMapped(old(value), value, "", ToId(d))
      ensures error == Some(QueryFailed) ==> value == old(value)
      ensures error.None? ==> Encode(d, old(value)) == Ok(value) && SameShape(old(value), value, "")
      ensures error.None? && d.Bijective() ==> EncodedAs(d, old(value), value, "")
    {
      if d.Bijective() { EncodeWrites(d, value); }
      hide EncodedAs;
      TranslationKeepsShape(d, value);
      AlwaysHolds(value, "");
      UnmappedIsPartly(value, "", ToId(d));
      hide MapIds, AllIds, Texts, PartlyMapped, SameShape, ToId, Encodable;
      var keys, ok := Collect(value, "", Always(), (t: string) => ParseKey(t).Some?);
      if keys == {} { return None; }
      if !d.answers { return Some(QueryFailed); }
      value, ok := Rewrite(value, "", Encodable(d), ToId(d));
      error := if ok then None else Some(Internal);
    }
  }

  function Always(): (Json, string) -> bool {
    (leaf: Json, key: string) => true
  }

  lemma AlwaysHolds(value: Json, key: string)
    ensures AllIds(value, key, Always())
  {
  }
}
