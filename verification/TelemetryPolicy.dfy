/** frontend/src/telemetry-policy.ts: what of a browser's telemetry may leave, applied once in the
    browser and once more by the gateway. */
module TelemetryPolicy {
  import opened Wrappers
  import opened JsValues
  import opened TelemetryRoutes

  const TABLE := "siliconiam"
  const MAX_EVENTS := 40
  const MEASURES: set<string> := {
    "status", "duration_ms", "elapsed_ms", "percent", "dns_ms", "connect_ms", "response_ms",
    "dom_content_loaded_ms", "load_ms", "line", "column"
  }
  const METHODS: set<string> := {"GET", "HEAD", "POST", "PUT", "PATCH", "DELETE", "OPTIONS"}
  const KINDS: set<string> := {"runtime", "unhandledrejection"}
  const TAGS: set<string> := {"a", "button", "input", "select", "textarea", "label", "div", "span", "svg"}
  const ROLES: set<string> := {"button", "link", "checkbox", "switch", "menuitem", "tab"}
  const BROWSERS: set<string> := {"chrome", "firefox", "safari", "edge", "unknown"}
  const DEVICES: set<string> := {"mobile", "desktop"}
  const TYPES: set<string> := {
    "page_view", "page_exit", "click", "error", "scroll", "timing", "network", "network_error",
    "iam.request.started", "iam.request.completed", "iam.request.failed", "iam.session.expired", "iam.render.failed"
  }

  /** The platform: the known routes, the calendar both ways, and how a number is spelled. */
  datatype Platform = Platform(site: Site, parse: string -> Option<int>, iso: int -> string, numeral: real -> string)

  predicate IsUuid(value: Option<Js>) {
    value.Some? && value.value.Str? && Uuid(value.value.text)
  }

  // ----- the data of an event -----

  predicate SpelledIn(p: Platform, value: Js, words: set<string>) {
    !Throws(value) && Spelled(p.numeral, value) in words
  }

  /** What a key lets through unchanged. */
  predicate Passes(p: Platform, key: string, value: Js) {
    || (key in MEASURES && value.Num? && value.amount.Some? && 0.0 <= value.amount.value <= 10000000000.0)
    || (key == "method" && value.Str? && value.text in METHODS)
    || (key == "kind" && SpelledIn(p, value, KINDS))
    || (key == "tag" && SpelledIn(p, value, TAGS))
    || (key == "role" && SpelledIn(p, value, ROLES))
    || (key == "request_id" && value.Str? && Uuid(value.text))
    || (key == "success" && value.Bool?)
  }

  predicate NamesRoute(key: string) {
    key == "url" || key == "route"
  }

  function Add(p: Platform, output: seq<Field>, field: Field): seq<Field> {
    if NamesRoute(field.key) then Put(output, "route", Str(SafeRoute(p.site, Some(field.value))))
    else if Passes(p, field.key, field.value) then Put(output, field.key, field.value)
    else output
  }

  function SafeFields(p: Platform, fields: seq<Field>): seq<Field>
    decreases |fields|
  {
    if fields == [] then [] else Add(p, SafeFields(p, fields[..|fields| - 1]), fields[|fields| - 1])
  }

  /** The keys whose value is spelled out, and the value cannot be. */
  predicate CannotSpell(field: Field) {
    field.key in {"kind", "tag", "role"} && Throws(field.value)
  }

  /** safeData, or None where it throws. */
  function SafeData(p: Platform, value: Option<Js>): Option<seq<Field>> {
    if value.None? || !value.value.Obj? then Some([])
    else if exists i :: 0 <= i < |value.value.fields| && CannotSpell(value.value.fields[i]) then None
    else Some(SafeFields(p, value.value.fields))
  }

  lemma RoutesDoNotPass(p: Platform, key: string, value: Js)
    ensures NamesRoute(key) ==> !Passes(p, key, value)
  {
  }

  /** safeData, key by key. */
  method SanitizeData(p: Platform, value: Option<Js>) returns (r: Option<seq<Field>>)
    ensures r == SafeData(p, value)
  {
    hide Passes, SafeRoute, Put, Throws;
    if value.None? || !value.value.Obj? { return Some([]); }
    var fields, output := value.value.fields, [];
    for i := 0 to |fields|
      invariant output == SafeFields(p, fields[..i])
      invariant forall j :: 0 <= j < i ==> !CannotSpell(fields[j])
    {
      assert fields[..i + 1][..i] == fields[..i];
      var key, val := fields[i].key, fields[i].value;
      RoutesDoNotPass(p, key, val);
      if CannotSpell(fields[i]) { return None; }
      if Passes(p, key, val) {
        output := Put(output, key, val);
      }
      if NamesRoute(key) {
        output := Put(output, "route", Str(SafeRoute(p.site, Some(val))));
      }
    }
    assert fields[..|fields|] == fields;
    return Some(output);
  }

  /** An entry the sanitizer is content with. */
  predicate Clean(p: Platform, field: Field) {
    if NamesRoute(field.key) then
      field.key == "route" && field.value.Str? && SafeRoute(p.site, Some(field.value)) == field.value.text
    else Passes(p, field.key, field.value)
  }

  ghost predicate AllClean(p: Platform, fields: seq<Field>) {
    KeysDistinct(fields) && forall i :: 0 <= i < |fields| ==> Clean(p, fields[i])
  }

  lemma AddClean(p: Platform, output: seq<Field>, field: Field)
    requires Regular(p.site) && AllClean(p, output)
    ensures AllClean(p, Add(p, output, field))
  {
    hide Passes, SafeRoute, KeysDistinct, Find, Regular;
    NamesStay(p.site, Some(field.value));
    if NamesRoute(field.key) {
      PutClean(p, output, Field("route", Str(SafeRoute(p.site, Some(field.value)))));
    } else if Passes(p, field.key, field.value) {
      PutClean(p, output, field);
    }
  }

  lemma PutClean(p: Platform, output: seq<Field>, field: Field)
    requires AllClean(p, output) && Clean(p, field)
    ensures AllClean(p, Put(output, field.key, field.value))
  {
    PutDistinct(output, field.key, field.value);
    hide Clean, KeysDistinct;
    var r := Put(output, field.key, field.value);
    assert forall i :: 0 <= i < |r| ==> r[i] == field || (i < |output| && r[i] == output[i]);
  }

  lemma {:induction false} OutputClean(p: Platform, fields: seq<Field>)
    requires Regular(p.site)
    ensures AllClean(p, SafeFields(p, fields))
    decreases |fields|
  {
    if fields != [] {
      OutputClean(p, fields[..|fields| - 1]);
      AddClean(p, SafeFields(p, fields[..|fields| - 1]), fields[|fields| - 1]);
    }
  }

  lemma {:induction false} CleanStays(p: Platform, fields: seq<Field>)
    requires AllClean(p, fields)
    ensures SafeFields(p, fields) == fields
    decreases |fields|
  {
    hide Clean, KeysDistinct, Add;
    if fields != [] {
      var before, last := fields[..|fields| - 1], fields[|fields| - 1];
      CleanLast(p, before, last, fields);
      CleanStays(p, before);
    }
  }

  lemma CleanLast(p: Platform, before: seq<Field>, last: Field, fields: seq<Field>)
    requires AllClean(p, fields) && fields == before + [last]
    ensures AllClean(p, before) && Add(p, before, last) == fields
  {
    hide Passes, SafeRoute;
    assert fields[|before|] == last && forall i :: 0 <= i < |before| ==> fields[i] == before[i];
    assert Clean(p, last) && Find(before, last.key) == |before|;
  }

  /** The sanitizer's fixpoints are exactly the clean objects, and everything it puts out is one. */
  lemma DataFixedIff(p: Platform, fields: seq<Field>)
    requires Regular(p.site)
    ensures SafeData(p, Some(Obj(fields))) == Some(fields) <==> AllClean(p, fields)
    ensures var output := SafeData(p, Some(Obj(fields)));
            output.Some? ==> AllClean(p, output.value) && SafeData(p, Some(Obj(output.value))) == output
  {
    OutputClean(p, fields);
    CleanFixed(p, SafeFields(p, fields));
    if AllClean(p, fields) { CleanFixed(p, fields); }
    hide AllClean, SafeFields, CannotSpell;
  }

  lemma CleanFixed(p: Platform, fields: seq<Field>)
    requires AllClean(p, fields)
    ensures SafeData(p, Some(Obj(fields))) == Some(fields)
  {
    CleanStays(p, fields);
    forall i | 0 <= i < |fields| ensures !CannotSpell(fields[i]) {
      CleanSpells(p, fields[i]);
    }
  }

  lemma CleanSpells(p: Platform, field: Field)
    requires Clean(p, field)
    ensures !CannotSpell(field)
  {
    hide Uuid, SafeRoute, Spelled, Throws;
  }

  /** Exactly the entries their key lets through are kept, with their values. */
  lemma {:induction false} DataKept(p: Platform, fields: seq<Field>, key: string)
    requires KeysDistinct(fields) && !NamesRoute(key)
    ensures var value := Get(fields, key);
            Get(SafeFields(p, fields), key) == if value.Some? && Passes(p, key, value.value) then value else None
    decreases |fields|
  {
    if fields != [] {
      var before, last := fields[..|fields| - 1], fields[|fields| - 1];
      hide Passes, SafeRoute, Get, Put, Add;
      assert fields == before + [last] && KeysDistinct(before);
      hide KeysDistinct;
      DataKept(p, before, key);
      AddGet(p, SafeFields(p, before), last, key);
      LastGet(before, last, key);
      assert SafeFields(p, fields) == Add(p, SafeFields(p, before), last);
    }
  }

  lemma AddGet(p: Platform, output: seq<Field>, field: Field, key: string)
    requires !NamesRoute(key)
    ensures Get(Add(p, output, field), key)
         == if field.key == key && Passes(p, key, field.value) then Some(field.value) else Get(output, key)
  {
    hide Passes, SafeRoute, Get, Put;
    GetPut(output, "route", Str(SafeRoute(p.site, Some(field.value))), key);
    GetPut(output, field.key, field.value, key);
  }

  /** The route that comes out is the name of the last address that went in. */
  lemma {:induction false} RouteKept(p: Platform, fields: seq<Field>, i: nat)
    requires i <= |fields| && (i < |fields| ==> NamesRoute(fields[i].key))
    requires forall j :: i < j < |fields| ==> !NamesRoute(fields[j].key)
    requires i == |fields| ==> forall j :: 0 <= j < i ==> !NamesRoute(fields[j].key)
    ensures Get(SafeFields(p, fields), "route")
         == if i < |fields| then Some(Str(SafeRoute(p.site, Some(fields[i].value)))) else None
    decreases |fields|
  {
    hide Passes, SafeRoute, Get, Put;
    if fields == [] {
      assert Get([], "route") == None by { NothingGot("route"); }
    } else {
      var k := |fields| - 1;
      var output := SafeFields(p, fields[..k]);
      GetPut(output, "route", Str(SafeRoute(p.site, Some(fields[k].value))), "route");
      GetPut(output, fields[k].key, fields[k].value, "route");
      if !NamesRoute(fields[k].key) { RouteKept(p, fields[..k], if i == |fields| then k else i); }
    }
  }

  lemma NothingGot(key: string)
    ensures Get([], key) == None
  {
  }

  lemma LastGet(before: seq<Field>, last: Field, key: string)
    requires KeysDistinct(before + [last])
    ensures Get(before + [last], key) == if last.key == key then Some(last.value) else Get(before, key)
    ensures last.key == key ==> Get(before, key) == None
  {
    var fields, i := before + [last], Find(before, key);
    assert forall j :: 0 <= j < |before| ==> fields[j] == before[j];
    if i == |before| && last.key != key {
      FindIs(fields, key, |fields|);
    } else {
      assert i < |before| ==> fields[i].key == key && last == fields[|before|];
      FindIs(fields, key, i);
    }
  }

  // ----- words -----

  /** A text and nothing around it but lists of one. */
  predicate Wraps(value: Js, word: string) {
    value == Str(word) || (value.Arr? && |value.items| == 1 && Wraps(value.items[0], word))
  }

  /** No number, truth value or list of several is spelled like it. */
  ghost predicate Word(p: Platform, word: string) {
    && ',' !in word && word !in {"", "null", "true", "false", "not finite", "[object Object]"}
    && forall x: real :: p.numeral(x) != word
  }

  /** The keys compared by their spelling accept the word itself, and also lists of one around it. */
  lemma {:induction false} SpelledIff(p: Platform, value: Js, word: string)
    requires Word(p, word)
    ensures Spelled(p.numeral, value) == word <==> Wraps(value, word)
    ensures Wraps(value, word) ==> !Throws(value)
    decreases value
  {
    match value {
      case Arr(items) =>
        if |items| == 1 {
          SpelledIff(p, items[0], word);
          assert Spelled(p.numeral, value) == if items[0].Null? then "" else Spelled(p.numeral, items[0]);
        } else if |items| > 1 {
          var first := if items[0].Null? then "" else Spelled(p.numeral, items[0]);
          var spelled := Joined(p.numeral, items, ",");
          assert spelled == first + "," + Joined(p.numeral, items[1..], ",");
          assert spelled[|first|] == ',' && ',' in spelled;
        }
      case Num(amount) =>
        if amount.Some? {
          var x: real := amount.value;
          assert p.numeral(x) != word;
        }
      case _ =>
    }
  }

  /** A list around a word passes as the word does. */
  lemma ListAroundWord(p: Platform)
    ensures var fields := [Field("kind", Arr([Arr([Str("runtime")])]))];
            SafeData(p, Some(Obj(fields))) == Some(fields)
  {
    var value := Arr([Arr([Str("runtime")])]);
    var fields := [Field("kind", value)];
    assert Spelled(p.numeral, Arr([Str("runtime")])) == "runtime";
    assert Spelled(p.numeral, value) == "runtime" && !Throws(value);
    assert fields[..0] == [] && Passes(p, "kind", value);
    assert Put([], "kind", value) == [] + [Field("kind", value)] && [] + fields == fields;
    assert SafeFields(p, fields) == Add(p, SafeFields(p, []), fields[0]);
    assert !CannotSpell(fields[0]);
  }

  // ----- batches -----

  datatype Event = Event(id: string, kind: string, data: seq<Field>, metadata: seq<Field>)

  function Property(value: Option<Js>, key: string): Option<Js> {
    if value.Some? && value.value.Obj? then Get(value.value.fields, key) else None
  }

  /** A property that is left out where there is nothing to say. */
  function Entry(key: string, value: Option<Js>): seq<Field> {
    if value.Some? then [Field(key, value.value)] else []
  }

  function SessionOf(m: Option<Js>): Option<Js> {
    var id := Property(m, "session_id");
    if IsUuid(id) then id else None
  }

  function Chosen(m: Option<Js>, key: string, words: set<string>): Option<Js> {
    var word := Property(m, key);
    if word.Some? && word.value.Str? && word.value.text in words then word else None
  }

  /** A date that can be read, written the standard way. */
  function OccurredAt(p: Platform, m: Option<Js>): Option<Js> {
    var date := Property(m, "occurred_at");
    if date.Some? && date.value.Str? && |date.value.text| <= 32 && p.parse(date.value.text).Some?
    then Some(Str(p.iso(p.parse(date.value.text).value))) else None
  }

  function Metadata(path: string, session: Option<Js>, occurred: Option<Js>, browser: Option<Js>, device: Option<Js>): seq<Field> {
    [Field("path", Str(path)), Field("client_reported", Bool(true))] + Entry("session_id", session)
    + Entry("occurred_at", occurred) + Entry("browser", browser) + Entry("device", device)
  }

  function SafeMetadata(p: Platform, m: Option<Js>): seq<Field> {
    Metadata(SafeRoute(p.site, Property(m, "path")), SessionOf(m), OccurredAt(p, m),
             Chosen(m, "browser", BROWSERS), Chosen(m, "device", DEVICES))
  }

  /** One event, or None where the batch is refused for it. */
  function SafeEvent(p: Platform, value: Js): Option<Event> {
    var id, kind := Property(Some(value), "id"), Property(Some(value), "type");
    var data := SafeData(p, Property(Some(value), "data"));
    if !IsUuid(id) || kind.None? || !kind.value.Str? || kind.value.text !in TYPES || data.None? then None
    else Some(Event(id.value.text, kind.value.text,
                    data.value, SafeMetadata(p, Property(Some(value), "metadata"))))
  }

  function SafeEvents(p: Platform, items: seq<Js>): (r: Option<seq<Event>>)
    ensures r.Some? ==> |r.value| == |items|
  {
    if items == [] then Some([])
    else
      var first, rest := SafeEvent(p, items[0]), SafeEvents(p, items[1..]);
      if first.None? || rest.None? then None else Some([first.value] + rest.value)
  }

  /** safeBatch, or None where it throws. */
  function SafeBatch(p: Platform, value: Js): Option<seq<Event>> {
    var table, events := Property(Some(value), "table"), Property(Some(value), "events");
    if table != Some(Str(TABLE)) || events.None? || !events.value.Arr? || !(1 <= |events.value.items| <= MAX_EVENTS) then None
    else SafeEvents(p, events.value.items)
  }

  function EventJs(e: Event): Js {
    Obj([Field("id", Str(e.id)), Field("type", Str(e.kind)), Field("data", Obj(e.data)), Field("metadata", Obj(e.metadata))])
  }

  /** A sanitized batch as it is sent. */
  function BatchJs(events: seq<Event>): Js {
    Obj([Field("table", Str(TABLE)), Field("events", Arr(seq(|events|, i requires 0 <= i < |events| => EventJs(events[i]))))])
  }

  /** The calendar writes short dates that it reads back. */
  ghost predicate Calendar(p: Platform) {
    forall s :: p.parse(s).Some? ==>
      |p.iso(p.parse(s).value)| <= 32 && p.parse(p.iso(p.parse(s).value)) == p.parse(s)
  }

  lemma EntryGet(key: string, value: Option<Js>, other: string)
    ensures Get(Entry(key, value), other) == if other == key then value else None
  {
  }

  lemma MetadataGet(path: string, session: Option<Js>, occurred: Option<Js>, browser: Option<Js>, device: Option<Js>, key: string)
    ensures var r := Get(Metadata(path, session, occurred, browser, device), key);
            && (key == "path" ==> r == Some(Str(path))) && (key == "session_id" ==> r == session)
            && (key == "occurred_at" ==> r == occurred) && (key == "browser" ==> r == browser)
            && (key == "device" ==> r == device)
  {
    var a := [Field("path", Str(path)), Field("client_reported", Bool(true))];
    GetJoin([Field("path", Str(path))], [Field("client_reported", Bool(true))], key);
    EntryGet("path", Some(Str(path)), key);
    EntryGet("client_reported", Some(Bool(true)), key);
    assert a == Entry("path", Some(Str(path))) + Entry("client_reported", Some(Bool(true)));
    hide Get;
    EntryGet("session_id", session, key);
    EntryGet("occurred_at", occurred, key);
    EntryGet("browser", browser, key);
    EntryGet("device", device, key);
    var b := a + Entry("session_id", session);
    GetJoin(a, Entry("session_id", session), key);
    var c := b + Entry("occurred_at", occurred);
    GetJoin(b, Entry("occurred_at", occurred), key);
    GetJoin(c, Entry("browser", browser), key);
    GetJoin(c + Entry("browser", browser), Entry("device", device), key);
    hide Entry;
  }

  lemma MetadataStays(p: Platform, m: Option<Js>)
    requires Regular(p.site) && Calendar(p)
    ensures SafeMetadata(p, Some(Obj(SafeMetadata(p, m)))) == SafeMetadata(p, m)
  {
    var path, session, occurred := SafeRoute(p.site, Property(m, "path")), SessionOf(m), OccurredAt(p, m);
    var browser, device := Chosen(m, "browser", BROWSERS), Chosen(m, "device", DEVICES);
    NamesStay(p.site, Property(m, "path"));
    hide SafeRoute, Regular, Uuid, BROWSERS, DEVICES, Metadata, Get, NameOf;
    MetadataGet(path, session, occurred, browser, device, "path");
    MetadataGet(path, session, occurred, browser, device, "session_id");
    MetadataGet(path, session, occurred, browser, device, "occurred_at");
    MetadataGet(path, session, occurred, browser, device, "browser");
    MetadataGet(path, session, occurred, browser, device, "device");
    var again := Some(Obj(Metadata(path, session, occurred, browser, device)));
    assert Property(again, "path") == Some(Str(path));
    assert Property(again, "session_id") == session && Property(again, "occurred_at") == occurred;
    assert Property(again, "browser") == browser && Property(again, "device") == device;
    PartsStay(p, m, again);
    hide SessionOf, OccurredAt, Chosen, Property, Calendar;
  }

  lemma PartsStay(p: Platform, m: Option<Js>, again: Option<Js>)
    requires Calendar(p)
    requires Property(again, "session_id") == SessionOf(m) && Property(again, "occurred_at") == OccurredAt(p, m)
    requires Property(again, "browser") == Chosen(m, "browser", BROWSERS)
    requires Property(again, "device") == Chosen(m, "device", DEVICES)
    ensures SessionOf(again) == SessionOf(m) && OccurredAt(p, again) == OccurredAt(p, m)
    ensures Chosen(again, "browser", BROWSERS) == Chosen(m, "browser", BROWSERS)
    ensures Chosen(again, "device", DEVICES) == Chosen(m, "device", DEVICES)
  {
    hide Property, BROWSERS, DEVICES, Uuid;
  }

  lemma EventStays(p: Platform, value: Js)
    requires Regular(p.site) && Calendar(p) && SafeEvent(p, value).Some?
    ensures SafeEvent(p, EventJs(SafeEvent(p, value).value)) == SafeEvent(p, value)
  {
    var data, m := Property(Some(value), "data"), Property(Some(value), "metadata");
    MetadataStays(p, m);
    DataStays(p, data);
    hide SafeMetadata, SafeData, Regular, Uuid, TYPES, Calendar, Get;
    EventGet(SafeEvent(p, value).value);
  }

  lemma DataStays(p: Platform, data: Option<Js>)
    requires Regular(p.site)
    ensures SafeData(p, data).Some? ==> SafeData(p, Some(Obj(SafeData(p, data).value))) == SafeData(p, data)
  {
    if data.Some? && data.value.Obj? {
      DataFixedIff(p, data.value.fields);
    }
  }

  lemma EventGet(e: Event)
    ensures var fields := EventJs(e).fields;
            && Get(fields, "id") == Some(Str(e.id)) && Get(fields, "type") == Some(Str(e.kind))
            && Get(fields, "data") == Some(Obj(e.data)) && Get(fields, "metadata") == Some(Obj(e.metadata))
  {
    var fields := EventJs(e).fields;
    FindIs(fields, "id", 0);
    FindIs(fields, "type", 1);
    FindIs(fields, "data", 2);
    FindIs(fields, "metadata", 3);
  }

  lemma {:induction false} EventsStay(p: Platform, items: seq<Js>, again: seq<Js>)
    requires Regular(p.site) && Calendar(p) && SafeEvents(p, items).Some?
    requires var events := SafeEvents(p, items).value;
             |again| == |events| && forall i :: 0 <= i < |again| ==> again[i] == EventJs(events[i])
    ensures SafeEvents(p, again) == SafeEvents(p, items)
  {
    hide SafeEvent, EventJs, Regular, Calendar;
    if items != [] {
      var events := SafeEvents(p, items).value;
      EventStays(p, items[0]);
      assert events[1..] == SafeEvents(p, items[1..]).value;
      EventsStay(p, items[1..], again[1..]);
    }
  }

  /** The gateway's second pass changes nothing of what the browser's first pass sent. */
  lemma BatchStays(p: Platform, value: Js)
    requires Regular(p.site) && Calendar(p) && SafeBatch(p, value).Some?
    ensures SafeBatch(p, BatchJs(SafeBatch(p, value).value)) == SafeBatch(p, value)
  {
    var items := Property(Some(value), "events").value.items;
    var events := SafeBatch(p, value).value;
    var again := seq(|events|, i requires 0 <= i < |events| => EventJs(events[i]));
    EventsStay(p, items, again);
    var fields := [Field("table", Str(TABLE)), Field("events", Arr(again))];
    FindIs(fields, "table", 0);
    FindIs(fields, "events", 1);
    hide SafeEvents, Regular, Calendar;
  }

  /** Nothing else leaves: every event sent has a UUID, a known type, clean data and the name of a
      page or route for its path. */
  lemma BatchSafe(p: Platform, value: Js, i: nat)
    requires Regular(p.site) && SafeBatch(p, value).Some? && i < |SafeBatch(p, value).value|
    ensures var events := SafeBatch(p, value).value;
            && 1 <= |events| <= MAX_EVENTS && Uuid(events[i].id) && events[i].kind in TYPES && AllClean(p, events[i].data)
            && exists m: Option<Js> :: events[i].metadata == SafeMetadata(p, m)
                 && SafeRoute(p.site, Property(m, "path")) in PAGES + {JOIN, UNMATCHED} + (set r | r in p.site.routes)
  {
    var items := Property(Some(value), "events").value.items;
    EventOf(p, items, i);
    var m, data := Property(Some(items[i]), "metadata"), Property(Some(items[i]), "data");
    NamesKnown(p.site, Property(m, "path"));
    DataClean(p, data);
    assert SafeBatch(p, value).value[i].metadata == SafeMetadata(p, m);
    hide SafeRoute, SafeMetadata, SafeFields, Regular, PAGES, SafeEvents, Uuid, TYPES, AllClean, SafeData;
  }

  lemma DataClean(p: Platform, data: Option<Js>)
    requires Regular(p.site)
    ensures SafeData(p, data).Some? ==> AllClean(p, SafeData(p, data).value)
  {
    hide SafeRoute, Clean, CannotSpell;
    if data.Some? && data.value.Obj? {
      OutputClean(p, data.value.fields);
    }
  }

  lemma {:induction false} EventOf(p: Platform, items: seq<Js>, i: nat)
    requires SafeEvents(p, items).Some? && i < |items|
    ensures SafeEvent(p, items[i]) == Some(SafeEvents(p, items).value[i])
  {
    hide SafeEvent;
    if i > 0 {
      EventOf(p, items[1..], i - 1);
    }
  }

  /** What is sent of an event is the event's own: its id and type, its data as sanitized, the name of
      its path, and of its metadata each allowed entry as it was, a date in its standard form. */
  lemma EventIsItsOwn(p: Platform, value: Js)
    requires SafeEvent(p, value).Some?
    ensures var e, m := SafeEvent(p, value).value, Property(Some(value), "metadata");
            && Property(Some(value), "id") == Some(Str(e.id)) && Property(Some(value), "type") == Some(Str(e.kind))
            && SafeData(p, Property(Some(value), "data")) == Some(e.data)
            && Get(e.metadata, "path") == Some(Str(SafeRoute(p.site, Property(m, "path"))))
            && Get(e.metadata, "session_id")
                 == (if IsUuid(Property(m, "session_id")) then Property(m, "session_id") else None)
            && Get(e.metadata, "browser")
                 == (if exists w :: w in BROWSERS && Property(m, "browser") == Some(Str(w)) then Property(m, "browser") else None)
            && Get(e.metadata, "device")
                 == (if exists w :: w in DEVICES && Property(m, "device") == Some(Str(w)) then Property(m, "device") else None)
            && (forall text, t :: Property(m, "occurred_at") == Some(Str(text)) && |text| <= 32 && p.parse(text) == Some(t) ==>
                  Get(e.metadata, "occurred_at") == Some(Str(p.iso(t))))
  {
    var m := Property(Some(value), "metadata");
    var path, session, occurred := SafeRoute(p.site, Property(m, "path")), SessionOf(m), OccurredAt(p, m);
    var browser, device := Chosen(m, "browser", BROWSERS), Chosen(m, "device", DEVICES);
    hide SafeRoute, Uuid, BROWSERS, DEVICES, Metadata, Get, TYPES, SafeData;
    MetadataGet(path, session, occurred, browser, device, "path");
    MetadataGet(path, session, occurred, browser, device, "session_id");
    MetadataGet(path, session, occurred, browser, device, "occurred_at");
    MetadataGet(path, session, occurred, browser, device, "browser");
    MetadataGet(path, session, occurred, browser, device, "device");
    ChosenIff(m, "browser", BROWSERS);
    ChosenIff(m, "device", DEVICES);
    hide Chosen, Property;
  }

  lemma ChosenIff(m: Option<Js>, key: string, words: set<string>)
    ensures Chosen(m, key, words) == if exists w :: w in words && Property(m, key) == Some(Str(w)) then Property(m, key) else None
  {
    hide Property;
  }

  /** An event is accepted exactly for a UUID, a known type and data that can be spelled out; a batch
      exactly with its table and one to forty accepted events, all of which it sends in order. */
  lemma BatchIff(p: Platform, value: Js)
    ensures SafeBatch(p, value).Some? <==>
              && Property(Some(value), "table") == Some(Str("siliconiam"))
              && Property(Some(value), "events").Some? && Property(Some(value), "events").value.Arr?
              && var items := Property(Some(value), "events").value.items;
                 1 <= |items| <= 40 && forall i :: 0 <= i < |items| ==> SafeEvent(p, items[i]).Some?
    ensures SafeBatch(p, value).Some? ==>
              var items := Property(Some(value), "events").value.items;
              && |SafeBatch(p, value).value| == |items|
              && forall i :: 0 <= i < |items| ==> SafeEvent(p, items[i]) == Some(SafeBatch(p, value).value[i])
  {
    hide SafeEvent, Property;
    var events := Property(Some(value), "events");
    if events.Some? && events.value.Arr? {
      EventsIff(p, events.value.items);
    }
    hide SafeEvents;
  }

  lemma {:induction false} EventsIff(p: Platform, items: seq<Js>)
    ensures SafeEvents(p, items).Some? <==> forall i :: 0 <= i < |items| ==> SafeEvent(p, items[i]).Some?
    ensures SafeEvents(p, items).Some? ==>
              forall i :: 0 <= i < |items| ==> SafeEvent(p, items[i]) == Some(SafeEvents(p, items).value[i])
  {
    hide SafeEvent;
    if items != [] {
      EventsIff(p, items[1..]);
      assert forall i :: 0 < i < |items| ==> items[i] == items[1..][i - 1];
    }
  }

  lemma EventAcceptedIff(p: Platform, value: Js)
    ensures SafeEvent(p, value).Some? <==>
              && IsUuid(Property(Some(value), "id"))
              && (exists w :: w in TYPES && Property(Some(value), "type") == Some(Str(w)))
              && SafeData(p, Property(Some(value), "data")).Some?
  {
    hide Uuid, TYPES, SafeData, SafeMetadata, Property;
  }

  /** safeBatch, event by event. */
  method SanitizeBatch(p: Platform, value: Js) returns (r: Option<seq<Event>>)
    ensures r == SafeBatch(p, value)
  {
    var table, events := Property(Some(value), "table"), Property(Some(value), "events");
    if table != Some(Str(TABLE)) || events.None? || !events.value.Arr? || !(1 <= |events.value.items| <= MAX_EVENTS) {
      return None;
    }
    var items, sent := events.value.items, [];
    for i := 0 to |items|
      invariant SafeEvents(p, items[..i]) == Some(sent)
    {
      var event := SafeEvent(p, items[i]);
      MoreEvents(p, items, i);
      if event.None? { return None; }
      sent := sent + [event.value];
    }
    assert items[..|items|] == items;
    return Some(sent);
  }

  /** The first refused event refuses the batch. */
  lemma {:induction false} MoreEvents(p: Platform, items: seq<Js>, i: nat)
    requires i < |items| && SafeEvents(p, items[..i]).Some?
    ensures var e := SafeEvent(p, items[i]);
            if e.None? then SafeEvents(p, items).None?
            else SafeEvents(p, items[..i + 1]) == Some(SafeEvents(p, items[..i]).value + [e.value])
  {
    hide SafeEvent;
    if i == 0 {
      assert items[..i] == [] && items[..i + 1] == [items[0]] && [items[0]][1..] == [];
      assert SafeEvents(p, []) == Some([]);
      if SafeEvent(p, items[0]).Some? {
        var e := SafeEvent(p, items[0]).value;
        assert SafeEvents(p, [items[0]]) == Some([e] + []) && [e] + [] == [] + [e];
      }
    } else {
      var rest := items[1..];
      assert items[..i][1..] == rest[..i - 1] && items[..i + 1][1..] == rest[..i] && rest[i - 1] == items[i];
      MoreEvents(p, rest, i - 1);
      assert items[..i][0] == items[0] && items[..i + 1][0] == items[0];
      if SafeEvent(p, items[i]).Some? {
        var first, e := SafeEvent(p, items[0]).value, SafeEvent(p, items[i]).value;
        assert SafeEvents(p, items[..i]).value == [first] + SafeEvents(p, rest[..i - 1]).value;
        assert SafeEvents(p, items[..i + 1]) == Some([first] + SafeEvents(p, rest[..i]).value);
        var kept := SafeEvents(p, rest[..i - 1]).value;
        assert [first] + (kept + [e]) == [first] + kept + [e];
      }
    }
  }
}
