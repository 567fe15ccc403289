/** scripts/check_linux_abi.py: the GLIBC versions an ELF64 executable requires, read from its
    version-requirement records, whose layout is that of section 10.7 of the Linux Standard
    Base Core specification. */
module LinuxAbi {
  import opened Wrappers
  import opened Bytes
  import opened Sequences

  datatype Failure =
    | Truncated | InvalidString | NotElf64 | NoSections | TruncatedSection | NotOneSection | BadLink
    | BadRecord | Unsupported | BadAuxiliaryChain | BadCount | BadChain | Inconsistent

  type Version = seq<nat>

  // ----- strings and versions -----

  function FindNul(data: Text, at: nat): (end: nat)
    requires at <= |data|
    ensures at <= end <= |data| && (end < |data| ==> data[end] == 0)
    ensures forall i :: at <= i < end ==> data[i] != 0
    decreases |data| - at
  {
    if at == |data| || data[at] == 0 then at else FindNul(data, at + 1)
  }

  /** The NUL-terminated ASCII string at an offset. */
  function StringAt(data: Text, at: nat): Result<string, Failure> {
    if at >= |data| then Err(InvalidString)
    else
      var end := FindNul(data, at);
      if end == |data| || exists i :: at <= i < end && data[i] >= 128 then Err(InvalidString)
      else Ok(seq(end - at, i requires 0 <= i < end - at => data[at + i] as char))
  }

  predicate Digits(s: string) {
    s != "" && forall i :: 0 <= i < |s| ==> '0' <= s[i] <= '9'
  }

  function Number(s: string): nat
    requires forall i :: 0 <= i < |s| ==> '0' <= s[i] <= '9'
  {
    if s == "" then 0 else 10 * Number(s[..|s| - 1]) + (s[|s| - 1] - '0') as nat
  }

  datatype Requirement = Unrelated | Glibc(version: Version)

  /** A name that starts with GLIBC_ must be GLIBC_ and at least two dotted numbers. */
  function RequirementOf(name: string): Result<Requirement, Failure> {
    if !("GLIBC_" <= name) then Ok(Unrelated)
    else
      var parts := Split(name[6..], {'.'});
      if |parts| >= 2 && forall i :: 0 <= i < |parts| ==> Digits(parts[i])
      then Ok(Glibc(seq(|parts|, i requires 0 <= i < |parts| => Number(parts[i]))))
      else Err(Unsupported)
  }

  /** `name` writes `version` as GLIBC_ and two or more dotted decimal numbers. */
  ghost predicate Spells(name: string, parts: seq<string>, version: Version) {
    && |parts| >= 2 && |parts| == |version|
    && (forall i :: 0 <= i < |parts| ==> Digits(parts[i]) && version[i] == Number(parts[i]))
    && name == "GLIBC_" + Join(parts, ".")
  }

  lemma SpelledIsRead(name: string, parts: seq<string>, version: Version)
    requires Spells(name, parts, version)
    ensures RequirementOf(name) == Ok(Glibc(version))
  {
    assert name[6..] == Join(parts, ".");
    SplitJoin(parts, '.', {'.'});
    hide Split, Join;
    var read := seq(|parts|, i requires 0 <= i < |parts| => Number(parts[i]));
    assert read == version;
  }

  lemma ReadIsSpelled(name: string, version: Version)
    requires RequirementOf(name) == Ok(Glibc(version))
    ensures Spells(name, Split(name[6..], {'.'}), version)
  {
    JoinSplit(name[6..], '.');
    hide Split, Join;
    assert name == "GLIBC_" + name[6..];
  }

  /** The accepted names are exactly the dotted decimal ones, and the version read is the one written. */
  lemma RequirementIff(name: string, version: Version)
    ensures RequirementOf(name) == Ok(Glibc(version)) <==> exists parts :: Spells(name, parts, version)
  {
    hide RequirementOf, Spells;
    if RequirementOf(name) == Ok(Glibc(version)) {
      ReadIsSpelled(name, version);
    }
    forall parts | Spells(name, parts, version) ensures RequirementOf(name) == Ok(Glibc(version)) {
      SpelledIsRead(name, parts, version);
    }
  }

  // ----- the record layout -----

  datatype Record = Record(library: string, names: seq<string>)

  const ENTRY := 16

  /** Linked name entries: hash, flags, other, name offset at 8, distance to the next at 12. */
  ghost predicate NameChain(versions: Text, strings: Text, at: nat, names: seq<string>)
    decreases |names|
  {
    && names != [] && at + ENTRY <= |versions|
    && StringAt(strings, LittleEndian(versions, at + 8, 4)) == Ok(names[0])
    && var next := LittleEndian(versions, at + 12, 4);
    && if |names| == 1 then next == 0 else next >= ENTRY && NameChain(versions, strings, at + next, names[1..])
  }

  /** A library entry: version, name count at 2, library at 4, names at 8, next entry at 12. */
  ghost predicate RecordEntry(versions: Text, strings: Text, at: nat, record: Record) {
    && at + ENTRY <= |versions|
    && LittleEndian(versions, at, 2) == 1
    && LittleEndian(versions, at + 2, 2) == |record.names|
    && StringAt(strings, LittleEndian(versions, at + 4, 4)) == Ok(record.library)
    && LittleEndian(versions, at + 8, 4) >= ENTRY
    && NameChain(versions, strings, at + LittleEndian(versions, at + 8, 4), record.names)
  }

  ghost predicate RecordChain(versions: Text, strings: Text, at: nat, records: seq<Record>)
    decreases |records|
  {
    && records != [] && RecordEntry(versions, strings, at, records[0])
    && var next := LittleEndian(versions, at + 12, 4);
    && if |records| == 1 then next == 0 else next >= ENTRY && RecordChain(versions, strings, at + next, records[1..])
  }

  /** Every name is unrelated or a well-formed GLIBC requirement. */
  ghost predicate Supported(names: seq<string>) {
    forall i :: 0 <= i < |names| ==> RequirementOf(names[i]).Ok?
  }

  ghost function Required(names: seq<string>): set<Version>
    requires Supported(names)
  {
    set i | 0 <= i < |names| && RequirementOf(names[i]).value.Glibc? :: RequirementOf(names[i]).value.version
  }

  ghost function AllNames(records: seq<Record>): seq<string> {
    if records == [] then [] else records[0].names + AllNames(records[1..])
  }

  // ----- the walk -----

  function Add(r: Requirement, found: set<Version>): set<Version> {
    if r.Glibc? then found + {r.version} else found
  }

  function WalkNames(versions: Text, strings: Text, at: nat, count: nat, found: set<Version>): Result<set<Version>, Failure>
    requires count > 0
    decreases count
  {
    if at + ENTRY > |versions| then Err(Truncated)
    else
      var name := StringAt(strings, LittleEndian(versions, at + 8, 4));
      if name.Err? then Err(name.error)
      else
        var requirement := RequirementOf(name.value);
        if requirement.Err? then Err(requirement.error)
        else
          var next := LittleEndian(versions, at + 12, 4);
          var more := Add(requirement.value, found);
          if count == 1 then (if next != 0 then Err(BadCount) else Ok(more))
          else if next < ENTRY then Err(BadAuxiliaryChain)
          else WalkNames(versions, strings, at + next, count - 1, more)
  }

  datatype Walked = Walked(found: set<Version>, records: nat)

  /** One library entry: the names it lists. */
  function WalkRecord(versions: Text, strings: Text, at: nat, found: set<Version>): (r: Result<set<Version>, Failure>)
    ensures r.Ok? ==> at + ENTRY <= |versions|
  {
    if at + ENTRY > |versions| then Err(Truncated)
    else
      var count, names := LittleEndian(versions, at + 2, 2), LittleEndian(versions, at + 8, 4);
      if LittleEndian(versions, at, 2) != 1 || count == 0 || names < ENTRY then Err(BadRecord)
      else
        var library := StringAt(strings, LittleEndian(versions, at + 4, 4));
        if library.Err? then Err(library.error)
        else WalkNames(versions, strings, at + names, count, found)
  }

  function Walk(versions: Text, strings: Text, at: nat, so: Walked): Result<Walked, Failure>
    decreases |versions| - at
  {
    var names := WalkRecord(versions, strings, at, so.found);
    if names.Err? then Err(names.error)
    else
      var next := LittleEndian(versions, at + 12, 4);
      var more := Walked(names.value, so.records + 1);
      if next == 0 then Ok(more)
      else if next < ENTRY then Err(BadChain)
      else Walk(versions, strings, at + next, more)
  }

  // ----- the walk reads exactly the linked records -----

  lemma RequiredSplit(a: seq<string>, b: seq<string>)
    ensures Supported(a + b) <==> Supported(a) && Supported(b)
    ensures Supported(a + b) ==> Required(a + b) == Required(a) + Required(b)
  {
    var c := a + b;
    assert forall i :: 0 <= i < |a| ==> c[i] == a[i];
    assert forall i :: 0 <= i < |b| ==> c[|a| + i] == b[i];
    assert forall i :: |a| <= i < |c| ==> c[i] == b[i - |a|];
    if Supported(c) {
      forall v | v in Required(b) ensures v in Required(c) {
        var i :| 0 <= i < |b| && RequirementOf(b[i]).value.Glibc? && RequirementOf(b[i]).value.version == v;
        assert c[|a| + i] == b[i];
      }
    }
  }

  lemma RequiredOne(name: string, found: set<Version>)
    requires RequirementOf(name).Ok?
    ensures Supported([name]) && Add(RequirementOf(name).value, found) == found + Required([name])
  {
    assert [name][0] == name;
  }

  lemma {:induction false} NamesWalked(versions: Text, strings: Text, at: nat, names: seq<string>, found: set<Version>)
    requires NameChain(versions, strings, at, names) && Supported(names)
    ensures WalkNames(versions, strings, at, |names|, found) == Ok(found + Required(names))
    decreases |names|
  {
    hide LittleEndian, StringAt, RequirementOf;
    var name := names[0];
    assert RequirementOf(names[0]).Ok?;
    RequiredOne(name, found);
    RequiredSplit([name], names[1..]);
    assert names == [name] + names[1..];
    if |names| > 1 {
      var next := LittleEndian(versions, at + 12, 4);
      NamesWalked(versions, strings, at + next, names[1..], found + Required([name]));
      assert found + Required([name]) + Required(names[1..]) == found + Required(names);
    } else {
      assert names == [name];
    }
  }

  lemma {:induction false} NamesFound(versions: Text, strings: Text, at: nat, count: nat, found: set<Version>)
    returns (names: seq<string>)
    requires count > 0 && WalkNames(versions, strings, at, count, found).Ok?
    ensures |names| == count && NameChain(versions, strings, at, names) && Supported(names)
    decreases count
  {
    hide LittleEndian, StringAt, RequirementOf;
    var name := StringAt(strings, LittleEndian(versions, at + 8, 4)).value;
    names := [name];
    RequiredOne(name, found);
    if count > 1 {
      var next := LittleEndian(versions, at + 12, 4);
      var more := Add(RequirementOf(name).value, found);
      var rest := NamesFound(versions, strings, at + next, count - 1, more);
      names := [name] + rest;
      assert names[1..] == rest;
      RequiredSplit([name], rest);
    }
  }

  lemma RecordWalked(versions: Text, strings: Text, at: nat, records: seq<Record>, found: set<Version>)
    requires RecordChain(versions, strings, at, records) && Supported(records[0].names)
    ensures WalkRecord(versions, strings, at, found) == Ok(found + Required(records[0].names))
  {
    hide LittleEndian, StringAt, RequirementOf;
    NamesWalked(versions, strings, at + LittleEndian(versions, at + 8, 4), records[0].names, found);
  }

  lemma {:induction false} ChainWalked(versions: Text, strings: Text, at: nat, records: seq<Record>, so: Walked)
    requires RecordChain(versions, strings, at, records) && Supported(AllNames(records))
    ensures Walk(versions, strings, at, so)
         == Ok(Walked(so.found + Required(AllNames(records)), so.records + |records|))
    decreases |records|
  {
    hide LittleEndian, StringAt, WalkRecord, Required;
    var names, rest := records[0].names, AllNames(records[1..]);
    RequiredSplit(names, rest);
    RecordWalked(versions, strings, at, records, so.found);
    if |records| > 1 {
      var next := LittleEndian(versions, at + 12, 4);
      ChainWalked(versions, strings, at + next, records[1..], Walked(so.found + Required(names), so.records + 1));
      assert so.found + Required(names) + Required(rest) == so.found + Required(names + rest);
    } else {
      assert rest == [] && names + rest == names;
    }
  }

  lemma RecordFound(versions: Text, strings: Text, at: nat, found: set<Version>) returns (record: Record)
    requires WalkRecord(versions, strings, at, found).Ok?
    ensures RecordEntry(versions, strings, at, record) && Supported(record.names)
  {
    hide LittleEndian, StringAt, RequirementOf, NameChain, WalkNames;
    var count, names := LittleEndian(versions, at + 2, 2), LittleEndian(versions, at + 8, 4);
    var list := NamesFound(versions, strings, at + names, count, found);
    record := Record(StringAt(strings, LittleEndian(versions, at + 4, 4)).value, list);
  }

  lemma {:induction false} ChainFound(versions: Text, strings: Text, at: nat, so: Walked) returns (records: seq<Record>)
    requires Walk(versions, strings, at, so).Ok?
    ensures RecordChain(versions, strings, at, records) && Supported(AllNames(records))
    decreases |versions| - at
  {
    hide LittleEndian, WalkRecord, RecordEntry;
    var record := RecordFound(versions, strings, at, so.found);
    var next := LittleEndian(versions, at + 12, 4);
    records := [record];
    assert AllNames(records) == record.names + [] == record.names;
    if next != 0 {
      var names := WalkRecord(versions, strings, at, so.found).value;
      var rest := ChainFound(versions, strings, at + next, Walked(names, so.records + 1));
      records := [record] + rest;
      assert records[1..] == rest && AllNames(records) == record.names + AllNames(rest);
      RequiredSplit(record.names, AllNames(rest));
    }
  }

  /** The walk succeeds exactly on a linked chain of well-formed records whose names are all
      supported, and then returns all their GLIBC versions and the number of records. */
  lemma WalkIff(versions: Text, strings: Text, result: Walked)
    ensures Walk(versions, strings, 0, Walked({}, 0)) == Ok(result) <==>
      exists records :: RecordChain(versions, strings, 0, records) && Supported(AllNames(records))
                        && result == Walked(Required(AllNames(records)), |records|)
  {
    hide Walk, RecordChain, Required, AllNames, Supported;
    if Walk(versions, strings, 0, Walked({}, 0)).Ok? {
      var records := ChainFound(versions, strings, 0, Walked({}, 0));
      ChainWalked(versions, strings, 0, records, Walked({}, 0));
      assert {} + Required(AllNames(records)) == Required(AllNames(records));
    }
    forall records | RecordChain(versions, strings, 0, records) && Supported(AllNames(records))
      ensures Walk(versions, strings, 0, Walked({}, 0)) == Ok(Walked(Required(AllNames(records)), |records|))
    {
      ChainWalked(versions, strings, 0, records, Walked({}, 0));
      assert {} + Required(AllNames(records)) == Required(AllNames(records));
    }
  }

  // ----- the section table -----

  const VERNEED := 0x6FFFFFFE
  const STRTAB := 3

  datatype Section = Section(kind: nat, offset: nat, size: nat, link: nat, info: nat)

  function SectionAt(data: Text, at: nat): Result<Section, Failure> {
    if at + 64 > |data| then Err(Truncated)
    else Ok(Section(LittleEndian(data, at + 4, 4), LittleEndian(data, at + 24, 8), LittleEndian(data, at + 32, 8),
                    LittleEndian(data, at + 40, 4), LittleEndian(data, at + 44, 4)))
  }

  function SectionsFrom(data: Text, at: nat, count: nat): Result<seq<Section>, Failure>
    decreases count
  {
    if count == 0 then Ok([])
    else
      var first := SectionAt(data, at);
      if first.Err? then Err(first.error)
      else
        var rest := SectionsFrom(data, at + 64, count - 1);
        if rest.Err? then rest else Ok([first.value] + rest.value)
  }

  function Contents(data: Text, section: Section): Result<Text, Failure> {
    if section.offset + section.size > |data| then Err(TruncatedSection)
    else Ok(data[section.offset..section.offset + section.size])
  }

  function Requirements(sections: seq<Section>): seq<Section> {
    if sections == [] then []
    else (if sections[0].kind == VERNEED then [sections[0]] else []) + Requirements(sections[1..])
  }

  /** The two tables of the only version-requirement section, and the record count it declares. */
  datatype Tables = Tables(versions: Text, strings: Text, records: nat)

  function TablesOf(data: Text): Result<Tables, Failure> {
    if |data| < 6 || data[..6] != [0x7F, 69, 76, 70, 2, 1] then Err(NotElf64)
    else if |data| < 62 then Err(Truncated)
    else
      var table, entry, count := LittleEndian(data, 40, 8), LittleEndian(data, 58, 2), LittleEndian(data, 60, 2);
      if entry != 64 || count == 0 then Err(NoSections)
      else
        var sections := SectionsFrom(data, table, count);
        if sections.Err? then Err(sections.error) else LinkedTables(data, sections.value)
  }

  function LinkedTables(data: Text, sections: seq<Section>): Result<Tables, Failure> {
    var requirements := Requirements(sections);
    if |requirements| != 1 then Err(NotOneSection)
    else
      var section := requirements[0];
      if section.link >= |sections| || sections[section.link].kind != STRTAB then Err(BadLink)
      else
        var strings := Contents(data, sections[section.link]);
        if strings.Err? then Err(strings.error)
        else
          var versions := Contents(data, section);
          if versions.Err? then Err(versions.error)
          else Ok(Tables(versions.value, strings.value, section.info))
  }

  function RequiredVersions(data: Text): (r: Result<set<Version>, Failure>)
    ensures r.Ok? ==> r.value != {}
  {
    var tables := TablesOf(data);
    if tables.Err? then Err(tables.error)
    else
      var walked := Walk(tables.value.versions, tables.value.strings, 0, Walked({}, 0));
      if walked.Err? then Err(walked.error)
      else if walked.value.records != tables.value.records || walked.value.found == {} then Err(Inconsistent)
      else Ok(walked.value.found)
  }

  /** The executable's version-requirement section holds these linked records. */
  ghost predicate Holds(data: Text, records: seq<Record>) {
    && TablesOf(data).Ok?
    && var t := TablesOf(data).value;
    && RecordChain(t.versions, t.strings, 0, records) && |records| == t.records
  }

  /** The versions returned are all those of the records, no fewer and no more. */
  lemma RequiredVersionsIff(data: Text, found: set<Version>)
    ensures RequiredVersions(data) == Ok(found) <==>
      exists records :: Holds(data, records) && Supported(AllNames(records))
                        && found == Required(AllNames(records)) && found != {}
  {
    hide Walk, RecordChain, Required, AllNames, Supported, TablesOf;
    if TablesOf(data).Ok? {
      var t := TablesOf(data).value;
      WalkIff(t.versions, t.strings, Walked(found, t.records));
      forall records | Holds(data, records) && Supported(AllNames(records)) && found == Required(AllNames(records))
        ensures Walk(t.versions, t.strings, 0, Walked({}, 0)) == Ok(Walked(found, t.records))
      {
        assert Walked(found, t.records) == Walked(Required(AllNames(records)), |records|);
      }
      if RequiredVersions(data) == Ok(found) {
        var records :| RecordChain(t.versions, t.strings, 0, records) && Supported(AllNames(records))
                       && Walked(found, t.records) == Walked(Required(AllNames(records)), |records|);
        assert Holds(data, records);
      }
    }
  }

  // ----- which bytes these are -----

  /** The text is ASCII and stands at the place, with a zero byte behind it. */
  ghost predicate Stands(data: Text, at: nat, s: string) {
    && at + |s| < |data| && data[at + |s|] == 0
    && forall i :: at <= i < at + |s| ==> 0 < data[i] < 128 && s[i - at] == data[i] as char
  }

  /** The text read at a place is exactly the one that stands there. */
  lemma StringAtIff(data: Text, at: nat, s: string)
    ensures StringAt(data, at) == Ok(s) <==> Stands(data, at, s)
  {
    if at < |data| {
      var end := FindNul(data, at);
      if StringAt(data, at) == Ok(s) {
        assert s == seq(end - at, i requires 0 <= i < end - at => data[at + i] as char);
        assert Stands(data, at, s);
      }
      if Stands(data, at, s) {
        assert end == at + |s|;
        var read := seq(end - at, i requires 0 <= i < end - at => data[at + i] as char);
        forall i | 0 <= i < |s| ensures read[i] == s[i] {
          assert s[at + i - at] == data[at + i] as char;
        }
        assert read == s;
      }
    }
  }

  /** The i-th entry of the section table: its kind at byte 4, place at 24, size at 32, link at 40
      and count at 44 of 64. */
  ghost predicate Entry(data: Text, at: nat, s: Section) {
    && at + 64 <= |data|
    && s.kind == LittleEndian(data, at + 4, 4) && s.offset == LittleEndian(data, at + 24, 8)
    && s.size == LittleEndian(data, at + 32, 8) && s.link == LittleEndian(data, at + 40, 4)
    && s.info == LittleEndian(data, at + 44, 4)
  }

  ghost predicate Entries(data: Text, table: nat, sections: seq<Section>) {
    forall i :: 0 <= i < |sections| ==> Entry(data, table + 64 * i, sections[i])
  }

  /** The only section of its kind: the one with the version requirements. */
  ghost predicate Only(sections: seq<Section>, v: nat) {
    && v < |sections| && sections[v].kind == 0x6FFFFFFE
    && forall i :: 0 <= i < |sections| && i != v ==> sections[i].kind != 0x6FFFFFFE
  }

  ghost predicate Lies(data: Text, s: Section, content: Text) {
    s.offset + s.size <= |data| && content == data[s.offset..s.offset + s.size]
  }

  lemma {:induction false} SectionsAre(data: Text, table: nat, count: nat, sections: seq<Section>)
    ensures SectionsFrom(data, table, count) == Ok(sections) <==> |sections| == count && Entries(data, table, sections)
    decreases count
  {
    hide LittleEndian;
    if count > 0 {
      var rest := if sections == [] then [] else sections[1..];
      SectionsAre(data, table + 64, count - 1, rest);
      if |sections| == count {
        assert sections == [sections[0]] + rest;
        assert forall i :: 0 <= i < |rest| ==> rest[i] == sections[i + 1] && table + 64 + 64 * i == table + 64 * (i + 1);
        TailEntries(data, table, sections);
      }
    }
  }

  lemma TailEntries(data: Text, table: nat, sections: seq<Section>)
    requires sections != []
    ensures Entries(data, table, sections) <==> Entry(data, table, sections[0]) && Entries(data, table + 64, sections[1..])
  {
    hide Entry;
    var rest := sections[1..];
    assert forall i :: 0 <= i < |rest| ==> rest[i] == sections[i + 1] && table + 64 + 64 * i == table + 64 * (i + 1);
    if Entry(data, table, sections[0]) && Entries(data, table + 64, rest) {
      forall i | 0 <= i < |sections| ensures Entry(data, table + 64 * i, sections[i]) {
        if i > 0 { assert Entry(data, table + 64 + 64 * (i - 1), rest[i - 1]); }
      }
    }
    if Entries(data, table, sections) {
      assert Entry(data, table + 64 * 0, sections[0]);
      forall i | 0 <= i < |rest| ensures Entry(data, table + 64 + 64 * i, rest[i]) {
        assert Entry(data, table + 64 * (i + 1), sections[i + 1]);
      }
    }
  }

  lemma {:induction false} RequirementsAre(sections: seq<Section>)
    ensures |Requirements(sections)| == 1 <==> exists v: nat :: Only(sections, v)
    ensures forall v: nat :: Only(sections, v) ==> Requirements(sections) == [sections[v]]
    ensures Requirements(sections) == [] <==> forall i :: 0 <= i < |sections| ==> sections[i].kind != 0x6FFFFFFE
  {
    if sections != [] {
      var rest := sections[1..];
      RequirementsAre(rest);
      assert forall i :: 0 < i < |sections| ==> sections[i] == rest[i - 1];
      if sections[0].kind == VERNEED {
        assert Requirements(rest) == [] ==> Only(sections, 0);
        forall v: nat | Only(sections, v) ensures v == 0 && Requirements(rest) == [] {
        }
      } else {
        forall v: nat | Only(sections, v) ensures v > 0 && Only(rest, v - 1) {
        }
        forall v: nat | Only(rest, v) ensures Only(sections, v + 1) {
        }
      }
    }
  }

  /** What the version tables of an executable are: little-endian 64-bit ELF whose section table, at
      the place in byte 40 with the count in byte 60, has one version-requirement section, linked
      to a string table; both are the bytes their entries name. */
  ghost predicate HasTables(data: Text, t: Tables, sections: seq<Section>, v: nat) {
    && |data| >= 62 && data[..6] == [0x7F, 69, 76, 70, 2, 1] && LittleEndian(data, 58, 2) == 64
    && sections != [] && |sections| == LittleEndian(data, 60, 2) && Entries(data, LittleEndian(data, 40, 8), sections)
    && Only(sections, v) && sections[v].link < |sections| && sections[sections[v].link].kind == 3
    && Lies(data, sections[sections[v].link], t.strings) && Lies(data, sections[v], t.versions) && t.records == sections[v].info
  }

  lemma TablesIff(data: Text, t: Tables)
    ensures TablesOf(data) == Ok(t) <==> exists sections, v: nat :: HasTables(data, t, sections, v)
  {
    hide LittleEndian, Entries, Only, SectionsFrom, Requirements;
    if TablesOf(data) == Ok(t) {
      var sections := SectionsFrom(data, LittleEndian(data, 40, 8), LittleEndian(data, 60, 2)).value;
      SectionsAre(data, LittleEndian(data, 40, 8), LittleEndian(data, 60, 2), sections);
      RequirementsAre(sections);
      var v: nat :| Only(sections, v);
      assert HasTables(data, t, sections, v);
    }
    forall sections, v: nat | HasTables(data, t, sections, v) ensures TablesOf(data) == Ok(t) {
      SectionsAre(data, LittleEndian(data, 40, 8), LittleEndian(data, 60, 2), sections);
      RequirementsAre(sections);
    }
  }

  // ----- the baseline -----

  const BASELINE: Version := [2, 28]

  /** Tuple order: by the first difference, a proper prefix first. */
  predicate AtMost(a: Version, b: Version) {
    a == [] || (b != [] && (a[0] < b[0] || (a[0] == b[0] && AtMost(a[1..], b[1..]))))
  }

  lemma {:induction false} AtMostTotal(a: Version, b: Version)
    ensures AtMost(a, b) || AtMost(b, a)
    ensures AtMost(a, b) && AtMost(b, a) ==> a == b
  {
    if a != [] && b != [] {
      AtMostTotal(a[1..], b[1..]);
      assert a == [a[0]] + a[1..] && b == [b[0]] + b[1..];
    }
  }

  lemma {:induction false} AtMostTransitive(a: Version, b: Version, c: Version)
    requires AtMost(a, b) && AtMost(b, c)
    ensures AtMost(a, c)
  {
    if a != [] && a[0] == b[0] == c[0] {
      AtMostTransitive(a[1..], b[1..], c[1..]);
    }
  }

  /** At most: a beginning of the other version, or smaller where they first differ. */
  lemma {:induction false} AtMostIff(a: Version, b: Version)
    ensures AtMost(a, b) <==> a <= b || exists i :: 0 <= i < |a| && i < |b| && a[..i] == b[..i] && a[i] < b[i]
  {
    if a != [] && b != [] {
      var x, y := a[1..], b[1..];
      AtMostIff(x, y);
      assert a == [a[0]] + x && b == [b[0]] + y;
      if a[0] < b[0] {
        assert a[..0] == b[..0];
      } else if a[0] == b[0] {
        assert a <= b <==> x <= y;
        forall i | 0 <= i < |x| && i < |y| ensures x[..i] == y[..i] <==> a[..i + 1] == b[..i + 1] {
          assert a[..i + 1] == [a[0]] + x[..i] && b[..i + 1] == [b[0]] + y[..i];
          assert a[..i + 1][1..] == x[..i] && b[..i + 1][1..] == y[..i];
        }
        LaterDifference(a, b, x, y);
      } else {
        assert forall i :: 0 < i < |a| && i < |b| ==> a[..i][0] != b[..i][0];
      }
    }
  }

  lemma LaterDifference(a: Version, b: Version, x: Version, y: Version)
    requires a != [] && b != [] && a[0] == b[0] && x == a[1..] && y == b[1..]
    requires forall i :: 0 <= i < |x| && i < |y| ==> (x[..i] == y[..i] <==> a[..i + 1] == b[..i + 1])
    ensures (exists i :: 0 <= i < |a| && i < |b| && a[..i] == b[..i] && a[i] < b[i])
       <==> exists i :: 0 <= i < |x| && i < |y| && x[..i] == y[..i] && x[i] < y[i]
  {
    if i :| 0 <= i < |a| && i < |b| && a[..i] == b[..i] && a[i] < b[i] {
      assert i > 0 && x[..i - 1] == y[..i - 1] && x[i - 1] < y[i - 1];
    }
    if i :| 0 <= i < |x| && i < |y| && x[..i] == y[..i] && x[i] < y[i] {
      assert a[..i + 1] == b[..i + 1] && a[i + 1] < b[i + 1];
    }
  }

  /** Which versions the baseline admits. */
  lemma BaselineAdmits(v: Version)
    ensures AtMost(v, BASELINE) <==> |v| == 0 || v[0] < 2 || (v[0] == 2 && (|v| == 1 || v[1] < 28 || (v[1] == 28 && |v| == 2)))
  {
    assert BASELINE[1..] == [28] && BASELINE[1..][1..] == [];
    if |v| > 1 {
      assert AtMost(v[1..], [28]) <==> v[1..][0] < 28 || (v[1..][0] == 28 && AtMost(v[1..][1..], []));
      assert AtMost(v[1..][1..], []) <==> |v| == 2;
    }
  }

  datatype Verdict = Accepted(required: Version) | TooNew(required: Version) | Invalid(error: Failure)

  /** The maximum decides: the executable passes exactly when every requirement is at most the baseline. */
  method VerifyGlibcRequirements(data: Text) returns (v: Verdict)
    ensures v.Invalid? <==> RequiredVersions(data).Err?
    ensures v.Invalid? ==> RequiredVersions(data) == Err(v.error)
    ensures v.Accepted? <==> RequiredVersions(data).Ok? && forall r :: r in RequiredVersions(data).value ==> AtMost(r, BASELINE)
    ensures !v.Invalid? ==> v.required in RequiredVersions(data).value
                            && forall r :: r in RequiredVersions(data).value ==> AtMost(r, v.required)
  {
    hide RequiredVersions;
    var found := RequiredGlibcVersions(data);
    if found.Err? { return Invalid(found.error); }
    var greatest :| greatest in found.value;
    var rest := found.value - {greatest};
    AtMostTotal(greatest, greatest);
    while rest != {}
      invariant greatest in found.value && rest <= found.value
      invariant forall r :: r in found.value && r !in rest ==> AtMost(r, greatest)
      decreases |rest|
    {
      var r :| r in rest;
      rest := rest - {r};
      AtMostTotal(r, greatest);
      if !AtMost(r, greatest) {
        forall q | q in found.value && q !in rest ensures AtMost(q, r) {
          AtMostTotal(r, r);
          if q != r { AtMostTransitive(q, greatest, r); }
        }
        greatest := r;
      }
    }
    forall r | r in found.value && AtMost(greatest, BASELINE) ensures AtMost(r, BASELINE) {
      AtMostTransitive(r, greatest, BASELINE);
    }
    v := if AtMost(greatest, BASELINE) then Accepted(greatest) else TooNew(greatest);
  }

  // ----- the loops -----

  function Prepend(sections: seq<Section>, rest: Result<seq<Section>, Failure>): Result<seq<Section>, Failure> {
    if rest.Err? then rest else Ok(sections + rest.value)
  }

  lemma PrependOne(sections: seq<Section>, section: Section, rest: Result<seq<Section>, Failure>)
    ensures Prepend(sections + [section], rest) == Prepend(sections, Prepend([section], rest))
  {
    if rest.Ok? {
      assert sections + [section] + rest.value == sections + ([section] + rest.value);
    }
  }

  method ReadSections(data: Text, table: nat, count: nat) returns (r: Result<seq<Section>, Failure>)
    ensures r == SectionsFrom(data, table, count)
  {
    hide SectionAt;
    var sections := [];
    var at := table;
    assert SectionsFrom(data, table, count).Ok? ==> [] + SectionsFrom(data, table, count).value == SectionsFrom(data, table, count).value;
    while |sections| < count
      invariant |sections| <= count && at == table + 64 * |sections|
      invariant Prepend(sections, SectionsFrom(data, at, count - |sections|)) == SectionsFrom(data, table, count)
    {
      var section := SectionAt(data, at);
      if section.Err? { return Err(section.error); }
      PrependOne(sections, section.value, SectionsFrom(data, at + 64, count - |sections| - 1));
      sections, at := sections + [section.value], at + 64;
    }
    assert sections + [] == sections;
    return Ok(sections);
  }

  method RequiredGlibcVersions(data: Text) returns (r: Result<set<Version>, Failure>)
    ensures r == RequiredVersions(data)
  {
    if |data| < 6 || data[..6] != [0x7F, 69, 76, 70, 2, 1] { return Err(NotElf64); }
    if |data| < 62 { return Err(Truncated); }
    var table, entry, count := LittleEndian(data, 40, 8), LittleEndian(data, 58, 2), LittleEndian(data, 60, 2);
    if entry != 64 || count == 0 { return Err(NoSections); }
    var sections := ReadSections(data, table, count);
    if sections.Err? { return Err(sections.error); }
    var tables := LinkedTables(data, sections.value);
    if tables.Err? { return Err(tables.error); }
    var walked := WalkRecords(tables.value.versions, tables.value.strings);
    if walked.Err? { return Err(walked.error); }
    if walked.value.records != tables.value.records || walked.value.found == {} { return Err(Inconsistent); }
    return Ok(walked.value.found);
  }

  method WalkRecords(versions: Text, strings: Text) returns (r: Result<Walked, Failure>)
    ensures r == Walk(versions, strings, 0, Walked({}, 0))
  {
    hide LittleEndian, StringAt, RequirementOf, WalkNames;
    var offset, found, records := 0, {}, 0;
    while true
      invariant Walk(versions, strings, offset, Walked(found, records)) == Walk(versions, strings, 0, Walked({}, 0))
      decreases |versions| - offset
    {
      if offset + ENTRY > |versions| { return Err(Truncated); }
      var count, names := LittleEndian(versions, offset + 2, 2), LittleEndian(versions, offset + 8, 4);
      if LittleEndian(versions, offset, 2) != 1 || count == 0 || names < ENTRY { return Err(BadRecord); }
      var library := StringAt(strings, LittleEndian(versions, offset + 4, 4));
      if library.Err? { return Err(library.error); }
      var more := WalkRecordNames(versions, strings, offset + names, count, found);
      if more.Err? { return Err(more.error); }
      found, records := more.value, records + 1;
      var following := LittleEndian(versions, offset + 12, 4);
      if following == 0 { return Ok(Walked(found, records)); }
      if following < ENTRY { return Err(BadChain); }
      offset := offset + following;
    }
  }

  method WalkRecordNames(versions: Text, strings: Text, start: nat, count: nat, before: set<Version>)
    returns (r: Result<set<Version>, Failure>)
    requires count > 0
    ensures r == WalkNames(versions, strings, start, count, before)
  {
    hide LittleEndian, StringAt, RequirementOf;
    var position: nat, index: nat, found := start, 0, before;
    while index < count
      invariant 0 <= index < count
      invariant WalkNames(versions, strings, position, count - index, found)
             == WalkNames(versions, strings, start, count, before)
      decreases count - index
    {
      if position + ENTRY > |versions| { return Err(Truncated); }
      var name := StringAt(strings, LittleEndian(versions, position + 8, 4));
      if name.Err? { return Err(name.error); }
      var requirement := RequirementOf(name.value);
      if requirement.Err? { return Err(requirement.error); }
      found := Add(requirement.value, found);
      var next := LittleEndian(versions, position + 12, 4);
      if index + 1 == count {
        return if next != 0 then Err(BadCount) else Ok(found);
      }
      if next < ENTRY { return Err(BadAuxiliaryChain); }
      position, index := position + next, index + 1;
    }
  }
}
