/** frontend/src/api.ts: retry keys of approval requests kept in session storage. */
module ApprovalRetries {
  import opened Wrappers
  import opened Sequences

  type Time = int  // milliseconds

  const WINDOW: Time := 12 * 60 * 60 * 1000
  const CAPACITY := 100

  /** One property of the stored object; the expiry may be no finite number. */
  datatype Entry = Entry(hash: string, key: string, expiresAt: Option<Time>)

  predicate Hex(c: char) {
    '0' <= c <= '9' || 'a' <= c <= 'f'
  }

  predicate IsHash(s: string) {
    |s| == 64 && forall i :: 0 <= i < |s| ==> Hex(s[i])
  }

  predicate IsKey(s: string) {
    |s| == 36 && forall i :: 0 <= i < |s| ==> Hex(s[i]) || s[i] == '-'
  }

  predicate Usable(e: Entry, now: Time) {
    IsHash(e.hash) && IsKey(e.key) && e.expiresAt.Some? && now < e.expiresAt.value <= now + WINDOW
  }

  function UsableOf(entries: seq<Entry>, now: Time): (r: seq<Entry>)
    ensures forall e :: e in r <==> e in entries && Usable(e, now)
  {
    if entries == [] then []
    else (if Usable(entries[0], now) then [entries[0]] else []) + UsableOf(entries[1..], now)
  }

  function Newest(entries: seq<Entry>): seq<Entry> {
    if |entries| <= CAPACITY then entries else entries[|entries| - CAPACITY..]
  }

  /** approvalRetries: what storage offers at a moment. */
  function Retries(entries: seq<Entry>, now: Time): seq<Entry> {
    Newest(UsableOf(entries, now))
  }

  function IndexOf(entries: seq<Entry>, hash: string): (i: nat)
    ensures i <= |entries| && (i < |entries| ==> entries[i].hash == hash)
    ensures forall j :: 0 <= j < i ==> entries[j].hash != hash
  {
    IndexBy(entries, (e: Entry) => e.hash, hash)
  }

  function Find(entries: seq<Entry>, hash: string): (r: Option<Entry>)
    ensures r.Some? ==> r.value in entries && r.value.hash == hash
    ensures r.None? ==> forall e :: e in entries ==> e.hash != hash
  {
    var i := IndexOf(entries, hash);
    if i < |entries| then Some(entries[i]) else None
  }

  /** Assigning a property keeps its place; a new property goes last. */
  function Assign(entries: seq<Entry>, e: Entry): seq<Entry> {
    var i := IndexOf(entries, e.hash);
    if i < |entries| then entries[i := e] else entries + [e]
  }

  function Remove(entries: seq<Entry>, hash: string): seq<Entry> {
    var i := IndexOf(entries, hash);
    if i < |entries| then entries[..i] + entries[i + 1..] else entries
  }

  function Deadline(retries: seq<Entry>, hash: string, now: Time): Time {
    var found := Find(retries, hash);
    if found.Some? && found.value.expiresAt.Some? && found.value.expiresAt.value != 0
    then found.value.expiresAt.value else now + WINDOW
  }

  /** saveApprovalRetry with a key saves it, without one forgets it. */
  function Saved(entries: seq<Entry>, hash: string, key: Option<string>, now: Time): seq<Entry> {
    if hash == "" then entries
    else
      var retries := Retries(entries, now);
      Newest(if key.Some? && key.value != "" then Assign(retries, Entry(hash, key.value, Some(Deadline(retries, hash, now))))
             else Remove(retries, hash))
  }

  // ----- what saving keeps -----

  /** Two entries in storage order: different hashes and keys, the older one expiring no later. */
  predicate Apart(older: Entry, newer: Entry) {
    && older.hash != newer.hash && older.key != newer.key
    && older.expiresAt.Some? && newer.expiresAt.Some? && older.expiresAt.value <= newer.expiresAt.value
  }

  /** As saving lays entries out, oldest first. */
  ghost predicate Tidy(entries: seq<Entry>) {
    forall i, j :: 0 <= i < j < |entries| ==> Apart(entries[i], entries[j])
  }

  lemma TidyCons(e: Entry, entries: seq<Entry>)
    requires Tidy(entries) && forall x :: x in entries ==> Apart(e, x)
    ensures Tidy([e] + entries)
  {
    hide Apart;
    var r := [e] + entries;
    assert forall i :: 0 < i < |r| ==> r[i] == entries[i - 1] && r[i] in entries;
  }

  lemma {:induction false} UsableTidy(entries: seq<Entry>, now: Time)
    requires Tidy(entries)
    ensures Tidy(UsableOf(entries, now))
  {
    hide Apart;
    if entries != [] {
      var tail := entries[1..];
      UsableTidy(tail, now);
      if Usable(entries[0], now) {
        forall x | x in UsableOf(tail, now) ensures Apart(entries[0], x) {
          var k :| 0 <= k < |tail| && tail[k] == x;
          assert entries[k + 1] == x;
        }
        TidyCons(entries[0], UsableOf(tail, now));
      }
    }
  }

  lemma NewestKeeps(entries: seq<Entry>)
    ensures var r := Newest(entries);
            |r| <= CAPACITY && (forall e :: e in r ==> e in entries) && (Tidy(entries) ==> Tidy(r))
  {
    hide Apart;
  }

  lemma RetriesKeep(entries: seq<Entry>, now: Time)
    ensures var r := Retries(entries, now);
            && |r| <= CAPACITY && (forall e :: e in r ==> e in entries && Usable(e, now))
            && (Tidy(entries) ==> Tidy(r))
  {
    if Tidy(entries) { UsableTidy(entries, now); }
    NewestKeeps(UsableOf(entries, now));
  }

  /** Assigning a key nobody else holds, with the deadline that saving computes. */
  lemma AssignTidy(retries: seq<Entry>, hash: string, key: string, now: Time)
    requires Tidy(retries) && forall e :: e in retries ==> Usable(e, now) && (e.key == key ==> e.hash == hash)
    requires 0 <= now
    ensures var e := Entry(hash, key, Some(Deadline(retries, hash, now)));
            var r := Assign(retries, e);
            && Tidy(r) && e in r && (forall x :: x in r ==> x == e || (x in retries && x.hash != hash))
  {
    var e := Entry(hash, key, Some(Deadline(retries, hash, now)));
    var i := IndexOf(retries, hash);
    var r := Assign(retries, e);
    assert r[i] == e;
    forall k | 0 <= k < |retries| && k != i
      ensures retries[k] in retries && Usable(retries[k], now) && retries[k].hash != hash && retries[k].key != key
    {
      if i < |retries| { assert Apart(retries[if k < i then k else i], retries[if k < i then i else k]); }
    }
    if i < |retries| { assert retries[i] in retries; }
  }

  lemma RemoveTidy(entries: seq<Entry>, hash: string)
    requires Tidy(entries)
    ensures var r := Remove(entries, hash);
            Tidy(r) && forall x :: x in r ==> x in entries && x.hash != hash
  {
    var i := IndexOf(entries, hash);
    var r := Remove(entries, hash);
    forall k | 0 <= k < |r| ensures r[k].hash != hash && r[k] in entries {
      if i < |entries| {
        assert r[k] == if k < i then entries[k] else entries[k + 1];
        if k >= i { assert Apart(entries[i], entries[k + 1]); }
      }
    }
    hide Apart;
    assert i < |entries| ==> forall k :: 0 <= k < |r| ==> r[k] == if k < i then entries[k] else entries[k + 1];
  }

  // ----- the deadline of a saved key -----

  /** Every stored entry of this hash expires by the limit. */
  ghost predicate Within(entries: seq<Entry>, hash: string, limit: Time) {
    forall e :: e in entries && e.hash == hash && e.expiresAt.Some? ==> e.expiresAt.value <= limit
  }

  /** The deadline one more save gives: within a limit the entries kept so far exactly if the
      hash is still offered, or the whole new window is. */
  lemma DeadlineKeptIff(entries: seq<Entry>, hash: string, limit: Time, now: Time)
    requires 0 <= now && Within(entries, hash, limit)
    ensures var retries := Retries(entries, now);
            Deadline(retries, hash, now) <= limit <==> Find(retries, hash).Some? || now + WINDOW <= limit
  {
    RetriesKeep(entries, now);
    var found := Find(Retries(entries, now), hash);
    if found.Some? { assert found.value in entries && Usable(found.value, now); }
  }

  /** So is the store after it: nothing else of that hash is written, and the new entry is never
      among those dropped. */
  lemma SavedWithinIff(entries: seq<Entry>, hash: string, key: string, limit: Time, now: Time)
    requires 0 <= now && hash != "" && key != "" && Within(entries, hash, limit)
    ensures Within(Saved(entries, hash, Some(key), now), hash, limit)
       <==> Find(Retries(entries, now), hash).Some? || now + WINDOW <= limit
  {
    RetriesKeep(entries, now);
    DeadlineKeptIff(entries, hash, limit, now);
    var retries := Retries(entries, now);
    var e := Entry(hash, key, Some(Deadline(retries, hash, now)));
    var all := Assign(retries, e);
    assert forall x :: x in retries ==> x in entries;
    hide Retries, Usable, Deadline;
    AssignMembers(retries, e);
    NewestKeeps(all);
    if Find(retries, hash).None? {
      assert all[|all| - 1] == e;
      LastIsNewest(all);
    }
    assert Saved(entries, hash, Some(key), now) == Newest(all);
    hide Assign, Newest, Saved;
  }

  lemma AssignMembers(entries: seq<Entry>, e: Entry)
    ensures forall x :: x in Assign(entries, e) ==> x == e || x in entries
  {
  }

  lemma LastIsNewest(entries: seq<Entry>)
    requires entries != []
    ensures entries[|entries| - 1] in Newest(entries)
  {
    var r := Newest(entries);
    assert r[|r| - 1] == entries[|entries| - 1];
  }

  /** Every save, whatever was stored, leaves all entries within a window from now. */
  lemma SavedWithin(entries: seq<Entry>, hash: string, key: Option<string>, now: Time, other: string)
    requires 0 <= now && hash != ""
    ensures Within(Saved(entries, hash, key, now), other, now + WINDOW)
    ensures forall limit :: (other != hash || key.None?) && Within(entries, other, limit) ==>
              Within(Saved(entries, hash, key, now), other, limit)
  {
    RetriesKeep(entries, now);
    var retries := Retries(entries, now);
    assert forall x :: x in retries ==> x in entries && x.expiresAt.Some? && x.expiresAt.value <= now + WINDOW;
    DeadlineWithin(retries, hash, now);
    if key.Some? && key.value != "" {
      var e := Entry(hash, key.value, Some(Deadline(retries, hash, now)));
      AssignMembers(retries, e);
      NewestKeeps(Assign(retries, e));
    } else {
      RemoveMembers(retries, hash);
      NewestKeeps(Remove(retries, hash));
    }
    hide Retries, Assign, Remove, Newest, Deadline;
  }

  lemma RemoveMembers(entries: seq<Entry>, hash: string)
    ensures forall x :: x in Remove(entries, hash) ==> x in entries
  {
  }

  /** After any save, every kept entry expires within the window, and the store holds the newest
      entries up to its capacity: whatever usable entry was dropped is older than every kept one. */
  lemma SavedWithinWindow(entries: seq<Entry>, hash: string, key: string, now: Time)
    requires 0 <= now && Tidy(entries) && hash != "" && key != ""
    requires forall e :: e in entries && e.key == key ==> e.hash == hash
    ensures var r := Saved(entries, hash, Some(key), now);
            && |r| <= CAPACITY && Tidy(r) && r != [] && (exists e :: e in r && e.hash == hash && e.key == key)
            && (forall e :: e in r ==> e.expiresAt.Some? && e.expiresAt.value <= now + WINDOW)
            && forall e, kept :: e in Retries(entries, now) && e.hash != hash && e !in r && kept in r ==>
                 e.expiresAt.value <= kept.expiresAt.value
  {
    RetriesKeep(entries, now);
    var retries := Retries(entries, now);
    assert forall x :: x in retries ==> x.expiresAt.Some? && x.expiresAt.value <= now + WINDOW;
    hide Retries, Usable, Tidy;
    var e := Entry(hash, key, Some(Deadline(retries, hash, now)));
    DeadlineWithin(retries, hash, now);
    AssignTidy(retries, hash, key, now);
    AssignKeepsOthers(retries, e);
    var all := Assign(retries, e);
    NewestKeeps(all);
    NewestIsNewest(all, e);
    hide Assign, Newest, Deadline;
    assert Saved(entries, hash, Some(key), now) == Newest(all);
  }

  lemma DeadlineWithin(retries: seq<Entry>, hash: string, now: Time)
    requires forall e :: e in retries ==> Usable(e, now)
    ensures Deadline(retries, hash, now) <= now + WINDOW
  {
  }

  lemma AssignKeepsOthers(entries: seq<Entry>, e: Entry)
    ensures forall x :: x in entries && x.hash != e.hash ==> x in Assign(entries, e)
  {
    var r := Assign(entries, e);
    forall x | x in entries && x.hash != e.hash ensures x in r {
      var k :| 0 <= k < |entries| && entries[k] == x;
      assert r[k] == x;
    }
  }

  lemma NewestIsNewest(entries: seq<Entry>, e: Entry)
    requires Tidy(entries) && e in entries && |entries| <= CAPACITY + 1
    requires e == entries[|entries| - 1] || |entries| <= CAPACITY
    ensures e in Newest(entries)
    ensures forall x, kept :: x in entries && x !in Newest(entries) && kept in Newest(entries) ==> Apart(x, kept)
  {
    hide Apart;
    var r := Newest(entries);
    if |entries| > CAPACITY {
      assert r[|r| - 1] == entries[|entries| - 1];
      forall k | 0 < k < |entries| ensures entries[k] in r {
        assert r[k - 1] == entries[k];
      }
      forall x, kept | x in entries && x !in r && kept in r ensures Apart(x, kept) {
        var i :| 0 <= i < |entries| && entries[i] == x;
        var j :| 0 <= j < |r| && r[j] == kept;
        assert i == 0 && r[j] == entries[j + 1];
      }
    }
  }

  // ----- where an entry stands in the store -----

  /** The only entry of the hash stands at this place, with this deadline. */
  ghost predicate StandsAt(entries: seq<Entry>, p: nat, hash: string, deadline: Time) {
    && p < |entries| && entries[p].hash == hash && IsKey(entries[p].key) && entries[p].expiresAt == Some(deadline)
    && forall q :: 0 <= q < |entries| && q != p ==> entries[q].hash != hash
  }

  /** At most so many entries stand behind it. */
  ghost predicate Stands(entries: seq<Entry>, hash: string, deadline: Time, newer: nat) {
    exists p: nat :: StandsAt(entries, p, hash, deadline) && |entries| - 1 - p <= newer
  }

  ghost predicate Absent(entries: seq<Entry>, hash: string) {
    forall e :: e in entries ==> e.hash != hash
  }

  lemma {:induction false} UsableNoLonger(entries: seq<Entry>, now: Time)
    ensures |UsableOf(entries, now)| <= |entries|
  {
    if entries != [] { UsableNoLonger(entries[1..], now); }
  }

  lemma {:induction false} UsableStands(entries: seq<Entry>, p: nat, hash: string, deadline: Time, now: Time)
    requires StandsAt(entries, p, hash, deadline) && IsHash(hash) && now < deadline <= now + WINDOW
    ensures Stands(UsableOf(entries, now), hash, deadline, |entries| - 1 - p)
  {
    hide IsKey, IsHash;
    var head, tail := entries[0], entries[1..];
    if p == 0 {
      assert Usable(head, now);
      UsableNoLonger(tail, now);
      assert forall q :: 0 <= q < |tail| ==> tail[q] == entries[q + 1] && tail[q].hash != hash;
      FirstStandsAt(head, UsableOf(tail, now), hash, deadline);
      hide Usable, StandsAt;
    } else {
      TailStandsAt(entries, p, hash, deadline);
      hide StandsAt;
      UsableStands(tail, p - 1, hash, deadline, now);
      hide Stands;
      assert [] + UsableOf(tail, now) == UsableOf(tail, now);
      if Usable(head, now) { ConsStands(head, UsableOf(tail, now), hash, deadline, |entries| - 1 - p); }
    }
  }

  lemma TailStandsAt(entries: seq<Entry>, p: nat, hash: string, deadline: Time)
    requires StandsAt(entries, p, hash, deadline) && p > 0
    ensures StandsAt(entries[1..], p - 1, hash, deadline) && entries[0].hash != hash
  {
    hide IsKey;
  }

  lemma FirstStandsAt(head: Entry, tail: seq<Entry>, hash: string, deadline: Time)
    requires head.hash == hash && IsKey(head.key) && head.expiresAt == Some(deadline)
    requires forall e :: e in tail ==> e.hash != hash
    ensures Stands([head] + tail, hash, deadline, |tail|)
  {
    hide IsKey;
    assert StandsAt([head] + tail, 0, hash, deadline);
  }

  lemma ConsStands(head: Entry, tail: seq<Entry>, hash: string, deadline: Time, newer: nat)
    requires Stands(tail, hash, deadline, newer) && head.hash != hash
    ensures Stands([head] + tail, hash, deadline, newer)
  {
    hide IsKey;
    var q: nat :| StandsAt(tail, q, hash, deadline) && |tail| - 1 - q <= newer;
    assert StandsAt([head] + tail, q + 1, hash, deadline);
  }

  lemma NewestStands(entries: seq<Entry>, hash: string, deadline: Time, newer: nat)
    requires Stands(entries, hash, deadline, newer) && newer < CAPACITY
    ensures Stands(Newest(entries), hash, deadline, newer)
  {
    hide IsKey;
    var p: nat :| StandsAt(entries, p, hash, deadline) && |entries| - 1 - p <= newer;
    if |entries| > CAPACITY {
      var cut := |entries| - CAPACITY;
      assert StandsAt(Newest(entries), p - cut, hash, deadline);
    }
  }

  /** While its deadline has not passed and fewer than the capacity stand behind it, storage
      offers an entry. */
  lemma RetriesStand(entries: seq<Entry>, hash: string, deadline: Time, newer: nat, now: Time)
    requires Stands(entries, hash, deadline, newer) && newer < CAPACITY && IsHash(hash) && now < deadline <= now + WINDOW
    ensures Stands(Retries(entries, now), hash, deadline, newer)
  {
    var p: nat :| StandsAt(entries, p, hash, deadline) && |entries| - 1 - p <= newer;
    UsableStands(entries, p, hash, deadline, now);
    assert Stands(UsableOf(entries, now), hash, deadline, newer);
    NewestStands(UsableOf(entries, now), hash, deadline, newer);
  }

  lemma StandingFound(entries: seq<Entry>, hash: string, deadline: Time, newer: nat)
    requires Stands(entries, hash, deadline, newer)
    ensures Find(entries, hash).Some? && Find(entries, hash).value.expiresAt == Some(deadline)
  {
    var p: nat :| StandsAt(entries, p, hash, deadline) && |entries| - 1 - p <= newer;
    assert entries[p] in entries;
  }

  lemma AssignStands(entries: seq<Entry>, e: Entry, hash: string, deadline: Time, newer: nat)
    requires Stands(entries, hash, deadline, newer)
    requires e.hash == hash ==> IsKey(e.key) && e.expiresAt == Some(deadline)
    ensures Stands(Assign(entries, e), hash, deadline, if e.hash == hash then newer else newer + 1)
  {
    hide IsKey;
    var p: nat :| StandsAt(entries, p, hash, deadline) && |entries| - 1 - p <= newer;
    assert StandsAt(Assign(entries, e), p, hash, deadline);
  }

  lemma RemoveStands(entries: seq<Entry>, other: string, hash: string, deadline: Time, newer: nat)
    requires Stands(entries, hash, deadline, newer) && other != hash
    ensures Stands(Remove(entries, other), hash, deadline, newer)
  {
    hide IsKey;
    var p: nat :| StandsAt(entries, p, hash, deadline) && |entries| - 1 - p <= newer;
    var i := IndexOf(entries, other);
    assert StandsAt(Remove(entries, other), if i < p then p - 1 else p, hash, deadline);
  }

  /** Saving another key puts at most one more entry behind, forgetting one none, and saving the
      same hash again none, its deadline staying. */
  lemma SavedStands(entries: seq<Entry>, own: string, key: Option<string>, now: Time, hash: string, deadline: Time, newer: nat)
    requires Stands(entries, hash, deadline, newer) && IsHash(hash) && 0 <= now < deadline <= now + WINDOW
    requires own == hash ==> key.Some? && IsKey(key.value)
    requires (if own == hash || key.None? then newer else newer + 1) < CAPACITY
    ensures Stands(Saved(entries, own, key, now), hash, deadline, if own == hash || key.None? then newer else newer + 1)
  {
    var retries := Retries(entries, now);
    RetriesStand(entries, hash, deadline, newer, now);
    StandingFound(retries, hash, deadline, newer);
    assert own == hash ==> Deadline(retries, own, now) == deadline && key.value != "";
    hide Stands, Retries, Deadline, Assign, Remove, Newest, IsKey, IsHash;
    if own != "" && key.Some? && key.value != "" {
      var e := Entry(own, key.value, Some(Deadline(retries, own, now)));
      AssignStands(retries, e, hash, deadline, newer);
      NewestStands(Assign(retries, e), hash, deadline, if own == hash then newer else newer + 1);
    } else {
      if own != "" {
        RemoveStands(retries, own, hash, deadline, newer);
        NewestStands(Remove(retries, own), hash, deadline, newer);
      }
      MoreBehind(Saved(entries, own, key, now), hash, deadline, newer);
    }
  }

  lemma MoreBehind(entries: seq<Entry>, hash: string, deadline: Time, newer: nat)
    ensures Stands(entries, hash, deadline, newer) ==> Stands(entries, hash, deadline, newer + 1)
  {
  }

  /** A first save puts its entry last, with a whole window. */
  lemma FirstSaveStands(entries: seq<Entry>, hash: string, key: string, now: Time)
    requires Find(Retries(entries, now), hash).None? && hash != "" && IsKey(key) && 0 <= now
    ensures Stands(Saved(entries, hash, Some(key), now), hash, now + WINDOW, 0)
  {
    var retries := Retries(entries, now);
    var e := Entry(hash, key, Some(now + WINDOW));
    var all := Assign(retries, e);
    assert all == retries + [e];
    assert forall q :: 0 <= q < |retries| ==> retries[q] in retries;
    hide IsKey, Retries;
    assert StandsAt(all, |retries|, hash, now + WINDOW);
    NewestStands(all, hash, now + WINDOW, 0);
  }

  lemma AbsentStays(entries: seq<Entry>, own: string, key: Option<string>, now: Time, hash: string)
    requires Absent(entries, hash) && (own != hash || key.None?)
    ensures Absent(Retries(entries, now), hash) && Find(Retries(entries, now), hash).None?
    ensures Absent(Saved(entries, own, key, now), hash)
  {
    RetriesKeep(entries, now);
    var retries := Retries(entries, now);
    hide Retries;
    if own != "" && key.Some? && key.value != "" {
      var e := Entry(own, key.value, Some(Deadline(retries, own, now)));
      AssignMembers(retries, e);
      NewestKeeps(Assign(retries, e));
    } else if own != "" {
      RemoveMembers(retries, own);
      NewestKeeps(Remove(retries, own));
    }
    hide Assign, Remove, Newest, Deadline;
  }
}
