/** The replay expiry transaction of deploy/aws/release-public-identifiers.py, as the
    database executes it while holding the table's exclusive lock. */
module ReplayExpiry {
  import opened Sequences

  type Id = nat
  type Time = int  // microseconds

  /** A row of iam.idempotency_records; `kept` stands for every column not named here. */
  datatype Row = Row(created: Time, expires: Time, updated: Time, kept: string)

  type Table = map<Id, Row>

  /** The columns the transaction compares before and after. */
  datatype Receipt = Receipt(created: Time, kept: string)

  function ReceiptOf(row: Row): Receipt {
    Receipt(row.created, row.kept)
  }

  predicate Live(row: Row, now: Time) {
    row.expires > now
  }

  /** The readings of clock_timestamp(): at the guard, once per updated row, and at the end. */
  datatype Clock = Clock(guard: Time, stamp: Id -> Time, finish: Time) {
    ghost predicate Monotone() {
      guard <= finish && forall i :: guard <= stamp(i) <= finish
    }
  }

  datatype Outcome = RolledBack | Committed(table: Table, count: nat)

  function Listed(table: Table, ids: seq<Id>): set<Id> {
    set i | i in table && i in ids
  }

  function ListedExpired(table: Table, ids: seq<Id>, now: Time): set<Id> {
    set i | i in table && i in ids && !Live(table[i], now)
  }

  predicate UnlistedLive(table: Table, ids: seq<Id>, now: Time) {
    exists i :: i in table && Live(table[i], now) && i !in ids
  }

  function Updated(table: Table, ids: seq<Id>, clock: Clock, trigger: Row -> Row): Table {
    map i | i in table ::
      if i in ids then trigger(table[i].(expires := clock.stamp(i) - 1)) else table[i]
  }

  /** `trigger` is whatever the table's update trigger does to a row. */
  function Expire(table: Table, ids: seq<Id>, clock: Clock, trigger: Row -> Row): Outcome {
    if UnlistedLive(table, ids, clock.guard) || |Listed(table, ids)| != |ids| then RolledBack
    else
      var after := Updated(table, ids, clock, trigger);
      if exists i :: i in after && i in ids && after[i].expires <= after[i].created then RolledBack
      else if exists i :: i in table && ReceiptOf(after[i]) != ReceiptOf(table[i]) then RolledBack
      else Committed(after, |ListedExpired(after, ids, clock.finish)|)
  }

  lemma {:induction false} DistinctCount(ids: seq<Id>, found: set<Id>)
    requires forall i :: i in found ==> i in ids
    ensures |found| <= |ids|
    ensures |found| == |ids| <==> Distinct(ids) && forall i :: i in ids ==> i in found
  {
    if ids == [] {
      assert found == {};
    } else {
      var last, rest := ids[|ids| - 1], ids[..|ids| - 1];
      assert ids == rest + [last];
      var others := if last in rest then found else found - {last};
      forall i | i in others ensures i in rest {
        assert i in ids;
      }
      DistinctCount(rest, others);
      if last in rest {
        var k :| 0 <= k < |rest| && rest[k] == last;
        assert ids[k] == ids[|ids| - 1];
        assert !Distinct(ids);
      } else if Distinct(rest) {
        assert Distinct(ids);
      } else {
        var i, j :| 0 <= i < j < |rest| && rest[i] == rest[j];
        assert ids[i] == ids[j];
      }
    }
  }

  /** The transaction commits exactly for a distinct list of present rows that covers every
      live row, when the new expiry and the trigger leave each listed row acceptable. */
  lemma CommitsIff(table: Table, ids: seq<Id>, clock: Clock, trigger: Row -> Row)
    ensures Expire(table, ids, clock, trigger).Committed? <==>
            && Distinct(ids) && (forall i :: i in ids ==> i in table)
            && (forall i :: i in table && i !in ids ==> !Live(table[i], clock.guard))
            && (forall i :: i in ids && i in table ==>
                  var after := trigger(table[i].(expires := clock.stamp(i) - 1));
                  after.expires > after.created && ReceiptOf(after) == ReceiptOf(table[i]))
  {
    DistinctCount(ids, Listed(table, ids));
    var after := Updated(table, ids, clock, trigger);
    assert forall i :: i in table && i in ids ==> after[i] == trigger(table[i].(expires := clock.stamp(i) - 1));
  }

  /** What a commit leaves: the same rows, only the listed ones changed and only in their
      expiry and update times, every listed row expired, and no live row at all. */
  lemma CommittedExpiresExactly(table: Table, ids: seq<Id>, clock: Clock, trigger: Row -> Row)
    requires clock.Monotone()
    requires forall row :: trigger(row).expires == row.expires
    requires Expire(table, ids, clock, trigger).Committed?
    ensures var result := Expire(table, ids, clock, trigger);
            && result.table.Keys == table.Keys
            && (forall i :: i in table ==> ReceiptOf(result.table[i]) == ReceiptOf(table[i]))
            && (forall i :: i in table && i !in ids ==> result.table[i] == table[i])
            && (forall i :: i in ids ==> i in table && result.table[i].expires == clock.stamp(i) - 1)
            && (forall i :: i in table ==> !Live(result.table[i], clock.finish))
            && result.count == |ids|
  {
    CommitsIff(table, ids, clock, trigger);
    var result := Expire(table, ids, clock, trigger);
    var expired := ListedExpired(result.table, ids, clock.finish);
    forall i | i in table
      ensures !Live(result.table[i], clock.finish) && (i in ids ==> result.table[i].expires == clock.stamp(i) - 1)
    {
      assert clock.stamp(i) <= clock.finish;
    }
    assert forall i :: i in ids ==> i in expired;
    DistinctCount(ids, expired);
  }

  // ----- the list handed to the transaction -----

  datatype Submission = Refused | Sent(ids: seq<Id>)

  datatype Parsed = NotUuid | Uuid(id: Id)

  /** The operator refuses an empty list, a repeated text and a text that is no UUID. */
  function Submit(texts: seq<string>, parse: string -> Parsed): Submission {
    if texts == [] || |set t | t in texts| != |texts| then Refused
    else if exists t :: t in texts && parse(t).NotUuid? then Refused
    else Sent(seq(|texts|, i requires 0 <= i < |texts| => var p := parse(texts[i]); if p.Uuid? then p.id else 0))
  }

  /** The operator's test compares texts and the transaction ids: were two spellings of one UUID
      ever listed, they would pass the test and never commit. */
  lemma SpellingsOfOneUuidRollBack(texts: seq<string>, parse: string -> Parsed, i: nat, j: nat,
                                   table: Table, clock: Clock, trigger: Row -> Row)
    requires i < j < |texts| && parse(texts[i]).Uuid? && parse(texts[i]) == parse(texts[j])
    requires Submit(texts, parse).Sent?
    ensures Expire(table, Submit(texts, parse).ids, clock, trigger) == RolledBack
  {
    var ids := Submit(texts, parse).ids;
    assert ids[i] == ids[j];
    DistinctCount(ids, Listed(table, ids));
  }

  /** The list is what was read: the live rows at a moment, each once. */
  ghost predicate ReadFrom(read: Table, at: Time, ids: seq<Id>) {
    Distinct(ids) && forall i :: i in ids <==> i in read && Live(read[i], at)
  }

  /** The update leaves a listed row as it was, with an expiry after its creation. */
  ghost predicate Acceptable(row: Row, stamp: Time, trigger: Row -> Row) {
    var after := trigger(row.(expires := stamp - 1));
    after.expires > after.created && ReceiptOf(after) == ReceiptOf(row)
  }

  function Spelled(ids: seq<Id>, spell: Id -> string): (r: seq<string>)
    ensures |r| == |ids| && forall k :: 0 <= k < |r| ==> r[k] == spell(ids[k])
  {
    seq(|ids|, k requires 0 <= k < |ids| => spell(ids[k]))
  }

  /** A list read from the table passes the operator's test as it is: the database prints each id
      in one way, which parses back. */
  lemma ReadListIsSent(read: Table, at: Time, ids: seq<Id>, spell: Id -> string, parse: string -> Parsed)
    requires ReadFrom(read, at, ids) && ids != [] && forall i :: parse(spell(i)) == Uuid(i)
    ensures Submit(Spelled(ids, spell), parse) == Sent(ids)
  {
    var texts := Spelled(ids, spell);
    forall j, k | 0 <= j < k < |texts| ensures texts[j] != texts[k] {
      assert parse(spell(ids[j])) == Uuid(ids[j]) && parse(spell(ids[k])) == Uuid(ids[k]);
    }
    DistinctTexts(texts);
    forall t | t in texts ensures parse(t).Uuid? {
      var k :| 0 <= k < |texts| && texts[k] == t;
      assert parse(spell(ids[k])) == Uuid(ids[k]);
    }
    assert forall k :: 0 <= k < |ids| ==> parse(texts[k]) == Uuid(ids[k]);
    assert Submit(texts, parse).ids == ids;
  }

  lemma {:induction false} DistinctTexts(texts: seq<string>)
    requires forall j, k :: 0 <= j < k < |texts| ==> texts[j] != texts[k]
    ensures |set t | t in texts| == |texts|
  {
    if texts != [] {
      var last, rest := texts[|texts| - 1], texts[..|texts| - 1];
      DistinctTexts(rest);
      assert (set t | t in texts) == (set t | t in rest) + {last};
    }
  }

  /** Such a list commits exactly if, since it was read, no listed row is gone and no other row is
      live, and the update leaves the listed rows acceptable. On an unchanged table only the last
      matters, however much later the transaction runs. */
  lemma ReadListCommitsIff(read: Table, at: Time, ids: seq<Id>, table: Table, clock: Clock, trigger: Row -> Row)
    requires ReadFrom(read, at, ids) && at <= clock.guard
    ensures Expire(table, ids, clock, trigger).Committed? <==>
              && (forall i :: i in ids ==> i in table)
              && (forall i :: i in table && Live(table[i], clock.guard) ==> i in ids)
              && (forall i :: i in ids && i in table ==> Acceptable(table[i], clock.stamp(i), trigger))
    ensures Expire(read, ids, clock, trigger).Committed? <==>
              forall i :: i in ids && i in read ==> Acceptable(read[i], clock.stamp(i), trigger)
  {
    CommitsIff(table, ids, clock, trigger);
    CommitsIff(read, ids, clock, trigger);
  }
}
