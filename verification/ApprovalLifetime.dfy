/** frontend/src/api.ts: how long a key awaiting approval stays the same stored entry, told from a
    form's attempts. */
module ApprovalLifetime {
  import opened Wrappers
  import opened ApprovalRetries
  import opened Mutation

  /** The attempt empties the store. */
  predicate Empties(t: Try) {
    t.stored && Clears(t)
  }

  /** The attempt saves a key of another hash. */
  predicate SavesOther(t: Try, hash: string, digest: Digest) {
    digest(t.signature) != hash && Saves(t, digest(t.signature), digest)
  }

  /** The attempt forgets the key of the hash. */
  predicate Forgets(t: Try, hash: string, digest: Digest) {
    t.stored && Definitive(t.outcome) && digest(t.signature) == hash
  }

  /** Saves of other hashes after the i-th attempt and before the k-th. */
  function OthersSaved(tries: seq<Try>, i: nat, k: nat, hash: string, digest: Digest): nat
    requires k <= |tries|
  {
    if k <= i + 1 then 0
    else OthersSaved(tries, i, k - 1, hash, digest) + if SavesOther(tries[k - 1], hash, digest) then 1 else 0
  }

  /** No attempt after the i-th, up to and including the k-th, empties the store. */
  ghost predicate NeverEmptied(tries: seq<Try>, i: nat, k: nat) {
    forall j :: i < j <= k && j < |tries| ==> !Empties(tries[j])
  }

  ghost predicate Offered(form: Form, tries: seq<Try>, m: nat, hash: string, digest: Digest)
    requires m < |tries|
  {
    StillOffered(Run(form, tries[..m], digest), tries[m], hash)
  }

  /** The i-th attempt is the first save of a key under the hash and the k-th a later one, with no
      definitive outcome and fewer than 100 saves of other signatures between them. */
  ghost predicate Lifetime(form: Form, tries: seq<Try>, i: nat, k: nat, hash: string, digest: Digest) {
    && RealKeys(form, tries) && IsHash(hash) && i < k < |tries|
    && Saves(tries[i], hash, digest) && !Offered(form, tries, i, hash, digest)
    && Saves(tries[k], hash, digest)
    && (forall j :: i < j < k ==> !Forgets(tries[j], hash, digest))
    && OthersSaved(tries, i, k, hash, digest) < CAPACITY
  }

  /** Attempts are settled one after the other. */
  ghost predicate InOrder(tries: seq<Try>) {
    && (forall j :: 0 <= j < |tries| ==> 0 <= tries[j].settledAt)
    && forall a, b :: 0 <= a <= b < |tries| ==> tries[a].settledAt <= tries[b].settledAt
  }

  // ----- one attempt -----

  lemma StandingStep(form: Form, t: Try, hash: string, deadline: Time, newer: nat, digest: Digest)
    requires IsKey(t.drawn) && RealPending(form) && IsHash(hash)
    requires Stands(form.store, hash, deadline, newer) && 0 <= t.settledAt < deadline <= t.settledAt + WINDOW
    requires !Empties(t) && !Forgets(t, hash, digest)
    requires (if SavesOther(t, hash, digest) then newer + 1 else newer) < CAPACITY
    ensures Stands(After(form, t, digest).store, hash, deadline, if SavesOther(t, hash, digest) then newer + 1 else newer)
  {
    KeyIsReal(form, t, digest);
    var key, own := KeyOf(form, t, digest), digest(t.signature);
    hide KeyOf, RealPending, IsKey, IsHash, Saved, Stands, Clears;
    if t.stored && Definitive(t.outcome) {
      SavedStands(form.store, own, None, t.settledAt, hash, deadline, newer);
    } else if Saves(t, own, digest) {
      SavedStands(form.store, own, Some(key), t.settledAt, hash, deadline, newer);
    } else {
      NothingSaved(form, t, digest);
    }
    hide Definitive;
  }

  lemma NothingSaved(form: Form, t: Try, digest: Digest)
    requires !Empties(t) && !(t.stored && Definitive(t.outcome)) && !Saves(t, digest(t.signature), digest)
    ensures After(form, t, digest).store == form.store
  {
    hide KeyOf, Definitive, Clears;
  }

  lemma AbsentStep(form: Form, t: Try, hash: string, digest: Digest)
    requires !Saves(t, hash, digest) && hash != ""
    requires Empties(t) || Absent(form.store, hash)
    ensures Absent(After(form, t, digest).store, hash)
  {
    var store := if Empties(t) then [] else form.store;
    assert Absent(store, hash);
    hide Clears, Absent, Saved, KeyOf;
    AbsentStays(store, digest(t.signature), None, t.settledAt, hash);
    if digest(t.signature) != hash {
      AbsentStays(store, digest(t.signature), Some(KeyOf(form, t, digest)), t.settledAt, hash);
    }
    hide Definitive;
  }

  // ----- along the run -----

  /** The i-th attempt is the first save of a key under the hash; no attempt after it and before the
      k-th empties the store, forgets the key or comes after its window, and fewer than 100 of them
      save keys of other signatures. */
  ghost predicate Tracked(form: Form, tries: seq<Try>, i: nat, k: nat, hash: string, digest: Digest) {
    && RealKeys(form, tries) && IsHash(hash) && i < k <= |tries|
    && Saves(tries[i], hash, digest) && !Offered(form, tries, i, hash, digest)
    && (forall j :: i < j < k ==>
          !Empties(tries[j]) && !Forgets(tries[j], hash, digest) && tries[j].settledAt < tries[i].settledAt + WINDOW)
    && OthersSaved(tries, i, k, hash, digest) < CAPACITY
  }

  lemma {:induction false} StandsAlong(form: Form, tries: seq<Try>, i: nat, m: nat, k: nat, hash: string, digest: Digest)
    requires Tracked(form, tries, i, k, hash, digest) && InOrder(tries) && i < m <= k
    ensures OthersSaved(tries, i, m, hash, digest) <= OthersSaved(tries, i, k, hash, digest)
    ensures Stands(Run(form, tries[..m], digest).store, hash, tries[i].settledAt + WINDOW, OthersSaved(tries, i, m, hash, digest))
    decreases m
  {
    hide Stands, IsKey, IsHash, RealPending, Saves, Empties, Forgets, SavesOther, After;
    OthersGrow(tries, i, m, k, hash, digest);
    var j := m - 1;
    assert tries[..m][..j] == tries[..j] && IsKey(tries[j].drawn);
    PendingReal(form, tries[..j], digest);
    if j == i {
      FirstStands(form, tries, i, hash, digest);
    } else {
      StandsAlong(form, tries, i, j, k, hash, digest);
      StandingStep(Run(form, tries[..j], digest), tries[j], hash, tries[i].settledAt + WINDOW,
                   OthersSaved(tries, i, j, hash, digest), digest);
    }
  }

  lemma {:induction false} FirstStands(form: Form, tries: seq<Try>, i: nat, hash: string, digest: Digest)
    requires RealKeys(form, tries) && i < |tries| && Saves(tries[i], hash, digest) && !Offered(form, tries, i, hash, digest)
    requires 0 <= tries[i].settledAt
    ensures Stands(Run(form, tries[..i + 1], digest).store, hash, tries[i].settledAt + WINDOW, 0)
  {
    hide Run, RealKeys, IsKey, RealPending, Stands, Saves, StillOffered, After;
    RunStep(form, tries, i, digest);
    var before, after := Run(form, tries[..i], digest), Run(form, tries[..i + 1], digest);
    hide Offered;
    assert !StillOffered(before, tries[i], hash) by { NotOffered(form, tries, i, hash, digest); }
    FirstStep(before, tries[i], hash, digest);
    assert after == After(before, tries[i], digest);
  }

  lemma NotOffered(form: Form, tries: seq<Try>, i: nat, hash: string, digest: Digest)
    requires i < |tries| && !Offered(form, tries, i, hash, digest)
    ensures !StillOffered(Run(form, tries[..i], digest), tries[i], hash)
  {
  }

  lemma FirstStep(form: Form, t: Try, hash: string, digest: Digest)
    requires IsKey(t.drawn) && RealPending(form) && Saves(t, hash, digest) && !StillOffered(form, t, hash) && 0 <= t.settledAt
    ensures Stands(After(form, t, digest).store, hash, t.settledAt + WINDOW, 0)
  {
    KeyIsReal(form, t, digest);
    hide IsKey, RealPending, KeyOf, Retries, Saved, Stands, Clears;
    FirstSaveStands(if Clears(t) then [] else form.store, hash, KeyOf(form, t, digest), t.settledAt);
  }

  lemma {:induction false} OthersGrow(tries: seq<Try>, i: nat, m: nat, k: nat, hash: string, digest: Digest)
    requires m <= k <= |tries|
    ensures OthersSaved(tries, i, m, hash, digest) <= OthersSaved(tries, i, k, hash, digest)
  {
    hide SavesOther;
    if m < k { OthersGrow(tries, i, m, k - 1, hash, digest); }
  }

  lemma {:induction false} GoneAlong(form: Form, tries: seq<Try>, c: nat, m: nat, hash: string, digest: Digest)
    requires c < m <= |tries| && Empties(tries[c]) && hash != ""
    requires forall j :: c <= j < m ==> !Saves(tries[j], hash, digest)
    ensures Absent(Run(form, tries[..m], digest).store, hash)
    decreases m
  {
    hide Empties, Saves, After, Absent;
    var j := m - 1;
    assert tries[..m][..j] == tries[..j];
    if j > c { GoneAlong(form, tries, c, j, hash, digest); }
    AbsentStep(Run(form, tries[..j], digest), tries[j], hash, digest);
  }

  // ----- when the stored entry lasts -----

  /** After the store was emptied, the next save of the hash finds nothing. */
  lemma EmptiedNotOffered(form: Form, tries: seq<Try>, c: nat, k: nat, hash: string, digest: Digest) returns (m: nat)
    requires c <= k < |tries| && Empties(tries[c]) && Saves(tries[k], hash, digest)
    ensures c <= m <= k && Saves(tries[m], hash, digest) && !Offered(form, tries, m, hash, digest)
  {
    m := c;
    while !Saves(tries[m], hash, digest)
      invariant c <= m <= k && forall j :: c <= j < m ==> !Saves(tries[j], hash, digest)
      decreases k - m
    {
      m := m + 1;
    }
    if m > c {
      GoneAlong(form, tries, c, m, hash, digest);
      AbsentStays(Run(form, tries[..m], digest).store, hash, None, tries[m].settledAt, hash);
    }
    AbsentStays([], hash, None, tries[m].settledAt, hash);
    hide Run, Retries, Clears, Saves;
  }

  /** With fewer than 100 saves of other signatures in between, a key is still offered at every
      later save exactly if the store was not emptied since its first save and the last save
      comes before the first one's window ends. */
  lemma OfferedIff(form: Form, tries: seq<Try>, i: nat, k: nat, hash: string, digest: Digest)
    requires Lifetime(form, tries, i, k, hash, digest) && InOrder(tries)
    ensures (forall m :: i < m <= k && Saves(tries[m], hash, digest) ==> Offered(form, tries, m, hash, digest))
       <==> NeverEmptied(tries, i, k) && tries[k].settledAt < tries[i].settledAt + WINDOW
  {
    hide RealKeys, Saves, Offered, IsHash, Empties;
    if NeverEmptied(tries, i, k) && tries[k].settledAt < tries[i].settledAt + WINDOW {
      LifetimeTracked(form, tries, i, k, hash, digest);
      forall m | i < m <= k && Saves(tries[m], hash, digest) ensures Offered(form, tries, m, hash, digest) {
        StandsAlong(form, tries, i, m, k, hash, digest);
        StandingOffered(form, tries, i, m, k, hash, digest);
      }
    } else if !NeverEmptied(tries, i, k) {
      var c :| i < c <= k && Empties(tries[c]);
      var m := EmptiedNotOffered(form, tries, c, k, hash, digest);
    } else if forall m :: i < m <= k && Saves(tries[m], hash, digest) ==> Offered(form, tries, m, hash, digest) {
      LateNotOffered(form, tries, i, k, hash, digest);
    }
  }

  lemma LifetimeTracked(form: Form, tries: seq<Try>, i: nat, k: nat, hash: string, digest: Digest)
    requires Lifetime(form, tries, i, k, hash, digest) && InOrder(tries) && NeverEmptied(tries, i, k)
    requires tries[k].settledAt < tries[i].settledAt + WINDOW
    ensures Tracked(form, tries, i, k, hash, digest)
  {
    hide RealKeys, Saves, Offered, IsHash, Empties, Forgets, OthersSaved;
  }

  lemma StandingOffered(form: Form, tries: seq<Try>, i: nat, m: nat, k: nat, hash: string, digest: Digest)
    requires Lifetime(form, tries, i, k, hash, digest) && InOrder(tries) && NeverEmptied(tries, i, k)
    requires i < m <= k && tries[k].settledAt < tries[i].settledAt + WINDOW && Saves(tries[m], hash, digest)
    requires OthersSaved(tries, i, m, hash, digest) < CAPACITY
    requires Stands(Run(form, tries[..m], digest).store, hash, tries[i].settledAt + WINDOW, OthersSaved(tries, i, m, hash, digest))
    ensures Offered(form, tries, m, hash, digest)
  {
    hide Stands, IsHash, Run, Retries, RealKeys;
    var store, n := Run(form, tries[..m], digest).store, OthersSaved(tries, i, m, hash, digest);
    RetriesStand(store, hash, tries[i].settledAt + WINDOW, n, tries[m].settledAt);
    StandingFound(Retries(store, tries[m].settledAt), hash, tries[i].settledAt + WINDOW, n);
    assert !Empties(tries[m]);
    hide Clears;
  }

  lemma LateNotOffered(form: Form, tries: seq<Try>, i: nat, k: nat, hash: string, digest: Digest)
    requires Lifetime(form, tries, i, k, hash, digest) && InOrder(tries)
    requires forall m :: i < m < k && Saves(tries[m], hash, digest) ==> Offered(form, tries, m, hash, digest)
    requires tries[i].settledAt + WINDOW <= tries[k].settledAt
    ensures !Offered(form, tries, k, hash, digest)
  {
    hide RealKeys, Run, Within, Saves, Clears;
    forall m | i < m < k ensures Keeps(form, tries, m, hash, tries[i].settledAt, digest) {
    }
    KeyDeadlineIff(form, tries, i, k, hash, digest);
    assert WithinAt(form, tries, k, hash, tries[i].settledAt, digest);
    var store := Run(form, tries[..k], digest).store;
    LateGone(store, hash, tries[i].settledAt + WINDOW, tries[k].settledAt);
    LateGone([], hash, tries[i].settledAt + WINDOW, tries[k].settledAt);
  }

  lemma LateGone(entries: seq<Entry>, hash: string, limit: Time, now: Time)
    requires (Within(entries, hash, limit) || entries == []) && limit <= now
    ensures Find(Retries(entries, now), hash).None?
  {
    RetriesKeep(entries, now);
    assert forall e :: e in Retries(entries, now) ==> e in entries && now < e.expiresAt.value;
    hide Retries;
  }

  /** So, when no other attempt settles in the very millisecond of the first save, the stored key
      keeps the window of its first save through the k-th attempt exactly if the store was not
      emptied since and that attempt comes within the window. */
  lemma KeyKeepsItsWindowIff(form: Form, tries: seq<Try>, i: nat, k: nat, hash: string, digest: Digest)
    requires Lifetime(form, tries, i, k, hash, digest) && InOrder(tries) && tries[i].settledAt < tries[i + 1].settledAt
    ensures (forall m :: i < m <= k + 1 ==> WithinAt(form, tries, m, hash, tries[i].settledAt, digest))
       <==> NeverEmptied(tries, i, k) && tries[k].settledAt < tries[i].settledAt + WINDOW
  {
    KeyDeadlineIff(form, tries, i, k + 1, hash, digest);
    OfferedIff(form, tries, i, k, hash, digest);
    hide Lifetime, WithinAt, NeverEmptied, Saves, StillOffered, Run;
    forall m | i < m <= k
      ensures Keeps(form, tries, m, hash, tries[i].settledAt, digest) <==>
                (Saves(tries[m], hash, digest) ==> Offered(form, tries, m, hash, digest))
    {
      assert tries[i + 1].settledAt <= tries[m].settledAt;
    }
    hide Keeps, Offered;
  }

  // ----- the key after a reload -----

  /** Every stored entry of the hash holds this key. */
  ghost predicate HoldsOnly(entries: seq<Entry>, hash: string, key: string) {
    forall e :: e in entries && e.hash == hash ==> e.key == key
  }

  lemma SavedHolds(entries: seq<Entry>, own: string, saved: Option<string>, now: Time, hash: string, key: string)
    requires HoldsOnly(entries, hash, key) && (own == hash ==> saved == Some(key))
    ensures HoldsOnly(Saved(entries, own, saved, now), hash, key)
  {
    RetriesKeep(entries, now);
    var retries := Retries(entries, now);
    hide Retries, Deadline;
    if own != "" && saved.Some? && saved.value != "" {
      var e := Entry(own, saved.value, Some(Deadline(retries, own, now)));
      AssignMembers(retries, e);
      NewestKeeps(Assign(retries, e));
    } else if own != "" {
      RemoveMembers(retries, own);
      NewestKeeps(Remove(retries, own));
    }
    hide Assign, Remove, Newest;
  }

  lemma FirstSaveHolds(entries: seq<Entry>, hash: string, key: string, now: Time)
    requires Find(Retries(entries, now), hash).None? && hash != "" && key != ""
    ensures HoldsOnly(Saved(entries, hash, Some(key), now), hash, key)
  {
    var retries := Retries(entries, now);
    var e := Entry(hash, key, Some(Deadline(retries, hash, now)));
    hide Retries;
    AssignMembers(retries, e);
    NewestKeeps(Assign(retries, e));
    hide Assign, Newest, Deadline;
  }

  lemma HoldsStep(form: Form, t: Try, hash: string, key: string, digest: Digest)
    requires HoldsOnly(form.store, hash, key) && hash != "" && !Forgets(t, hash, digest)
    requires Saves(t, hash, digest) ==> KeyOf(form, t, digest) == key
    ensures HoldsOnly(After(form, t, digest).store, hash, key)
  {
    var store, own := if Empties(t) then [] else form.store, digest(t.signature);
    assert HoldsOnly(store, hash, key);
    hide HoldsOnly, Saved, KeyOf;
    if t.stored && Definitive(t.outcome) {
      SavedHolds(store, own, None, t.settledAt, hash, key);
    } else if Saves(t, own, digest) {
      SavedHolds(store, own, Some(KeyOf(form, t, digest)), t.settledAt, hash, key);
    } else {
      StoreUnsaved(form, t, digest);
    }
    hide Definitive, Clears;
  }

  lemma StoreUnsaved(form: Form, t: Try, digest: Digest)
    requires !(t.stored && Definitive(t.outcome)) && !Saves(t, digest(t.signature), digest)
    ensures After(form, t, digest).store == if Empties(t) then [] else form.store
  {
    hide KeyOf, Definitive, Clears;
  }

  lemma {:induction false} HoldsAlong(form: Form, tries: seq<Try>, i: nat, m: nat, hash: string, digest: Digest)
    requires RealKeys(form, tries) && Injective(digest) && i < m <= |tries|
    requires Saves(tries[i], hash, digest) && !Offered(form, tries, i, hash, digest)
    requires Undecided(tries, tries[i].signature, i, m)
    requires forall j :: i < j < m ==> !Forgets(tries[j], hash, digest)
    ensures HoldsOnly(Run(form, tries[..m], digest).store, hash, KeyAt(form, tries, i, digest))
    decreases m
  {
    hide HoldsOnly, IsKey, RealPending, After, Forgets;
    var j, key := m - 1, KeyAt(form, tries, i, digest);
    assert tries[..m][..j] == tries[..j];
    if j == i {
      FirstHolds(form, tries, i, hash, digest);
    } else {
      HoldsAlong(form, tries, i, j, hash, digest);
      if Saves(tries[j], hash, digest) { SameKeyUntilDecided(form, tries, i, j, digest); }
      HoldsStep(Run(form, tries[..j], digest), tries[j], hash, key, digest);
    }
  }

  lemma {:induction false} FirstHolds(form: Form, tries: seq<Try>, i: nat, hash: string, digest: Digest)
    requires RealKeys(form, tries) && i < |tries| && Saves(tries[i], hash, digest) && !Offered(form, tries, i, hash, digest)
    ensures HoldsOnly(Run(form, tries[..i + 1], digest).store, hash, KeyAt(form, tries, i, digest))
  {
    RunStep(form, tries, i, digest);
    hide Run, RealKeys, IsKey, RealPending, HoldsOnly, Saves, StillOffered, After, KeyOf;
    FirstHoldsStep(Run(form, tries[..i], digest), tries[i], hash, digest);
  }

  lemma FirstHoldsStep(form: Form, t: Try, hash: string, digest: Digest)
    requires IsKey(t.drawn) && RealPending(form) && Saves(t, hash, digest) && !StillOffered(form, t, hash)
    ensures HoldsOnly(After(form, t, digest).store, hash, KeyOf(form, t, digest))
  {
    KeyIsReal(form, t, digest);
    hide IsKey, RealPending, KeyOf, Retries, Saved, HoldsOnly, Clears;
    FirstSaveHolds(if Clears(t) then [] else form.store, hash, KeyOf(form, t, digest), t.settledAt);
  }

  /** A form opened anew over the store that a run has left, as after a reload, sends the key the run
      saved exactly if it does so before that key's window ends; later it draws a new one. */
  lemma FreshFormUsesKeyIff(form: Form, tries: seq<Try>, i: nat, k: nat, t: Try, hash: string, digest: Digest)
    requires Tracked(form, tries, i, k, hash, digest) && InOrder(tries) && Injective(digest)
    requires Undecided(tries, tries[i].signature, i, k)
    requires t.signature == tries[i].signature && t.stored && tries[i].settledAt <= t.sentAt
    ensures var key := KeyOf(Form(map[], Run(form, tries[..k], digest).store), t, digest);
            key == if t.sentAt < tries[i].settledAt + WINDOW then KeyAt(form, tries, i, digest) else t.drawn
  {
    var store, deadline := Run(form, tries[..k], digest).store, tries[i].settledAt + WINDOW;
    assert digest(t.signature) == hash;
    HoldsAlong(form, tries, i, k, hash, digest);
    StandsAlong(form, tries, i, k, k, hash, digest);
    hide Run, Undecided, Injective, RealKeys, Saves, Offered;
    if t.sentAt < deadline {
      RetriesStand(store, hash, deadline, OthersSaved(tries, i, k, hash, digest), t.sentAt);
      StandingFound(Retries(store, t.sentAt), hash, deadline, OthersSaved(tries, i, k, hash, digest));
      RetriesKeep(store, t.sentAt);
    } else {
      StandingEnds(store, hash, deadline, OthersSaved(tries, i, k, hash, digest), t.sentAt);
    }
    hide Tracked, Retries, Stands, KeyAt;
  }

  lemma StandingEnds(store: seq<Entry>, hash: string, deadline: Time, newer: nat, now: Time)
    requires Stands(store, hash, deadline, newer) && deadline <= now
    ensures Find(Retries(store, now), hash).None?
  {
    var p: nat :| StandsAt(store, p, hash, deadline) && |store| - 1 - p <= newer;
    assert Within(store, hash, deadline);
    LateGone(store, hash, deadline, now);
  }
}
