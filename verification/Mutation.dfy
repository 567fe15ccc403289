/** frontend/src/api.ts, mutation: one form's idempotency keys over its submissions. */
module Mutation {
  import opened Wrappers
  import opened ApprovalRetries

  /** How a submission ended: accepted, refused with a status and code, or 0 for no answer. */
  datatype Outcome = Succeeded | Refused(status: nat, code: string)

  /** One submission. `drawn` is the random key drawn if none is known; `stored` says whether
      session storage works during it. */
  datatype Try = Try(signature: string, drawn: string, sentAt: Time, settledAt: Time,
                     stored: bool, loggedOut: bool, outcome: Outcome)

  datatype Form = Form(pending: map<string, string>, store: seq<Entry>)

  /** The digest of a signature, or "" when none can be computed. */
  type Digest = string -> string

  /** The outcomes after which a key is never used again. */
  predicate Definitive(o: Outcome) {
    match o
    case Succeeded => true
    case Refused(status, code) =>
      400 <= status < 500 && status !in {408, 425, 429} && code != "approval_required" && !("idempotency_" <= code)
  }

  /** The request itself empties the store on an accepted logout and on an ended session. */
  predicate Clears(t: Try) {
    t.loggedOut || (t.outcome.Refused? && t.outcome.status == 401 && t.outcome.code in {"session_expired", "sign_in_required"})
  }

  function KeyOf(form: Form, t: Try, digest: Digest): string {
    if t.signature in form.pending && form.pending[t.signature] != "" then form.pending[t.signature]
    else
      var found := if t.stored then Find(Retries(form.store, t.sentAt), digest(t.signature)) else None;
      if found.Some? then found.value.key else t.drawn
  }

  /** What the outcome saves: the key while approval is awaited, nothing after a definitive end. */
  function Settle(form: Form, t: Try, key: string, digest: Digest): Form {
    var hash := digest(t.signature);
    var store := if t.stored && Clears(t) then [] else form.store;
    var pending := form.pending[t.signature := key];
    if Definitive(t.outcome) then
      Form(pending - {t.signature}, if t.stored then Saved(store, hash, None, t.settledAt) else store)
    else if t.outcome.Refused? && t.outcome.code == "approval_required" then
      Form(pending, if t.stored then Saved(store, hash, Some(key), t.settledAt) else store)
    else Form(pending, store)
  }

  function After(form: Form, t: Try, digest: Digest): Form {
    Settle(form, t, KeyOf(form, t, digest), digest)
  }

  function Run(form: Form, tries: seq<Try>, digest: Digest): Form
    decreases |tries|
  {
    if tries == [] then form else After(Run(form, tries[..|tries| - 1], digest), tries[|tries| - 1], digest)
  }

  /** The key the i-th submission carries. */
  function KeyAt(form: Form, tries: seq<Try>, i: nat, digest: Digest): string
    requires i < |tries|
  {
    KeyOf(Run(form, tries[..i], digest), tries[i], digest)
  }

  // ----- one signature, one key until a definitive outcome -----

  /** No definitive outcome of this signature from i up to but not including j. */
  ghost predicate Undecided(tries: seq<Try>, signature: string, i: nat, j: nat) {
    forall k :: i <= k < j && k < |tries| && tries[k].signature == signature ==> !Definitive(tries[k].outcome)
  }

  ghost predicate RealPending(form: Form) {
    forall s :: s in form.pending ==> form.pending[s] != "" && IsKey(form.pending[s])
  }

  ghost predicate RealKeys(form: Form, tries: seq<Try>) {
    (forall i :: 0 <= i < |tries| ==> IsKey(tries[i].drawn)) && RealPending(form)
  }

  lemma KeyIsReal(form: Form, t: Try, digest: Digest)
    requires IsKey(t.drawn) && RealPending(form)
    ensures KeyOf(form, t, digest) != "" && IsKey(KeyOf(form, t, digest)) && RealPending(After(form, t, digest))
  {
    RetriesKeep(form.store, t.sentAt);
  }

  lemma {:induction false} PendingReal(form: Form, tries: seq<Try>, digest: Digest)
    requires RealKeys(form, tries)
    ensures RealPending(Run(form, tries, digest))
    decreases |tries|
  {
    hide RealPending, After, IsKey;
    if tries != [] {
      var k := |tries| - 1;
      assert IsKey(tries[k].drawn);
      PendingReal(form, tries[..k], digest);
      KeyIsReal(Run(form, tries[..k], digest), tries[k], digest);
    }
  }

  /** One attempt of a run, on a form that holds only real keys. */
  lemma RunStep(form: Form, tries: seq<Try>, i: nat, digest: Digest)
    requires RealKeys(form, tries) && i < |tries|
    ensures Run(form, tries[..i + 1], digest) == After(Run(form, tries[..i], digest), tries[i], digest)
    ensures RealPending(Run(form, tries[..i], digest)) && IsKey(tries[i].drawn)
  {
    assert tries[..i + 1][..i] == tries[..i];
    hide IsKey, RealPending, After;
    PendingReal(form, tries[..i], digest);
  }

  lemma {:induction false} StaysPending(form: Form, tries: seq<Try>, i: nat, j: nat, digest: Digest)
    requires RealKeys(form, tries) && i < j <= |tries| && Undecided(tries, tries[i].signature, i, j)
    ensures var f := Run(form, tries[..j], digest);
            tries[i].signature in f.pending && f.pending[tries[i].signature] == KeyAt(form, tries, i, digest)
    decreases j
  {
    hide IsKey, KeyOf, Settle, Definitive;
    var k := j - 1;
    assert tries[..j][..k] == tries[..k];
    var f := Run(form, tries[..k], digest);
    if i < k {
      StaysPending(form, tries, i, k, digest);
      PendingReal(form, tries[..k], digest);
    }
    PendingStep(f, tries[k], tries[i].signature, digest);
    hide Run;
  }

  /** An attempt that does not decide a signature leaves it pending, with the key it used. */
  lemma PendingStep(form: Form, t: Try, signature: string, digest: Digest)
    ensures t.signature == signature && !Definitive(t.outcome) ==>
              var r := After(form, t, digest).pending; signature in r && r[signature] == KeyOf(form, t, digest)
    ensures t.signature != signature && signature in form.pending ==>
              var r := After(form, t, digest).pending; signature in r && r[signature] == form.pending[signature]
    ensures signature in form.pending && form.pending[signature] != "" && t.signature == signature ==>
              KeyOf(form, t, digest) == form.pending[signature]
  {
    hide Saved, Definitive;
  }

  /** Two submissions of one signature carry the same key unless a definitive outcome of that
      signature lies between them. */
  lemma SameKeyUntilDecided(form: Form, tries: seq<Try>, i: nat, j: nat, digest: Digest)
    requires RealKeys(form, tries) && i < j < |tries| && tries[i].signature == tries[j].signature
    ensures Undecided(tries, tries[i].signature, i, j) ==>
              KeyAt(form, tries, i, digest) == KeyAt(form, tries, j, digest)
    ensures KeyAt(form, tries, i, digest) != KeyAt(form, tries, j, digest) ==>
              exists k :: i <= k < j && tries[k].signature == tries[i].signature && Definitive(tries[k].outcome)
  {
    if Undecided(tries, tries[i].signature, i, j) {
      StaysPending(form, tries, i, j, digest);
      PendingReal(form, tries[..j], digest);
    }
  }

  // ----- different signatures, different keys -----

  ghost predicate Injective(digest: Digest) {
    forall a, b :: digest(a) == digest(b) && digest(a) != "" ==> a == b
  }

  /** Keys that were around before the n-th submission: stored ones and all drawn so far. */
  ghost function Known(store: seq<Entry>, tries: seq<Try>, n: nat): set<string>
    requires n <= |tries|
  {
    (set e | e in store :: e.key) + (set k | 0 <= k < n :: tries[k].drawn)
  }

  /** Drawn keys are new, as random UUIDs are. */
  ghost predicate DrawsAnew(store: seq<Entry>, tries: seq<Try>) {
    forall i :: 0 <= i < |tries| ==> IsKey(tries[i].drawn) && tries[i].drawn !in Known(store, tries, i)
  }

  /** Each key belongs to one signature: `owner` records whose it is once it was used. */
  ghost predicate Owned(form: Form, owner: map<string, string>, digest: Digest) {
    && (forall s :: s in form.pending ==> form.pending[s] in owner && owner[form.pending[s]] == s && form.pending[s] != "")
    && (forall e :: e in form.store && e.key in owner ==> digest(owner[e.key]) == e.hash)
    && Tidy(form.store)
  }

  /** All keys in play come from the known ones. */
  ghost predicate From(form: Form, owner: map<string, string>, known: set<string>) {
    owner.Keys <= known && forall e :: e in form.store ==> e.key in known
  }

  /** The key of a submission is its signature's own: nobody else's in the ledger or the store. */
  lemma KeyIsOwn(form: Form, t: Try, owner: map<string, string>, digest: Digest, known: set<string>)
    requires Injective(digest) && Owned(form, owner, digest) && From(form, owner, known)
    requires IsKey(t.drawn) && t.drawn !in known
    ensures var key := KeyOf(form, t, digest);
            && key != "" && (key in owner ==> owner[key] == t.signature)
            && (forall e :: e in form.store && e.key == key ==> e.hash == digest(t.signature))
            && key in known + {t.drawn}
  {
    RetriesKeep(form.store, t.sentAt);
    var key := KeyOf(form, t, digest);
    var found := Find(Retries(form.store, t.sentAt), digest(t.signature));
    if t.signature in form.pending {
    } else if t.stored && found.Some? {
      var entry := found.value;
      assert entry in form.store && entry.hash != "";
      forall e | e in form.store && e.key == key ensures e == entry {
        SameKeySameEntry(form.store, e, entry);
      }
    } else {
      assert forall e :: e in form.store ==> e.key != t.drawn;
    }
  }

  lemma SameKeySameEntry(store: seq<Entry>, a: Entry, b: Entry)
    requires Tidy(store) && a in store && b in store
    ensures a.key == b.key ==> a == b
  {
    if a != b {
      assert Apart(a, b) || Apart(b, a);
    }
  }

  lemma SavedOwned(store: seq<Entry>, hash: string, key: Option<string>, now: Time)
    requires Tidy(store) && 0 <= now && (key.Some? ==> key.value != "")
    requires key.Some? ==> forall e :: e in store && e.key == key.value ==> e.hash == hash
    ensures var r := Saved(store, hash, key, now);
            && Tidy(r)
            && forall e :: e in r ==> e in store || (key.Some? && e.hash == hash && e.key == key.value)
  {
    if hash != "" {
      RetriesKeep(store, now);
      var retries := Retries(store, now);
      if key.Some? {
        AssignTidy(retries, hash, key.value, now);
        NewestKeeps(Assign(retries, Entry(hash, key.value, Some(Deadline(retries, hash, now)))));
      } else {
        RemoveTidy(retries, hash);
        NewestKeeps(Remove(retries, hash));
      }
    }
  }

  /** The store after an outcome holds nothing new but the key of that submission. */
  lemma SettleStore(form: Form, t: Try, key: string, digest: Digest)
    requires Tidy(form.store) && 0 <= t.settledAt && key != ""
    requires forall e :: e in form.store && e.key == key ==> e.hash == digest(t.signature)
    ensures var r := Settle(form, t, key, digest).store;
            Tidy(r) && forall e :: e in r ==> e in form.store || (e.hash == digest(t.signature) && e.key == key)
  {
    hide Saved, Definitive, Clears, Settle;
    var store := if t.stored && Clears(t) then [] else form.store;
    assert Tidy(store) && forall e :: e in store ==> e in form.store;
    hide Tidy;
    SavedOwned(store, digest(t.signature), None, t.settledAt);
    SavedOwned(store, digest(t.signature), Some(key), t.settledAt);
    SettleIs(form, t, key, digest);
  }

  lemma SettleIs(form: Form, t: Try, key: string, digest: Digest)
    ensures var store, r := if t.stored && Clears(t) then [] else form.store, Settle(form, t, key, digest).store;
            || r == store || r == Saved(store, digest(t.signature), None, t.settledAt)
            || r == Saved(store, digest(t.signature), Some(key), t.settledAt)
  {
    hide Saved, Definitive, Clears;
  }

  lemma SettleOwned(form: Form, t: Try, key: string, owner: map<string, string>, digest: Digest, known: set<string>)
    requires Owned(form, owner, digest) && From(form, owner, known) && 0 <= t.settledAt
    requires key != "" && (key in owner ==> owner[key] == t.signature)
    requires forall e :: e in form.store && e.key == key ==> e.hash == digest(t.signature)
    ensures var more := owner[key := t.signature];
            Owned(Settle(form, t, key, digest), more, digest) && From(Settle(form, t, key, digest), more, known + {key})
  {
    SettleStore(form, t, key, digest);
    SettlePending(form, t, key, digest);
    hide Settle, Tidy;
  }

  lemma SettlePending(form: Form, t: Try, key: string, digest: Digest)
    ensures var r := Settle(form, t, key, digest).pending;
            forall s :: s in r ==> (s == t.signature && r[s] == key) || (s in form.pending && r[s] == form.pending[s])
  {
    hide Definitive, Saved;
  }

  /** Whose each key is after the first n submissions. */
  ghost function Owner(form: Form, tries: seq<Try>, n: nat, digest: Digest): map<string, string>
    requires n <= |tries|
  {
    if n == 0 then map[] else Owner(form, tries, n - 1, digest)[KeyAt(form, tries, n - 1, digest) := tries[n - 1].signature]
  }

  lemma StepOwned(form: Form, t: Try, owner: map<string, string>, digest: Digest, known: set<string>)
    requires Injective(digest) && Owned(form, owner, digest) && From(form, owner, known)
    requires IsKey(t.drawn) && t.drawn !in known && 0 <= t.settledAt
    ensures var key := KeyOf(form, t, digest); var more := owner[key := t.signature];
            && Owned(After(form, t, digest), more, digest) && From(After(form, t, digest), more, known + {t.drawn})
            && (key in owner ==> owner[key] == t.signature)
  {
    hide KeyOf, Settle;
    KeyIsOwn(form, t, owner, digest, known);
    var key := KeyOf(form, t, digest);
    assert key in known + {t.drawn};
    SettleOwned(form, t, key, owner, digest, known);
    FromMore(After(form, t, digest), owner[key := t.signature], known + {key}, known + {t.drawn});
  }

  ghost predicate Start(form: Form, tries: seq<Try>, digest: Digest) {
    && Injective(digest) && form.pending == map[] && Tidy(form.store) && DrawsAnew(form.store, tries)
    && forall i :: 0 <= i < |tries| ==> 0 <= tries[i].settledAt
  }

  /** After n submissions every key has one owner. */
  ghost predicate Sound(form: Form, tries: seq<Try>, n: nat, digest: Digest)
    requires n <= |tries|
  {
    var f, owner := Run(form, tries[..n], digest), Owner(form, tries, n, digest);
    Owned(f, owner, digest) && From(f, owner, Known(form.store, tries, n)) && Ledger(form, tries, n, digest)
  }

  lemma {:induction false} RunOwned(form: Form, tries: seq<Try>, n: nat, digest: Digest)
    requires Start(form, tries, digest) && n <= |tries|
    ensures Sound(form, tries, n, digest)
  {
    if n == 0 {
      assert tries[..0] == [];
    } else {
      RunOwned(form, tries, n - 1, digest);
      SoundStep(form, tries, n - 1, digest);
    }
  }

  lemma SoundStep(form: Form, tries: seq<Try>, n: nat, digest: Digest)
    requires Start(form, tries, digest) && n < |tries| && Sound(form, tries, n, digest)
    ensures Sound(form, tries, n + 1, digest)
  {
    var f, owner, known := Run(form, tries[..n], digest), Owner(form, tries, n, digest), Known(form.store, tries, n);
    var t := tries[n];
    assert tries[..n + 1][..n] == tries[..n];
    assert Run(form, tries[..n + 1], digest) == After(f, t, digest) && KeyAt(form, tries, n, digest) == KeyOf(f, t, digest);
    hide Owned, From, Known, IsKey, Ledger, KeyOf, KeyAt, After, Run, Tidy, DrawsAnew, Injective;
    KnownMore(form, tries, n, digest);
    StepOwned(f, t, owner, digest, known);
    MoreLedger(form, tries, n, digest);
  }

  lemma KnownMore(form: Form, tries: seq<Try>, n: nat, digest: Digest)
    requires Start(form, tries, digest) && n < |tries|
    ensures tries[n].drawn !in Known(form.store, tries, n) && IsKey(tries[n].drawn)
    ensures Known(form.store, tries, n) + {tries[n].drawn} == Known(form.store, tries, n + 1)
  {
    hide IsKey, Tidy;
  }

  /** The ledger knows the key of every submission so far. */
  ghost predicate Ledger(form: Form, tries: seq<Try>, n: nat, digest: Digest)
    requires n <= |tries|
  {
    var owner := Owner(form, tries, n, digest);
    forall i :: 0 <= i < n ==> var key := KeyAt(form, tries, i, digest); key in owner && owner[key] == tries[i].signature
  }

  lemma MoreLedger(form: Form, tries: seq<Try>, n: nat, digest: Digest)
    requires n < |tries| && Ledger(form, tries, n, digest)
    requires var owner := Owner(form, tries, n, digest); var key := KeyAt(form, tries, n, digest);
             key in owner ==> owner[key] == tries[n].signature
    ensures Ledger(form, tries, n + 1, digest)
  {
    hide KeyAt;
  }

  lemma FromMore(form: Form, owner: map<string, string>, less: set<string>, more: set<string>)
    requires From(form, owner, less) && less <= more
    ensures From(form, owner, more)
  {
  }

  /** Submissions of different signatures never carry the same key. */
  lemma DifferentSignaturesDifferentKeys(form: Form, tries: seq<Try>, i: nat, j: nat, digest: Digest)
    requires Start(form, tries, digest) && i < |tries| && j < |tries|
    ensures KeyAt(form, tries, i, digest) == KeyAt(form, tries, j, digest) ==> tries[i].signature == tries[j].signature
  {
    RunOwned(form, tries, |tries|, digest);
    hide KeyAt;
  }

  // ----- when a key is retired -----

  /** In every run of a form, a signature is pending exactly if it was attempted and none of its
      outcomes since has been definitive. */
  lemma {:induction false} PendingIff(form: Form, tries: seq<Try>, n: nat, signature: string, digest: Digest)
    requires form.pending == map[] && n <= |tries|
    ensures signature in Run(form, tries[..n], digest).pending <==>
              exists i :: 0 <= i < n && tries[i].signature == signature && Undecided(tries, signature, i, n)
    decreases n
  {
    if n == 0 {
      assert tries[..0] == [];
    } else {
      var k := n - 1;
      PendingIff(form, tries, k, signature, digest);
      assert tries[..n][..k] == tries[..k];
      PendingAfter(Run(form, tries[..k], digest), tries[k], signature, digest);
      hide Run, After, Definitive, Undecided;
      OpenStep(tries, k, signature);
    }
  }

  /** How one more attempt changes whether there is an undecided one. */
  lemma OpenStep(tries: seq<Try>, k: nat, signature: string)
    requires k < |tries|
    ensures (exists i :: 0 <= i < k + 1 && tries[i].signature == signature && Undecided(tries, signature, i, k + 1)) <==>
              if tries[k].signature == signature then !Definitive(tries[k].outcome)
              else exists i :: 0 <= i < k && tries[i].signature == signature && Undecided(tries, signature, i, k)
  {
    hide Definitive;
    if tries[k].signature == signature {
      assert !Definitive(tries[k].outcome) ==> Undecided(tries, signature, k, k + 1);
    } else {
      assert forall i :: 0 <= i < k ==> (Undecided(tries, signature, i, k + 1) <==> Undecided(tries, signature, i, k));
    }
  }

  lemma PendingAfter(form: Form, t: Try, signature: string, digest: Digest)
    ensures signature in After(form, t, digest).pending <==>
              if t.signature == signature then !Definitive(t.outcome) else signature in form.pending
  {
    hide Saved, Definitive, KeyOf;
  }

  /** After a definitive outcome, with storage working, the next submission of that signature
      draws a new key. */
  lemma RetiredDrawsAnew(form: Form, t: Try, next: Try, digest: Digest)
    requires Tidy(form.store) && 0 <= t.settledAt && t.stored
    requires Definitive(t.outcome) && next.signature == t.signature
    ensures KeyOf(After(form, t, digest), next, digest) == next.drawn
  {
    var hash := digest(t.signature);
    var store := if Clears(t) then [] else form.store;
    var after := After(form, t, digest);
    assert after.store == Saved(store, hash, None, t.settledAt);
    RetriesKeep(after.store, next.sentAt);
    if hash != "" {
      RetriesKeep(store, t.settledAt);
      RemoveTidy(Retries(store, t.settledAt), hash);
      NewestKeeps(Remove(Retries(store, t.settledAt), hash));
    }
  }

  /** Which refusals end a key: the client's own errors, but not a timeout, an early or a limited
      request, and never one that awaits approval or is about the key itself. */
  lemma DecidedStatuses(status: nat, rest: string)
    ensures Definitive(Refused(status, "validation")) <==> status / 100 == 4 && status != 408 && status != 425 && status != 429
    ensures !Definitive(Refused(status, "approval_required")) && !Definitive(Refused(status, "idempotency_" + rest))
  {
    assert "idempotency_"[0] != "validation"[0] && "approval_required"[0] != "validation"[0];
    assert ("idempotency_" + rest)[..12] == "idempotency_";
  }

  /** A logout that was accepted and an answer that the session has ended leave no stored key. */
  lemma EndedSessionEmpties(form: Form, t: Try, digest: Digest)
    requires t.stored
    requires (t.loggedOut && t.outcome == Succeeded) || t.outcome in {Refused(401, "session_expired"), Refused(401, "sign_in_required")}
    ensures After(form, t, digest).store == []
  {
    hide KeyOf;
    assert Retries([], t.settledAt) == [] && Remove([], digest(t.signature)) == [];
    assert Saved([], digest(t.signature), None, t.settledAt) == [];
    assert Definitive(t.outcome) && Clears(t) by { EndedSession(t); }
    hide Saved, Definitive, Clears;
  }

  lemma EndedSession(t: Try)
    requires (t.loggedOut && t.outcome == Succeeded) || t.outcome in {Refused(401, "session_expired"), Refused(401, "sign_in_required")}
    ensures Definitive(t.outcome) && Clears(t)
  {
    assert "idempotency_"[0] != "session_expired"[0] && "idempotency_"[0] != "sign_in_required"[0];
  }

  // ----- how long a saved key lives -----

  /** This submission saves its key under the hash. */
  predicate Saves(t: Try, hash: string, digest: Digest) {
    t.stored && t.outcome.Refused? && t.outcome.code == "approval_required" && digest(t.signature) == hash && hash != ""
  }

  /** Its entry is still offered when the outcome comes to be saved. */
  predicate StillOffered(form: Form, t: Try, hash: string) {
    Find(Retries(if Clears(t) then [] else form.store, t.settledAt), hash).Some?
  }

  lemma SaveStep(form: Form, t: Try, hash: string, limit: Time, digest: Digest)
    requires IsKey(t.drawn) && RealPending(form) && 0 <= t.settledAt && Within(form.store, hash, limit)
    ensures Saves(t, hash, digest) ==>
              (Within(After(form, t, digest).store, hash, limit) <==> StillOffered(form, t, hash) || t.settledAt + WINDOW <= limit)
    ensures !Saves(t, hash, digest) ==> Within(After(form, t, digest).store, hash, limit)
  {
    KeyIsReal(form, t, digest);
    var key, own := KeyOf(form, t, digest), digest(t.signature);
    var store := if t.stored && Clears(t) then [] else form.store;
    hide KeyOf, RealPending, IsKey, Saved, Retries, Clears;
    if Saves(t, hash, digest) {
      SavedWithinIff(store, hash, key, limit, t.settledAt);
    } else if own != "" {
      SavedWithin(store, own, None, t.settledAt, hash);
      SavedWithin(store, own, Some(key), t.settledAt, hash);
      assert Within(store, hash, limit);
    }
    hide Within;
  }

  /** A first save, and every other, leaves the key at most a window from that moment. */
  lemma SaveBegins(form: Form, t: Try, hash: string, digest: Digest)
    requires Saves(t, hash, digest) && 0 <= t.settledAt
    ensures Within(After(form, t, digest).store, hash, t.settledAt + WINDOW)
  {
    var store := if t.stored && Clears(t) then [] else form.store;
    SavedWithin(store, hash, Some(KeyOf(form, t, digest)), t.settledAt, hash);
    hide KeyOf, Saved, Within, Clears;
  }

  /** After the first m submissions the stored key of the hash expires within that moment's window. */
  ghost predicate WithinAt(form: Form, tries: seq<Try>, m: nat, hash: string, since: Time, digest: Digest)
    requires m <= |tries|
  {
    Within(Run(form, tries[..m], digest).store, hash, since + WINDOW)
  }

  /** The k-th submission keeps a key saved at a moment within that moment's window: it saves
      nothing under the hash, finds the entry still offered, or comes no later. */
  ghost predicate Keeps(form: Form, tries: seq<Try>, k: nat, hash: string, since: Time, digest: Digest)
    requires k < |tries|
  {
    Saves(tries[k], hash, digest) ==>
      StillOffered(Run(form, tries[..k], digest), tries[k], hash) || tries[k].settledAt <= since
  }

  lemma WithinStep(form: Form, tries: seq<Try>, m: nat, hash: string, since: Time, digest: Digest)
    requires RealKeys(form, tries) && m < |tries| && 0 <= tries[m].settledAt
    requires WithinAt(form, tries, m, hash, since, digest)
    ensures WithinAt(form, tries, m + 1, hash, since, digest) <==> Keeps(form, tries, m, hash, since, digest)
  {
    hide RealPending, IsKey, Within;
    assert tries[..m + 1][..m] == tries[..m];
    PendingReal(form, tries[..m], digest);
    assert IsKey(tries[m].drawn);
    SaveStep(Run(form, tries[..m], digest), tries[m], hash, since + WINDOW, digest);
    hide After, Saves, StillOffered;
  }

  /** A key saved at a moment is stored no longer than 12 hours from that save, at every later
      point of the run, if and only if at every later save of its signature its entry was still
      offered (or no time had passed). */
  lemma {:induction false} KeyDeadlineIff(form: Form, tries: seq<Try>, i: nat, n: nat, hash: string, digest: Digest)
    requires RealKeys(form, tries) && i < n <= |tries| && Saves(tries[i], hash, digest)
    requires forall k :: 0 <= k < |tries| ==> 0 <= tries[k].settledAt
    ensures var since := tries[i].settledAt;
            (forall m :: i < m <= n ==> WithinAt(form, tries, m, hash, since, digest))
              <==> forall k :: i < k < n ==> Keeps(form, tries, k, hash, since, digest)
    decreases n
  {
    hide WithinAt, Keeps, RealKeys, Saves;
    var since := tries[i].settledAt;
    if n == i + 1 {
      FirstWithin(form, tries, i, hash, digest);
    } else {
      KeyDeadlineIff(form, tries, i, n - 1, hash, digest);
      if forall m :: i < m <= n - 1 ==> WithinAt(form, tries, m, hash, since, digest) {
        WithinStep(form, tries, n - 1, hash, since, digest);
      }
    }
  }

  lemma FirstWithin(form: Form, tries: seq<Try>, i: nat, hash: string, digest: Digest)
    requires i < |tries| && Saves(tries[i], hash, digest) && 0 <= tries[i].settledAt
    ensures WithinAt(form, tries, i + 1, hash, tries[i].settledAt, digest)
  {
    hide Within, Saves, After;
    assert tries[..i + 1][..i] == tries[..i];
    SaveBegins(Run(form, tries[..i], digest), tries[i], hash, digest);
  }

  /** Until a definitive outcome all those saves are of one and the same key. */
  lemma SavesOfOneKey(form: Form, tries: seq<Try>, i: nat, k: nat, hash: string, digest: Digest)
    requires RealKeys(form, tries) && Injective(digest) && i < k < |tries|
    requires Saves(tries[i], hash, digest) && Saves(tries[k], hash, digest)
    requires Undecided(tries, tries[i].signature, i, k)
    ensures KeyAt(form, tries, i, digest) == KeyAt(form, tries, k, digest)
  {
    SameKeyUntilDecided(form, tries, i, k, digest);
  }

  /** A key awaiting approval can outlive the window of its first save: the form still holds it
      when the stored entry has expired, and saves it again with a whole new window. */
  lemma KeyOutlivesItsWindow(hash: string, key: string, signature: string)
    requires IsHash(hash) && IsKey(key)
    ensures var digest := (s: string) => hash;
            var first := Try(signature, key, 0, 0, true, false, Refused(403, "approval_required"));
            var later := Try(signature, key, WINDOW + 1, WINDOW + 1, true, false, Refused(403, "approval_required"));
            && After(Form(map[], []), first, digest) == Form(map[signature := key], [Entry(hash, key, Some(WINDOW))])
            && After(After(Form(map[], []), first, digest), later, digest)
                 == Form(map[signature := key], [Entry(hash, key, Some(2 * WINDOW + 1))])
  {
    var digest := (s: string) => hash;
    var first := Try(signature, key, 0, 0, true, false, Refused(403, "approval_required"));
    var later := Try(signature, key, WINDOW + 1, WINDOW + 1, true, false, Refused(403, "approval_required"));
    assert Saved([], hash, Some(key), 0) == [Entry(hash, key, Some(WINDOW))];
    var once := [Entry(hash, key, Some(WINDOW))];
    assert UsableOf(once, WINDOW + 1) == [];
    assert Saved(once, hash, Some(key), WINDOW + 1) == [Entry(hash, key, Some(2 * WINDOW + 1))];
    hide Saved, IsKey, IsHash;
  }

  /** The closure a form owns: one map, updated as each submission is sent and settled, beside
      the store of the browser tab. */
  class MutationForm {
    var pending: map<string, string>
    var store: seq<Entry>

    constructor (store: seq<Entry>)
      ensures pending == map[] && this.store == store
    {
      pending := map[];
      this.store := store;
    }

    function Contents(): Form
      reads this
    {
      Form(pending, store)
    }

    method SaveApprovalRetry(works: bool, hash: string, key: Option<string>, now: Time)
      modifies this`store
      ensures store == if works then Saved(old(store), hash, key, now) else old(store)
    {
      if hash == "" || !works { return; }
      var entries := Retries(store, now);
      match key {
        case Some(k) =>
          if k != "" {
            entries := Assign(entries, Entry(hash, k, Some(Deadline(entries, hash, now))));
          } else {
            entries := Remove(entries, hash);
          }
        case None =>
          entries := Remove(entries, hash);
      }
      store := Newest(entries);
    }

    /** One submission, from choosing its key to what its outcome leaves. */
    method Send(t: Try, digest: Digest) returns (key: string)
      modifies this
      ensures key == KeyOf(old(Contents()), t, digest)
      ensures Contents() == After(old(Contents()), t, digest)
    {
      var retryHash := digest(t.signature);
      key := t.drawn;
      if t.signature in pending && pending[t.signature] != "" {
        key := pending[t.signature];
      } else if t.stored {
        var found := Find(Retries(store, t.sentAt), retryHash);
        if found.Some? { key := found.value.key; }
      }
      pending := pending[t.signature := key];
      hide Saved;
      if t.stored && Clears(t) { store := []; }
      match t.outcome {
        case Succeeded =>
          pending := pending - {t.signature};
          SaveApprovalRetry(t.stored, retryHash, None, t.settledAt);
        case Refused(status, code) =>
          if code == "approval_required" {
            SaveApprovalRetry(t.stored, retryHash, Some(key), t.settledAt);
          }
          if 400 <= status < 500 && status !in {408, 425, 429} && code != "approval_required" && !("idempotency_" <= code) {
            pending := pending - {t.signature};
            SaveApprovalRetry(t.stored, retryHash, None, t.settledAt);
          }
      }
    }
  }
}
