/** frontend/server/session.ts: one refresh of a session at a time, and what expiry it records. */
module SessionRefresh {
  import opened Wrappers

  type Time = int  // milliseconds

  const MARGIN: Time := 30000        // a session this close to its end is renewed
  const TIMEOUT: Time := 15000       // every refresh request settles by then
  const KEPT: Time := 60000          // how long a flight stays in the table
  const REPLAY: Time := 600000       // IAM repeats a reply this long after issuing it
  const CAPACITY := 1000
  const SAFE_INTEGER := 9007199254740991
  const ACCESS_TOKEN_TTL_SECONDS := 1800

  datatype Session = Session(access: string, refresh: string, expires: Time, deadline: Time,
                             browserCookie: string, sessionId: string)

  /** What a token response holds; None where a field is missing or of another kind. */
  datatype Tokens = Tokens(actor: Option<string>, access: Option<string>, refresh: Option<string>,
                           expiresIn: Option<int>, refreshExpiresAt: Option<Time>, sessionId: string,
                           setCookie: Option<string>)

  predicate TokenChar(c: char) {
    'A' <= c <= 'Z' || 'a' <= c <= 'z' || '0' <= c <= '9' || c == '_' || c == '-'
  }

  predicate IsToken(prefix: string, s: string) {
    prefix <= s && |prefix| < |s| && forall i :: |prefix| <= i < |s| ==> TokenChar(s[i])
  }

  predicate SafeInteger(n: int) {
    -SAFE_INTEGER <= n <= SAFE_INTEGER
  }

  /** fromTokens: the session of a token response, or None where it throws. */
  function FromTokens(value: Tokens, previous: Option<Session>, issuedNoLaterThan: Time, now: Time): (r: Option<Session>)
    ensures r.Some? ==> value.expiresIn.Some? && 0 < value.expiresIn.value
                        && r.value.expires == issuedNoLaterThan + value.expiresIn.value * 1000
                        && now < r.value.deadline && Some(r.value.refresh) == value.refresh
  {
    var browserCookie :=
      if value.setCookie.Some? && value.setCookie.value != "" then value.setCookie
      else if previous.Some? then Some(previous.value.browserCookie) else None;
    if value.actor != Some("carbon")
       || value.access.None? || !IsToken("cat_", value.access.value)
       || value.refresh.None? || !IsToken("rft_", value.refresh.value)
       || value.expiresIn.None? || !SafeInteger(value.expiresIn.value) || value.expiresIn.value <= 0
       || browserCookie.None? || !("iam_session=" <= browserCookie.value) then None
    else
      var expires := issuedNoLaterThan + value.expiresIn.value * 1000;
      if value.refreshExpiresAt.None? || !SafeInteger(value.refreshExpiresAt.value)
         || value.refreshExpiresAt.value <= now || !SafeInteger(expires) then None
      else Some(Session(value.access.value, value.refresh.value, expires, value.refreshExpiresAt.value,
                        browserCookie.value, value.sessionId))
  }

  predicate Due(session: Session, now: Time) {
    session.expires <= now + MARGIN
  }

  // ----- the table of flights -----

  /** A landed flight notes when IAM issued its tokens and for how many seconds; a failed one whether
      the call that launched it has caught the failure yet. */
  datatype Status = Open | Landed(session: Session, issued: Time, lifetime: int) | Failed(rejected: Option<nat>, caught: bool)

  /** One refresh request: whose token it spends, when it left and how it ended. */
  datatype Flight = Flight(caller: Session, started: Time, status: Status)

  datatype Entry = Entry(expires: Time, flight: nat)

  datatype Table = Table(entries: map<string, Entry>, launched: seq<Flight>)

  /** What a call gets: its own session back, a flight to wait for, or an error. */
  datatype Answer = Kept | Joined(flight: nat) | Launched(flight: nat) | Busy

  datatype Reply = Granted(value: Tokens, issued: Time, arrived: Time) | Rejected(status: nat) | Lost

  type Digest = string -> string

  function Unexpired(entries: map<string, Entry>, now: Time): map<string, Entry> {
    map d | d in entries && now <= entries[d].expires :: entries[d]
  }

  /** refreshed up to its wait: `checked` is when the margin is read, `now` when the table is. */
  function Begin(t: Table, session: Session, force: bool, checked: Time, now: Time, digest: Digest): (Table, Answer) {
    if !force && !Due(session, checked) then (t, Kept)
    else
      var d := digest(session.refresh);
      var entries := Unexpired(t.entries, now);
      if d in entries then (Table(entries, t.launched), Joined(entries[d].flight))
      else if |entries| > CAPACITY then (Table(entries, t.launched), Busy)
      else
        (Launch(Table(entries, t.launched), session, now, digest), Launched(|t.launched|))
  }

  function Launch(t: Table, session: Session, now: Time, digest: Digest): Table {
    Table(t.entries[digest(session.refresh) := Entry(now + KEPT, |t.launched|)], t.launched + [Flight(session, now, Open)])
  }

  /** What a flight's reply makes of it. */
  function Outcome(flight: Flight, reply: Reply, now: Time): Status {
    match reply
    case Lost => Failed(None, false)
    case Rejected(status) => Failed(Some(status), false)
    case Granted(value, issued, _) =>
      var session := FromTokens(value, Some(flight.caller), flight.started - REPLAY, now);
      if session.Some? then Landed(session.value, issued, value.expiresIn.value) else Failed(None, false)
  }

  /** A failure that has been caught: nobody can join the flight any more. */
  predicate Gone(status: Status) {
    status.Failed? && status.caught
  }

  /** In the air, or failed and not yet caught. */
  predicate Pending(status: Status) {
    status.Open? || (status.Failed? && !status.caught)
  }

  /** A flight loses its entry when its failure is caught. */
  function WithStatus(t: Table, f: nat, status: Status, digest: Digest): Table
    requires f < |t.launched|
  {
    var flight := t.launched[f];
    Table(if Gone(status) then t.entries - {digest(flight.caller.refresh)} else t.entries,
          t.launched[f := flight.(status := status)])
  }

  /** The request settles; whoever waits for it will see how. */
  function Settle(t: Table, f: nat, reply: Reply, now: Time, digest: Digest): Table
    requires f < |t.launched|
  {
    WithStatus(t, f, Outcome(t.launched[f], reply, now), digest)
  }

  /** The call that launched a failed flight catches the failure. Other calls may come in between. */
  function Catch(t: Table, f: nat, digest: Digest): Table
    requires f < |t.launched| && t.launched[f].status.Failed?
  {
    WithStatus(t, f, t.launched[f].status.(caught := true), digest)
  }

  // ----- every interleaving of calls and replies -----

  datatype Event = Call(session: Session, force: bool, checked: Time, now: Time)
                 | Settled(flight: nat, reply: Reply, now: Time)
                 | Caught(flight: nat, now: Time)

  /** No request is open longer than its timeout, and a failure is caught before its entry expires. */
  ghost predicate Timely(flight: Flight, now: Time) {
    && (flight.status.Open? ==> now <= flight.started + TIMEOUT)
    && (Pending(flight.status) ==> now <= flight.started + KEPT)
  }

  ghost predicate AllTimely(t: Table, now: Time) {
    forall f :: 0 <= f < |t.launched| ==> Timely(t.launched[f], now)
  }

  /** The clock never runs back, requests and catches are timely, a reply belongs to an open
      flight, and IAM, asked by whatever replica, answers with tokens no older than it repeats a
      reply. */
  ghost predicate Allowed(t: Table, clock: Time, e: Event) {
    && clock <= e.now
    && AllTimely(t, e.now)
    && match e
       case Call(_, _, checked, now) => checked <= now
       case Settled(f, reply, now) =>
         && f < |t.launched| && t.launched[f].status.Open?
         && (reply.Granted? ==> t.launched[f].started <= reply.arrived <= now && reply.arrived <= reply.issued + REPLAY)
       case Caught(f, now) => f < |t.launched| && t.launched[f].status.Failed? && !t.launched[f].status.caught
  }

  function Next(t: Table, e: Event, digest: Digest): Table {
    match e
    case Call(session, force, checked, now) => Begin(t, session, force, checked, now, digest).0
    case Settled(f, reply, now) => if f < |t.launched| then Settle(t, f, reply, now, digest) else t
    case Caught(f, now) => if f < |t.launched| && t.launched[f].status.Failed? then Catch(t, f, digest) else t
  }

  function Run(events: seq<Event>, digest: Digest): Table
    decreases |events|
  {
    if events == [] then Table(map[], []) else Next(Run(events[..|events| - 1], digest), events[|events| - 1], digest)
  }

  function Clock(events: seq<Event>, start: Time): Time {
    if events == [] then start else events[|events| - 1].now
  }

  ghost predicate Admissible(events: seq<Event>, start: Time, digest: Digest)
    decreases |events|
  {
    events != [] ==>
      var before := events[..|events| - 1];
      Admissible(before, start, digest) && Allowed(Run(before, digest), Clock(before, start), events[|events| - 1])
  }

  ghost predicate Injective(digest: Digest) {
    forall a, b :: digest(a) == digest(b) ==> a == b
  }

  // ----- what every run keeps -----

  /** A flight has its own entry. */
  ghost predicate Has(t: Table, f: nat, digest: Digest)
    requires f < |t.launched|
  {
    var d := digest(t.launched[f].caller.refresh);
    d in t.entries && t.entries[d].flight == f
  }

  /** Whatever is pending, or has landed within the time it is kept, is listed. */
  ghost predicate Held(t: Table, clock: Time, digest: Digest) {
    forall f {:trigger t.launched[f]} :: 0 <= f < |t.launched| ==>
      match t.launched[f].status
      case Open => Has(t, f, digest)
      case Landed(_, _, _) => clock <= t.launched[f].started + KEPT ==> Has(t, f, digest)
      case Failed(_, caught) => !caught ==> Has(t, f, digest)
  }

  /** An entry names a flight of its own token whose failure, if any, has not been caught. */
  ghost predicate Listed(t: Table, digest: Digest) {
    forall d :: d in t.entries ==> Names(t, d, t.entries[d], digest)
  }

  ghost predicate Names(t: Table, d: string, e: Entry, digest: Digest) {
    && e.flight < |t.launched| && digest(t.launched[e.flight].caller.refresh) == d
    && e.expires == t.launched[e.flight].started + KEPT && !Gone(t.launched[e.flight].status)
  }

  /** The token was spent a second time only after the first attempt's failure was caught, or after
      its reply had been kept for its whole time. */
  ghost predicate Apart(a: Flight, b: Flight) {
    a.caller.refresh == b.caller.refresh ==>
      Gone(a.status) || (a.status.Landed? && a.started + KEPT < b.started)
  }

  ghost predicate AllApart(t: Table) {
    forall i, j :: 0 <= i < j < |t.launched| ==> Apart(t.launched[i], t.launched[j])
  }

  /** The expiry a landed session was given is no later than its tokens' own. */
  ghost predicate Lasting(flight: Flight) {
    flight.status.Landed? ==>
      && flight.status.session.expires == flight.started - REPLAY + flight.status.lifetime * 1000
      && flight.status.session.expires <= flight.status.issued + flight.status.lifetime * 1000
  }

  ghost predicate AllLasting(t: Table) {
    forall f :: 0 <= f < |t.launched| ==> Lasting(t.launched[f])
  }

  ghost predicate Past(t: Table, clock: Time) {
    forall f :: 0 <= f < |t.launched| ==> t.launched[f].started <= clock
  }

  ghost predicate Sound(t: Table, clock: Time, digest: Digest) {
    && Held(t, clock, digest) && Listed(t, digest) && AllApart(t) && AllLasting(t) && Past(t, clock)
    && |t.entries| <= CAPACITY + 1
  }

  lemma {:induction false} SubsetNoLarger<T>(a: set<T>, b: set<T>)
    requires a <= b
    ensures |a| <= |b|
  {
    if a != {} {
      var x :| x in a;
      SubsetNoLarger(a - {x}, b - {x});
    }
  }

  lemma CleaningShrinks(entries: map<string, Entry>, now: Time)
    ensures |Unexpired(entries, now)| <= |entries|
  {
    SubsetNoLarger(Unexpired(entries, now).Keys, entries.Keys);
    assert |Unexpired(entries, now)| == |Unexpired(entries, now).Keys| && |entries| == |entries.Keys|;
  }

  /** Forgetting expired entries never forgets a pending flight. */
  lemma CleanSound(t: Table, clock: Time, now: Time, digest: Digest)
    requires Sound(t, clock, digest) && clock <= now
    requires AllTimely(t, now)
    ensures Sound(Table(Unexpired(t.entries, now), t.launched), now, digest)
  {
    CleaningShrinks(t.entries, now);
    CleanHeld(t, clock, now, digest);
    CleanListed(t, now, digest);
    hide Held, Listed, Unexpired, AllTimely;
  }

  lemma CleanHeld(t: Table, clock: Time, now: Time, digest: Digest)
    requires Held(t, clock, digest) && Listed(t, digest) && clock <= now && AllTimely(t, now)
    ensures Held(Table(Unexpired(t.entries, now), t.launched), now, digest)
  {
    var r := Table(Unexpired(t.entries, now), t.launched);
    forall f: nat | f < |t.launched| && Has(t, f, digest) && now <= t.launched[f].started + KEPT
      ensures Has(r, f, digest)
    {
      var d := digest(t.launched[f].caller.refresh);
      assert Names(t, d, t.entries[d], digest);
    }
    assert forall f :: 0 <= f < |t.launched| ==> Timely(t.launched[f], now);
    hide Has, Listed, Unexpired;
  }

  lemma CleanListed(t: Table, now: Time, digest: Digest)
    requires Listed(t, digest)
    ensures Listed(Table(Unexpired(t.entries, now), t.launched), digest)
  {
    var r := Table(Unexpired(t.entries, now), t.launched);
    forall d | d in r.entries ensures Names(r, d, r.entries[d], digest) {
      assert Names(t, d, t.entries[d], digest);
    }
  }

  /** A token without an entry was never spent, or its failure was caught, or was spent too long ago. */
  lemma Forgotten(t: Table, now: Time, session: Session, digest: Digest)
    requires Sound(t, now, digest) && digest(session.refresh) !in t.entries
    ensures forall f :: 0 <= f < |t.launched| ==> Apart(t.launched[f], Flight(session, now, Open))
  {
  }

  lemma LaunchSound(t: Table, session: Session, now: Time, digest: Digest)
    requires Sound(t, now, digest) && Injective(digest)
    requires digest(session.refresh) !in t.entries && |t.entries| <= CAPACITY
    ensures Sound(Launch(t, session, now, digest), now, digest)
  {
    Forgotten(t, now, session, digest);
    LaunchLists(t, session, now, digest);
    LaunchFlights(t, Flight(session, now, Open), now);
    assert |Launch(t, session, now, digest).entries| == |t.entries| + 1;
    hide Held, Listed, AllApart, AllLasting, Past, Apart;
  }

  lemma LaunchFlights(t: Table, flight: Flight, now: Time)
    requires AllApart(t) && AllLasting(t) && Past(t, now) && flight.status.Open? && flight.started == now
    requires forall f :: 0 <= f < |t.launched| ==> Apart(t.launched[f], flight)
    ensures var r := Table(map[], t.launched + [flight]);
            AllApart(r) && AllLasting(r) && Past(r, now)
  {
    hide Apart;
  }

  lemma LaunchLists(t: Table, session: Session, now: Time, digest: Digest)
    requires Held(t, now, digest) && Listed(t, digest) && digest(session.refresh) !in t.entries
    ensures Held(Launch(t, session, now, digest), now, digest) && Listed(Launch(t, session, now, digest), digest)
  {
    var d, r := digest(session.refresh), Launch(t, session, now, digest);
    forall i: nat | i < |t.launched| ensures r.launched[i] == t.launched[i] && (Has(t, i, digest) ==> Has(r, i, digest)) {
    }
    assert Has(r, |t.launched|, digest);
    forall e | e in r.entries ensures Names(r, e, r.entries[e], digest) {
      if e != d { assert Names(t, e, t.entries[e], digest); }
    }
    hide Has, Names, Launch;
  }

  lemma OutcomeLasts(t: Table, clock: Time, f: nat, reply: Reply, now: Time)
    requires Allowed(t, clock, Settled(f, reply, now))
    ensures var status := Outcome(t.launched[f], reply, now);
            !status.Open? && !Gone(status) && Lasting(t.launched[f].(status := status))
  {
    hide AllTimely;
  }

  lemma SettleSound(t: Table, clock: Time, f: nat, reply: Reply, now: Time, digest: Digest)
    requires Sound(t, clock, digest) && Injective(digest) && Allowed(t, clock, Settled(f, reply, now))
    ensures Sound(Settle(t, f, reply, now, digest), now, digest)
  {
    OutcomeLasts(t, clock, f, reply, now);
    hide Outcome, Sound, AllTimely;
    LaterSound(t, clock, now, digest);
    WithStatusSound(t, f, Outcome(t.launched[f], reply, now), now, digest);
  }

  lemma CatchSound(t: Table, clock: Time, f: nat, now: Time, digest: Digest)
    requires Sound(t, clock, digest) && Injective(digest) && Allowed(t, clock, Caught(f, now))
    ensures Sound(Catch(t, f, digest), now, digest)
  {
    hide Sound, AllTimely;
    LaterSound(t, clock, now, digest);
    WithStatusSound(t, f, t.launched[f].status.(caught := true), now, digest);
  }

  lemma WithStatusSound(t: Table, f: nat, status: Status, now: Time, digest: Digest)
    requires Sound(t, now, digest) && Injective(digest) && f < |t.launched| && Pending(t.launched[f].status)
    requires !status.Open? && Lasting(t.launched[f].(status := status))
    ensures Sound(WithStatus(t, f, status, digest), now, digest)
  {
    assert Has(t, f, digest);
    hide Held, Listed, AllApart, Lasting, Has;
    SettledHeld(t, f, status, now, digest);
    SettledListed(t, f, status, digest);
    SettledApart(t, f, t.launched[f].(status := status));
    SettledRest(t, f, t.launched[f].(status := status), now);
    hide AllLasting, Past;
    SubsetNoLarger(WithStatus(t, f, status, digest).entries.Keys, t.entries.Keys);
  }

  lemma SettledHeld(t: Table, f: nat, status: Status, now: Time, digest: Digest)
    requires Held(t, now, digest) && f < |t.launched| && Has(t, f, digest) && !status.Open?
    ensures Held(WithStatus(t, f, status, digest), now, digest)
  {
    var r := WithStatus(t, f, status, digest);
    forall i: nat | i < |t.launched| && i != f && Has(t, i, digest) ensures Has(r, i, digest) {
    }
    assert !Gone(status) ==> Has(r, f, digest);
  }

  lemma SettledListed(t: Table, f: nat, status: Status, digest: Digest)
    requires Listed(t, digest) && f < |t.launched| && Has(t, f, digest)
    ensures Listed(WithStatus(t, f, status, digest), digest)
  {
    var r := WithStatus(t, f, status, digest);
    forall e | e in r.entries ensures Names(r, e, r.entries[e], digest) {
      assert Names(t, e, t.entries[e], digest);
    }
  }

  lemma SettledApart(t: Table, f: nat, flight: Flight)
    requires AllApart(t) && f < |t.launched| && Pending(t.launched[f].status)
    requires flight.caller == t.launched[f].caller && flight.started == t.launched[f].started
    ensures AllApart(t.(launched := t.launched[f := flight]))
  {
  }

  lemma SettledRest(t: Table, f: nat, flight: Flight, now: Time)
    requires AllLasting(t) && Past(t, now) && f < |t.launched| && Lasting(flight) && flight.started == t.launched[f].started
    ensures var r := t.(launched := t.launched[f := flight]); AllLasting(r) && Past(r, now)
  {
    hide Lasting;
  }

  lemma BeginSound(t: Table, clock: Time, session: Session, force: bool, checked: Time, now: Time, digest: Digest)
    requires Sound(t, clock, digest) && Injective(digest) && Allowed(t, clock, Call(session, force, checked, now))
    ensures Sound(Begin(t, session, force, checked, now, digest).0, now, digest)
  {
    hide Sound, Unexpired, Due, Launch, AllTimely, Injective;
    CleanSound(t, clock, now, digest);
    LaterSound(t, clock, now, digest);
    var clean := Table(Unexpired(t.entries, now), t.launched);
    if digest(session.refresh) !in clean.entries && |clean.entries| <= CAPACITY {
      LaunchSound(clean, session, now, digest);
    }
  }

  lemma LaterSound(t: Table, clock: Time, now: Time, digest: Digest)
    requires Sound(t, clock, digest) && clock <= now
    ensures Sound(t, now, digest)
  {
  }

  lemma {:induction false} RunSound(events: seq<Event>, start: Time, digest: Digest)
    requires Admissible(events, start, digest) && Injective(digest)
    ensures Sound(Run(events, digest), Clock(events, start), digest)
    decreases |events|
  {
    if events != [] {
      var before, e := events[..|events| - 1], events[|events| - 1];
      RunSound(before, start, digest);
      var t, clock := Run(before, digest), Clock(before, start);
      assert Allowed(t, clock, e);
      assert Run(events, digest) == Next(t, e, digest);
      hide Run, Sound, Allowed;
      match e {
        case Call(session, force, checked, now) =>
          BeginSound(t, clock, session, force, checked, now, digest);
        case Settled(f, reply, now) =>
          InRange(t, clock, f, reply, now);
          SettleSound(t, clock, f, reply, now, digest);
        case Caught(f, now) =>
          FailedInRange(t, clock, f, now);
          CatchSound(t, clock, f, now, digest);
      }
    }
  }

  lemma InRange(t: Table, clock: Time, f: nat, reply: Reply, now: Time)
    requires Allowed(t, clock, Settled(f, reply, now))
    ensures f < |t.launched|
  {
  }

  lemma FailedInRange(t: Table, clock: Time, f: nat, now: Time)
    requires Allowed(t, clock, Caught(f, now))
    ensures f < |t.launched| && t.launched[f].status.Failed?
  {
  }

  /** In every interleaving: of one refresh token at most one request is unresolved, and a second
      one leaves only when the first one's failure has been caught or it landed longer ago than it is
      kept; the table stays within its bound. */
  lemma OneRequestPerToken(events: seq<Event>, start: Time, digest: Digest, i: nat, j: nat)
    requires Admissible(events, start, digest) && Injective(digest)
    requires i < j < |Run(events, digest).launched|
    ensures var t := Run(events, digest);
            var a, b := t.launched[i], t.launched[j];
            && |t.entries| <= CAPACITY + 1
            && (a.caller.refresh == b.caller.refresh ==>
                  !Pending(a.status) && (a.status.Landed? ==> a.started + KEPT < b.started))
  {
    RunSound(events, start, digest);
    assert Apart(Run(events, digest).launched[i], Run(events, digest).launched[j]);
  }

  lemma PrefixAdmissible(events: seq<Event>, n: nat, start: Time, digest: Digest)
    requires Admissible(events, start, digest) && n <= |events|
    ensures Admissible(events[..n], start, digest)
    ensures n < |events| ==> Allowed(Run(events[..n], digest), Clock(events[..n], start), events[n])
    decreases |events|
  {
    if n == |events| {
      assert events[..n] == events;
    } else {
      var before := events[..|events| - 1];
      assert before[..n] == events[..n];
      assert n < |before| ==> before[n] == events[n];
      PrefixAdmissible(before, n, start, digest);
    }
  }

  /** Before the n-th event all is sound, and it leads to the next table. */
  lemma SoundAt(events: seq<Event>, n: nat, start: Time, digest: Digest)
    requires Admissible(events, start, digest) && Injective(digest) && n < |events|
    ensures var t, clock := Run(events[..n], digest), Clock(events[..n], start);
            && Sound(t, clock, digest) && Allowed(t, clock, events[n])
            && Run(events[..n + 1], digest) == Next(t, events[n], digest)
  {
    assert events[..n + 1][..n] == events[..n];
    assert Run(events[..n + 1], digest) == Next(Run(events[..n], digest), events[n], digest);
    hide Sound, Allowed, Run, Next;
    PrefixAdmissible(events, n, start, digest);
    hide Admissible, Clock, Injective;
    RunSound(events[..n], start, digest);
  }

  /** A flight that settles changes no entry; when its failure is caught, its own entry goes and
      nothing else. */
  lemma FailureRemovesItsOwn(events: seq<Event>, start: Time, digest: Digest, n: nat)
    requires Admissible(events, start, digest) && Injective(digest)
    requires n < |events| && !events[n].Call?
    ensures var t, after, f := Run(events[..n], digest), Run(events[..n + 1], digest), events[n].flight;
            && f < |t.launched| && Pending(t.launched[f].status)
            && f < |after.launched| && !after.launched[f].status.Open?
            && var d := digest(t.launched[f].caller.refresh);
            && d in t.entries && t.entries[d].flight == f
            && after.entries == if events[n].Caught? then t.entries - {d} else t.entries
  {
    SoundAt(events, n, start, digest);
    var t, f := Run(events[..n], digest), events[n].flight;
    hide Run, Admissible, AllTimely, Outcome;
    assert Has(t, f, digest);
    if events[n].Settled? {
      OutcomeLasts(t, Clock(events[..n], start), f, events[n].reply, events[n].now);
    }
    hide Sound;
  }

  /** How a flight ended, whether caught yet or not. */
  predicate SameEnd(a: Status, b: Status) {
    a == b || (a.Failed? && b.Failed? && a.rejected == b.rejected)
  }

  /** Flights keep their caller and start; how one has ended never changes again. */
  ghost predicate Grown(a: Table, b: Table) {
    && |a.launched| <= |b.launched|
    && forall f :: 0 <= f < |a.launched| ==>
         && a.launched[f].caller == b.launched[f].caller && a.launched[f].started == b.launched[f].started
         && (!a.launched[f].status.Open? ==> SameEnd(a.launched[f].status, b.launched[f].status))
  }

  lemma {:induction false} RunGrows(events: seq<Event>, start: Time, digest: Digest, i: nat, j: nat)
    requires Admissible(events, start, digest) && i <= j <= |events|
    ensures Grown(Run(events[..i], digest), Run(events[..j], digest))
    decreases j
  {
    if i < j {
      assert events[..j][..j - 1] == events[..j - 1];
      assert Run(events[..j], digest) == Next(Run(events[..j - 1], digest), events[j - 1], digest);
      hide Run, Next, Allowed;
      RunGrows(events, start, digest, i, j - 1);
      PrefixAdmissible(events, j - 1, start, digest);
      hide Admissible;
      NextGrows(Run(events[..j - 1], digest), Clock(events[..j - 1], start), events[j - 1], digest);
    }
  }

  lemma NextGrows(t: Table, clock: Time, e: Event, digest: Digest)
    requires Allowed(t, clock, e)
    ensures Grown(t, Next(t, e, digest))
  {
    hide Outcome;
  }

  /** The answer to the n-th event, a call. */
  function AnswerAt(events: seq<Event>, n: nat, digest: Digest): Answer
    requires n < |events| && events[n].Call?
  {
    Begin(Run(events[..n], digest), events[n].session, events[n].force, events[n].checked, events[n].now, digest).1
  }

  predicate Waits(a: Answer, f: nat) {
    a == Joined(f) || a == Launched(f)
  }

  /** A caller only ever waits for a flight of its own token. */
  lemma WaitsForItsOwn(events: seq<Event>, start: Time, digest: Digest, n: nat, f: nat)
    requires Admissible(events, start, digest) && Injective(digest)
    requires n < |events| && events[n].Call? && Waits(AnswerAt(events, n, digest), f)
    ensures var t := Run(events[..n + 1], digest);
            && f < |t.launched| && t.launched[f].caller.refresh == events[n].session.refresh
            && !Gone(t.launched[f].status)
            && t.launched[f].started <= events[n].now <= t.launched[f].started + KEPT
  {
    hide Run, Sound, Admissible, Allowed, Begin, Injective;
    SoundAt(events, n, start, digest);
    BeginsItsOwn(Run(events[..n], digest), Clock(events[..n], start), events[n], digest, f);
  }

  lemma BeginsItsOwn(t: Table, clock: Time, e: Event, digest: Digest, f: nat)
    requires Sound(t, clock, digest) && Injective(digest) && e.Call? && Allowed(t, clock, e)
    requires Waits(Begin(t, e.session, e.force, e.checked, e.now, digest).1, f)
    ensures var r := Next(t, e, digest);
            && f < |r.launched| && r.launched[f].caller.refresh == e.session.refresh && !Gone(r.launched[f].status)
            && r.launched[f].started <= e.now <= r.launched[f].started + KEPT
  {
    assert AllTimely(t, e.now) && clock <= e.now;
    hide Allowed, AllTimely, Due, Held, AllApart, AllLasting;
    CleanSound(t, clock, e.now, digest);
    var clean := Table(Unexpired(t.entries, e.now), t.launched);
    hide Unexpired;
    var d := digest(e.session.refresh);
    assert d in clean.entries ==> Names(clean, d, clean.entries[d], digest);
    hide Listed;
  }

  /** Callers of one token share one flight and so one outcome: while a flight a caller waits for
      is pending, and after it landed for as long as it is kept, every other call of that token
      gets the same flight, unless its session is not due. */
  lemma CallersShare(events: seq<Event>, start: Time, digest: Digest, i: nat, j: nat, f: nat)
    requires Admissible(events, start, digest) && Injective(digest)
    requires i < j < |events| && events[i].Call? && events[j].Call?
    requires events[i].session.refresh == events[j].session.refresh
    requires Waits(AnswerAt(events, i, digest), f)
    ensures var t := Run(events[..j], digest);
            && f < |t.launched|
            && (Pending(t.launched[f].status) || (t.launched[f].status.Landed? && events[j].now <= t.launched[f].started + KEPT) ==>
                  AnswerAt(events, j, digest)
                    == if !events[j].force && !Due(events[j].session, events[j].checked) then Kept else Joined(f))
  {
    WaitsForItsOwn(events, start, digest, i, f);
    RunGrows(events, start, digest, i + 1, j);
    PrefixAdmissible(events, j, start, digest);
    RunSound(events[..j], start, digest);
    var t, now := Run(events[..j], digest), events[j].now;
    if Pending(t.launched[f].status) || (t.launched[f].status.Landed? && now <= t.launched[f].started + KEPT) {
      LaterSound(t, Clock(events[..j], start), now, digest);
      assert Has(t, f, digest);
      var d := digest(t.launched[f].caller.refresh);
      assert Names(t, d, t.entries[d], digest);
    }
    hide Run, Sound, Admissible, Grown;
  }

  // ----- exactly what a call gets -----

  /** Not given up, and launched no longer ago than a flight is kept. */
  predicate Live(flight: Flight, now: Time) {
    !Gone(flight.status) && now <= flight.started + KEPT
  }

  ghost function LiveFlights(t: Table, now: Time): set<nat> {
    set f: nat | f < |t.launched| && Live(t.launched[f], now)
  }

  /** The unexpired entries are the live flights, each under its own token's digest. */
  lemma EntriesAreLive(t: Table, clock: Time, now: Time, digest: Digest)
    requires Sound(t, clock, digest) && clock <= now && AllTimely(t, now)
    ensures forall f: nat :: f < |t.launched| && Live(t.launched[f], now) ==>
              var d := digest(t.launched[f].caller.refresh);
              d in Unexpired(t.entries, now) && Unexpired(t.entries, now)[d].flight == f
    ensures forall d :: d in Unexpired(t.entries, now) ==>
              var f := t.entries[d].flight;
              f < |t.launched| && Live(t.launched[f], now) && digest(t.launched[f].caller.refresh) == d
  {
    LaterSound(t, clock, now, digest);
    CleanSound(t, clock, now, digest);
    var clean := Table(Unexpired(t.entries, now), t.launched);
    forall f: nat | f < |t.launched| && Live(t.launched[f], now) ensures Has(clean, f, digest) {
      assert clean.launched[f] == t.launched[f];
    }
    forall d | d in clean.entries
      ensures t.entries[d].flight < |t.launched| && Live(t.launched[t.entries[d].flight], now)
              && digest(t.launched[t.entries[d].flight].caller.refresh) == d
    {
      assert Names(clean, d, clean.entries[d], digest);
    }
    hide Sound, Unexpired, AllTimely, AllApart, AllLasting;
  }

  lemma {:induction false} ImageSize(entries: map<string, Entry>, digests: set<string>)
    requires digests <= entries.Keys
    requires forall d, e :: d in digests && e in digests && entries[d].flight == entries[e].flight ==> d == e
    ensures |set d | d in digests :: entries[d].flight| == |digests|
    decreases |digests|
  {
    var image := set d | d in digests :: entries[d].flight;
    if digests != {} {
      var d :| d in digests;
      ImageSize(entries, digests - {d});
      assert image == (set e | e in digests - {d} :: entries[e].flight) + {entries[d].flight};
    }
  }

  lemma EntriesCount(t: Table, clock: Time, now: Time, digest: Digest)
    requires Sound(t, clock, digest) && Injective(digest) && clock <= now && AllTimely(t, now)
    ensures |Unexpired(t.entries, now)| == |LiveFlights(t, now)|
  {
    EntriesAreLive(t, clock, now, digest);
    UnexpiredSame(t.entries, now);
    hide Sound, AllTimely, Unexpired, Live;
    var entries := Unexpired(t.entries, now);
    ImageSize(entries, entries.Keys);
    var image := set d | d in entries.Keys :: entries[d].flight;
    forall f | f in LiveFlights(t, now) ensures f in image {
      assert entries[digest(t.launched[f].caller.refresh)].flight == f;
    }
    assert image == LiveFlights(t, now) && |entries| == |entries.Keys|;
  }

  lemma UnexpiredSame(entries: map<string, Entry>, now: Time)
    ensures forall d :: d in Unexpired(entries, now) ==> Unexpired(entries, now)[d] == entries[d]
  {
  }

  /** The live flight of a token, if there is one. */
  ghost predicate HasLive(t: Table, refresh: string, now: Time) {
    exists f: nat :: f < |t.launched| && t.launched[f].caller.refresh == refresh && Live(t.launched[f], now)
  }

  /** In every run: a call keeps its session exactly if it is not forced and not due; otherwise it
      joins the live flight of its token; without one it is turned away exactly if more than 1000
      other flights are live, and else launches the one request, with itself as caller. */
  lemma AnswerIff(events: seq<Event>, start: Time, digest: Digest, n: nat)
    requires Admissible(events, start, digest) && Injective(digest) && n < |events| && events[n].Call?
    ensures var t, r, e, a := Run(events[..n], digest), Run(events[..n + 1], digest), events[n], AnswerAt(events, n, digest);
            if !e.force && !Due(e.session, e.checked) then a == Kept && r == t
            else if HasLive(t, e.session.refresh, e.now) then
              && r.launched == t.launched && a.Joined? && a.flight < |t.launched|
              && t.launched[a.flight].caller.refresh == e.session.refresh && Live(t.launched[a.flight], e.now)
            else if |LiveFlights(t, e.now)| > CAPACITY then a == Busy && r.launched == t.launched
            else a == Launched(|t.launched|) && r.launched == t.launched + [Flight(e.session, e.now, Open)]
  {
    SoundAt(events, n, start, digest);
    var t, e := Run(events[..n], digest), events[n];
    assert AnswerAt(events, n, digest) == Begin(t, e.session, e.force, e.checked, e.now, digest).1;
    hide Run, Admissible, Sound, AnswerAt;
    BeginIff(t, Clock(events[..n], start), e, digest);
  }

  lemma BeginIff(t: Table, clock: Time, e: Event, digest: Digest)
    requires Sound(t, clock, digest) && Injective(digest) && e.Call? && Allowed(t, clock, e)
    ensures var (r, a) := Begin(t, e.session, e.force, e.checked, e.now, digest);
            if !e.force && !Due(e.session, e.checked) then a == Kept && r == t
            else if HasLive(t, e.session.refresh, e.now) then
              && r.launched == t.launched && a.Joined? && a.flight < |t.launched|
              && t.launched[a.flight].caller.refresh == e.session.refresh && Live(t.launched[a.flight], e.now)
            else if |LiveFlights(t, e.now)| > CAPACITY then a == Busy && r.launched == t.launched
            else a == Launched(|t.launched|) && r.launched == t.launched + [Flight(e.session, e.now, Open)]
  {
    assert AllTimely(t, e.now) && clock <= e.now;
    hide Sound, Allowed, AllTimely, Due, Live;
    EntriesAreLive(t, clock, e.now, digest);
    EntriesCount(t, clock, e.now, digest);
    UnexpiredSame(t.entries, e.now);
    hide Unexpired, LiveFlights;
    ListedIfLive(t, Unexpired(t.entries, e.now), e, digest);
    hide HasLive;
  }

  lemma ListedIfLive(t: Table, entries: map<string, Entry>, e: Event, digest: Digest)
    requires Injective(digest) && e.Call?
    requires forall f: nat :: f < |t.launched| && Live(t.launched[f], e.now) ==>
               var d := digest(t.launched[f].caller.refresh); d in entries && entries[d].flight == f
    requires forall d :: d in entries ==>
               var f := entries[d].flight;
               f < |t.launched| && Live(t.launched[f], e.now) && digest(t.launched[f].caller.refresh) == d
    ensures digest(e.session.refresh) in entries <==> HasLive(t, e.session.refresh, e.now)
    ensures digest(e.session.refresh) in entries ==>
              var f := entries[digest(e.session.refresh)].flight;
              f < |t.launched| && Live(t.launched[f], e.now) && t.launched[f].caller.refresh == e.session.refresh
  {
    hide Live;
  }

  /** When a token response makes a session, and which. */
  lemma TokensIff(value: Tokens, previous: Option<Session>, issuedNoLaterThan: Time, now: Time, s: Session)
    ensures FromTokens(value, previous, issuedNoLaterThan, now) == Some(s) <==>
              && value.actor == Some("carbon")
              && value.access == Some(s.access) && IsToken("cat_", s.access)
              && value.refresh == Some(s.refresh) && IsToken("rft_", s.refresh)
              && value.refreshExpiresAt == Some(s.deadline) && SafeInteger(s.deadline) && now < s.deadline
              && value.expiresIn.Some? && SafeInteger(value.expiresIn.value) && 0 < value.expiresIn.value
              && s.expires == issuedNoLaterThan + value.expiresIn.value * 1000 && SafeInteger(s.expires)
              && s.sessionId == value.sessionId && "iam_session=" <= s.browserCookie
              && (value.setCookie == Some(s.browserCookie)
                  || (value.setCookie in {None, Some("")} && previous.Some? && previous.value.browserCookie == s.browserCookie))
  {
    hide IsToken;
  }

  /** Rejected with the reply's status, lost, or landed with the session the granted tokens make,
      counted as issued 600 s before the request left. */
  predicate EndsBy(flight: Flight, reply: Reply, now: Time, status: Status) {
    match reply
    case Rejected(code) => status == Failed(Some(code), false)
    case Lost => status == Failed(None, false)
    case Granted(value, issued, _) =>
      var made := FromTokens(value, Some(flight.caller), flight.started - REPLAY, now);
      if made.Some? then status.Landed? && status.session == made.value && status.issued == issued
                         && Some(status.lifetime) == value.expiresIn
      else status == Failed(None, false)
  }

  lemma OutcomeEnds(flight: Flight, reply: Reply, now: Time)
    ensures EndsBy(flight, reply, now, Outcome(flight, reply, now)) && !Gone(Outcome(flight, reply, now))
  {
    hide FromTokens;
  }

  /** In every run a flight ends as its reply says, and no other flight changes. */
  lemma EndsAsAnswered(events: seq<Event>, start: Time, digest: Digest, n: nat)
    requires Admissible(events, start, digest) && Injective(digest) && n < |events| && events[n].Settled?
    ensures var t, r, e := Run(events[..n], digest), Run(events[..n + 1], digest), events[n];
            && e.flight < |t.launched| == |r.launched|
            && (forall f :: 0 <= f < |t.launched| && f != e.flight ==> r.launched[f] == t.launched[f])
            && EndsBy(t.launched[e.flight], e.reply, e.now, r.launched[e.flight].status)
  {
    SoundAt(events, n, start, digest);
    hide Run, Admissible, Sound, AllTimely, Outcome, EndsBy;
    var t, e := Run(events[..n], digest), events[n];
    assert e.flight < |t.launched|;
    hide Allowed;
    OutcomeEnds(t.launched[e.flight], e.reply, e.now);
  }

  // ----- the recorded expiry -----

  /** In every run, whatever replica first got the tokens and however old the repeated reply is,
      a landed session ends no later than its tokens do. */
  lemma NeverOutlivesItsToken(events: seq<Event>, start: Time, digest: Digest, f: nat)
    requires Admissible(events, start, digest) && Injective(digest) && f < |Run(events, digest).launched|
    ensures var status := Run(events, digest).launched[f].status;
            status.Landed? ==> status.session.expires <= status.issued + status.lifetime * 1000
  {
    RunSound(events, start, digest);
    assert Lasting(Run(events, digest).launched[f]);
  }

  /** When a landed session is due again: exactly when its lifetime is used up by the call, the
      allowance for repeated replies and the margin. */
  lemma DueAgainIff(flight: Flight, reply: Reply, now: Time)
    requires reply.Granted? && Outcome(flight, reply, now).Landed?
    ensures Due(Outcome(flight, reply, now).session, now)
       <==> reply.value.expiresIn.value * 1000 <= (now - flight.started) + REPLAY + MARGIN
  {
  }

  /** With the configured lifetime no caller is handed a session that is already due: not when
      its flight lands, and not when it joins a landed one. */
  lemma NotDueOnReceipt(events: seq<Event>, start: Time, digest: Digest, n: nat, f: nat, now: Time)
    requires Admissible(events, start, digest) && Injective(digest)
    requires n < |events| && events[n].Call? && Waits(AnswerAt(events, n, digest), f)
    ensures f < |Run(events, digest).launched|
    ensures var flight := Run(events, digest).launched[f];
            flight.status.Landed? && flight.status.lifetime >= ACCESS_TOKEN_TTL_SECONDS && now <= flight.started + KEPT ==>
              !Due(flight.status.session, now)
  {
    WaitsForItsOwn(events, start, digest, n, f);
    RunGrows(events, start, digest, n + 1, |events|);
    assert events[..|events|] == events;
    RunSound(events, start, digest);
    assert Lasting(Run(events, digest).launched[f]);
  }

  // ----- the table in the process -----

  class Refresher {
    var entries: map<string, Entry>
    var launched: seq<Flight>

    constructor ()
      ensures Contents() == Table(map[], [])
    {
      entries := map[];
      launched := [];
    }

    function Contents(): Table
      reads this
    {
      Table(entries, launched)
    }

    method Cleanup(now: Time)
      modifies this`entries
      ensures entries == Unexpired(old(entries), now)
    {
      var ids := entries.Keys;
      ghost var all := entries;
      while ids != {}
        invariant ids <= entries.Keys <= all.Keys
        invariant forall d :: d in entries ==> entries[d] == all[d]
        invariant forall d :: d in entries && d !in ids ==> now <= all[d].expires
        invariant forall d :: d in all && now <= all[d].expires ==> d in entries
        decreases |ids|
      {
        var id :| id in ids;
        if entries[id].expires < now {
          entries := entries - {id};
        }
        ids := ids - {id};
      }
      assert entries == Unexpired(all, now);
    }

    /** A call, up to its wait. */
    method Refreshed(session: Session, force: bool, checked: Time, now: Time, digest: Digest) returns (answer: Answer)
      modifies this
      ensures (Contents(), answer) == Begin(old(Contents()), session, force, checked, now, digest)
    {
      if !force && !Due(session, checked) { return Kept; }
      var d := digest(session.refresh);
      Cleanup(now);
      if d in entries { return Joined(entries[d].flight); }
      if |entries| > CAPACITY { return Busy; }
      launched := launched + [Flight(session, now, Open)];
      entries := entries[d := Entry(now + KEPT, |launched| - 1)];
      answer := Launched(|launched| - 1);
    }

    /** A flight's end. */
    method Land(f: nat, reply: Reply, now: Time, digest: Digest)
      requires f < |launched|
      modifies this`launched
      ensures Contents() == Settle(old(Contents()), f, reply, now, digest)
    {
      var flight := launched[f];
      OutcomeUncaught(flight, reply, now);
      launched := launched[f := flight.(status := Outcome(flight, reply, now))];
    }

    /** What the call that launched a flight does about its failure. */
    method CatchFailure(f: nat, digest: Digest)
      requires f < |launched| && launched[f].status.Failed?
      modifies this
      ensures Contents() == Catch(old(Contents()), f, digest)
    {
      var flight := launched[f];
      entries := entries - {digest(flight.caller.refresh)};
      launched := launched[f := flight.(status := flight.status.(caught := true))];
    }
  }

  lemma OutcomeUncaught(flight: Flight, reply: Reply, now: Time)
    ensures !Gone(Outcome(flight, reply, now))
  {
    hide FromTokens;
  }
}
