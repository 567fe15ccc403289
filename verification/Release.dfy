/** deploy/aws/release-public-identifiers.py: the release as it runs. Every command may fail,
    before, during or after taking effect; the host records each moment. */
module Release {
  import opened Wrappers
  import opened ReplayExpiry
  import opened ReleaseProtocol

  const PLANES := [Production, Testing]
  const SERVICES := [Api, ScopedApi, Worker]
  const HEALTHY := "healthy-acceptance-gates-pending"

  /** The machine, its two databases and the release directory. */
  class Host {
    var world: World
    ghost var history: seq<World>

    ghost predicate Valid()
      reads this
    {
      Run(history) && history[|history| - 1] == world
    }

    /** The run goes on from where it was. */
    twostate predicate Continued()
      reads this
    {
      Valid() && old(history) <= history && old(world.now) <= world.now
    }

    /** Nothing but time and the writes of running services. */
    twostate predicate Elapsed()
      reads this
    {
      && Continued() && SameSchemas(old(world), world)
      && world == old(world).(now := world.now, databases := world.databases)
      && (Quiet(world) ==> world.databases == old(world.databases))
    }

    constructor (initial: World)
      requires Initial(initial)
      ensures Valid() && world == initial && history == [initial]
    {
      world := initial;
      history := [initial];
    }

    method Advance(ghost e: Event, next: World)
      requires Valid() && Step(e, world, next)
      modifies this
      ensures Valid() && world == next && history == old(history) + [next]
    {
      assert Next(world, next);
      history := history + [next];
      world := next;
    }

    /** Time passes, and services that run may write to either database. */
    method Elapse()
      requires Valid()
      modifies this
      ensures Elapsed()
    {
      var later: Time := *;
      Advance(Pass, world.(now := if later > world.now then later else world.now));
      if !Quiet(world) {
        var production: Database, testing: Database := *, *;
        var next := Planes(production.(schema := world.databases.production.schema),
                           testing.(schema := world.databases.testing.schema));
        Advance(ServiceWrites, world.(databases := next));
      }
    }

    /** A command or comparison that changes nothing the release cares about. */
    method Check() returns (ok: bool)
      requires Valid()
      modifies this
      ensures Elapsed()
    {
      Elapse();
      ok := *;
    }

    /** atomic_json of state.json: the rename may happen even when the call then fails. */
    method Save(state: State) returns (ok: bool)
      requires Valid() && Reports(state, world)
      modifies this
      ensures Continued() && SameSchemas(old(world), world)
      ensures world == old(world).(now := world.now, databases := world.databases, saved := world.saved)
      ensures Quiet(world) ==> world.databases == old(world.databases)
      ensures world.saved in {old(world.saved), Some(state)}
      ensures ok ==> world.saved == Some(state)
    {
      Elapse();
      ok := false;
      if * {
        Advance(Event.Save(state), world.(saved := Some(state)));
        ok := *;
      }
    }

    /** The isolated rehearsal on restored copies. */
    method RehearseCopies() returns (ok: bool)
      requires Valid() && !world.stopIssued
      modifies this
      ensures Continued() && SameSchemas(old(world), world)
      ensures world == old(world).(now := world.now, databases := world.databases, rehearsed := world.rehearsed)
      ensures old(world.rehearsed) || ok ==> world.rehearsed
    {
      Elapse();
      ok := *;
      if ok { Advance(Event.Rehearse, world.(rehearsed := true)); }
    }

    /** The coordinator's word that consumers are paused: its receipt, or the ready flag. */
    method ConsumeGate() returns (ok: bool)
      requires Valid() && !world.stopIssued && world.rehearsed
      modifies this
      ensures Continued() && SameSchemas(old(world), world)
      ensures world == old(world).(now := world.now, databases := world.databases, gateConsumed := world.gateConsumed)
      ensures old(world.gateConsumed) || ok ==> world.gateConsumed
    {
      Elapse();
      ok := *;
      if ok { Advance(Event.ConsumeGate, world.(gateConsumed := true)); }
    }

    /** systemctl stop: any of the services may survive it unless it is known to work. */
    method StopServices(works: bool) returns (ok: bool)
      requires Valid() && world.rehearsed && world.gateConsumed
      modifies this
      ensures Continued() && SameSchemas(old(world), world)
      ensures world == old(world).(now := world.now, databases := world.databases,
                                   running := world.running, stopIssued := true)
      ensures OnlyStops(old(world.running), world.running)
      ensures works ==> Quiet(world)
      ensures old(Quiet(world)) ==> Quiet(world) && world.databases == old(world.databases)
    {
      Elapse();
      var running := world.running;
      var k := 0;
      while k < |SERVICES|
        invariant 0 <= k <= |SERVICES|
        invariant OnlyStops(world.running, running)
        invariant works ==> forall j :: 0 <= j < k ==> running.At(SERVICES[j]) == Stopped
      {
        var survives: bool := *;
        if works || !survives {
          running := running.With(SERVICES[k], Stopped);
        }
        k := k + 1;
      }
      assert works ==> running.At(SERVICES[0]) == running.At(SERVICES[1]) == running.At(SERVICES[2]) == Stopped;
      Advance(Stop, world.(running := running, stopIssued := true));
      ok := *;
    }

    /** Both systemd and Docker are asked about every service. */
    method WritersStopped() returns (ok: bool)
      requires Valid()
      modifies this
      ensures Elapsed()
      ensures ok ==> Quiet(world)
    {
      Elapse();
      var answered: bool := *;
      ok := answered && Quiet(world);
    }

    method Dump(p: Plane) returns (ok: bool)
      requires Valid() && Quiet(world) && world.stopIssued && !world.migrationLaunched && !Expired(world)
      modifies this
      ensures Continued()
      ensures world == old(world).(now := world.now, backups := world.backups)
      ensures ok ==> world.backups == old(world.backups).With(p, Some(world.databases.At(p)))
      ensures !ok ==> world.backups == old(world.backups)
    {
      Elapse();
      ok := *;
      if ok {
        Advance(Backup(p), world.(backups := world.backups.With(p, Some(world.databases.At(p)))));
      }
    }

    /** The rows whose replay window is still open; the guard queries may refuse first. */
    method ReadLiveReplays(p: Plane) returns (ok: bool, ids: seq<Id>)
      requires Valid() && Quiet(world)
      modifies this
      ensures Continued()
      ensures world == old(world).(now := world.now)
      ensures ok && ids == [] ==> Drained(world, p)
      ensures forall i :: i in ids ==> i in world.databases.At(p).records && Live(world.databases.At(p).records[i], world.now)
    {
      Elapse();
      ok := *;
      ids := [];
      var records := world.databases.At(p).records;
      var live := set i | i in records && Live(records[i], world.now);
      while live != {}
        invariant forall i :: i in live || i in ids <==> i in records && Live(records[i], world.now)
        decreases |live|
      {
        var i :| i in live;
        live, ids := live - {i}, ids + [i];
      }
    }

    /** One replay expiry transaction; it may commit although its command reports failure. */
    method ExpireReplays(p: Plane, ids: seq<Id>) returns (ok: bool)
      requires Valid() && Quiet(world) && !world.migrationLaunched && BackedUp(world)
      requires world.saved.Some? && world.saved.value.replayExpiryStarted
      modifies this
      ensures Continued()
      ensures world == old(world).(now := world.now, databases := world.databases,
                                   expiryLaunched := old(world.expiryLaunched).With(p, true))
      ensures SameSchemas(old(world), world)
      ensures world.databases == old(world.databases).With(p, world.databases.At(p))
      ensures OthersKept(old(world.databases).At(p).records, world.databases.At(p).records, ids)
      ensures ok ==> Drained(world, p)
    {
      Elapse();
      var before := world.databases.At(p);
      var committed, after, finish := RunExpiry(before.records, ids, world.now);
      Advance(Event.ExpireReplays(p),
        world.(now := finish, databases := world.databases.With(p, before.(records := after)),
               expiryLaunched := world.expiryLaunched.With(p, true)));
      ok := *;
      ok := ok && committed;
    }

    /** iam-migrate, and afterwards the grants and the scoped helper: any effect, any outcome. */
    method WriteSchemas(write: Write) returns (ok: bool)
      requires |world.written| < |WRITES| && write == WRITES[|world.written|]
      requires Valid() && Quiet(world) && BackedUp(world)
      requires world.saved.Some? && world.saved.value.migrationStarted
      requires world.migrationLaunched || (Unmigrated(world) && Drained(world, Production) && Drained(world, Testing))
      modifies this
      ensures Continued()
      ensures world == old(world).(now := world.now, databases := world.databases, migrationLaunched := true,
                                   written := old(world.written) + [write])
    {
      var production: Database, testing: Database := *, *;
      Advance(Migrate(write), world.(databases := Planes(production, testing), migrationLaunched := true,
                                     written := world.written + [write]));
      ok := *;
    }

    /** Compares a ledger with the pinned manifest. */
    method Ledger(p: Plane, complete: bool) returns (ok: bool)
      requires Valid()
      modifies this
      ensures Elapsed()
      ensures ok ==> world.databases.At(p).schema == if complete then After else Before
    {
      Elapse();
      var answered: bool := *;
      ok := answered && world.databases.At(p).schema == if complete then After else Before;
    }

    method RewriteConfiguration() returns (ok: bool)
      requires Valid() && world.migrationLaunched && Quiet(world)
      modifies this
      ensures Continued()
      ensures world == old(world).(now := world.now, configuration := world.configuration)
      ensures ok ==> world.configuration == Rewritten
    {
      Elapse();
      var configuration: Configuration := *;
      Advance(Configure, world.(configuration := configuration));
      ok := *;
      ok := ok && configuration == Rewritten;
    }

    /** Compares the runtime configuration files with what was saved, or with its exact rewrite. */
    method CheckConfiguration(expected: Configuration) returns (ok: bool)
      requires Valid()
      modifies this
      ensures Elapsed()
      ensures ok ==> world.configuration == expected
    {
      Elapse();
      var answered: bool := *;
      ok := answered && world.configuration == expected;
    }

    method ReplaceUnit(s: Service) returns (ok: bool)
      requires Valid() && world.migrationLaunched && Quiet(world) && Migrated(world)
      modifies this
      ensures Continued()
      ensures world == old(world).(now := world.now, units := world.units)
      ensures world.units == old(world.units) || world.units == old(world.units).With(s, Current)
      ensures ok ==> world.units == old(world.units).With(s, Current)
    {
      Elapse();
      ok := false;
      if * {
        Advance(Event.ReplaceUnit(s), world.(units := world.units.With(s, Current)));
        ok := *;
      }
    }

    /** systemctl start: any of the services may come up, whatever it reports. */
    method StartServices() returns (ok: bool)
      requires Valid() && world.migrationLaunched && Migrated(world)
      requires world.units == Services(Current, Current, Current)
      modifies this
      ensures Continued()
      ensures world == old(world).(now := world.now, databases := world.databases, running := world.running)
      ensures SameSchemas(old(world), world)
    {
      Elapse();
      var running := world.running;
      var k := 0;
      while k < |SERVICES|
        invariant 0 <= k <= |SERVICES|
        invariant OnlyStarts(world.units, world.running, running)
      {
        if * {
          running := running.With(SERVICES[k], Up(world.units.At(SERVICES[k])));
        }
        k := k + 1;
      }
      Advance(Start, world.(running := running));
      ok := *;
    }

    /** docker inspect of a service's container. */
    method Inspect(s: Service) returns (ok: bool)
      requires Valid()
      modifies this
      ensures Elapsed()
      ensures ok ==> world.running.At(s) == Up(Current)
    {
      Elapse();
      var answered: bool := *;
      ok := answered && world.running.At(s) == Up(Current);
    }
  }

  /** The transaction, if it gets to the database at all, at times the database's clock chooses. */
  method RunExpiry(records: Table, ids: seq<Id>, begun: Time) returns (committed: bool, after: Table, finish: Time)
    ensures begun <= finish && OnlyExpired(records, after) && OthersKept(records, after, ids)
    ensures committed ==> forall i :: i in after ==> !Live(after[i], finish)
    ensures !committed ==> after == records
  {
    var later: Time, raw: Id -> Time := *, *;
    finish := if later > begun then later else begun;
    var clock := Clock(begun, (i: Id) => if begun <= raw(i) <= finish then raw(i) else finish, finish);
    var trigger := (row: Row) => row.(updated := begun);
    var arrived: bool := *;
    var outcome := if arrived then Expire(records, ids, clock, trigger) else RolledBack;
    committed := outcome.Committed?;
    after := if outcome.Committed? then outcome.table else records;
    if outcome.Committed? {
      CommittedExpiresExactly(records, ids, clock, trigger);
    }
  }

  /** The release object: its state in memory and the two command-line choices that matter. */
  class Release {
    const host: Host
    const rehearseOnly: bool
    const expireLiveReplays: bool
    const awaitsReceipt: bool
    var state: State

    /** The memory admits every effect, and claims an expiry or migration only over full backups. */
    ghost predicate Valid()
      reads this, host
    {
      && host.Valid() && Reports(state, host.world)
      && (state.migrationStarted || state.replayExpiryStarted ==> BackedUp(host.world))
      && (host.world.stopIssued ==> state.servicesStopped || state.migrationStarted)
      && (state.servicesStopped || state.migrationStarted ==> host.world.rehearsed && host.world.gateConsumed)
      && (!expireLiveReplays ==> !Expired(host.world) && !state.replayExpiryStarted)
    }

    /** The run goes on, and what was admitted stays admitted. */
    twostate predicate Continued()
      reads this, host
    {
      && Valid() && host.Continued()
      && (old(state.migrationStarted) ==> state.migrationStarted)
    }

    constructor (host: Host, rehearseOnly: bool, expireLiveReplays: bool, awaitsReceipt: bool)
      requires host.Valid() && Initial(host.world)
      ensures Valid() && this.host == host
      ensures this.rehearseOnly == rehearseOnly && this.expireLiveReplays == expireLiveReplays
      ensures !state.migrationStarted && !state.servicesStopped && !state.replayExpiryStarted
    {
      this.host, this.rehearseOnly, this.expireLiveReplays := host, rehearseOnly, expireLiveReplays;
      this.awaitsReceipt := awaitsReceipt;
      state := State("", false, false, false, None);
    }

    method Checkpoint(stage: string) returns (ok: bool)
      requires Valid()
      modifies this, host
      ensures Continued() && host.Continued() && SameSchemas(old(host.world), host.world)
      ensures state == old(state).(stage := stage)
      ensures host.world == old(host.world).(now := host.world.now, databases := host.world.databases,
                                             saved := host.world.saved)
      ensures Quiet(host.world) ==> host.world.databases == old(host.world.databases)
      ensures ok ==> host.world.saved == Some(state)
    {
      state := state.(stage := stage);
      ok := host.Save(state);
    }

    twostate lemma StaysDrained(p: Plane)
      requires old(host.world.now) <= host.world.now
      requires host.world.databases.At(p) == old(host.world.databases.At(p))
      ensures old(Drained(host.world, p)) ==> Drained(host.world, p)
    {
    }

    /** Writers stay stopped and nothing but plane p's rows and the account of them changes. */
    twostate predicate OnlyPrepares(p: Plane)
      reads this, host
    {
      && Continued() && Quiet(host.world) && !host.world.migrationLaunched && BackedUp(host.world)
      && SameSchemas(old(host.world), host.world)
      && state.servicesStopped && state.migrationStarted == old(state.migrationStarted)
      && host.world.databases == old(host.world.databases).With(p, host.world.databases.At(p))
      && ExpiredKept(old(host.world.databases).At(p).records, host.world.databases.At(p).records, old(host.world.now))
      && (!expireLiveReplays ==>
            && host.world.databases == old(host.world.databases)
            && host.world.expiryLaunched == old(host.world.expiryLaunched))
    }

    /** Drains one plane's replay windows, by waiting for none or by an authorised expiry. */
    method PreparePublicIds(p: Plane) returns (ok: bool)
      requires Valid() && Quiet(host.world) && !host.world.migrationLaunched && BackedUp(host.world)
      requires state.servicesStopped
      modifies this, host
      ensures OnlyPrepares(p)
      ensures ok ==> Drained(host.world, p)
    {
      hide Run, Drained;
      var ids;
      ok, ids := host.ReadLiveReplays(p);
      if !ok || ids == [] { return; }
      if !expireLiveReplays { return false; }
      ok := ExpireAuthorized(p, ids);
    }

    method ExpireAuthorized(p: Plane, ids: seq<Id>) returns (ok: bool)
      requires expireLiveReplays
      requires forall i :: i in ids ==> i in host.world.databases.At(p).records && Live(host.world.databases.At(p).records[i], host.world.now)
      requires Valid() && Quiet(host.world) && !host.world.migrationLaunched && BackedUp(host.world)
      requires state.servicesStopped
      modifies this, host
      ensures OnlyPrepares(p)
      ensures ok ==> Drained(host.world, p)
    {
      hide Run, Drained;
      ok := AdmitExpiry();
      if !ok { return; }
      ok := host.ExpireReplays(p, ids);
      if !ok { return; }
      label expired:
      ok := host.Check();  // the receipt file
      StaysDrained@expired(p);
    }

    /** Writers are seen stopped and both backups intact before the expiry is announced on disk. */
    method AdmitExpiry() returns (ok: bool)
      requires expireLiveReplays
      requires Valid() && Quiet(host.world) && !host.world.migrationLaunched && BackedUp(host.world)
      requires state.servicesStopped
      modifies this, host
      ensures Continued() && Quiet(host.world)
      ensures host.world == old(host.world).(now := host.world.now, saved := host.world.saved)
      ensures state == old(state).(stage := state.stage, replayExpiryStarted := state.replayExpiryStarted)
      ensures ok ==> state.replayExpiryStarted && host.world.saved == Some(state)
    {
      hide Run;
      ok := host.WritersStopped();
      if !ok { return; }
      ok := host.Check();  // the digests of both backups
      if !ok { return; }
      state := state.(replayExpiryStarted := true);
      ok := Checkpoint("authorized-live-replay-expiry-started");
    }

    /** Compares both ledgers with the pinned manifest. */
    method CheckLedgers(complete: bool) returns (ok: bool)
      requires Valid()
      modifies host
      ensures Continued() && host.Elapsed()
      ensures ok ==> if complete then Migrated(host.world) else Unmigrated(host.world)
    {
      hide Run;
      var k := 0;
      while k < |PLANES|
        invariant 0 <= k <= |PLANES|
        invariant Continued() && host.Elapsed()
        invariant forall j :: 0 <= j < k ==> host.world.databases.At(PLANES[j]).schema == if complete then After else Before
      {
        ok := host.Ledger(PLANES[k], complete);
        if !ok { return; }
        k := k + 1;
      }
      assert host.world.databases.At(PLANES[0]).schema == host.world.databases.At(PLANES[1]).schema
          == if complete then After else Before;
      ok := true;
    }

    /** Looking is all that happened, and the state only notes it. */
    twostate predicate OnlyNotes()
      reads this, host
    {
      Continued() && OnlyLooked(old(host.world), host.world) && state == old(state).(stage := state.stage)
    }

    /** The rehearsal passed, or nothing but time and notes has passed. */
    twostate predicate OnlyRehearses()
      reads this, host
    {
      OnlyNotes() && host.world.gateConsumed == old(host.world.gateConsumed)
    }

    /** The isolated rehearsal; a failure after its first checkpoint leaves the container and says so. */
    method Rehearse() returns (ok: bool)
      requires Valid() && !host.world.stopIssued
      modifies this, host
      ensures OnlyRehearses()
      ensures ok ==> host.world.rehearsed
    {
      hide Run;
      ok := Checkpoint("isolated-restore-rehearsal-started");
      if !ok { return; }
      ok := RehearseOnCopies();
      if ok { return; }
      var recorded := Checkpoint("isolated-rehearsal-failed-live-unchanged");
    }

    /** Dumps, restored copies, migration and comparison of the copies. */
    method RehearseOnCopies() returns (ok: bool)
      requires Valid() && !host.world.stopIssued
      modifies this, host
      ensures OnlyRehearses()
      ensures ok ==> host.world.rehearsed
    {
      hide Run;
      ok := host.RehearseCopies();
      if !ok { return; }
      ok := Checkpoint("both-databases-restored-and-cutover-rehearsed");
    }

    /** Preflight and rehearsal: the live host is only looked at. */
    method Preflight() returns (ok: bool)
      requires Valid() && !state.servicesStopped && !state.migrationStarted && !state.replayExpiryStarted
      requires !host.world.stopIssued && host.world.backups == Planes(None, None)
      modifies this, host
      ensures OnlyRehearses()
      ensures ok ==> Unmigrated(host.world) && host.world.rehearsed
    {
      hide Run;
      ok := Checkpoint("preflight");
      if !ok { return; }
      ok := host.Check();  // images, readiness, units, environment copies
      if !ok { return; }
      ok := CheckLedgers(false);
      if !ok { return; }
      ok := Rehearse();
      if !ok { return; }
      ok := Checkpoint("preflight-complete");
    }

    /** Waits for the coordinator's receipt, or takes the ready flag for it. */
    method ConsumeCutoverGate() returns (ok: bool)
      requires Valid() && !host.world.stopIssued && host.world.rehearsed
      modifies this, host
      ensures OnlyNotes()
      ensures ok ==> host.world.gateConsumed
    {
      hide Run;
      if !awaitsReceipt {
        ok := host.ConsumeGate();
        return;
      }
      ok := Checkpoint("awaiting-coordinator-cutover-gate");
      if !ok { return; }
      ok := host.ConsumeGate();
      if !ok { return; }
      ok := Checkpoint("coordinator-cutover-gate-consumed");
    }

    /** Stops every writer and saves both databases. */
    method Quiesce() returns (ok: bool)
      requires host.world.rehearsed && host.world.gateConsumed
      requires Valid() && !state.servicesStopped && !state.migrationStarted && !state.replayExpiryStarted
      requires !host.world.stopIssued && host.world.backups == Planes(None, None)
      modifies this, host
      ensures Continued() && !state.migrationStarted && !state.replayExpiryStarted && state.servicesStopped
      ensures SameSchemas(old(host.world), host.world)
      ensures ok ==> Quiet(host.world) && BackedUp(host.world) && host.world.stopIssued
    {
      hide Run;
      state := state.(servicesStopped := true);
      ok := Checkpoint("stopping-writers");
      if !ok { return; }
      ok := host.StopServices(false);
      if !ok { return; }
      ok := host.WritersStopped();
      if !ok { return; }
      ok := host.Check();  // credential fingerprints
      if !ok { return; }
      var k := 0;
      while k < |PLANES|
        invariant 0 <= k <= |PLANES|
        invariant Continued() && Quiet(host.world) && state.servicesStopped && SameSchemas(old(host.world), host.world)
        invariant host.world.stopIssued
        invariant !state.migrationStarted && !state.replayExpiryStarted
        invariant forall j :: 0 <= j < k ==> host.world.backups.At(PLANES[j]).Some?
      {
        ok := host.Dump(PLANES[k]);
        if !ok { return; }
        k := k + 1;
      }
      assert host.world.backups.At(PLANES[0]).Some? && host.world.backups.At(PLANES[1]).Some?;
      ok := host.Check();  // backups.json, the identity export and the off-host copy
      if !ok { return; }
      ok := Checkpoint("both-backups-verified");
    }

    /** Leaves no live replay row in either plane before the migration is announced. */
    method DrainReplays() returns (ok: bool)
      requires Valid() && Quiet(host.world) && !host.world.migrationLaunched && BackedUp(host.world)
      requires state.servicesStopped && !state.migrationStarted
      modifies this, host
      ensures Continued() && Quiet(host.world) && !host.world.migrationLaunched && BackedUp(host.world)
      ensures state.servicesStopped && !state.migrationStarted && SameSchemas(old(host.world), host.world)
      ensures ok ==> Drained(host.world, Production) && Drained(host.world, Testing)
    {
      hide Run, Drained;
      ok := PreparePublicIds(Production);
      if !ok { return; }
      label between:
      ok := PreparePublicIds(Testing);
      if !ok { return; }
      StaysDrained@between(Production);
      label prepared:
      ok := Checkpoint("both-planes-replay-windows-drained-or-expired");
      StaysDrained@prepared(Production);
      StaysDrained@prepared(Testing);
    }

    lemma NothingWritten()
      requires Valid() && !host.world.migrationLaunched
      ensures host.world.written == []
    {
      RunSafe(host.history);
    }

    /** Announces and runs the migration, the grants and the scoped helper. */
    method MigrateDatabases() returns (ok: bool)
      requires Valid() && Quiet(host.world) && BackedUp(host.world)
      requires state.servicesStopped && !state.migrationStarted
      requires Unmigrated(host.world) && Drained(host.world, Production) && Drained(host.world, Testing)
      requires !host.world.migrationLaunched
      modifies this, host
      ensures Continued() && state.servicesStopped
      ensures ok ==> state.migrationStarted && host.world.migrationLaunched && Quiet(host.world)
      ensures ok ==> host.world.written == WRITES
    {
      NothingWritten();
      hide Run, Drained;
      state := state.(migrationStarted := true);
      label announced:
      ok := Checkpoint("migration-started-no-image-only-rollback");
      StaysDrained@announced(Production);
      StaysDrained@announced(Testing);
      if !ok { return; }
      var k := 0;
      while k < |WRITES|
        invariant 0 <= k <= |WRITES| && (k > 0 ==> host.world.migrationLaunched)
        invariant host.world.written == WRITES[..k]
        invariant Continued() && Quiet(host.world) && BackedUp(host.world) && state.servicesStopped && state.migrationStarted
        invariant host.world.saved.Some? && host.world.saved.value.migrationStarted
        invariant host.world.migrationLaunched || (Unmigrated(host.world) && Drained(host.world, Production) && Drained(host.world, Testing))
      {
        ok := host.WriteSchemas(WRITES[k]);
        if !ok { return; }
        k := k + 1;
      }
    }

    /** Verifies both ledgers and the identities, and rewrites the mapped configuration value. */
    method VerifyMigration() returns (ok: bool)
      requires Valid() && Quiet(host.world) && host.world.migrationLaunched
      requires state.servicesStopped && state.migrationStarted
      modifies this, host
      ensures Continued() && Quiet(host.world) && host.world.migrationLaunched
      ensures state.servicesStopped && state.migrationStarted
      ensures ok ==> Migrated(host.world) && host.world.configuration == Rewritten
      ensures host.world.written == old(host.world.written)
    {
      hide Run;
      ok := CheckLedgers(true);
      if !ok { return; }
      ok := host.RewriteConfiguration();
      if !ok { return; }
      ok := host.Check();  // identity mapping and credential fingerprints
      if !ok { return; }
      ok := Checkpoint("schema-grants-ciphertext-and-scoped-helper-complete");
    }

    /** The migration is over and done: what holds from then on. */
    ghost predicate Completed()
      reads this, host
    {
      && Valid() && state.migrationStarted && host.world.migrationLaunched && Migrated(host.world)
      && host.world.configuration == Rewritten && host.world.written == WRITES
    }

    /** Installs the new image and brings it up. */
    method Restart() returns (ok: bool)
      requires Completed() && state.servicesStopped && Quiet(host.world)
      modifies this, host
      ensures Continued()
      ensures ok ==> Completed() && host.world.saved == Some(state)
      ensures ok ==> state.stage == HEALTHY && !state.servicesStopped
      ensures ok ==> host.world.units == Services(Current, Current, Current)
      ensures ok ==> host.world.running == Services(Up(Current), Up(Current), Up(Current))
    {
      hide Run;
      ok := InstallUnits();
      if !ok { return; }
      ok := host.StartServices();
      if !ok { return; }
      ok := host.Check();  // readiness and revision
      if !ok { return; }
      ok := InspectServices();
      if !ok { return; }
      state := state.(servicesStopped := false);
      ok := Checkpoint(HEALTHY);
    }

    method InstallUnits() returns (ok: bool)
      requires Completed() && state.servicesStopped && Quiet(host.world)
      modifies host
      ensures Continued() && Completed() && Quiet(host.world)
      ensures ok ==> host.world.units == Services(Current, Current, Current)
    {
      hide Run;
      var k := 0;
      while k < |SERVICES|
        invariant 0 <= k <= |SERVICES|
        invariant Continued() && Completed() && Quiet(host.world)
        invariant forall j :: 0 <= j < k ==> host.world.units.At(SERVICES[j]) == Current
      {
        ok := host.ReplaceUnit(SERVICES[k]);
        if !ok { return; }
        k := k + 1;
      }
      assert forall j :: 0 <= j < 3 ==> host.world.units.At(SERVICES[j]) == Current;
      assert host.world.units.At(SERVICES[0]) == host.world.units.At(SERVICES[1]) == host.world.units.At(SERVICES[2]) == Current;
      ok := host.Check();  // daemon-reload
    }

    method InspectServices() returns (ok: bool)
      requires Completed() && host.world.units == Services(Current, Current, Current)
      modifies host
      ensures Continued() && Completed() && host.world.units == Services(Current, Current, Current)
      ensures ok ==> host.world.running == Services(Up(Current), Up(Current), Up(Current))
    {
      hide Run;
      var k := 0;
      while k < |SERVICES|
        invariant 0 <= k <= |SERVICES|
        invariant Continued() && Completed() && host.world.units == Services(Current, Current, Current)
        invariant forall j :: 0 <= j < k ==> host.world.running.At(SERVICES[j]) == Up(Current)
      {
        ok := host.Inspect(SERVICES[k]);
        if !ok { return; }
        k := k + 1;
      }
      assert host.world.running.At(SERVICES[0]) == host.world.running.At(SERVICES[1])
          == host.world.running.At(SERVICES[2]) == Up(Current);
      ok := true;
    }

    /** The live part: from stopping the writers to the healthy new image. */
    method Cutover() returns (ok: bool)
      requires host.world.rehearsed && host.world.gateConsumed
      requires Valid() && !state.servicesStopped && !state.migrationStarted && !state.replayExpiryStarted
      requires !host.world.stopIssued && host.world.backups == Planes(None, None) && Unmigrated(host.world)
      modifies this, host
      ensures Continued()
      ensures ok ==> Finished(host.world) && host.world.migrationLaunched
    {
      hide Run, Drained;
      ok := Quiesce();
      if !ok { return; }
      ok := DrainReplays();
      if !ok { return; }
      ok := MigrateDatabases();
      if !ok { return; }
      ok := VerifyMigration();
      if !ok { return; }
      ok := Restart();
    }

    method Execute() returns (ok: bool, rooted: bool)
      requires Valid() && !state.servicesStopped && !state.migrationStarted && !state.replayExpiryStarted
      requires Initial(host.world)
      modifies this, host
      ensures Continued()
      ensures !rooted ==> !ok && host.world == old(host.world).(now := host.world.now, databases := host.world.databases)
      ensures rehearseOnly ==> !state.servicesStopped && !state.migrationStarted && OnlyLooked(old(host.world), host.world)
      ensures rehearseOnly ==> !host.world.gateConsumed
      ensures ok && rehearseOnly ==> host.world.rehearsed && Unmigrated(host.world)
      ensures ok && !rehearseOnly ==> Finished(host.world) && host.world.migrationLaunched
    {
      hide Run;
      rooted := host.Check();  // effective user and the release directory
      if !rooted { return false, false; }
      ok := Preflight();
      if !ok || rehearseOnly { return; }
      ok := ConsumeCutoverGate();
      if !ok { return; }
      ok := Cutover();
    }

    /** The operator's fallback after any exception. */
    method Failure(stopWorks: bool) returns (ok: bool)
      requires Valid()
      modifies this, host
      ensures Continued()
      ensures old(state.servicesStopped) || old(state.migrationStarted) ==> stopWorks ==> Quiet(host.world)
      ensures host.world.migrationLaunched == old(host.world.migrationLaunched)
      ensures stopWorks && host.world.stopIssued ==> Quiet(host.world)
      ensures !old(state.servicesStopped) && !old(state.migrationStarted) ==>
                OnlyLooked(old(host.world), host.world) && host.world.gateConsumed == old(host.world.gateConsumed)
      ensures state.servicesStopped == (old(state.servicesStopped) || old(state.migrationStarted))
      ensures state.recovery == Some(if old(state.migrationStarted) then RepairOrRestoreBoth
                                     else if old(state.replayExpiryStarted) then ReplayExpiryMayHaveCommitted
                                     else if old(state.servicesStopped) then NoLiveMigration else LiveUnchanged)
      ensures state.stage == if state.servicesStopped then "failed-operator-recovery-required" else "failed-live-unchanged"
      ensures state.recovery.Some? && Truthful(state.recovery.value, host.history)
      ensures ok ==> host.world.saved == Some(state)
    {
      if state.servicesStopped || state.migrationStarted {
        var stopped := host.StopServices(stopWorks);
        state := state.(servicesStopped := true);
      }
      state := state.(recovery := Some(
        if state.migrationStarted then RepairOrRestoreBoth
        else if state.replayExpiryStarted then ReplayExpiryMayHaveCommitted
        else if state.servicesStopped then NoLiveMigration
        else LiveUnchanged));
      ok := Checkpoint(if state.servicesStopped then "failed-operator-recovery-required" else "failed-live-unchanged");
      RunSafe(host.history);
      RunRestorable(host.history);
    }
  }

  /** Nothing of the live host changed but the release's own files and what running services wrote. */
  predicate OnlyLooked(before: World, after: World) {
    && after == before.(now := after.now, databases := after.databases, saved := after.saved,
                        rehearsed := after.rehearsed, gateConsumed := after.gateConsumed)
    && (before.rehearsed ==> after.rehearsed) && (before.gateConsumed ==> after.gateConsumed)
    && SameSchemas(before, after)
  }

  /** All services run the new image on fully migrated databases. */
  predicate Finished(w: World) {
    && w.units == Services(Current, Current, Current)
    && w.running == Services(Up(Current), Up(Current), Up(Current))
    && Migrated(w) && w.written == WRITES && w.configuration == Rewritten
    && w.saved.Some? && w.saved.value.stage == HEALTHY && w.saved.value.migrationStarted && !w.saved.value.servicesStopped
  }

  /** Rows that were not live to begin with are as they were. */
  ghost predicate ExpiredKept(before: Table, after: Table, now: Time) {
    forall i :: i in before && !Live(before[i], now) ==> i in after && after[i] == before[i]
  }

  /** All rows but the listed ones are as they were. */
  ghost predicate OthersKept(before: Table, after: Table, ids: seq<Id>) {
    forall i :: i in before && i !in ids ==> i in after && after[i] == before[i]
  }

  /** The release command: whatever fails, every moment was safe and the report is true. */
  method RunRelease(host: Host, rehearseOnly: bool, expireLiveReplays: bool, awaitsReceipt: bool, stopWorks: bool)
    returns (ok: bool, rooted: bool, release: Release)
    requires host.Valid() && Initial(host.world)
    modifies host
    ensures host.Continued() && release.host == host
    ensures forall i :: 0 <= i < |host.history| ==> Safe(host.history[0], host.history[i]) && Restorable(host.history, i)
    ensures !expireLiveReplays ==> !Expired(host.world)
    ensures rehearseOnly ==> OnlyLooked(old(host.world), host.world)
    ensures rehearseOnly ==> !host.world.stopIssued && !Expired(host.world) && !host.world.migrationLaunched
    ensures rehearseOnly ==> !host.world.gateConsumed && host.world.configuration == Original
    ensures ok && rehearseOnly ==> host.world.rehearsed && Unmigrated(host.world)
    ensures ok && !rehearseOnly ==> Finished(host.world)
    ensures !ok && stopWorks && (host.world.stopIssued || host.world.migrationLaunched) ==> Quiet(host.world)
    ensures !ok && rooted ==>
              release.state.recovery.Some? && Truthful(release.state.recovery.value, host.history)
  {
    release := new Release(host, rehearseOnly, expireLiveReplays, awaitsReceipt);
    ok, rooted := release.Execute();
    if ok {
      ok := host.CheckConfiguration(if rehearseOnly then Original else Rewritten);
    }
    if !ok && rooted {
      var recorded := release.Failure(stopWorks);
    }
    RunSafe(host.history);
    RunRestorable(host.history);
  }
}
