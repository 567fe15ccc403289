/** What the public-identifier release may do to the host and the two databases, as guarded
    events; every run of those events keeps the host recoverable. The release script is
    shown in Release.dfy to perform no other events, wherever it fails. */
module ReleaseProtocol {
  import opened Wrappers
  import opened ReplayExpiry

  datatype Plane = Production | Testing
  datatype Service = Api | ScopedApi | Worker
  datatype Image = Previous | Current
  datatype Running = Stopped | Up(image: Image)

  /** Before: exactly the ledger without migration 118. After: exactly the full ledger. */
  datatype Schema = Before | After | Torn

  /** `data` stands for everything outside the ledger and the replay table. */
  datatype Database = Database(schema: Schema, records: Table, data: int)

  datatype Planes<T> = Planes(production: T, testing: T) {
    function At(p: Plane): T {
      if p.Production? then production else testing
    }

    function With(p: Plane, value: T): Planes<T> {
      if p.Production? then this.(production := value) else this.(testing := value)
    }
  }

  datatype Services<T> = Services(api: T, scopedApi: T, worker: T) {
    function At(s: Service): T {
      match s case Api => api case ScopedApi => scopedApi case Worker => worker
    }

    function With(s: Service, value: T): Services<T> {
      match s
      case Api => this.(api := value)
      case ScopedApi => this.(scopedApi := value)
      case Worker => this.(worker := value)
    }
  }

  datatype Recovery = RepairOrRestoreBoth | ReplayExpiryMayHaveCommitted | NoLiveMigration | LiveUnchanged

  /** The release's own account, kept in memory and written to state.json by checkpoints. */
  datatype State = State(stage: string, migrationStarted: bool, servicesStopped: bool,
                         replayExpiryStarted: bool, recovery: Option<Recovery>)

  /** The runtime configuration files: as saved, with the mapped value rewritten, or in between. */
  datatype Configuration = Original | Rewritten | Between

  /** The commands that write both schemas, in their order. */
  datatype Write = MigrateSchemas | GrantRuntime(plane: Plane) | InstallScopedHelper

  const WRITES := [MigrateSchemas, GrantRuntime(Production), GrantRuntime(Testing), InstallScopedHelper]

  /** The fields from `rehearsed` on record what was passed and which effects were ever set going. */
  datatype World = World(
    now: Time,
    databases: Planes<Database>,
    running: Services<Running>,
    units: Services<Image>,
    configuration: Configuration,
    saved: Option<State>,
    backups: Planes<Option<Database>>,
    rehearsed: bool,
    gateConsumed: bool,
    stopIssued: bool,
    expiryLaunched: Planes<bool>,
    migrationLaunched: bool,
    written: seq<Write>)

  predicate Quiet(w: World) {
    w.running == Services(Stopped, Stopped, Stopped)
  }

  predicate RunsNowhere(image: Image, w: World) {
    w.running.api != Up(image) && w.running.scopedApi != Up(image) && w.running.worker != Up(image)
  }

  /** Each service does what it did before or is stopped. */
  predicate OnlyStops(before: Services<Running>, after: Services<Running>) {
    && after.api in {Stopped, before.api}
    && after.scopedApi in {Stopped, before.scopedApi}
    && after.worker in {Stopped, before.worker}
  }

  /** Each service does what it did before or runs the image its unit names. */
  predicate OnlyStarts(units: Services<Image>, before: Services<Running>, after: Services<Running>) {
    && after.api in {before.api, Up(units.api)}
    && after.scopedApi in {before.scopedApi, Up(units.scopedApi)}
    && after.worker in {before.worker, Up(units.worker)}
  }

  predicate SameSchemas(a: World, b: World) {
    && a.databases.production.schema == b.databases.production.schema
    && a.databases.testing.schema == b.databases.testing.schema
  }

  predicate Migrated(w: World) {
    w.databases.production.schema == After && w.databases.testing.schema == After
  }

  predicate Unmigrated(w: World) {
    w.databases.production.schema == Before && w.databases.testing.schema == Before
  }

  predicate BackedUp(w: World) {
    w.backups.production.Some? && w.backups.testing.Some?
  }

  predicate Expired(w: World) {
    w.expiryLaunched.production || w.expiryLaunched.testing
  }

  ghost predicate Drained(w: World, p: Plane) {
    forall i :: i in w.databases.At(p).records ==> !Live(w.databases.At(p).records[i], w.now)
  }

  /** `after` differs from `before` at most in expiry and update times. */
  ghost predicate OnlyExpired(before: Table, after: Table) {
    before.Keys == after.Keys && forall i :: i in before ==> ReceiptOf(after[i]) == ReceiptOf(before[i])
  }

  /** The state admits every database effect that was set going. */
  predicate Reports(s: State, w: World) {
    (w.migrationLaunched ==> s.migrationStarted) && (Expired(w) ==> s.replayExpiryStarted)
  }

  datatype Event =
    | Pass
    | ServiceWrites
    | Save(state: State)
    | Rehearse
    | ConsumeGate
    | Stop
    | Backup(plane: Plane)
    | ExpireReplays(plane: Plane)
    | Migrate(write: Write)
    | Configure
    | ReplaceUnit(service: Service)
    | Start

  ghost predicate Step(e: Event, a: World, b: World) {
    && a.now <= b.now
    && match e
       case Pass => b == a.(now := b.now)
       case ServiceWrites =>
         && !Quiet(a)
         && SameSchemas(a, b)
         && b == a.(now := b.now, databases := b.databases)
       case Save(state) =>
         Reports(state, a) && b == a.(now := b.now, saved := Some(state))
       case Rehearse =>
         !a.stopIssued && b == a.(now := b.now, rehearsed := true)
       case ConsumeGate =>
         a.rehearsed && !a.stopIssued && b == a.(now := b.now, gateConsumed := true)
       case Stop =>
         && a.rehearsed && a.gateConsumed
         && OnlyStops(a.running, b.running)
         && b == a.(now := b.now, running := b.running, stopIssued := true)
       case Backup(p) =>
         && Quiet(a) && a.stopIssued && !a.migrationLaunched && !Expired(a)
         && b == a.(now := b.now, backups := a.backups.With(p, Some(a.databases.At(p))))
       case ExpireReplays(p) =>
         && Quiet(a) && !a.migrationLaunched && BackedUp(a)
         && a.saved.Some? && a.saved.value.replayExpiryStarted
         && var before, after := a.databases.At(p), b.databases.At(p);
         && OnlyExpired(before.records, after.records)
         && b == a.(now := b.now, databases := a.databases.With(p, before.(records := after.records)),
                    expiryLaunched := a.expiryLaunched.With(p, true))
       case Migrate(write) =>
         && Quiet(a) && BackedUp(a)
         && a.saved.Some? && a.saved.value.migrationStarted
         && (a.migrationLaunched || (Unmigrated(a) && Drained(a, Production) && Drained(a, Testing)))
         && |a.written| < |WRITES| && write == WRITES[|a.written|]
         && b == a.(now := b.now, databases := b.databases, migrationLaunched := true, written := a.written + [write])
       case Configure =>
         a.migrationLaunched && Quiet(a) && b == a.(now := b.now, configuration := b.configuration)
       case ReplaceUnit(s) =>
         && a.migrationLaunched && Quiet(a) && Migrated(a)
         && b == a.(now := b.now, units := a.units.With(s, Current))
       case Start =>
         && a.migrationLaunched && Migrated(a) && a.units == Services(Current, Current, Current)
         && OnlyStarts(a.units, a.running, b.running)
         && b == a.(now := b.now, running := b.running)
  }

  ghost predicate Next(a: World, b: World) {
    exists e :: Step(e, a, b)
  }

  /** The host before a release: nothing done, and only the previous image in use. */
  ghost predicate Initial(w: World) {
    && w.saved == None && w.backups == Planes(None, None)
    && !w.rehearsed && !w.gateConsumed && w.configuration == Original
    && !w.stopIssued && w.expiryLaunched == Planes(false, false) && !w.migrationLaunched && w.written == []
    && RunsNowhere(Current, w)
  }

  ghost predicate Run(worlds: seq<World>) {
    && worlds != [] && Initial(worlds[0])
    && forall i :: 0 <= i < |worlds| - 1 ==> Next(worlds[i], worlds[i + 1])
  }

  // ----- what every moment of a run satisfies -----

  /** state.json never under-reports a database effect. */
  ghost predicate SavedStateReports(w: World) {
    w.migrationLaunched || Expired(w) ==> w.saved.Some? && Reports(w.saved.value, w)
  }

  /** After the migration is launched the previous image runs nowhere, and the new image
      never runs on a database that is not fully migrated. */
  ghost predicate ImagesMatchSchemas(w: World) {
    && (w.migrationLaunched ==> RunsNowhere(Previous, w))
    && (RunsNowhere(Current, w) || (w.migrationLaunched && Migrated(w)))
  }

  /** The saved copy is the live database, but for replay expiry if that was launched. */
  ghost predicate Holds(backup: Database, live: Database, expired: bool) {
    && live == backup.(records := live.records)
    && OnlyExpired(backup.records, live.records)
    && (!expired ==> live == backup)
  }

  ghost predicate BackupHolds(w: World, p: Plane) {
    w.backups.At(p).Some? ==> Quiet(w) && Holds(w.backups.At(p).value, w.databases.At(p), w.expiryLaunched.At(p))
  }

  /** Until the migration is launched, each backup is the database apart from replay expiry. */
  ghost predicate BackupsHold(w: World) {
    && (w.migrationLaunched || Expired(w) ==> BackedUp(w))
    && (!w.migrationLaunched ==> BackupHolds(w, Production) && BackupHolds(w, Testing))
  }

  /** The migration only ever starts from the exact ledgers that precede it. */
  ghost predicate MigratesOnce(first: World, w: World) {
    w.migrationLaunched ==> Unmigrated(first)
  }

  /** What has not been set going has not happened. */
  ghost predicate NothingElseChanged(first: World, w: World) {
    && (!w.migrationLaunched ==>
          && w.units == first.units && w.configuration == first.configuration
          && SameSchemas(first, w) && OnlyStops(first.running, w.running))
    && (!w.migrationLaunched && !w.stopIssued ==> w.running == first.running)
  }

  /** Nothing live is touched before the rehearsal has passed and the coordinator's gate was
      consumed, and the schema commands run in their order, each at most once. */
  ghost predicate Gated(w: World) {
    && (w.stopIssued ==> w.rehearsed && w.gateConsumed)
    && (w.backups != Planes(None, None) || Expired(w) || w.migrationLaunched ==> w.stopIssued)
    && (w.migrationLaunched <==> w.written != []) && w.written <= WRITES
  }

  ghost predicate Safe(first: World, w: World) {
    SavedStateReports(w) && ImagesMatchSchemas(w) && BackupsHold(w) && NothingElseChanged(first, w)
    && MigratesOnce(first, w) && Gated(w)
  }

  lemma InitialSafe(w: World)
    requires Initial(w)
    ensures Safe(w, w)
  {
  }

  lemma StepReports(e: Event, first: World, a: World, b: World)
    requires Safe(first, a) && Step(e, a, b)
    ensures SavedStateReports(b)
  {
    hide BackupsHold, ImagesMatchSchemas, NothingElseChanged, MigratesOnce, Gated, OnlyExpired, Drained, OnlyStops, OnlyStarts;
  }

  lemma StepImages(e: Event, first: World, a: World, b: World)
    requires Safe(first, a) && Step(e, a, b)
    ensures ImagesMatchSchemas(b)
  {
    hide BackupsHold, SavedStateReports, NothingElseChanged, MigratesOnce, Gated, OnlyExpired, Drained, Reports;
  }

  lemma StepBackups(e: Event, first: World, a: World, b: World)
    requires Safe(first, a) && Step(e, a, b)
    ensures BackupsHold(b)
  {
    hide ImagesMatchSchemas, SavedStateReports, NothingElseChanged, MigratesOnce, Gated, Drained, Reports;
  }

  lemma StepChanges(e: Event, first: World, a: World, b: World)
    requires RunsNowhere(Current, first) && Safe(first, a) && Step(e, a, b)
    ensures NothingElseChanged(first, b) && MigratesOnce(first, b)
  {
    hide ImagesMatchSchemas, SavedStateReports, BackupsHold, OnlyExpired, Drained, Reports, Gated;
  }

  lemma StepGated(e: Event, first: World, a: World, b: World)
    requires Safe(first, a) && Step(e, a, b)
    ensures Gated(b)
  {
    hide ImagesMatchSchemas, SavedStateReports, NothingElseChanged, MigratesOnce, OnlyExpired, Drained, Reports, BackupHolds;
    hide Quiet, OnlyStops, OnlyStarts, SameSchemas, WRITES;
    if e.Migrate? { WritesGrow(a.written, e.write); }
  }

  lemma WritesGrow(written: seq<Write>, write: Write)
    requires written <= WRITES && |written| < |WRITES| && write == WRITES[|written|]
    ensures written + [write] <= WRITES
  {
    hide WRITES;
  }

  lemma StepSafe(e: Event, first: World, a: World, b: World)
    requires RunsNowhere(Current, first)
    requires Safe(first, a) && Step(e, a, b)
    ensures Safe(first, b)
  {
    StepReports(e, first, a, b);
    StepImages(e, first, a, b);
    StepBackups(e, first, a, b);
    StepChanges(e, first, a, b);
    StepGated(e, first, a, b);
    hide Step, SavedStateReports, ImagesMatchSchemas, BackupsHold, NothingElseChanged, MigratesOnce, Gated;
  }

  /** Every moment of every run is safe, wherever the run stops. */
  lemma {:induction false} RunSafe(worlds: seq<World>)
    requires Run(worlds)
    ensures forall i :: 0 <= i < |worlds| ==> Safe(worlds[0], worlds[i])
    decreases |worlds|
  {
    if |worlds| == 1 {
      InitialSafe(worlds[0]);
    } else {
      var before := worlds[..|worlds| - 1];
      RunSafe(before);
      var a, b := worlds[|worlds| - 2], worlds[|worlds| - 1];
      assert a == before[|before| - 1] && Next(a, b);
      var e :| Step(e, a, b);
      StepSafe(e, worlds[0], a, b);
    }
  }

  // ----- what the backups are once the migration was launched -----

  /** The moment the migration was launched from: both planes migrate-ready, drained and quiet, and
      the backups, the same ever since, are their databases but for replay expiry. */
  ghost predicate RestorePoint(v: World, w: World) {
    && !v.migrationLaunched && v.backups == w.backups && BackedUp(v)
    && BackupHolds(v, Production) && BackupHolds(v, Testing)
    && Unmigrated(v) && Drained(v, Production) && Drained(v, Testing)
  }

  ghost predicate Restorable(worlds: seq<World>, i: nat)
    requires i < |worlds|
  {
    worlds[i].migrationLaunched ==> exists k :: 0 <= k < i && RestorePoint(worlds[k], worlds[i])
  }

  /** The step that launches the migration leaves such a moment behind. */
  lemma LaunchRestorable(e: Event, first: World, a: World, b: World)
    requires Safe(first, a) && Step(e, a, b) && !a.migrationLaunched && b.migrationLaunched
    ensures RestorePoint(a, b)
  {
    hide SavedStateReports, ImagesMatchSchemas, NothingElseChanged, MigratesOnce, Gated, Drained, OnlyExpired, BackupHolds;
  }

  /** No later step makes new backups. */
  lemma BackupsStay(e: Event, a: World, b: World)
    requires Step(e, a, b) && a.migrationLaunched
    ensures b.migrationLaunched && b.backups == a.backups
  {
    hide Drained, OnlyExpired, Reports, OnlyStops, OnlyStarts;
  }

  /** In every run, whatever the migration has done since it was launched, the backups are those of
      the moment it was launched from. */
  lemma {:induction false} RunRestorable(worlds: seq<World>)
    requires Run(worlds)
    ensures forall i :: 0 <= i < |worlds| ==> Restorable(worlds, i)
    decreases |worlds|
  {
    hide Safe, Run, Restorable, Step;
    if |worlds| > 1 {
      var n := |worlds| - 1;
      var e := LastStep(worlds);
      RunRestorable(worlds[..n]);
      LastRestorable(worlds, e);
      forall i | 0 <= i < n ensures Restorable(worlds, i) {
        PrefixRestorable(worlds, n, i);
      }
    } else {
      RunStarts(worlds);
    }
  }

  lemma RunStarts(worlds: seq<World>)
    requires Run(worlds)
    ensures Restorable(worlds, 0)
  {
  }

  lemma LastStep(worlds: seq<World>) returns (e: Event)
    requires Run(worlds) && |worlds| > 1
    ensures var n := |worlds| - 1;
            Run(worlds[..n]) && Step(e, worlds[n - 1], worlds[n]) && Safe(worlds[0], worlds[n - 1])
  {
    var n := |worlds| - 1;
    RunSafe(worlds);
    hide Step, Safe;
    assert forall i :: 0 <= i < n ==> worlds[..n][i] == worlds[i];
    assert Next(worlds[n - 1], worlds[n - 1 + 1]);
    e :| Step(e, worlds[n - 1], worlds[n]);
  }

  lemma PrefixRestorable(worlds: seq<World>, n: nat, i: nat)
    requires i < n <= |worlds| && Restorable(worlds[..n], i)
    ensures Restorable(worlds, i)
  {
    hide RestorePoint;
    if worlds[i].migrationLaunched {
      var k :| 0 <= k < i && RestorePoint(worlds[..n][k], worlds[..n][i]);
      assert RestorePoint(worlds[k], worlds[i]);
    }
  }

  lemma LastRestorable(worlds: seq<World>, e: Event)
    requires |worlds| > 1
    requires var n := |worlds| - 1;
             && Safe(worlds[0], worlds[n - 1]) && Step(e, worlds[n - 1], worlds[n])
             && Restorable(worlds[..n], n - 1)
    ensures Restorable(worlds, |worlds| - 1)
  {
    var n := |worlds| - 1;
    var a, b := worlds[n - 1], worlds[n];
    if a.migrationLaunched {
      BackupsStay(e, a, b);
      var k :| 0 <= k < n - 1 && RestorePoint(worlds[..n][k], worlds[..n][n - 1]);
      assert RestorePoint(worlds[k], b) by { SameBackups(worlds[k], a, b); }
    } else if b.migrationLaunched {
      LaunchRestorable(e, worlds[0], a, b);
    }
    hide Step, Safe, RestorePoint;
  }

  lemma SameBackups(v: World, a: World, b: World)
    requires RestorePoint(v, a) && a.backups == b.backups
    ensures RestorePoint(v, b)
  {
  }

  // ----- the recovery texts -----

  /** What each recovery text tells the operator about the host, at the end of its history. */
  ghost predicate Truthful(r: Recovery, worlds: seq<World>)
    requires worlds != []
  {
    var first, w := worlds[0], worlds[|worlds| - 1];
    match r
    case LiveUnchanged =>
      && !w.stopIssued && !Expired(w) && !w.migrationLaunched
      && w.running == first.running && w.units == first.units && w.configuration == first.configuration
      && SameSchemas(first, w)
    case NoLiveMigration =>
      && !Expired(w) && !w.migrationLaunched
      && w.units == first.units && w.configuration == first.configuration && SameSchemas(first, w)
      && BackupsHold(w)
    case ReplayExpiryMayHaveCommitted =>
      && !w.migrationLaunched && BackedUp(w) && BackupsHold(w)
      && w.units == first.units && w.configuration == first.configuration && SameSchemas(first, w)
    case RepairOrRestoreBoth =>
      BackedUp(w) && BackupsHold(w) && ImagesMatchSchemas(w) && Restorable(worlds, |worlds| - 1)
  }
}
