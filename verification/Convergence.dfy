/**
 * Any number of devices of one scope and their server, over any run of local
 * writes, pulls, pushes, lost replies, conflicts, crashes between commits and
 * gc (packages/core/src/sync/synchronize.ts over packages/server/src/engine.ts).
 * One synchronize run per database at a time, as its in-flight registry and
 * the driver's sync lease arrange.
 */
module Convergence {
  import opened RawRecords
  import opened MemoryStores
  import opened SyncTypes
  import opened SyncContracts
  import opened Cursors
  import opened LocalDatabases
  import opened RemoteApply
  import opened PushLocal
  import opened ServerRuns
  import opened Knowledge

  /** Where a device is in its run: what it last sent or last received. */
  datatype Phase =
    | Idle
    | PullAnswered(seen: Db, args: PullArgs, reply: PullReply, replacement: bool)
    | Fetched(frozen: LocalRows, local: LocalChanges)
    | PushAnswered(frozen: LocalRows, local: LocalChanges, pre: Db, post: Db, pushed: PushReply, floorSeen: nat)

  datatype Device = Device(rows: LocalRows, cursor: Option<string>, phase: Phase)

  datatype World = World(db: Db, devices: map<nat, Device>)

  /** How much of the last write block committed before the run ended. */
  datatype Take = MarkOnly | MarkAndApply | Adopt

  datatype Event =
    | LocalWriteAt(d: nat, w: LocalWrite)
    | AnswerPull(d: nat, migration: bool, pullReply: PullReply)
    | AnswerResync(d: nat, resyncReply: PullReply)
    | ApplyPull(d: nat, adopt: bool)
    | FetchAt(d: nat, local: LocalChanges)
    | AnswerPush(d: nat, pushReply: PushReply, floorSeen: nat)
    | MarkPush(d: nat, marked: LocalRows, take: Take)
    | GiveUp(d: nat)
    | ServerAlone(step: ServerStep)

  /** The protocol's fixed surroundings: one scope, one schema on every device, the server's tables. */
  datatype Setting = Setting(config: Config, schema: Schema, scope: string)

  predicate ValidSetting(s: Setting) {
    ValidSchema(s.schema) && SyncedTables(s.schema, s.config.tables)
  }

  /** A gc, or a pull or push of another scope. */
  predicate IsAlone(s: Setting, step: ServerStep) {
    step.GcStep? || step.scope != s.scope
  }

  /** One step of the device an event names, with the store before and after. */
  ghost predicate DeviceStep(s: Setting, db: Db, dev: Device, e: Event, db': Db, dev': Device) {
    match e
    case LocalWriteAt(_, w) =>
      db' == db && dev' == dev.(rows := AfterWrite(s.schema, dev.rows, w))
    case AnswerPull(_, migration, reply) =>
      && dev.phase.Idle? && db' == db
      && PullContract(db, s.scope, s.config.tables, PullArgs(dev.cursor, migration), reply)
      && dev' == dev.(phase := PullAnswered(db, PullArgs(dev.cursor, migration), reply, false))
    case AnswerResync(_, reply) =>
      && dev.phase.PullAnswered? && dev.phase.reply.ResyncRequired? && !dev.phase.replacement && db' == db
      && PullContract(db, s.scope, s.config.tables, PullArgs(None, false), reply)
      && dev' == dev.(phase := PullAnswered(db, PullArgs(None, false), reply, true))
    case ApplyPull(_, adopt) =>
      && dev.phase.PullAnswered? && dev.phase.reply.Pulled? && db' == db
      && !ApplyFails(s.schema, dev.rows, dev.phase.reply.changes)
      && IsApplied(s.schema, dev.rows, dev.phase.reply.changes, dev.phase.replacement, dev'.rows)
      && (adopt || dev.cursor.Some?)
      && dev'.cursor == (if adopt then Some(dev.phase.reply.cursor) else dev.cursor)
      && dev'.phase == Idle
    case FetchAt(_, local) =>
      && dev.phase.Idle? && dev.cursor.Some? && db' == db
      && SnapshotOf(s.schema, dev.rows, local)
      && dev' == dev.(phase := Fetched(dev.rows, local))
    case AnswerPush(_, reply, floorSeen) =>
      && dev.phase.Fetched? && dev.cursor.Some?
      && Steps(s.config, db, PushStep(s.scope, PushArgs(dev.phase.local.changes, dev.cursor.value), reply, floorSeen), db')
      && dev' == dev.(phase := PushAnswered(dev.phase.frozen, dev.phase.local, db, db', reply, floorSeen))
    case MarkPush(_, marked, take) =>
      && dev.phase.PushAnswered? && dev.phase.pushed.Pushed? && db' == db
      && IsMarked(dev.rows, dev.phase.local, dev.phase.pushed.rejected, marked)
      && dev'.phase == Idle
      && (if take == MarkOnly then dev'.rows == marked && dev'.cursor == dev.cursor
          else
            && dev.phase.pushed.cursor.Some? && dev.phase.pushed.changes.Some?
            && !ApplyFails(s.schema, marked, dev.phase.pushed.changes.value)
            && IsApplied(s.schema, marked, dev.phase.pushed.changes.value, false, dev'.rows)
            && dev'.cursor == if take == Adopt then dev.phase.pushed.cursor else dev.cursor)
    case GiveUp(_) =>
      db' == db && dev' == dev.(phase := Idle)
    case ServerAlone(_) => false
  }

  ghost predicate Next(s: Setting, a: World, e: Event, b: World) {
    && b.db.rev <= MAX_SAFE
    && b.devices.Keys == a.devices.Keys
    && (if e.ServerAlone? then IsAlone(s, e.step) && Steps(s.config, a.db, e.step, b.db) && b.devices == a.devices
        else
          && e.d in a.devices
          && DeviceStep(s, a.db, a.devices[e.d], e, b.db, b.devices[e.d])
          && forall d :: d in a.devices && d != e.d ==> b.devices[d] == a.devices[d])
  }

  // ----- the invariant -----

  /** Up to its cursor, unless the floor has passed it, the device knows the store. */
  ghost predicate CursorSound(s: Setting, db: Db, dev: Device) {
    match dev.cursor
    case None => forall k :: k in dev.rows && k.table in s.config.tables ==> IsDirty(dev.rows[k])
    case Some(cursor) =>
      && DecodeCursor(cursor).Some?
      && SinceOf(dev.cursor) <= db.rev
      && (SinceOf(dev.cursor) < db.floor || Knows(s.schema, s.config.tables, s.scope, dev.rows, db, SinceOf(dev.cursor)))
  }

  ghost predicate SnapshotSound(s: Setting, seen: Db, db: Db) {
    && ValidDb(seen) && seen.rev <= MAX_SAFE
    && HoldsDeliverable(s.schema, s.config.tables, s.scope, seen)
    && Evolved(seen, db)
  }

  ghost predicate PhaseSound(s: Setting, db: Db, dev: Device) {
    match dev.phase
    case Idle => true
    case PullAnswered(seen, args, reply, replacement) =>
      reply.Pulled? ==>
        && SnapshotSound(s, seen, db)
        && PullContract(seen, s.scope, s.config.tables, args, reply)
        && SinceOf(dev.cursor) <= seen.rev
        && (if replacement then args == PullArgs(None, false)
            else args.cursor == dev.cursor && Knows(s.schema, s.config.tables, s.scope, dev.rows, seen, SinceOf(dev.cursor)))
    case Fetched(frozen, local) => dev.cursor.Some? && InFlight(s.schema, frozen, local, dev.rows)
    case PushAnswered(frozen, local, pre, post, reply, floorSeen) =>
      dev.cursor.Some? && (reply.Pushed? ==>
        && InFlight(s.schema, frozen, local, dev.rows)
        && SnapshotSound(s, pre, post) && SnapshotSound(s, post, db)
        && PushContract(s.config, pre, post, s.scope, PushArgs(local.changes, dev.cursor.value), reply, floorSeen)
        && SinceOf(dev.cursor) <= pre.rev
        && (SinceOf(dev.cursor) < pre.floor || Knows(s.schema, s.config.tables, s.scope, dev.rows, pre, SinceOf(dev.cursor))))
  }

  ghost predicate DeviceSound(s: Setting, db: Db, dev: Device) {
    RowsOk(dev.rows, s.schema) && CursorSound(s, db, dev) && PhaseSound(s, db, dev)
  }

  ghost predicate ServerSound(s: Setting, db: Db) {
    ValidDb(db) && db.rev <= MAX_SAFE && HoldsDeliverable(s.schema, s.config.tables, s.scope, db)
  }

  ghost predicate Sound(s: Setting, w: World) {
    ServerSound(s, w.db) && forall d :: d in w.devices ==> DeviceSound(s, w.db, w.devices[d])
  }

  // ----- what the server does leaves devices sound -----

  lemma CursorStaysSound(s: Setting, a: Db, b: Db, dev: Device)
    requires Evolved(a, b) && CursorSound(s, a, dev)
    ensures CursorSound(s, b, dev)
  {
    hide Knows, Evolved;
    assert a.rev <= b.rev && a.floor <= b.floor by { EvolvedMonotone(a, b); }
    if dev.cursor.Some? && SinceOf(dev.cursor) >= b.floor {
      KnowsEvolves(s.schema, s.config.tables, s.scope, dev.rows, a, b, SinceOf(dev.cursor));
    }
  }

  lemma EvolvedMonotone(a: Db, b: Db)
    requires Evolved(a, b)
    ensures a.rev <= b.rev && a.floor <= b.floor
  {
  }

  lemma SnapshotStaysSound(s: Setting, seen: Db, a: Db, b: Db)
    requires SnapshotSound(s, seen, a) && ValidDb(a) && Evolved(a, b)
    ensures SnapshotSound(s, seen, b)
  {
    hide ValidDb, HoldsDeliverable, Evolved;
    EvolvedTrans(seen, a, b);
  }

  lemma DeviceStaysSound(s: Setting, a: Db, b: Db, dev: Device)
    requires ValidDb(a) && Evolved(a, b) && DeviceSound(s, a, dev)
    ensures DeviceSound(s, b, dev)
  {
    hide ValidDb, HoldsDeliverable, Evolved, RowsOk, Knows, InFlight, PullContract, PushContract, CursorSound, SnapshotSound;
    CursorStaysSound(s, a, b, dev);
    match dev.phase
    case PullAnswered(seen, _, reply, _) =>
      if reply.Pulled? { SnapshotStaysSound(s, seen, a, b); }
    case PushAnswered(_, _, _, post, reply, _) =>
      if reply.Pushed? { SnapshotStaysSound(s, post, a, b); }
    case _ =>
  }

  /** What the scope's devices may be sent is untouched by gc and by other scopes. */
  lemma AloneKeepsDeliverable(s: Setting, a: Db, step: ServerStep, b: Db)
    requires ServerSound(s, a) && IsAlone(s, step) && Steps(s.config, a, step, b)
    ensures HoldsDeliverable(s.schema, s.config.tables, s.scope, b)
  {
    AloneKeepsRows(s, a, step, b);
    hide Steps, IsAlone, Deliverable, ValidDb;
    forall k | k in b.rows && k.scope == s.scope && k.key.table in s.config.tables && k.key.table in s.schema && !b.rows[k].deleted
      ensures Deliverable(b.rows[k].row, s.schema[k.key.table])
    {
      assert Lookup(b.rows, k) == Lookup(a.rows, k);
    }
  }

  lemma AloneKeepsRows(s: Setting, a: Db, step: ServerStep, b: Db)
    requires IsAlone(s, step) && Steps(s.config, a, step, b)
    ensures forall k :: k in b.rows && k.scope == s.scope ==> Lookup(b.rows, k) == Lookup(a.rows, k)
  {
    if step.PushStep? && step.pushReply.Pushed? {
      hide StatementFor, Refusable, Admissible, Replaceable, NoStaleOverwrite, CompleteReply, Judgement, CursorReached, ValidDb;
      forall k | k in b.rows && k.scope == s.scope ensures Lookup(b.rows, k) == Lookup(a.rows, k) {
        assert EntryAfter(Lookup(a.rows, k), Lookup(b.rows, k),
                          AcceptedStatement(s.config.tables, step.scope, step.pushArgs.changes, step.pushReply.rejected, k), a.rev, b.floor);
      }
    } else {
      hide PushConflicts, PullContract, ValidDb, EntryAfter, AllOrNothing, Judgement;
    }
  }

  // ----- one device's steps -----

  lemma WriteKeepsKnown(s: Setting, rows: LocalRows, w: LocalWrite, db: Db, cursor: nat)
    requires ValidSetting(s) && RowsOk(rows, s.schema)
    ensures Knows(s.schema, s.config.tables, s.scope, rows, db, cursor) ==>
              Knows(s.schema, s.config.tables, s.scope, AfterWrite(s.schema, rows, w), db, cursor)
  {
    hide AfterWrite, RowsOk, Knows, ValidSchema;
    if Knows(s.schema, s.config.tables, s.scope, rows, db, cursor) {
      KnowsAfterWrite(s.schema, s.config.tables, s.scope, rows, w, db, cursor);
    }
  }

  lemma WriteKeepsCursor(s: Setting, db: Db, dev: Device, w: LocalWrite)
    requires ValidSetting(s) && RowsOk(dev.rows, s.schema) && CursorSound(s, db, dev)
    ensures CursorSound(s, db, dev.(rows := AfterWrite(s.schema, dev.rows, w)))
  {
    WriteKeepsRows(s, dev.rows, w);
    WriteKeepsKnown(s, dev.rows, w, db, SinceOf(dev.cursor));
    hide AfterWrite, RowsOk, Knows, ValidSchema;
  }

  lemma WriteKeepsPhase(s: Setting, db: Db, dev: Device, w: LocalWrite)
    requires ValidSetting(s) && RowsOk(dev.rows, s.schema) && PhaseSound(s, db, dev)
    ensures PhaseSound(s, db, dev.(rows := AfterWrite(s.schema, dev.rows, w)))
  {
    hide AfterWrite, RowsOk, Knows, ValidSchema, SnapshotSound, PullContract, PushContract, StillDirty, SnapshotOf, SinceOf;
    match dev.phase
    case PullAnswered(seen, _, _, _) => WriteKeepsKnown(s, dev.rows, w, seen, SinceOf(dev.cursor));
    case Fetched(frozen, _) => StillDirtyAfterWrite(s.schema, frozen, dev.rows, w);
    case PushAnswered(frozen, _, pre, _, reply, _) =>
      WriteKeepsKnown(s, dev.rows, w, pre, SinceOf(dev.cursor));
      if reply.Pushed? { StillDirtyAfterWrite(s.schema, frozen, dev.rows, w); }
    case Idle =>
  }

  lemma WriteKeepsSound(s: Setting, db: Db, dev: Device, w: LocalWrite)
    requires ValidSetting(s) && DeviceSound(s, db, dev)
    ensures DeviceSound(s, db, dev.(rows := AfterWrite(s.schema, dev.rows, w)))
  {
    hide AfterWrite, RowsOk, CursorSound, PhaseSound, ValidSetting;
    WriteKeepsRows(s, dev.rows, w);
    WriteKeepsCursor(s, db, dev, w);
    WriteKeepsPhase(s, db, dev, w);
  }

  lemma WriteKeepsRows(s: Setting, rows: LocalRows, w: LocalWrite)
    requires ValidSetting(s) && RowsOk(rows, s.schema)
    ensures RowsOk(AfterWrite(s.schema, rows, w), s.schema)
    ensures (forall k :: k in rows && k.table in s.config.tables ==> IsDirty(rows[k])) ==>
              forall k :: k in AfterWrite(s.schema, rows, w) && k.table in s.config.tables ==> IsDirty(AfterWrite(s.schema, rows, w)[k])
  {
    LocalWriteDirties(s.schema, rows, w);
    hide AfterWrite, RowsOk, ValidSchema, WrittenKey;
    var after, key := AfterWrite(s.schema, rows, w), WrittenKey(s.schema, rows, w);
    forall k | k in after && k.table in s.config.tables && (k in rows ==> IsDirty(rows[k])) ensures IsDirty(after[k]) {
      assert k != key ==> Lookup(after, k) == Lookup(rows, k);
    }
  }

  /** A device with a cursor, or with only its own rows, knows a store that still serves it. */
  lemma ServedKnows(s: Setting, db: Db, dev: Device)
    requires ValidDb(db) && CursorSound(s, db, dev)
    requires dev.cursor.Some? ==> db.floor <= SinceOf(dev.cursor)
    ensures Knows(s.schema, s.config.tables, s.scope, dev.rows, db, SinceOf(dev.cursor))
  {
    hide Shows;
  }

  lemma AnswerPullKeepsSound(s: Setting, db: Db, dev: Device, migration: bool, reply: PullReply)
    requires ValidSetting(s) && ServerSound(s, db) && DeviceSound(s, db, dev)
    requires PullContract(db, s.scope, s.config.tables, PullArgs(dev.cursor, migration), reply)
    ensures DeviceSound(s, db, dev.(phase := PullAnswered(db, PullArgs(dev.cursor, migration), reply, false)))
  {
    EvolvedRefl(db);
    if reply.Pulled? {
      PullDelivers(db, s.scope, s.config.tables, PullArgs(dev.cursor, migration), reply);
      hide PullContract, DeliversWindow, HoldsDeliverable, Evolved, RowsOk, Knows;
      ServedKnows(s, db, dev);
    }
  }

  lemma AnswerResyncKeepsSound(s: Setting, db: Db, dev: Device, reply: PullReply)
    requires ValidSetting(s) && ServerSound(s, db) && DeviceSound(s, db, dev)
    requires PullContract(db, s.scope, s.config.tables, PullArgs(None, false), reply)
    ensures DeviceSound(s, db, dev.(phase := PullAnswered(db, PullArgs(None, false), reply, true)))
  {
    EvolvedRefl(db);
    hide PullContract, HoldsDeliverable, Evolved, RowsOk, Knows;
  }

  /** The snapshot a device has converged on makes its cursor sound now. */
  lemma ConvergedIsSound(s: Setting, seen: Db, db: Db, rows: LocalRows, cursor: string)
    requires Converged(s.schema, s.config.tables, s.scope, rows, seen) && Evolved(seen, db)
    requires DecodeCursor(cursor).Some? && SinceOf(Some(cursor)) <= seen.rev
    ensures CursorSound(s, db, Device(rows, Some(cursor), Idle))
  {
    hide Knows, Converged, Evolved;
    var c := SinceOf(Some(cursor));
    EvolvedMonotone(seen, db);
    ConvergedKnows(s.schema, s.config.tables, s.scope, rows, seen, c);
    if c >= db.floor {
      KnowsEvolves(s.schema, s.config.tables, s.scope, rows, seen, db, c);
    }
  }

  /** An applied pull converges on its snapshot, whatever the server did since. */
  lemma ApplyPullConverges(s: Setting, db: Db, dev: Device, after: LocalRows)
    requires ValidSetting(s) && DeviceSound(s, db, dev)
    requires dev.phase.PullAnswered? && dev.phase.reply.Pulled?
    requires IsApplied(s.schema, dev.rows, dev.phase.reply.changes, dev.phase.replacement, after)
    ensures Converged(s.schema, s.config.tables, s.scope, after, dev.phase.seen)
  {
    hide Knows, Converged, Evolved, HoldsDeliverable, IsApplied, PullContract, RowsOk, CursorSound;
    PullConverges(s.schema, s.config.tables, s.scope, dev.rows, dev.phase.seen, dev.phase.args, dev.phase.reply,
                  dev.phase.replacement, after);
  }

  lemma ApplyPullKeepsSound(s: Setting, db: Db, dev: Device, adopt: bool, dev': Device)
    requires ValidSetting(s) && DeviceSound(s, db, dev)
    requires DeviceStep(s, db, dev, ApplyPull(0, adopt), db, dev')
    ensures DeviceSound(s, db, dev')
  {
    hide Knows, Converged, Evolved, HoldsDeliverable, IsApplied, PullContract, RowsOk, ApplyFails;
    var reply := dev.phase.reply;
    AppliedRowsOk(s.schema, dev.rows, reply.changes, dev.phase.replacement, dev'.rows);
    ApplyPullConverges(s, db, dev, dev'.rows);
    PullDelivers(dev.phase.seen, s.scope, s.config.tables, dev.phase.args, reply);
    ConvergedIsSound(s, dev.phase.seen, db, dev'.rows, dev'.cursor.value);
  }

  lemma FetchKeepsSound(s: Setting, db: Db, dev: Device, local: LocalChanges)
    requires DeviceSound(s, db, dev) && dev.cursor.Some? && SnapshotOf(s.schema, dev.rows, local)
    ensures DeviceSound(s, db, dev.(phase := Fetched(dev.rows, local)))
  {
    hide Knows, RowsOk, SnapshotOf;
  }

  /** A device's own push: the store stays sound, and the reply can be trusted. */
  lemma AnswerPushKeepsSound(s: Setting, db: Db, dev: Device, reply: PushReply, floorSeen: nat, db': Db)
    requires ValidSetting(s) && ServerSound(s, db) && DeviceSound(s, db, dev) && dev.phase.Fetched? && dev.cursor.Some?
    requires Steps(s.config, db, PushStep(s.scope, PushArgs(dev.phase.local.changes, dev.cursor.value), reply, floorSeen), db')
    requires db'.rev <= MAX_SAFE
    ensures ServerSound(s, db') && Evolved(db, db')
    ensures DeviceSound(s, db', dev.(phase := PushAnswered(dev.phase.frozen, dev.phase.local, db, db', reply, floorSeen)))
  {
    var local, frozen := dev.phase.local, dev.phase.frozen;
    StepEvolves(s.config, db, PushStep(s.scope, PushArgs(local.changes, dev.cursor.value), reply, floorSeen), db');
    EvolvedRefl(db');
    CursorStaysSound(s, db, db', dev);
    PushKeepsServer(s, db, frozen, local, dev.cursor.value, reply, floorSeen, db');
    hide Knows, RowsOk, SnapshotOf, Evolved, HoldsDeliverable, PushContract, StillDirty, ValidDb;
  }

  lemma PushKeepsServer(s: Setting, db: Db, frozen: LocalRows, local: LocalChanges, cursor: string, reply: PushReply, floorSeen: nat, db': Db)
    requires ValidSetting(s) && ServerSound(s, db) && RowsOk(frozen, s.schema) && SnapshotOf(s.schema, frozen, local)
    requires ValidDb(db') && PushContract(s.config, db, db', s.scope, PushArgs(local.changes, cursor), reply, floorSeen)
    ensures HoldsDeliverable(s.schema, s.config.tables, s.scope, db')
  {
    if reply.Pushed? {
      PushIsAllOrNothing(s.config, db, db', s.scope, local, cursor, reply, floorSeen);
      hide RowsOk, SnapshotOf, HoldsDeliverable, PushContract, AllOrNothing;
      PushKeepsDeliverable(s.config, s.schema, s.scope, frozen, local, reply.rejected, db, db');
    } else {
      hide Deliverable, PushConflicts, RowsOk, SnapshotOf;
    }
  }

  lemma MarkOnlyKeepsSound(s: Setting, db: Db, dev: Device, marked: LocalRows)
    requires ValidSetting(s) && DeviceSound(s, db, dev)
    requires dev.phase.PushAnswered? && dev.phase.pushed.Pushed?
    requires IsMarked(dev.rows, dev.phase.local, dev.phase.pushed.rejected, marked)
    ensures DeviceSound(s, db, dev.(rows := marked, phase := Idle))
  {
    var p, c := dev.phase, SinceOf(dev.cursor);
    MarkedRowsOk(s.schema, dev.rows, p.local, p.pushed.rejected, marked);
    hide Knows, RowsOk, Evolved, HoldsDeliverable, PushContract, InFlight, ValidDb;
    PushIsAllOrNothing(s.config, p.pre, p.post, s.scope, p.local, dev.cursor.value, p.pushed, p.floorSeen);
    EvolvedMonotone(p.pre, p.post);
    EvolvedMonotone(p.post, db);
    if c >= db.floor {
      MarkKnows(s.config, s.schema, s.scope, p.frozen, dev.rows, p.local, p.pushed.rejected, p.pre, p.post, marked, c);
      KnowsEvolves(s.schema, s.config.tables, s.scope, marked, p.post, db, c);
    }
  }

  /** Marking and applying the interleave converges on the store as the push left it. */
  lemma MarkAndApplyConverges(s: Setting, db: Db, dev: Device, marked: LocalRows, after: LocalRows)
    requires ValidSetting(s) && DeviceSound(s, db, dev)
    requires dev.phase.PushAnswered? && dev.phase.pushed.Pushed? && dev.phase.pushed.cursor.Some? && dev.phase.pushed.changes.Some?
    requires IsMarked(dev.rows, dev.phase.local, dev.phase.pushed.rejected, marked)
    requires IsApplied(s.schema, marked, dev.phase.pushed.changes.value, false, after)
    ensures Converged(s.schema, s.config.tables, s.scope, after, dev.phase.post)
    ensures DecodeCursor(dev.phase.pushed.cursor.value).Some? && SinceOf(dev.phase.pushed.cursor) <= dev.phase.post.rev
  {
    var p := dev.phase;
    hide Knows, RowsOk, Evolved, HoldsDeliverable, PushContract, InFlight, ValidDb, IsMarked, IsApplied;
    PushDelivers(s.config, p.pre, p.post, s.scope, p.local, dev.cursor.value, p.pushed, p.floorSeen);
    PushConverges(s.config, s.schema, s.scope, p.frozen, dev.rows, p.local, p.pre, p.post, dev.cursor.value, p.pushed, p.floorSeen, marked, after);
  }

  lemma MarkAndApplyKeepsSound(s: Setting, db: Db, dev: Device, marked: LocalRows, take: Take, dev': Device)
    requires ValidSetting(s) && DeviceSound(s, db, dev) && take != MarkOnly
    requires DeviceStep(s, db, dev, MarkPush(0, marked, take), db, dev')
    ensures DeviceSound(s, db, dev')
  {
    var p := dev.phase;
    MarkedRowsOk(s.schema, dev.rows, p.local, p.pushed.rejected, marked);
    MarkAndApplyConverges(s, db, dev, marked, dev'.rows);
    hide Knows, RowsOk, Evolved, HoldsDeliverable, PushContract, InFlight, ValidDb, IsMarked, IsApplied, ApplyFails, Converged;
    AppliedRowsOk(s.schema, marked, p.pushed.changes.value, false, dev'.rows);
    EvolvedMonotone(p.pre, p.post);
    ConvergedIsSound(s, p.post, db, dev'.rows, dev'.cursor.value);
  }

  // ----- every step, every run -----

  lemma DeviceStepKeepsSound(s: Setting, db: Db, dev: Device, e: Event, db': Db, dev': Device)
    requires ValidSetting(s) && ServerSound(s, db) && DeviceSound(s, db, dev)
    requires DeviceStep(s, db, dev, e, db', dev') && db'.rev <= MAX_SAFE
    ensures ServerSound(s, db') && Evolved(db, db') && DeviceSound(s, db', dev')
  {
    EvolvedRefl(db);
    hide ValidSetting, ServerSound, DeviceSound, Evolved, Steps, PullContract, SnapshotOf, IsMarked, IsApplied, ApplyFails, AfterWrite;
    match e
    case LocalWriteAt(_, w) => WriteKeepsSound(s, db, dev, w);
    case AnswerPull(_, migration, reply) => AnswerPullKeepsSound(s, db, dev, migration, reply);
    case AnswerResync(_, reply) => AnswerResyncKeepsSound(s, db, dev, reply);
    case ApplyPull(_, adopt) => ApplyPullKeepsSound(s, db, dev, adopt, dev');
    case FetchAt(_, local) => FetchKeepsSound(s, db, dev, local);
    case AnswerPush(_, reply, floorSeen) => AnswerPushKeepsSound(s, db, dev, reply, floorSeen, db');
    case MarkPush(_, marked, take) =>
      if take == MarkOnly { MarkOnlyKeepsSound(s, db, dev, marked); }
      else { MarkAndApplyKeepsSound(s, db, dev, marked, take, dev'); }
    case GiveUp(_) => GiveUpKeepsSound(s, db, dev);
  }

  lemma GiveUpKeepsSound(s: Setting, db: Db, dev: Device)
    requires DeviceSound(s, db, dev)
    ensures DeviceSound(s, db, dev.(phase := Idle))
  {
    hide RowsOk, Knows;
  }

  lemma NextKeepsSound(s: Setting, a: World, e: Event, b: World)
    requires ValidSetting(s) && Sound(s, a) && Next(s, a, e, b)
    ensures Sound(s, b)
  {
    hide ValidSetting, DeviceSound, DeviceStep, HoldsDeliverable, Evolved, Steps, ValidDb;
    if e.ServerAlone? {
      StepKeepsValid(s.config, a.db, e.step, b.db);
      StepEvolves(s.config, a.db, e.step, b.db);
      AloneKeepsDeliverable(s, a.db, e.step, b.db);
    } else {
      DeviceStepKeepsSound(s, a.db, a.devices[e.d], e, b.db, b.devices[e.d]);
    }
    forall d | d in b.devices && (e.ServerAlone? || d != e.d) ensures DeviceSound(s, b.db, b.devices[d]) {
      DeviceStaysSound(s, a.db, b.db, a.devices[d]);
    }
  }

  ghost predicate Starts(w: World) {
    w.db == Db(map[], 0, 0) && forall d :: d in w.devices ==> w.devices[d] == Device(map[], None, Idle)
  }

  ghost predicate Run(s: Setting, worlds: seq<World>, events: seq<Event>) {
    && |worlds| == |events| + 1
    && Starts(worlds[0])
    && forall i :: 0 <= i < |events| ==> Next(s, worlds[i], events[i], worlds[i + 1])
  }

  lemma {:induction false} RunsAreSound(s: Setting, worlds: seq<World>, events: seq<Event>)
    requires ValidSetting(s) && Run(s, worlds, events)
    ensures Sound(s, worlds[|events|])
    decreases |events|
  {
    if |events| > 0 {
      var n := |events| - 1;
      hide Next, Sound, ValidSetting;
      RunsAreSound(s, worlds[..n + 1], events[..n]);
      NextKeepsSound(s, worlds[n], events[n], worlds[n + 1]);
    }
  }

  /**
   * Convergence: at every point of every run, each device whose cursor the
   * floor has not passed holds every entry up to its cursor exactly as the
   * server has it, nothing for a server tombstone or an id the server does
   * not know, or has the row locally dirty.
   */
  lemma EveryRunConverges(s: Setting, worlds: seq<World>, events: seq<Event>, d: nat, k: Key)
    requires ValidSetting(s) && Run(s, worlds, events)
    requires d in worlds[|events|].devices && k.table in s.config.tables
    ensures var w := worlds[|events|];
            var dev := w.devices[d];
            var entry := Entry(w.db, s.scope, k);
            dev.cursor.Some? && w.db.floor <= SinceOf(dev.cursor) ==>
              || (k in dev.rows && IsDirty(dev.rows[k]))
              || (if entry.None? || entry.value.deleted
                  then k !in dev.rows || (entry.Some? && entry.value.rev > SinceOf(dev.cursor))
                  else entry.value.rev > SinceOf(dev.cursor)
                       || (k in dev.rows && dev.rows[k].status == Synced
                           && SanitizeColumns(entry.value.row, s.schema[k.table].columns) == Some(dev.rows[k].values)))
  {
    RunsAreSound(s, worlds, events);
    hide SanitizeColumns, PhaseSound, RowsOk;
    var dev := worlds[|events|].devices[d];
    assert DeviceSound(s, worlds[|events|].db, dev);
    if dev.cursor.Some? && worlds[|events|].db.floor <= SinceOf(dev.cursor) {
      assert Agrees(s.schema[k.table], Lookup(dev.rows, k), Entry(worlds[|events|].db, s.scope, k), SinceOf(dev.cursor));
    }
  }

  /** A device with nothing dirty after a pull shows exactly the live rows the pull's snapshot saw. */
  lemma CleanPullShowsSnapshot(s: Setting, w: World, e: Event, w': World, k: Key)
    requires ValidSetting(s) && Sound(s, w) && Next(s, w, e, w') && e.ApplyPull? && k.table in s.config.tables
    requires forall x :: x in w'.devices[e.d].rows && x.table in s.config.tables ==> !IsDirty(w'.devices[e.d].rows[x])
    ensures var seen := Entry(w.devices[e.d].phase.seen, s.scope, k);
            var rows := w'.devices[e.d].rows;
            && (k in rows <==> seen.Some? && !seen.value.deleted)
            && (k in rows ==> SanitizeColumns(seen.value.row, s.schema[k.table].columns) == Some(rows[k].values))
  {
    hide SanitizeColumns, PhaseSound, RowsOk, IsApplied, ApplyFails, PullContract;
    assert DeviceSound(s, w.db, w.devices[e.d]);
    ApplyPullConverges(s, w.db, w.devices[e.d], w'.devices[e.d].rows);
    assert Settled(s.schema[k.table], Lookup(w'.devices[e.d].rows, k), Entry(w.devices[e.d].phase.seen, s.scope, k));
  }

  /** No reply in flight can make a device throw: sync never wedges. */
  lemma RepliesAlwaysApply(s: Setting, w: World, d: nat, marked: LocalRows)
    requires ValidSetting(s) && Sound(s, w) && d in w.devices
    ensures var p := w.devices[d].phase;
            && (p.PullAnswered? && p.reply.Pulled? ==> !ApplyFails(s.schema, w.devices[d].rows, p.reply.changes))
            && (p.PushAnswered? && p.pushed.Pushed? && p.pushed.cursor.Some? && p.pushed.changes.Some? ==>
                  !ApplyFails(s.schema, marked, p.pushed.changes.value))
  {
    assert DeviceSound(s, w.db, w.devices[d]);
    hide RowsOk, ApplyFails, PullContract, PushContract, HoldsDeliverable, Evolved, InFlight, ValidDb, Knows, CursorSound;
    var dev := w.devices[d];
    match dev.phase
    case PullAnswered(seen, args, reply, _) =>
      if reply.Pulled? {
        PullNeverThrows(s.schema, s.config.tables, s.scope, dev.rows, seen, args, reply);
      }
    case PushAnswered(frozen, local, pre, post, reply, floorSeen) =>
      if reply.Pushed? && reply.cursor.Some? {
        PushDelivers(s.config, pre, post, s.scope, local, dev.cursor.value, reply, floorSeen);
        DeliveryApplies(s.schema, s.config.tables, s.scope, marked, pre, reply.changes.value,
                        SinceOf(dev.cursor), k => Named(local, k));
      }
    case _ =>
  }

  // ----- nothing lost -----

  /** A dirty row still dirty, every column it listed still listed with its value. */
  ghost predicate KeepsEdits(before: Raw, after: Raw) {
    && after.status == before.status && after.changed == before.changed
    && forall c :: c in ChangedSet(before) ==> ValueOf(after.values, c) == ValueOf(before.values, c)
  }

  predicate IsTombstone(entry: Option<Stored>) {
    entry.Some? && entry.value.deleted
  }

  /** The server holds exactly this record, or holds nothing live where it was deleted. */
  predicate Acknowledged(raw: Raw, table: Table, entry: Option<Stored>) {
    if raw.status == Deleted then entry.None? || entry.value.deleted
    else entry.Some? && !entry.value.deleted && entry.value.row == Stripped(raw, table)
  }

  lemma DeliveredDeletionIsTombstone(s: Setting, seen: Db, changes: Changes, since: nat, named: Key -> bool, k: Key)
    requires DeliversWindow(s.config.tables, s.scope, seen, changes, since, named)
    requires k.table in s.config.tables && k.table in changes && StatementFor(changes[k.table], k.id) == Deletes
    ensures IsTombstone(Entry(seen, s.scope, k)) && !named(k)
  {
    hide StatementFor, WellFormedDelivery;
  }

  /** What a mark takes from a dirty row, the server has. */
  lemma MarkAcknowledges(s: Setting, frozen: LocalRows, local: LocalChanges, rows: LocalRows, rejected: Rejections,
                         pre: Db, post: Db, marked: LocalRows, k: Key)
    requires ValidSetting(s) && RowsOk(rows, s.schema) && SnapshotOf(s.schema, frozen, local)
    requires AllOrNothing(s.config, pre, post, s.scope, local.changes, rejected)
    requires IsMarked(rows, local, rejected, marked)
    requires k.table in s.config.tables && k in rows && IsDirty(rows[k])
    ensures Lookup(marked, k) == Some(rows[k])
            || (Named(local, k) && Acknowledged(rows[k], s.schema[k.table], Entry(post, s.scope, k)))
  {
    hide StatementFor, SnapshotOf, RawOk, Stripped, PrunedEntry, Refusable, Admissible;
    SnapshotNames(s.schema, frozen, local, k);
    assert Lookup(marked, k) == MarkedAt(rows, local, rejected, k);
    assert EntryAfter(Lookup(pre.rows, RowKey(s.scope, k)), Lookup(post.rows, RowKey(s.scope, k)),
                      AcceptedStatement(s.config.tables, s.scope, local.changes, rejected, RowKey(s.scope, k)), pre.rev, post.floor);
    if k.id !in RejectedIn(rejected, k.table) && !StillFrozen(local, k, rows[k]) && PushedDelete(local, k) {
      DeletedIsDead(Entry(pre, s.scope, k), Entry(post, s.scope, k), pre.rev, post.floor);
    }
  }

  lemma ApplyPullLosesNothing(s: Setting, db: Db, dev: Device, adopt: bool, dev': Device, k: Key)
    requires ValidSetting(s) && DeviceSound(s, db, dev)
    requires DeviceStep(s, db, dev, ApplyPull(0, adopt), db, dev')
    requires k.table in s.config.tables && k in dev.rows && IsDirty(dev.rows[k])
    ensures (k in dev'.rows && KeepsEdits(dev.rows[k], dev'.rows[k])) || IsTombstone(Entry(dev.phase.seen, s.scope, k))
  {
    var reply := dev.phase.reply;
    PullDelivers(dev.phase.seen, s.scope, s.config.tables, dev.phase.args, reply);
    hide Knows, Evolved, HoldsDeliverable, IsApplied, PullContract, RowsOk, ApplyFails, StatementFor, CursorSound, ValidDb, DeliversWindow;
    ApplyKeepsLocalWork(s.schema, dev.rows, reply.changes, dev.phase.replacement, dev'.rows, k);
    if k !in dev'.rows {
      DeliveredDeletionIsTombstone(s, dev.phase.seen, reply.changes, WindowStart(dev.phase.args), k => false, k);
    }
  }

  lemma MarkLosesNothing(s: Setting, db: Db, dev: Device, marked: LocalRows, take: Take, dev': Device, k: Key)
    requires ValidSetting(s) && DeviceSound(s, db, dev)
    requires DeviceStep(s, db, dev, MarkPush(0, marked, take), db, dev')
    requires k.table in s.config.tables && k in dev.rows && IsDirty(dev.rows[k])
    ensures || (k in dev'.rows && KeepsEdits(dev.rows[k], dev'.rows[k]))
            || Acknowledged(dev.rows[k], s.schema[k.table], Entry(dev.phase.post, s.scope, k))
            || IsTombstone(Entry(dev.phase.pre, s.scope, k))
  {
    var p := dev.phase;
    MarkedRowsOk(s.schema, dev.rows, p.local, p.pushed.rejected, marked);
    hide Knows, Evolved, HoldsDeliverable, IsApplied, IsMarked, PushContract, RowsOk, ApplyFails, StatementFor, CursorSound, ValidDb, SnapshotOf, StillDirty, Acknowledged, AllOrNothing, KeepsEdits, ValidSchema, SyncedTables;
    PushIsAllOrNothing(s.config, p.pre, p.post, s.scope, p.local, dev.cursor.value, p.pushed, p.floorSeen);
    MarkAcknowledges(s, p.frozen, p.local, dev.rows, p.pushed.rejected, p.pre, p.post, marked, k);
    if Lookup(marked, k) == Some(dev.rows[k]) {
      if take == MarkOnly {
        UnchangedKeepsEdits(dev.rows[k]);
      } else {
        InterleaveLosesNothing(s, p.pre, p.post, p.local, dev.cursor.value, p.pushed, p.floorSeen, marked, dev'.rows, k);
      }
    }
  }

  lemma UnchangedKeepsEdits(raw: Raw)
    ensures KeepsEdits(raw, raw)
  {
  }

  lemma InterleaveLosesNothing(s: Setting, pre: Db, post: Db, local: LocalChanges, cursor: string, reply: PushReply, floorSeen: nat,
                               marked: LocalRows, after: LocalRows, k: Key)
    requires ValidSetting(s) && RowsOk(marked, s.schema)
    requires PushContract(s.config, pre, post, s.scope, PushArgs(local.changes, cursor), reply, floorSeen)
    requires ValidDb(post) && post.rev <= MAX_SAFE
    requires reply.Pushed? && reply.cursor.Some? && reply.changes.Some?
    requires !ApplyFails(s.schema, marked, reply.changes.value)
    requires IsApplied(s.schema, marked, reply.changes.value, false, after)
    requires k.table in s.config.tables && k in marked && IsDirty(marked[k])
    ensures (k in after && KeepsEdits(marked[k], after[k])) || IsTombstone(Entry(pre, s.scope, k))
  {
    PushDelivers(s.config, pre, post, s.scope, local, cursor, reply, floorSeen);
    hide IsApplied, PushContract, RowsOk, ApplyFails, StatementFor, ValidDb, DeliversWindow, ChangedSet;
    ApplyKeepsLocalWork(s.schema, marked, reply.changes.value, false, after, k);
    if k !in after {
      DeliveredDeletionIsTombstone(s, pre, reply.changes.value, SinceOf(Some(cursor)), x => Named(local, x), k);
    }
  }

  /**
   * No step loses local work: a dirty row stays dirty with every edited
   * column as it was (or as the app's own write left it), unless the server
   * has acknowledged exactly that record or had deleted it.
   */
  lemma NothingLost(s: Setting, w: World, e: Event, w': World, d: nat, k: Key)
    requires ValidSetting(s) && Sound(s, w) && Next(s, w, e, w') && d in w.devices
    requires k.table in s.config.tables && k in w.devices[d].rows && IsDirty(w.devices[d].rows[k])
    ensures var dev, dev' := w.devices[d], w'.devices[d];
            || (k in dev'.rows && IsDirty(dev'.rows[k]) && (e.LocalWriteAt? || KeepsEdits(dev.rows[k], dev'.rows[k])))
            || (e.ApplyPull? && e.d == d && IsTombstone(Entry(dev.phase.seen, s.scope, k)))
            || (e.MarkPush? && e.d == d
                && (Acknowledged(dev.rows[k], s.schema[k.table], Entry(dev.phase.post, s.scope, k))
                    || IsTombstone(Entry(dev.phase.pre, s.scope, k))))
  {
    hide DeviceSound, ServerSound, Steps, PullContract, SnapshotOf, IsMarked, IsApplied, ApplyFails, AfterWrite, Acknowledged, ChangedSet, Evolved;
    var dev, dev' := w.devices[d], w'.devices[d];
    assert DeviceSound(s, w.db, dev);
    if e.ServerAlone? || e.d != d {
      assert dev' == dev;
    } else if e.LocalWriteAt? {
      WriteKeepsDirty(s, w.db, dev, e.w, k);
    } else if e.ApplyPull? {
      ApplyPullLosesNothing(s, w.db, dev, e.adopt, dev', k);
    } else if e.MarkPush? {
      MarkLosesNothing(s, w.db, dev, e.marked, e.take, dev', k);
    }
  }

  lemma WriteKeepsDirty(s: Setting, db: Db, dev: Device, w: LocalWrite, k: Key)
    requires ValidSetting(s) && DeviceSound(s, db, dev)
    requires k.table in s.config.tables && k in dev.rows && IsDirty(dev.rows[k])
    ensures k in AfterWrite(s.schema, dev.rows, w) && IsDirty(AfterWrite(s.schema, dev.rows, w)[k])
  {
    LocalWriteDirties(s.schema, dev.rows, w);
    hide AfterWrite, RowsOk, CursorSound, PhaseSound, ValidSchema, WrittenKey;
    assert k != WrittenKey(s.schema, dev.rows, w) ==> Lookup(AfterWrite(s.schema, dev.rows, w), k) == Lookup(dev.rows, k);
  }
}
