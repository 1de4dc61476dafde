/**
 * The sync orchestrator (packages/core/src/sync/synchronize.ts): pull, apply,
 * fetch, push and mark, in bounded rounds. Whatever the transport answers and
 * whatever the app writes meanwhile, a run moves its device only by the
 * client's protocol steps.
 */
module Synchronize {
  import opened RawRecords
  import opened MemoryStores
  import opened SyncTypes
  import opened SyncContracts
  import opened Cursors
  import opened LocalDatabases
  import opened RemoteApply
  import opened PushLocal
  import opened ServerRuns
  import Convergence

  // ----- the client's protocol steps -----

  datatype Stage =
    | Resting
    | PulledStage(args: PullArgs, reply: PullReply, replacement: bool)
    | Snapshot(frozen: LocalRows, local: LocalChanges)
    | PushedStage(frozen: LocalRows, local: LocalChanges, pushReply: PushReply)

  datatype Client = Client(rows: LocalRows, cursor: Option<string>, stage: Stage)

  datatype ClientEvent =
    | Writes(w: LocalWrite)
    | PullAnswered(migration: bool, pullReply: PullReply)
    | ResyncAnswered(resyncReply: PullReply)
    | PullApplied(adopt: bool)
    | Fetches(local: LocalChanges)
    | PushAnswered(pushReply: PushReply)
    | Marks(marked: LocalRows, take: Convergence.Take)
    | GivesUp

  ghost predicate ClientStep(schema: Schema, a: Client, e: ClientEvent, b: Client) {
    match e
    case Writes(w) => b == a.(rows := AfterWrite(schema, a.rows, w))
    case PullAnswered(migration, reply) =>
      a.stage.Resting? && b == a.(stage := PulledStage(PullArgs(a.cursor, migration), reply, false))
    case ResyncAnswered(reply) =>
      && a.stage.PulledStage? && a.stage.reply.ResyncRequired? && !a.stage.replacement
      && b == a.(stage := PulledStage(PullArgs(None, false), reply, true))
    case PullApplied(adopt) =>
      && a.stage.PulledStage? && a.stage.reply.Pulled?
      && !ApplyFails(schema, a.rows, a.stage.reply.changes)
      && IsApplied(schema, a.rows, a.stage.reply.changes, a.stage.replacement, b.rows)
      && (adopt || a.cursor.Some?)
      && b.cursor == (if adopt then Some(a.stage.reply.cursor) else a.cursor) && b.stage == Resting
    case Fetches(local) =>
      && a.stage.Resting? && a.cursor.Some? && SnapshotOf(schema, a.rows, local)
      && b == a.(stage := Snapshot(a.rows, local))
    case PushAnswered(reply) =>
      && a.stage.Snapshot? && a.cursor.Some? && b == a.(stage := PushedStage(a.stage.frozen, a.stage.local, reply))
    case Marks(marked, take) =>
      && a.stage.PushedStage? && a.stage.pushReply.Pushed?
      && IsMarked(a.rows, a.stage.local, a.stage.pushReply.rejected, marked) && b.stage == Resting
      && (if take == Convergence.MarkOnly then b.rows == marked && b.cursor == a.cursor
          else
            && a.stage.pushReply.cursor.Some? && a.stage.pushReply.changes.Some?
            && !ApplyFails(schema, marked, a.stage.pushReply.changes.value)
            && IsApplied(schema, marked, a.stage.pushReply.changes.value, false, b.rows)
            && b.cursor == if take == Convergence.Adopt then a.stage.pushReply.cursor else a.cursor)
    case GivesUp => b == a.(stage := Resting)
  }

  ghost predicate ClientRun(schema: Schema, states: seq<Client>, events: seq<ClientEvent>) {
    && |states| == |events| + 1
    && forall i :: 0 <= i < |events| ==> ClientStep(schema, states[i], events[i], states[i + 1])
  }

  lemma RunMore(schema: Schema, states: seq<Client>, events: seq<ClientEvent>, e: ClientEvent, next: Client)
    requires ClientRun(schema, states, events) && ClientStep(schema, states[|events|], e, next)
    ensures ClientRun(schema, states + [next], events + [e])
  {
    hide ClientStep;
  }

  // ----- the steps are the convergence machine's -----

  /** The client's view of a device. */
  function View(dev: Convergence.Device): Client {
    Client(dev.rows, dev.cursor,
           match dev.phase
           case Idle => Resting
           case PullAnswered(_, args, reply, replacement) => PulledStage(args, reply, replacement)
           case Fetched(frozen, local) => Snapshot(frozen, local)
           case PushAnswered(frozen, local, _, _, reply, _) => PushedStage(frozen, local, reply))
  }

  /** What the server did to answer, when an event is an answer. */
  ghost predicate Answered(s: Convergence.Setting, db: Db, dev: Convergence.Device, e: ClientEvent, db': Db, floorSeen: nat) {
    match e
    case PullAnswered(migration, reply) =>
      db' == db && PullContract(db, s.scope, s.config.tables, PullArgs(dev.cursor, migration), reply)
    case ResyncAnswered(reply) =>
      db' == db && PullContract(db, s.scope, s.config.tables, PullArgs(None, false), reply)
    case PushAnswered(reply) =>
      dev.phase.Fetched? && dev.cursor.Some?
      && Steps(s.config, db, PushStep(s.scope, PushArgs(dev.phase.local.changes, dev.cursor.value), reply, floorSeen), db')
    case _ => db' == db
  }

  function EventOf(e: ClientEvent, d: nat, floorSeen: nat): Convergence.Event {
    match e
    case Writes(w) => Convergence.LocalWriteAt(d, w)
    case PullAnswered(migration, reply) => Convergence.AnswerPull(d, migration, reply)
    case ResyncAnswered(reply) => Convergence.AnswerResync(d, reply)
    case PullApplied(adopt) => Convergence.ApplyPull(d, adopt)
    case Fetches(local) => Convergence.FetchAt(d, local)
    case PushAnswered(reply) => Convergence.AnswerPush(d, reply, floorSeen)
    case Marks(marked, take) => Convergence.MarkPush(d, marked, take)
    case GivesUp => Convergence.GiveUp(d)
  }

  function NextPhase(e: ClientEvent, dev: Convergence.Device, db: Db, db': Db, floorSeen: nat): Convergence.Phase {
    match e
    case Writes(_) => dev.phase
    case PullAnswered(migration, reply) => Convergence.PullAnswered(db, PullArgs(dev.cursor, migration), reply, false)
    case ResyncAnswered(reply) => Convergence.PullAnswered(db, PullArgs(None, false), reply, true)
    case Fetches(local) => Convergence.Fetched(dev.rows, local)
    case PushAnswered(reply) =>
      if dev.phase.Fetched? then Convergence.PushAnswered(dev.phase.frozen, dev.phase.local, db, db', reply, floorSeen) else dev.phase
    case _ => Convergence.Idle
  }

  /** A client step, with its answer as the server's contract has it, is a step of the convergence machine. */
  lemma ClientStepsAreDeviceSteps(s: Convergence.Setting, db: Db, dev: Convergence.Device, e: ClientEvent, next: Client,
                                  db': Db, d: nat, floorSeen: nat)
    requires ClientStep(s.schema, View(dev), e, next) && Answered(s, db, dev, e, db', floorSeen)
    ensures var dev' := Convergence.Device(next.rows, next.cursor, NextPhase(e, dev, db, db', floorSeen));
            View(dev') == next && Convergence.DeviceStep(s, db, dev, EventOf(e, d, floorSeen), db', dev')
  {
    hide PullContract, Steps, IsApplied, ApplyFails, IsMarked, SnapshotOf, AfterWrite;
  }

  // ----- the run -----

  /** Why a run threw; a moved cursor means that another run committed meanwhile. */
  datatype Failure =
    | PullUnanswered
    | ResyncRefused
    | CursorMoved
    | ApplyFailed
    | PushUnanswered
    | CursorAlone
    | StillConflicting

  datatype Outcome =
    | Unavailable
    | Lost(resyncedLost: bool, retryCountLost: nat)
    | Done(resynced: bool, retryCount: nat, pushed: bool)
    | Threw(cause: Failure)

  datatype PullOutcome = PullFailed(pullCause: Failure) | PullDone(pulledCursor: string, resyncedNow: bool)

  datatype PushOutcome = PushFailed(pushCause: Failure) | NothingToPush | Conflicted | TurnLost | PushDone

  /** How a run ends when an attempt does not conflict. */
  function OutcomeOf(push: PushOutcome, resynced: bool, retryCount: nat): Outcome {
    match push
    case PushFailed(cause) => Threw(cause)
    case TurnLost => Lost(resynced, retryCount)
    case PushDone => Done(resynced, retryCount, true)
    case _ => Done(resynced, retryCount, false)
  }

  /** The last protocol step of a trace, whatever the app wrote since. */
  ghost function LastStep(events: seq<ClientEvent>): Option<ClientEvent> {
    if |events| == 0 then None
    else if events[|events| - 1].Writes? then LastStep(events[..|events| - 1])
    else Some(events[|events| - 1])
  }

  lemma LastStepMore(events: seq<ClientEvent>, e: ClientEvent)
    ensures LastStep(events + [e]) == if e.Writes? then LastStep(events) else Some(e)
  {
    assert (events + [e])[..|events|] == events;
  }

  /** No row of a table that syncs is dirty. */
  ghost predicate CleanRows(schema: Schema, rows: LocalRows) {
    forall k :: k in rows && k.table in SyncTables(schema) ==> !IsDirty(rows[k])
  }

  function Rest<T>(items: seq<T>): seq<T> {
    if |items| == 0 then [] else items[1..]
  }

  const DEFAULT_RETRIES := 5

  /** At least one attempt, whatever was asked for. */
  function Attempts(conflictRetries: Option<int>): (n: nat)
    ensures n >= 1
    ensures conflictRetries.Some? && conflictRetries.value >= 1 ==> n == conflictRetries.value
    ensures conflictRetries.Some? && conflictRetries.value < 1 ==> n == 1
    ensures conflictRetries.None? ==> n == 5
  {
    if conflictRetries.None? then DEFAULT_RETRIES
    else if conflictRetries.value > 1 then conflictRetries.value else 1
  }

  /**
   * One synchronize run over a database. The replies are what the transport
   * will answer, in order, and end where it fails; writes are what the app
   * commits while the run waits; turns answer the sync lease.
   */
  class SyncRun {
    const database: LocalDatabase
    var pulls: seq<PullReply>
    var pushes: seq<PushReply>
    var writes: seq<seq<LocalWrite>>
    var turns: seq<bool>
    var sentPulls: seq<PullArgs>
    var sentPushes: seq<PushArgs>
    ghost var states: seq<Client>
    ghost var events: seq<ClientEvent>

    constructor (database: LocalDatabase, pulls: seq<PullReply>, pushes: seq<PushReply>, writes: seq<seq<LocalWrite>>, turns: seq<bool>)
      requires database.Valid()
      ensures Valid() && this.database == database
      ensures sentPulls == [] && sentPushes == []
      ensures states == [Client(database.rows, database.cursor, Resting)] && events == []
    {
      this.database := database;
      this.pulls, this.pushes, this.writes, this.turns := pulls, pushes, writes, turns;
      sentPulls, sentPushes := [], [];
      states, events := [Client(database.rows, database.cursor, Resting)], [];
    }

    ghost function Stage(): Stage
      reads this
      requires |states| > 0
    {
      states[|states| - 1].stage
    }

    ghost predicate Valid()
      reads this, database
    {
      && database.Valid()
      && |states| > 0
      && ClientRun(database.schema, states, events)
      && states[|states| - 1].rows == database.rows && states[|states| - 1].cursor == database.cursor
    }

    /** Where the run was before the last state. */
    ghost function LeftStage(): Stage
      reads this
      requires |states| > 1
    {
      states[|states| - 2].stage
    }

    /** What the trace and the transport show when a run throws. */
    ghost predicate Explained(cause: Failure)
      reads this, database
    {
      if cause == PullUnanswered then pulls == []
      else
        && |states| > 1
        && var left := LeftStage();
           match cause
           case PushUnanswered => pushes == [] && left.Snapshot?
           case ResyncRefused => left == PulledStage(PullArgs(None, false), ResyncRequired, true)
           case ApplyFailed =>
             || (left.PulledStage? && left.reply.Pulled? && ApplyFails(database.schema, database.rows, left.reply.changes))
             || (left.PushedStage? && left.pushReply.Pushed? && left.pushReply.changes.Some?
                 && ApplyFails(database.schema, database.rows, left.pushReply.changes.value))
           case CursorAlone =>
             left.PushedStage? && left.pushReply.Pushed? && left.pushReply.cursor.Some? && left.pushReply.changes.None?
           case StillConflicting => left.PushedStage? && left.pushReply.Conflict?
           case _ => false
    }

    /** The trace grows by the step just taken. */
    ghost method Trace(e: ClientEvent, stage: Stage)
      requires |states| > 0 && ClientRun(database.schema, states, events) && database.Valid()
      requires ClientStep(database.schema, states[|states| - 1], e, Client(database.rows, database.cursor, stage))
      modifies this`states, this`events
      ensures Valid() && Stage() == stage
      ensures old(states) <= states && |states| == |old(states)| + 1 && LeftStage() == old(Stage())
      ensures events == old(events) + [e]
      ensures LastStep(events) == if e.Writes? then LastStep(old(events)) else Some(e)
    {
      RunMore(database.schema, states, events, e, Client(database.rows, database.cursor, stage));
      LastStepMore(events, e);
      states, events := states + [Client(database.rows, database.cursor, stage)], events + [e];
    }

    /** The app writes while the run awaits. */
    method AppRuns()
      requires Valid()
      modifies this, database`rows
      ensures Valid() && Stage() == old(Stage()) && database.cursor == old(database.cursor)
      ensures sentPulls == old(sentPulls) && sentPushes == old(sentPushes) && old(states) <= states && old(events) <= events
      ensures unchanged(this`pulls) && unchanged(this`pushes) && unchanged(this`turns)
      ensures LastStep(events) == old(LastStep(events))
    {
      hide AfterWrite, ClientRun, LastStep, RowsOk, Prepared, Exec, ValidSchema;
      if |writes| == 0 { return; }
      var batch := writes[0];
      writes := writes[1..];
      for i := 0 to |batch|
        invariant Valid() && Stage() == old(Stage()) && database.cursor == old(database.cursor)
        invariant sentPulls == old(sentPulls) && sentPushes == old(sentPushes) && old(states) <= states && old(events) <= events
        invariant unchanged(this`pulls) && unchanged(this`pushes) && unchanged(this`turns)
        invariant LastStep(events) == old(LastStep(events))
      {
        var ok := database.Write(batch[i]);
        Trace(Writes(batch[i]), Stage());
      }
    }

    /** None is a transport failure. */
    method Pull(args: PullArgs) returns (reply: Option<PullReply>)
      requires Valid()
      modifies this, database`rows
      ensures Valid() && Stage() == old(Stage()) && database.cursor == old(database.cursor)
      ensures sentPulls == old(sentPulls) + [args] && sentPushes == old(sentPushes)
      ensures old(states) <= states && old(events) <= events && LastStep(events) == old(LastStep(events))
      ensures reply == (if old(pulls) == [] then None else Some(old(pulls)[0])) && pulls == Rest(old(pulls))
      ensures unchanged(this`pushes) && unchanged(this`turns)
    {
      sentPulls := sentPulls + [args];
      AppRuns();
      if |pulls| == 0 { return None; }
      reply := Some(pulls[0]);
      pulls := pulls[1..];
    }

    method Push(args: PushArgs) returns (reply: Option<PushReply>)
      requires Valid()
      modifies this, database`rows
      ensures Valid() && Stage() == old(Stage()) && database.cursor == old(database.cursor)
      ensures sentPushes == old(sentPushes) + [args] && sentPulls == old(sentPulls)
      ensures old(states) <= states && old(events) <= events && LastStep(events) == old(LastStep(events))
      ensures reply == (if old(pushes) == [] then None else Some(old(pushes)[0])) && pushes == Rest(old(pushes))
      ensures unchanged(this`pulls) && unchanged(this`turns)
    {
      sentPushes := sentPushes + [args];
      AppRuns();
      if |pushes| == 0 { return None; }
      reply := Some(pushes[0]);
      pushes := pushes[1..];
    }

    /** Whether this context has, or still has, the sync lease; a driver without one always does. */
    method RequestTurn() returns (granted: bool)
      requires Valid()
      modifies this, database`rows
      ensures Valid() && Stage() == old(Stage()) && database.cursor == old(database.cursor)
      ensures sentPulls == old(sentPulls) && sentPushes == old(sentPushes) && old(states) <= states && old(events) <= events
      ensures LastStep(events) == old(LastStep(events)) && unchanged(this`pulls) && unchanged(this`pushes)
      ensures granted == (old(turns) == [] || old(turns)[0]) && turns == Rest(old(turns))
    {
      AppRuns();
      if |turns| == 0 { return true; }
      granted := turns[0];
      turns := turns[1..];
    }

    method Abandon()
      requires Valid()
      modifies this`states, this`events
      ensures Valid() && Stage() == Resting
      ensures old(states) <= states && old(events) <= events
      ensures |states| > 1 && LeftStage() == old(Stage()) && LastStep(events) == Some(GivesUp)
    {
      Trace(GivesUp, Resting);
    }

    /** The pull phase: pull, or resync from scratch; apply; adopt the cursor. */
    method PullPhase(migration: bool) returns (r: PullOutcome)
      requires Valid() && Stage() == Resting
      modifies this, database`rows, database`cursor
      ensures Valid() && Stage() == Resting && old(states) <= states && old(events) <= events
      ensures sentPushes == old(sentPushes) && unchanged(this`pushes) && unchanged(this`turns)
      ensures |old(sentPulls)| < |sentPulls| <= |old(sentPulls)| + 2
      ensures old(sentPulls) <= sentPulls && sentPulls[|old(sentPulls)|] == PullArgs(old(database.cursor), migration && old(database.cursor).Some?)
      ensures |sentPulls| == |old(sentPulls)| + 2 ==> sentPulls[|old(sentPulls)| + 1] == PullArgs(None, false)
      ensures AsksWith(sentPulls[|old(sentPulls)|..], migration)
      ensures |sentPulls| == |old(sentPulls)| + 2 <==> |old(pulls)| > 0 && old(pulls)[0].ResyncRequired?
      ensures r.PullDone? ==> database.cursor == Some(r.pulledCursor)
      ensures r.PullDone? ==> (r.resyncedNow <==> |sentPulls| == |old(sentPulls)| + 2)
      ensures r.PullDone? ==> LastStep(events) == Some(PullApplied(true))
      ensures r.PullFailed? ==> r.pullCause != StillConflicting && Explained(r.pullCause)
    {
      var pullCursor := database.cursor;
      var pulled, replacement := PullOrResync(migration && pullCursor.Some?);
      if pulled.Err? { return PullFailed(pulled.error); }
      r := ApplyPulled(pulled.value, replacement, pullCursor);
    }

    /** The pull, and the one from scratch the server may demand; an error leaves nothing in flight. */
    method PullOrResync(migration: bool) returns (pulled: Result<PullReply, Failure>, replacement: bool)
      requires Valid() && Stage() == Resting
      modifies this, database`rows
      ensures Valid() && old(states) <= states && old(events) <= events && database.cursor == old(database.cursor)
      ensures sentPushes == old(sentPushes) && unchanged(this`pushes) && unchanged(this`turns)
      ensures |sentPulls| == |old(sentPulls)| + (if replacement then 2 else 1)
      ensures old(sentPulls) <= sentPulls && sentPulls[|old(sentPulls)|] == PullArgs(old(database.cursor), migration)
      ensures replacement ==> sentPulls[|old(sentPulls)| + 1] == PullArgs(None, false)
      ensures replacement <==> |old(pulls)| > 0 && old(pulls)[0].ResyncRequired?
      ensures pulled.Err? ==> Stage() == Resting && pulled.error != StillConflicting && Explained(pulled.error)
      ensures pulled.Ok? ==> pulled.value.Pulled? && Stage().PulledStage? && Stage().reply == pulled.value && Stage().replacement == replacement
      ensures pulled.Ok? ==> |old(pulls)| > (if replacement then 1 else 0) && pulled.value == old(pulls)[if replacement then 1 else 0]
    {
      hide ClientRun, IsApplied, ApplyFails, IsMarked, SnapshotOf, LastStep, RowsOk, ValidSchema;
      replacement := false;
      var reply := Pull(PullArgs(database.cursor, migration));
      if reply.None? { return Err(PullUnanswered), false; }
      Trace(PullAnswered(migration, reply.value), PulledStage(PullArgs(database.cursor, migration), reply.value, false));
      if reply.value.Pulled? { return Ok(reply.value), false; }
      replacement := true;
      pulled := Resync();
    }

    /** Re-pulling from scratch, as the server demanded. */
    method Resync() returns (pulled: Result<PullReply, Failure>)
      requires Valid() && Stage().PulledStage? && Stage().reply.ResyncRequired? && !Stage().replacement
      modifies this, database`rows
      ensures Valid() && old(states) <= states && old(events) <= events && database.cursor == old(database.cursor)
      ensures sentPushes == old(sentPushes) && unchanged(this`pushes) && unchanged(this`turns)
      ensures sentPulls == old(sentPulls) + [PullArgs(None, false)]
      ensures pulled.Err? ==> Stage() == Resting && pulled.error != StillConflicting && Explained(pulled.error)
      ensures pulled.Ok? ==> |old(pulls)| > 0 && pulled.value == old(pulls)[0] && pulled.value.Pulled?
      ensures pulled.Ok? ==> Stage().PulledStage? && Stage().reply == pulled.value && Stage().replacement
    {
      hide ClientRun, IsApplied, ApplyFails, IsMarked, SnapshotOf, LastStep, RowsOk, ValidSchema;
      var reply := Pull(PullArgs(None, false));
      if reply.None? { Abandon(); return Err(PullUnanswered); }
      Trace(ResyncAnswered(reply.value), PulledStage(PullArgs(None, false), reply.value, true));
      if reply.value.ResyncRequired? { Abandon(); return Err(ResyncRefused); }
      pulled := Ok(reply.value);
    }

    /** The apply write block, guarded by the cursor the pull started from. */
    method ApplyPulled(pulled: PullReply, replacement: bool, pullCursor: Option<string>) returns (r: PullOutcome)
      requires Valid() && pulled.Pulled? && Stage().PulledStage? && Stage().reply == pulled && Stage().replacement == replacement
      modifies this, database`rows, database`cursor
      ensures Valid() && Stage() == Resting && old(states) <= states && old(events) <= events
      ensures sentPulls == old(sentPulls) && sentPushes == old(sentPushes)
      ensures unchanged(this`pulls) && unchanged(this`pushes) && unchanged(this`turns)
      ensures r.PullDone? ==> database.cursor == Some(r.pulledCursor) && r.pulledCursor == pulled.cursor && r.resyncedNow == replacement
      ensures r.PullDone? ==> LastStep(events) == Some(PullApplied(true))
      ensures r == PullFailed(CursorMoved) <==> old(database.cursor) != pullCursor
      ensures r.PullFailed? ==> database.cursor == old(database.cursor) && (r.pullCause == CursorMoved || (r.pullCause == ApplyFailed && Explained(ApplyFailed)))
    {
      hide ClientRun, IsApplied, ApplyFails, IsMarked, SnapshotOf, LastStep, RowsOk, ValidSchema;
      AppRuns();
      if database.cursor != pullCursor { Abandon(); return PullFailed(CursorMoved); }
      var applied := ApplyRemoteChanges(database, pulled.changes, replacement);
      if !applied { Abandon(); return PullFailed(ApplyFailed); }
      database.cursor := Some(pulled.cursor);
      Trace(PullApplied(true), Resting);
      r := PullDone(pulled.cursor, replacement);
    }

    /** The push phase: fetch the dirty rows, push them, mark what was accepted and take in the interleave. */
    method PushPhase(pulledCursor: string) returns (r: PushOutcome)
      requires Valid() && Stage() == Resting && database.cursor == Some(pulledCursor)
      modifies this, database`rows, database`cursor
      ensures Valid() && Stage() == Resting && old(states) <= states && old(events) <= events
      ensures sentPulls == old(sentPulls) && old(sentPushes) <= sentPushes && unchanged(this`pulls)
      ensures |sentPushes| == |old(sentPushes)| + (if r == NothingToPush then 0 else 1)
      ensures r != NothingToPush ==> SentSnapshot(sentPushes[|old(sentPushes)|], pulledCursor)
      ensures r == NothingToPush ==> CleanRows(database.schema, database.rows) && LastStep(events) == old(LastStep(events))
      ensures r == NothingToPush ==> unchanged(this`pushes) && unchanged(this`turns)
      ensures r != NothingToPush ==> pushes == Rest(old(pushes))
      ensures r == Conflicted <==> r != NothingToPush && |old(pushes)| > 0 && old(pushes)[0].Conflict?
      ensures r == Conflicted ==> unchanged(this`turns) && Explained(StillConflicting)
      ensures r == TurnLost ==> |old(turns)| > 0 && !old(turns)[0] && LastStep(events) == Some(GivesUp)
      ensures r == PushDone ==> |old(pushes)| > 0 && MarkedLast(old(pushes)[0]) && (old(turns) == [] || old(turns)[0])
      ensures r.PushFailed? ==> r.pushCause != StillConflicting && Explained(r.pushCause)
    {
      hide ClientRun, IsApplied, ApplyFails, IsMarked, SnapshotOf, LastStep, RowsOk, ValidSchema, MarkedLast, Explained;
      AppRuns();
      var local, isEmpty := FetchLocalChanges(database);
      if isEmpty { return NothingToPush; }
      ghost var frozen := database.rows;
      Trace(Fetches(local), Snapshot(frozen, local));
      ghost var at := |events| - 1;
      var pushed := PushOnce(frozen, local, pulledCursor);
      assert events[at] == Fetches(local);
      if pushed.None? { return PushFailed(PushUnanswered); }
      r := AfterPush(frozen, local, pushed.value, pulledCursor);
      assert events[at] == Fetches(local);
    }

    /** A push of some traced snapshot, under the pulled cursor. */
    ghost predicate SentSnapshot(args: PushArgs, pulledCursor: string)
      reads this
    {
      args.cursor == pulledCursor && exists i :: 0 <= i < |events| && events[i].Fetches? && events[i].local.changes == args.changes
    }

    /** The trace ends with the mark of a push's reply, which is adopted exactly when cursor and changes both came. */
    ghost predicate MarkedLast(reply: PushReply)
      reads this
    {
      && reply.Pushed? && |states| > 1 && LeftStage().PushedStage? && LeftStage().pushReply == reply
      && LastStep(events).Some? && LastStep(events).value.Marks?
      && LastStep(events).value.take == if reply.cursor.Some? && reply.changes.Some? then Convergence.Adopt else Convergence.MarkOnly
    }

    method PushOnce(ghost frozen: LocalRows, local: LocalChanges, pulledCursor: string) returns (reply: Option<PushReply>)
      requires Valid() && Stage() == Snapshot(frozen, local) && database.cursor.Some?
      modifies this, database`rows
      ensures Valid() && old(states) <= states && old(events) <= events && database.cursor == old(database.cursor)
      ensures sentPulls == old(sentPulls) && sentPushes == old(sentPushes) + [PushArgs(local.changes, pulledCursor)]
      ensures unchanged(this`pulls) && unchanged(this`turns)
      ensures reply == (if old(pushes) == [] then None else Some(old(pushes)[0])) && pushes == Rest(old(pushes))
      ensures Stage() == if reply.None? then Resting else PushedStage(frozen, local, reply.value)
      ensures reply.None? ==> Explained(PushUnanswered)
    {
      hide ClientRun, IsApplied, ApplyFails, IsMarked, SnapshotOf, LastStep, RowsOk, ValidSchema;
      reply := Push(PushArgs(local.changes, pulledCursor));
      if reply.None? { Abandon(); return; }
      Trace(PushAnswered(reply.value), PushedStage(frozen, local, reply.value));
    }

    /** What a push's answer leads to. */
    method AfterPush(ghost frozen: LocalRows, local: LocalChanges, pushed: PushReply, pulledCursor: string) returns (r: PushOutcome)
      requires Valid() && Stage() == PushedStage(frozen, local, pushed) && SnapshotOf(database.schema, frozen, local)
      requires database.cursor == Some(pulledCursor)
      modifies this, database`rows, database`cursor
      ensures Valid() && Stage() == Resting && old(states) <= states && old(events) <= events
      ensures sentPulls == old(sentPulls) && sentPushes == old(sentPushes) && unchanged(this`pulls) && unchanged(this`pushes)
      ensures r != NothingToPush && (r == Conflicted <==> pushed.Conflict?)
      ensures r == Conflicted ==> unchanged(this`turns) && Explained(StillConflicting)
      ensures r == TurnLost ==> |old(turns)| > 0 && !old(turns)[0] && LastStep(events) == Some(GivesUp)
      ensures r == PushDone ==> MarkedLast(pushed) && (old(turns) == [] || old(turns)[0])
      ensures r.PushFailed? ==> (r.pushCause == CursorAlone || r.pushCause == ApplyFailed) && Explained(r.pushCause)
    {
      hide ClientRun, IsApplied, ApplyFails, IsMarked, SnapshotOf, LastStep, RowsOk, ValidSchema;
      if pushed.Conflict? { Abandon(); return Conflicted; }
      if pushed.cursor.Some? && pushed.changes.None? { Abandon(); return PushFailed(CursorAlone); }
      var stillOurs := RequestTurn();
      if !stillOurs { Abandon(); return TurnLost; }
      r := MarkPhase(frozen, local, pushed, pulledCursor);
    }

    /** The last write block: mark, then take in the interleave and its cursor if both came. */
    method MarkPhase(ghost frozen: LocalRows, local: LocalChanges, pushed: PushReply, pulledCursor: string) returns (r: PushOutcome)
      requires Valid() && pushed.Pushed? && Stage() == PushedStage(frozen, local, pushed)
      requires SnapshotOf(database.schema, frozen, local)
      modifies this, database`rows, database`cursor
      ensures Valid() && Stage() == Resting && old(states) <= states && old(events) <= events
      ensures sentPulls == old(sentPulls) && sentPushes == old(sentPushes)
      ensures unchanged(this`pulls) && unchanged(this`pushes) && unchanged(this`turns)
      ensures |states| > 1 && LeftStage() == PushedStage(frozen, local, pushed)
      ensures LastStep(events).Some? && LastStep(events).value.Marks?
      ensures r == PushDone ==>
                LastStep(events).value.take == if pushed.cursor.Some? && pushed.changes.Some? && old(database.cursor) == Some(pulledCursor)
                                               then Convergence.Adopt else Convergence.MarkOnly
      ensures r == PushDone || (r == PushFailed(ApplyFailed) && Explained(ApplyFailed))
    {
      SnapshotIsWellFrozen(database.schema, frozen, local);
      hide ClientRun, IsApplied, ApplyFails, IsMarked, SnapshotOf, NamesOnce, LastStep, WellFrozen, RowsOk, ValidSchema;
      MarkLocalChangesAsSynced(database, local, pushed.rejected);
      ghost var marked := database.rows;
      if pushed.cursor.None? || pushed.changes.None? || database.cursor != Some(pulledCursor) {
        Trace(Marks(marked, Convergence.MarkOnly), Resting);
        return PushDone;
      }
      r := TakeInterleave(frozen, local, pushed);
    }

    /** Still inside the write block: the interleave, then its cursor. */
    method TakeInterleave(ghost frozen: LocalRows, local: LocalChanges, pushed: PushReply) returns (r: PushOutcome)
      requires |states| > 0 && ClientRun(database.schema, states, events) && database.Valid()
      requires pushed.Pushed? && pushed.cursor.Some? && pushed.changes.Some? && Stage() == PushedStage(frozen, local, pushed)
      requires states[|states| - 1].cursor == database.cursor
      requires IsMarked(states[|states| - 1].rows, local, pushed.rejected, database.rows)
      modifies this`states, this`events, database`rows, database`cursor
      ensures Valid() && Stage() == Resting && old(states) <= states && old(events) <= events
      ensures |states| > 1 && LeftStage() == PushedStage(frozen, local, pushed)
      ensures LastStep(events).Some? && LastStep(events).value.Marks?
      ensures r == PushDone ==> LastStep(events).value.take == Convergence.Adopt
      ensures r == PushDone || (r == PushFailed(ApplyFailed) && Explained(ApplyFailed))
    {
      hide ClientRun, IsApplied, ApplyFails, IsMarked, LastStep, RowsOk, ValidSchema;
      ghost var marked := database.rows;
      var applied := ApplyRemoteChanges(database, pushed.changes.value, false);
      if !applied {
        Trace(Marks(marked, Convergence.MarkOnly), Resting);
        return PushFailed(ApplyFailed);
      }
      database.cursor := pushed.cursor;
      Trace(Marks(marked, Convergence.Adopt), Resting);
      r := PushDone;
    }

    /** One attempt; with no push asked for it ends like one with nothing to push. */
    method Attempt(pushing: bool, migration: bool) returns (resynced: bool, r: PushOutcome)
      requires Valid() && Stage() == Resting
      modifies this, database`rows, database`cursor
      ensures Valid() && Stage() == Resting && old(states) <= states && old(events) <= events
      ensures |old(sentPulls)| < |sentPulls| <= |old(sentPulls)| + 2
      ensures old(sentPulls) <= sentPulls && AsksWith(sentPulls[|old(sentPulls)|..], migration)
      ensures sentPulls[|old(sentPulls)|].cursor == old(database.cursor)
      ensures !r.PushFailed? ==> (resynced <==> |sentPulls| == |old(sentPulls)| + 2)
      ensures !pushing ==> sentPushes == old(sentPushes) && (r == NothingToPush || r.PushFailed?)
      ensures |old(sentPushes)| <= |sentPushes| <= |old(sentPushes)| + 1
      ensures !r.PushFailed? ==> |sentPushes| == |old(sentPushes)| + (if r == NothingToPush then 0 else 1)
      ensures r == NothingToPush ==> LastStep(events) == Some(PullApplied(true))
      ensures r == NothingToPush && pushing ==> CleanRows(database.schema, database.rows)
      ensures r == Conflicted ==> |old(pushes)| > 0 && old(pushes)[0].Conflict? && pushes == old(pushes)[1..]
      ensures r == Conflicted ==> unchanged(this`turns) && Explained(StillConflicting)
      ensures r == TurnLost ==> |old(turns)| > 0 && !old(turns)[0] && LastStep(events) == Some(GivesUp)
      ensures r == PushDone ==> |old(pushes)| > 0 && MarkedLast(old(pushes)[0])
      ensures r.PushFailed? ==> r.pushCause != StillConflicting && Explained(r.pushCause)
    {
      hide ClientRun, Explained, LastStep, CleanRows, MarkedLast, RowsOk, ValidSchema, SentSnapshot, AsksWith;
      var pull := PullPhase(migration);
      if pull.PullFailed? { return false, PushFailed(pull.pullCause); }
      resynced := pull.resyncedNow;
      if !pushing { return resynced, NothingToPush; }
      r := PushPhase(pull.pulledCursor);
    }

    /**
     * runSynchronize. Every answer it gives is what the trace, the replies
     * and the lease say: nothing pushed means nothing was dirty, or that no
     * push was asked for; a push done is the first that did not conflict,
     * marked last; a throw has its cause.
     */
    method Synchronize(conflictRetries: Option<int>, pushing: bool, migration: bool) returns (outcome: Outcome)
      requires Valid() && Stage() == Resting
      modifies this, database`rows, database`cursor
      ensures Valid() && Stage() == Resting && old(states) <= states && old(events) <= events
      ensures |sentPushes| <= |old(sentPushes)| + Attempts(conflictRetries)
      ensures |sentPulls| <= |old(sentPulls)| + 2 * Attempts(conflictRetries)
      ensures outcome.Done? ==> outcome.retryCount < Attempts(conflictRetries)
      ensures outcome.Done? ==> |sentPushes| == |old(sentPushes)| + outcome.retryCount + if outcome.pushed then 1 else 0
      ensures outcome.Unavailable? <==> |old(turns)| > 0 && !old(turns)[0]
      ensures outcome.Unavailable? ==> sentPulls == old(sentPulls) && sentPushes == old(sentPushes)
      ensures old(sentPulls) <= sentPulls && AsksWith(sentPulls[|old(sentPulls)|..], migration)
      ensures |sentPulls| > |old(sentPulls)| ==> sentPulls[|old(sentPulls)|].cursor == old(database.cursor)
      ensures !pushing ==> sentPushes == old(sentPushes)
      ensures outcome.Done? ==> (outcome.resynced <==> |sentPulls| > |old(sentPulls)| + outcome.retryCount + 1)
      ensures outcome.Done? ==> Conflicts(old(pushes), outcome.retryCount)
      ensures outcome.Done? && !outcome.pushed ==> LastStep(events) == Some(PullApplied(true))
      ensures outcome.Done? && !outcome.pushed && pushing ==> CleanRows(database.schema, database.rows)
      ensures outcome.Done? && outcome.pushed ==>
                pushing && outcome.retryCount < |old(pushes)| && MarkedLast(old(pushes)[outcome.retryCount])
      ensures outcome.Lost? ==> pushing && |old(turns)| > 1 && !old(turns)[1] && LastStep(events) == Some(GivesUp)
      ensures outcome.Lost? ==> (outcome.resyncedLost <==> |sentPulls| > |old(sentPulls)| + outcome.retryCountLost + 1)
      ensures outcome.Threw? ==> Explained(outcome.cause)
      ensures outcome == Threw(StillConflicting) ==> Conflicts(old(pushes), Attempts(conflictRetries))
    {
      hide ClientRun, Explained, LastStep, CleanRows, MarkedLast, RowsOk, ValidSchema, SentSnapshot, Attempts, AsksWith, Conflicts;
      assert AsksWith(sentPulls[|sentPulls|..], migration) by { AsksNothing(sentPulls, migration); }
      NoConflictYet(pushes);
      var turn := RequestTurn();
      if !turn { return Unavailable; }
      var retries := Attempts(conflictRetries);
      var resynced := false;
      var attempt := 1;
      while attempt <= retries
        invariant 1 <= attempt <= retries + 1
        invariant Valid() && Stage() == Resting && old(states) <= states && old(events) <= events
        invariant |sentPushes| == |old(sentPushes)| + attempt - 1 && (sentPushes == old(sentPushes) || pushing)
        invariant |old(sentPulls)| + attempt - 1 <= |sentPulls| <= |old(sentPulls)| + 2 * (attempt - 1)
        invariant old(sentPulls) <= sentPulls && AsksWith(sentPulls[|old(sentPulls)|..], migration)
        invariant if attempt == 1 then sentPulls == old(sentPulls) && database.cursor == old(database.cursor)
                  else |sentPulls| > |old(sentPulls)| && sentPulls[|old(sentPulls)|].cursor == old(database.cursor)
        invariant resynced <==> |sentPulls| > |old(sentPulls)| + attempt - 1
        invariant attempt - 1 <= |old(pushes)| && pushes == old(pushes)[attempt - 1..]
        invariant Conflicts(old(pushes), attempt - 1)
        invariant turns == Rest(old(turns))
        invariant attempt > 1 ==> Explained(StillConflicting)
      {
        ghost var asked := sentPulls;
        var again, push := Attempt(pushing, migration);
        AsksMore(old(sentPulls), asked, sentPulls, migration);
        resynced := resynced || again;
        if push != Conflicted { return OutcomeOf(push, resynced, attempt - 1); }
        OneMoreConflict(old(pushes), attempt - 1);
        attempt := attempt + 1;
      }
      outcome := Threw(StillConflicting);
    }
  }

  /** A migration pull only where one was asked for and a cursor is sent. */
  predicate AsksWith(pulls: seq<PullArgs>, migration: bool) {
    forall args :: args in pulls ==> args.migration == (migration && args.cursor.Some?)
  }

  lemma AsksNothing(pulls: seq<PullArgs>, migration: bool)
    ensures AsksWith(pulls[|pulls|..], migration)
  {
  }

  lemma AsksMore(base: seq<PullArgs>, before: seq<PullArgs>, after: seq<PullArgs>, migration: bool)
    requires base <= before <= after
    requires AsksWith(before[|base|..], migration) && AsksWith(after[|before|..], migration)
    ensures AsksWith(after[|base|..], migration)
  {
    assert after[|base|..] == before[|base|..] + after[|before|..];
  }

  /** The first n pushes all conflict. */
  ghost predicate Conflicts(pushes: seq<PushReply>, n: nat) {
    n <= |pushes| && forall i :: 0 <= i < n ==> pushes[i].Conflict?
  }

  lemma NoConflictYet(pushes: seq<PushReply>)
    ensures Conflicts(pushes, 0)
  {
  }

  lemma OneMoreConflict(pushes: seq<PushReply>, n: nat)
    requires Conflicts(pushes, n) && n < |pushes| && pushes[n].Conflict?
    ensures Conflicts(pushes, n + 1)
  {
  }

  lemma SnapshotIsWellFrozen(schema: Schema, frozen: LocalRows, local: LocalChanges)
    requires SnapshotOf(schema, frozen, local)
    ensures WellFrozen(local)
    ensures forall t :: t in local.changes ==> NamesOnce(local.changes[t])
  {
    hide NamesOnce;
    forall t | t in local.dirty ensures DistinctRaws(local.dirty[t]) && forall raw :: raw in local.dirty[t] ==> Pushable(raw) {
      assert SnapshotOfTable(schema[t], frozen, local.changes[t], local.dirty[t]);
    }
    forall t | t in local.changes ensures NamesOnce(local.changes[t]) {
      assert SnapshotOfTable(schema[t], frozen, local.changes[t], local.dirty[t]);
    }
  }
}
