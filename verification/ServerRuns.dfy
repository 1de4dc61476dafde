/**
 * What holds over any run of a server: pulls, pushes and gcs in any order,
 * each meeting its contract.
 */
module ServerRuns {
  import opened RawRecords
  import opened MemoryStores
  import opened SyncTypes
  import opened SyncContracts
  import opened Cursors

  datatype ServerStep =
    | GcStep(floor: nat)
    | PullStep(scope: string, pullArgs: PullArgs, pullReply: PullReply)
    | PushStep(scope: string, pushArgs: PushArgs, pushReply: PushReply, floorSeen: nat)

  /** A store beside every cursor ever issued over it. */
  datatype Server = Server(db: Db, issued: set<(string, nat)>)

  ghost predicate Steps(config: Config, a: Db, step: ServerStep, b: Db) {
    match step
    case GcStep(floor) => floor <= a.rev && b == Pruned(a, if floor > a.floor then floor else a.floor)
    case PullStep(scope, args, reply) => b == a && PullContract(a, scope, config.tables, args, reply)
    case PushStep(scope, args, reply, floorSeen) => ValidDb(b) && PushContract(config, a, b, scope, args, reply, floorSeen)
  }

  function IssuedIn(scope: string, cursor: Option<string>): set<(string, nat)> {
    if cursor.Some? && DecodeCursor(cursor.value).Some? then {(scope, DecodeCursor(cursor.value).value)} else {}
  }

  function IssuedBy(step: ServerStep): set<(string, nat)> {
    match step
    case GcStep(_) => {}
    case PullStep(scope, _, reply) => if reply.Pulled? then IssuedIn(scope, Some(reply.cursor)) else {}
    case PushStep(scope, _, reply, _) => if reply.Pushed? then IssuedIn(scope, reply.cursor) else {}
  }

  /** The scope's served history reaches the cursor: an entry or the floor is at or above it. */
  ghost predicate Reaches(db: Db, scope: string, cursor: nat) {
    cursor <= db.floor || exists k :: k in db.rows && k.scope == scope && db.rows[k].rev >= cursor
  }

  ghost predicate ServerInv(s: Server) {
    && ValidDb(s.db)
    && forall c :: c in s.issued ==> c.1 <= s.db.rev && Reaches(s.db, c.0, c.1)
  }

  ghost predicate ServerRun(config: Config, states: seq<Server>, steps: seq<ServerStep>) {
    && |states| == |steps| + 1
    && states[0] == Server(Db(map[], 0, 0), {})
    && forall i :: 0 <= i < |steps| ==>
         && Steps(config, states[i].db, steps[i], states[i + 1].db)
         && states[i + 1].issued == states[i].issued + IssuedBy(steps[i])
  }

  lemma StepKeepsValid(config: Config, a: Db, step: ServerStep, b: Db)
    requires ValidDb(a) && Steps(config, a, step, b)
    ensures ValidDb(b) && a.rev <= b.rev && a.floor <= b.floor
  {
    hide EntryAfter, AcceptedStatement, CompleteReply;
  }

  /** An entry stays, restamped upward if at all, or a gc has passed its stamp. */
  lemma EntryPersists(config: Config, a: Db, step: ServerStep, b: Db, k: RowKey)
    requires ValidDb(a) && Steps(config, a, step, b) && k in a.rows
    ensures a.rows[k].rev <= b.floor || (k in b.rows && a.rows[k].rev <= b.rows[k].rev)
  {
    if step.PushStep? {
      if step.pushReply.Conflict? {
        GcOnlyEntry(a, b, k);
      } else {
        var s := AcceptedStatement(config.tables, step.scope, step.pushArgs.changes, step.pushReply.rejected, k);
        hide AcceptedStatement, CompleteReply, NoStaleOverwrite;
        assert EntryAfter(Lookup(a.rows, k), Lookup(b.rows, k), s, a.rev, b.floor);
      }
    }
  }

  /** Whatever a step writes, in any scope, is stamped above every revision handed out before it. */
  lemma LaterWritesStampedAbove(config: Config, a: Db, step: ServerStep, b: Db, k: RowKey)
    requires ValidDb(a) && Steps(config, a, step, b) && k in b.rows
    ensures Lookup(a.rows, k) == Some(b.rows[k]) || b.rows[k].rev > a.rev
  {
    if step.PushStep? {
      if step.pushReply.Conflict? {
        GcOnlyEntry(a, b, k);
      } else {
        var s := AcceptedStatement(config.tables, step.scope, step.pushArgs.changes, step.pushReply.rejected, k);
        hide AcceptedStatement, CompleteReply, NoStaleOverwrite;
        assert EntryAfter(Lookup(a.rows, k), Lookup(b.rows, k), s, a.rev, b.floor);
      }
    }
  }

  lemma ReachesAfter(config: Config, a: Db, step: ServerStep, b: Db, scope: string, cursor: nat)
    requires ValidDb(a) && Steps(config, a, step, b) && Reaches(a, scope, cursor)
    ensures Reaches(b, scope, cursor)
  {
    hide Steps, ValidDb;
    StepKeepsValid(config, a, step, b);
    if cursor > a.floor {
      var k :| k in a.rows && k.scope == scope && a.rows[k].rev >= cursor;
      EntryPersists(config, a, step, b, k);
    }
  }

  /** A scope's high-water mark, its highest revision or the floor, never decreases. */
  lemma HighWaterNeverDecreases(config: Config, a: Db, step: ServerStep, b: Db, scope: string, before: nat, after: nat)
    requires ValidDb(a) && Steps(config, a, step, b)
    requires IsEffectiveMax(a, scope, before) && IsEffectiveMax(b, scope, after)
    ensures before <= after
  {
    hide Steps, ValidDb;
    StepKeepsValid(config, a, step, b);
    EffectiveMaxReaches(a, scope, before);
    ReachesAfter(config, a, step, b, scope, before);
    ReachedIsBelow(b, scope, before, after);
  }

  lemma EffectiveMaxReaches(db: Db, scope: string, effMax: nat)
    requires IsEffectiveMax(db, scope, effMax)
    ensures Reaches(db, scope, effMax)
  {
  }

  lemma ReachedIsBelow(db: Db, scope: string, cursor: nat, effMax: nat)
    requires Reaches(db, scope, cursor) && IsEffectiveMax(db, scope, effMax)
    ensures cursor <= effMax && db.floor <= effMax
  {
  }

  /** The revision behind a printed cursor. */
  lemma PrintedCursor(rev: nat, c: nat)
    requires DecodeCursor(EncodeCursor(rev)) == Some(c)
    ensures c == rev
  {
    DecodesOnlyPrinted(EncodeCursor(rev), c);
    EncodeInjective(rev, c);
  }

  /** An accepted push that carries a cursor issues the scope's high-water mark as the push saw it. */
  lemma PushedCursor(config: Config, pre: Db, post: Db, scope: string, args: PushArgs, reply: PushReply, floorSeen: nat) returns (max: nat)
    requires PushContract(config, pre, post, scope, args, reply, floorSeen) && reply.Pushed? && reply.cursor.Some?
    ensures IsMaxRev(post, scope, max) && floorSeen <= post.floor
    ensures reply.cursor == Some(EncodeCursor(if max > floorSeen then max else floorSeen))
  {
    hide AllOrNothing, NoStaleOverwrite, IsMaxRev, WellFormedDelivery, StatementFor;
    max :| IsMaxRev(post, scope, max) && reply.cursor == Some(EncodeCursor(if max > floorSeen then max else floorSeen));
  }

  /** What a step issues: a pull the effective maximum, a push no less than the floor it saw. */
  lemma IssuedReaches(config: Config, a: Db, step: ServerStep, b: Db)
    requires ValidDb(a) && Steps(config, a, step, b)
    ensures forall c :: c in IssuedBy(step) ==> c.1 <= b.rev && Reaches(b, c.0, c.1)
  {
    StepKeepsValid(config, a, step, b);
    hide PushContract, PullAnswers;
    forall c | c in IssuedBy(step) ensures c.1 <= b.rev && Reaches(b, c.0, c.1) {
      match step
      case PullStep(scope, args, reply) =>
        var effMax := PulledCursor(a, scope, config.tables, args, reply);
        PrintedCursor(effMax, c.1);
        EffectiveMaxReaches(b, scope, effMax);
      case PushStep(scope, args, reply, floorSeen) =>
        var max := PushedCursor(config, a, b, scope, args, reply, floorSeen);
        PrintedCursor(if max > floorSeen then max else floorSeen, c.1);
    }
  }

  lemma PulledCursor(db: Db, scope: string, tables: seq<string>, args: PullArgs, reply: PullReply) returns (effMax: nat)
    requires PullContract(db, scope, tables, args, reply) && reply.Pulled?
    ensures IsEffectiveMax(db, scope, effMax) && reply.cursor == EncodeCursor(effMax)
  {
    hide WellFormedDelivery, StatementFor;
    effMax :| IsEffectiveMax(db, scope, effMax) && PullAnswers(db, scope, tables, args, reply, effMax);
  }

  lemma EncodeInjective(a: nat, b: nat)
    requires EncodeCursor(a) == EncodeCursor(b)
    ensures a == b
  {
    EncodedMatches(a);
    EncodedMatches(b);
  }

  lemma StepKeepsIssued(config: Config, a: Server, step: ServerStep, b: Server)
    requires ServerInv(a) && Steps(config, a.db, step, b.db) && b.issued == a.issued + IssuedBy(step)
    ensures ServerInv(b)
  {
    hide Steps, ValidDb, Reaches, IssuedBy;
    StepKeepsValid(config, a.db, step, b.db);
    IssuedReaches(config, a.db, step, b.db);
    forall c | c in a.issued ensures c.1 <= b.db.rev && Reaches(b.db, c.0, c.1) {
      ReachesAfter(config, a.db, step, b.db, c.0, c.1);
    }
  }

  /** Over any run, every cursor ever issued stays at or below the served history of its scope. */
  lemma {:induction false} IssuedCursorsStayGood(config: Config, states: seq<Server>, steps: seq<ServerStep>)
    requires ServerRun(config, states, steps)
    ensures ServerInv(states[|steps|])
    decreases |steps|
  {
    hide Steps, IssuedBy;
    if |steps| > 0 {
      hide ServerInv;
      var n := |steps| - 1;
      IssuedCursorsStayGood(config, states[..|states| - 1], steps[..n]);
      StepKeepsIssued(config, states[n], steps[n], states[n + 1]);
    }
  }

  /** A pull with an issued cursor is refused exactly when the floor has since passed it. */
  lemma IssuedCursorRefusedIff(config: Config, s: Server, scope: string, cursor: nat, migration: bool, reply: PullReply)
    requires ServerInv(s) && (scope, cursor) in s.issued && cursor <= MAX_SAFE
    requires PullContract(s.db, scope, config.tables, PullArgs(Some(EncodeCursor(cursor)), migration), reply)
    ensures reply.ResyncRequired? <==> cursor < s.db.floor
  {
    var args := PullArgs(Some(EncodeCursor(cursor)), migration);
    var effMax :| IsEffectiveMax(s.db, scope, effMax) && PullAnswers(s.db, scope, config.tables, args, reply, effMax);
    DecodeEncode(cursor);
    ReachedIsBelow(s.db, scope, cursor, effMax);
  }

  /** A pull issues the high-water mark, which lies at or above the floor; a push never issues less than the floor it saw. */
  lemma IssuedAtOrAboveFloor(config: Config, a: Db, step: ServerStep, b: Db)
    requires ValidDb(a) && Steps(config, a, step, b)
    ensures forall c :: c in IssuedBy(step) ==> c.1 >= if step.PushStep? then step.floorSeen else a.floor
  {
    hide PushContract, PullAnswers;
    forall c | c in IssuedBy(step) ensures c.1 >= if step.PushStep? then step.floorSeen else a.floor {
      match step
      case PullStep(scope, args, reply) =>
        var effMax := PulledCursor(a, scope, config.tables, args, reply);
        PrintedCursor(effMax, c.1);
      case PushStep(scope, args, reply, floorSeen) =>
        var max := PushedCursor(config, a, b, scope, args, reply, floorSeen);
        PrintedCursor(if max > floorSeen then max else floorSeen, c.1);
    }
  }

  // ----- pushes -----

  /** With no gc meanwhile, a push conflicts exactly when its cursor is bad or an id it names is newer. */
  lemma ConflictsExactly(config: Config, pre: Db, post: Db, scope: string, args: PushArgs, reply: PushReply, floorSeen: nat)
    requires ValidDb(pre) && PushContract(config, pre, post, scope, args, reply, floorSeen) && post.floor == pre.floor
    ensures reply == Conflict <==>
              || DecodeCursor(args.cursor).None?
              || AheadOf(pre, pre, scope, DecodeCursor(args.cursor).value)
              || NamesNewer(config, pre, pre, scope, args.changes, DecodeCursor(args.cursor).value)
  {
    hide StatementFor, CompleteReply;
    if reply.Pushed? {
      OtherScopesKeep(config, pre, post, scope, args.changes, reply.rejected);
      var since := DecodeCursor(args.cursor).value;
      forall k | k in pre.rows ensures !NewerNamed(config, pre, pre, scope, args.changes, since, k) {
      }
      assert since <= pre.floor || exists k :: k in pre.rows && k.scope == scope && pre.rows[k].rev >= since;
    } else {
      assert post == pre by {
        assert Pruned(pre, pre.floor).rows == pre.rows;
      }
    }
  }

  /** An accepted push leaves other scopes to gc alone. */
  lemma OtherScopesKeep(config: Config, pre: Db, post: Db, scope: string, changes: Changes, rejected: Rejections)
    requires AllOrNothing(config, pre, post, scope, changes, rejected)
    ensures forall k: RowKey :: k.scope != scope ==> Lookup(post.rows, k) == PrunedEntry(Lookup(pre.rows, k), post.floor)
  {
    hide StatementFor, Admissible, Refusable;
    forall k: RowKey | k.scope != scope ensures Lookup(post.rows, k) == PrunedEntry(Lookup(pre.rows, k), post.floor) {
      assert AcceptedStatement(config.tables, scope, changes, rejected, k) == Silent;
    }
  }

  /** What a hook named is rejected, and its entry changes by gc alone. */
  lemma NamedByHookStaysOut(config: Config, pre: Db, post: Db, scope: string, changes: Changes, rejected: Rejections, h: Hooks, key: Key)
    requires AllOrNothing(config, pre, post, scope, changes, rejected) && Judgement(config, pre, post, scope, changes, rejected, h)
    requires key.table in config.tables && HookNames(h, key)
    ensures key.id in RejectedIn(rejected, key.table)
    ensures Entry(post, scope, key) == PrunedEntry(Entry(pre, scope, key), post.floor)
  {
    hide HooksAsked, Caused, StatementFor, Admissible, Replaceable;
    var k := RowKey(scope, key);
    assert AcceptedStatement(config.tables, scope, changes, rejected, k) == Silent;
  }

  /** A stated row of this scope that nothing else forbids is rejected exactly when a hook named it. */
  lemma BlamelessRejectedIffNamed(config: Config, pre: Db, post: Db, scope: string, changes: Changes, rejected: Rejections, h: Hooks, key: Key)
    requires Judgement(config, pre, post, scope, changes, rejected, h) && key.table in config.tables
    requires !ForeignTo(pre, scope, key) && Replaceable(config, pre, pre.floor, scope, key) && ValidDb(pre)
    requires var s := StatementFor(ChangesFor(changes, key.table), key.id);
             s == Deletes || (s.Upserts? && HasUsableId(s.row) && config.valid(key.table, s.row) && !config.refuses(key.table, s.row))
    ensures key.id in RejectedIn(rejected, key.table) <==> HookNames(h, key)
  {
    hide HooksAsked, StatementFor, ForeignTo;
    assert key == Key(key.table, key.id);
  }

  /**
   * Once a push from a cursor has written an id, another push naming it from
   * the same cursor conflicts, as long as no gc has pruned the entry: an
   * entry stamped after the cursor is never overwritten.
   */
  lemma LaterPushConflicts(config: Config, pre: Db, post: Db, scope: string, args: PushArgs, reply: PushReply, floorSeen: nat, k: RowKey)
    requires ValidDb(pre) && PushContract(config, pre, post, scope, args, reply, floorSeen)
    requires DecodeCursor(args.cursor).Some? && k in pre.rows && k.scope == scope && k.key.table in config.tables
    requires pre.rows[k].rev > DecodeCursor(args.cursor).value && !Collectable(pre.rows[k], post.floor)
    requires !ForeignTo(pre, scope, k.key)
    ensures StatementFor(ChangesFor(args.changes, k.key.table), k.key.id) != Silent ==> reply == Conflict
    ensures reply.Pushed? ==> Lookup(post.rows, k) == Some(pre.rows[k])
  {
    hide CompleteReply, StatementFor;
    if reply.Pushed? {
      assert EntryAfter(Lookup(pre.rows, k), Lookup(post.rows, k),
                        AcceptedStatement(config.tables, scope, args.changes, reply.rejected, k), pre.rev, post.floor);
    }
  }

  /** A reply that carries a cursor was computed before gc reached the window: no deletion in it was lost. */
  lemma RacingGcDegrades(config: Config, pre: Db, post: Db, scope: string, args: PushArgs, reply: PushReply, floorSeen: nat, k: RowKey)
    requires ValidDb(pre) && PushContract(config, pre, post, scope, args, reply, floorSeen) && reply.Pushed?
    requires k in pre.rows && k.scope == scope && k.key.table in config.tables && pre.rows[k].deleted
    requires pre.rows[k].rev > DecodeCursor(args.cursor).value
    requires StatementFor(ChangesFor(args.changes, k.key.table), k.key.id) == Silent
    ensures Collectable(pre.rows[k], floorSeen) ==> reply.cursor == None && reply.changes == None
    ensures reply.cursor.Some? ==> reply.changes.Some? && k.key.id in ChangesFor(reply.changes.value, k.key.table).deleted
  {
    hide AllOrNothing, NoStaleOverwrite, LastRow, Judgement, ValidDb, CursorReached, WellFormedDelivery;
    if reply.cursor.Some? {
      var tc := reply.changes.value[k.key.table];
      assert k == RowKey(scope, Key(k.key.table, k.key.id));
      assert StatementFor(tc, k.key.id) == WindowStatement(pre, scope, k.key, DecodeCursor(args.cursor).value);
    }
  }

  /** The reply never echoes: a pull from its cursor, with nothing written in between, says nothing. */
  lemma PullAfterPushIsEmpty(config: Config, pre: Db, post: Db, scope: string, args: PushArgs, reply: PushReply, floorSeen: nat, again: PullReply)
    requires ValidDb(post) && PushContract(config, pre, post, scope, args, reply, floorSeen)
    requires reply.Pushed? && reply.cursor.Some? && post.rev <= MAX_SAFE
    requires PullContract(post, scope, config.tables, PullArgs(reply.cursor, false), again)
    ensures floorSeen == post.floor ==> again.Pulled?
    ensures again.Pulled? ==> forall t, id :: t in config.tables ==> StatementFor(again.changes[t], id) == Silent
  {
    hide PushContract, StatementFor, WellFormedDelivery;
    var max := PushedCursor(config, pre, post, scope, args, reply, floorSeen);
    var cursor := if max > floorSeen then max else floorSeen;
    DecodeEncode(cursor);
    var effMax :| IsEffectiveMax(post, scope, effMax)
                  && PullAnswers(post, scope, config.tables, PullArgs(reply.cursor, false), again, effMax);
    if again.Pulled? {
      forall t, id | t in config.tables ensures StatementFor(again.changes[t], id) == Silent {
        assert StatementFor(again.changes[t], id) == WindowStatement(post, scope, Key(t, id), cursor);
      }
    }
  }
}
