/**
 * What a pull and a push promise, said about the store's contents before and
 * after and about the reply, not about how the engine computes it
 * (docs/sync-wire.md as packages/server/src/engine.ts implements it).
 */
module SyncContracts {
  import opened RawRecords
  import opened MemoryStores
  import opened SyncTypes
  import opened Cursors

  /** The tables and refusal rules an engine is configured with. */
  datatype Config = Config(
    tables: seq<string>,
    valid: (string, WireRow) -> bool,
    appendOnly: set<string>,
    refuses: (string, WireRow) -> bool,
    rowsHook: Option<(Db, string, map<string, seq<WireRow>>) -> Rejections>,
    changesHook: Option<(Db, string, map<string, (seq<WireRow>, seq<string>)>) -> Rejections>
  )

  predicate DistinctTables(tables: seq<string>) {
    forall i, j :: 0 <= i < j < |tables| ==> tables[i] != tables[j]
  }

  /** Between the two states only gcs ran. */
  ghost predicate GcOnly(before: Db, after: Db) {
    before.floor <= after.floor <= before.rev && after == Pruned(before, after.floor)
  }

  lemma GcOnlyRefl(db: Db)
    requires ValidDb(db)
    ensures GcOnly(db, db)
  {
    assert Pruned(db, db.floor).rows == db.rows;
  }

  lemma GcOnlyTrans(a: Db, b: Db, c: Db)
    requires GcOnly(a, b) && GcOnly(b, c)
    ensures GcOnly(a, c)
  {
    assert Pruned(Pruned(a, b.floor), c.floor).rows == Pruned(a, c.floor).rows;
  }

  lemma GcOnlyValid(a: Db, b: Db)
    requires ValidDb(a) && GcOnly(a, b)
    ensures ValidDb(b)
  {
  }

  lemma GcOnlyEntry(a: Db, b: Db, k: RowKey)
    requires GcOnly(a, b)
    ensures Lookup(b.rows, k) == PrunedEntry(Lookup(a.rows, k), b.floor)
  {
  }

  /** What a reply built over the window (since, ...) says about a key. */
  function WindowStatement(db: Db, scope: string, key: Key, since: nat): Statement {
    var e := Entry(db, scope, key);
    if e.None? || e.value.rev <= since then Silent
    else if e.value.deleted then Deletes
    else Upserts(e.value.row)
  }

  /** A change set naming each id at most once, rows in the updated bucket. */
  ghost predicate WellFormedDelivery(tc: TableChanges) {
    tc.created == [] && NamesOnce(tc)
  }

  // ----- pull -----

  /** The highest revision a pull can serve: pruning may drop the live maximum below the floor. */
  ghost predicate IsEffectiveMax(db: Db, scope: string, effMax: nat) {
    exists max: nat :: IsMaxRev(db, scope, max) && effMax == if max > db.floor then max else db.floor
  }

  predicate CursorServed(cursor: Option<string>, floor: nat, effMax: nat) {
    cursor.None? || (DecodeCursor(cursor.value).Some? && floor <= DecodeCursor(cursor.value).value <= effMax)
  }

  function SinceOf(cursor: Option<string>): nat {
    if cursor.Some? && DecodeCursor(cursor.value).Some? then DecodeCursor(cursor.value).value else 0
  }

  ghost predicate PullContract(db: Db, scope: string, tables: seq<string>, args: PullArgs, reply: PullReply) {
    exists effMax :: IsEffectiveMax(db, scope, effMax) && PullAnswers(db, scope, tables, args, reply, effMax)
  }

  ghost predicate PullAnswers(db: Db, scope: string, tables: seq<string>, args: PullArgs, reply: PullReply, effMax: nat) {
    match reply
    case ResyncRequired => !CursorServed(args.cursor, db.floor, effMax)
    case Pulled(changes, cursor) =>
      && CursorServed(args.cursor, db.floor, effMax)
      && cursor == EncodeCursor(effMax)
      && changes.Keys == (set t | t in tables)
      && forall t :: t in tables ==>
           && WellFormedDelivery(changes[t])
           && forall id ::
                StatementFor(changes[t], id)
                  == WindowStatement(db, scope, Key(t, id), if args.migration then 0 else SinceOf(args.cursor))
  }

  // ----- push -----

  /** How one stored entry may differ after an accepted push that said s about it. */
  ghost predicate EntryAfter(before: Option<Stored>, after: Option<Stored>, s: Statement, rev: nat, floor: nat) {
    match s
    case Upserts(row) => after.Some? && after.value.row == row && !after.value.deleted && after.value.rev > rev
    case Deletes =>
      if before.Some? && !before.value.deleted
      then if after.None? then floor > rev else (after.value.deleted && after.value.row == before.value.row && after.value.rev > rev)
      else after == PrunedEntry(before, floor)
    case Silent => after == PrunedEntry(before, floor)
  }

  /** What the push says about a key that its reply does not list as rejected. */
  function AcceptedStatement(tables: seq<string>, scope: string, changes: Changes, rejected: Rejections, k: RowKey): Statement {
    if k.scope == scope && k.key.table in tables && k.key.id !in RejectedIn(rejected, k.key.table)
    then StatementFor(ChangesFor(changes, k.key.table), k.key.id)
    else Silent
  }

  /**
   * What the two push hooks saw of the store, which ids were in play, what
   * the hooks were shown in turn and what they answered; a hook that is not
   * configured answers nothing.
   */
  datatype Hooks = Hooks(
    db: Db,
    inPlay: map<string, set<string>>,
    rows: map<string, seq<WireRow>>,
    rowsAnswer: Rejections,
    left: map<string, (seq<WireRow>, seq<string>)>,
    changesAnswer: Rejections
  )

  predicate HookNames(h: Hooks, key: Key) {
    key.id in RejectedIn(h.rowsAnswer, key.table) || key.id in RejectedIn(h.changesAnswer, key.table)
  }

  /** The answer names only ids in play, under configured tables. */
  predicate NamesInPlay(answer: Rejections, inPlay: map<string, set<string>>) {
    forall t :: t in answer && |answer[t]| > 0 ==> t in inPlay && RejectedIn(answer, t) <= inPlay[t]
  }

  /** Some hook named what is not in play. */
  predicate HooksFail(h: Hooks) {
    !NamesInPlay(h.rowsAnswer, h.inPlay) || !NamesInPlay(h.changesAnswer, h.inPlay)
  }

  /** In play are a table's named ids of this scope alone; those left out are another scope's. */
  ghost predicate InPlay(pre: Db, scope: string, tc: TableChanges, h: Hooks, t: string)
    requires t in h.inPlay
  {
    forall id ::
      var named := StatementFor(tc, id) != Silent;
      && (id in h.inPlay[t] ==> named && !ForeignTo(h.db, scope, Key(t, id)))
      && (named && id !in h.inPlay[t] ==> ForeignTo(pre, scope, Key(t, id)))
  }

  /** The first hook is shown exactly the rows in play that pass validation. */
  ghost predicate ShownRows(config: Config, tc: TableChanges, h: Hooks, t: string)
    requires t in h.inPlay && t in h.rows
  {
    && DistinctIds(h.rows[t])
    && forall row: WireRow :: row in h.rows[t] <==>
         StatementFor(tc, IdOf(row)) == Upserts(row) && IdOf(row) in h.inPlay[t] && config.valid(t, row)
  }

  /** The second hook is shown exactly what the first left of the rows, and of the deletions in play. */
  ghost predicate ShownChanges(tc: TableChanges, h: Hooks, t: string)
    requires t in h.inPlay && t in h.rows && t in h.left
  {
    && DistinctIds(h.left[t].0)
    && (forall row: WireRow :: row in h.left[t].0 <==> row in h.rows[t] && IdOf(row) !in RejectedIn(h.rowsAnswer, t))
    && (forall id :: id in h.left[t].1 <==>
          StatementFor(tc, id) == Deletes && id in h.inPlay[t] && id !in RejectedIn(h.rowsAnswer, t))
  }

  /** What was in play and what the first hook was shown, table by table. */
  ghost predicate RowsShown(config: Config, pre: Db, scope: string, changes: Changes, h: Hooks) {
    && h.inPlay.Keys == h.rows.Keys == (set t | t in config.tables)
    && forall t :: t in config.tables ==>
         InPlay(pre, scope, ChangesFor(changes, t), h, t) && ShownRows(config, ChangesFor(changes, t), h, t)
  }

  ghost predicate ChangesShown(config: Config, changes: Changes, h: Hooks) {
    && h.inPlay.Keys == h.rows.Keys == h.left.Keys == (set t | t in config.tables)
    && forall t :: t in config.tables ==> ShownChanges(ChangesFor(changes, t), h, t)
  }

  /** Both hooks were asked, in order, the second only if the first kept to what is in play. */
  ghost predicate HooksAsked(config: Config, pre: Db, scope: string, changes: Changes, h: Hooks) {
    && GcOnly(pre, h.db)
    && RowsShown(config, pre, scope, changes, h)
    && h.rowsAnswer == (if config.rowsHook.Some? then config.rowsHook.value(h.db, scope, h.rows) else map[])
    && if NamesInPlay(h.rowsAnswer, h.inPlay)
       then
         && ChangesShown(config, changes, h)
         && h.changesAnswer == (if config.changesHook.Some? then config.changesHook.value(h.db, scope, h.left) else map[])
       else h.changesAnswer == map[]
  }

  /** Every id a hook named is rejected. */
  predicate HooksHeeded(tables: seq<string>, rejected: Rejections, h: Hooks) {
    forall t :: t in tables ==>
      RejectedIn(h.rowsAnswer, t) <= RejectedIn(rejected, t) && RejectedIn(h.changesAnswer, t) <= RejectedIn(rejected, t)
  }

  /** The hooks were asked and obeyed, and every rejected id has a cause, which may be that a hook named it. */
  ghost predicate Judgement(config: Config, pre: Db, post: Db, scope: string, changes: Changes, rejected: Rejections, h: Hooks) {
    && HooksAsked(config, pre, scope, changes, h) && h.db.floor <= post.floor
    && !HooksFail(h)
    && HooksHeeded(config.tables, rejected, h)
    && Caused(config, pre, scope, changes, rejected, Some(h))
  }

  ghost predicate Caused(config: Config, pre: Db, scope: string, changes: Changes, rejected: Rejections, hooks: Option<Hooks>) {
    forall t, id :: t in config.tables && id in RejectedIn(rejected, t) ==>
      Refusable(config, pre, scope, changes, Key(t, id), hooks)
  }

  /** A reason the engine may name an id in rejected; the hooks give one once they were asked. */
  ghost predicate Refusable(config: Config, pre: Db, scope: string, changes: Changes, key: Key, hooks: Option<Hooks>) {
    || ForeignTo(pre, scope, key)
    || (hooks.Some? && HookNames(hooks.value, key))
    || var s := StatementFor(ChangesFor(changes, key.table), key.id);
       && s.Upserts?
       && HasUsableId(s.row)
       && (|| !config.valid(key.table, s.row)
           || config.refuses(key.table, s.row)
           || var e := Entry(pre, scope, key);
              e.Some? && (e.value.deleted || key.table in config.appendOnly))
  }

  /** Nothing that forbids applying the row stands after the push. */
  ghost predicate Admissible(config: Config, post: Db, scope: string, key: Key, row: DirtyRaw) {
    && HasUsableId(row)
    && config.valid(key.table, row)
    && !config.refuses(key.table, row)
    && !ForeignTo(post, scope, key)
  }

  /** The row lands on no tombstone gc has left, and in an append-only table on nothing stored. */
  ghost predicate Replaceable(config: Config, pre: Db, floor: nat, scope: string, key: Key) {
    var e := PrunedEntry(Entry(pre, scope, key), floor);
    e.Some? ==> !e.value.deleted && key.table !in config.appendOnly
  }

  /** A push cursor no honest client holds. */
  ghost predicate AheadOf(pre: Db, post: Db, scope: string, since: nat) {
    && since > pre.floor
    && forall k :: k in pre.rows && k.scope == scope && !Collectable(pre.rows[k], post.floor) ==> pre.rows[k].rev < since
  }

  ghost predicate CursorReached(pre: Db, post: Db, scope: string, since: nat) {
    since <= post.floor || exists k :: k in pre.rows && k.scope == scope && pre.rows[k].rev >= since
  }

  /** An id the push names, of this scope alone, was changed after the cursor. */
  ghost predicate NamesNewer(config: Config, pre: Db, post: Db, scope: string, changes: Changes, since: nat) {
    exists k :: k in pre.rows && NewerNamed(config, pre, post, scope, changes, since, k)
  }

  ghost predicate NewerNamed(config: Config, pre: Db, post: Db, scope: string, changes: Changes, since: nat, k: RowKey)
    requires k in pre.rows
  {
    && k.scope == scope && k.key.table in config.tables
    && StatementFor(ChangesFor(changes, k.key.table), k.key.id) != Silent
    && pre.rows[k].rev > since
    && !ForeignTo(post, scope, k.key)
  }

  ghost predicate PushConflicts(config: Config, pre: Db, post: Db, scope: string, args: PushArgs) {
    var since := DecodeCursor(args.cursor);
    || since.None?
    || AheadOf(pre, post, scope, since.value)
    || NamesNewer(config, pre, post, scope, args.changes, since.value)
  }

  /**
   * Each id named in a configured table is applied as stated or listed in
   * rejected with its entry untouched; everything else, other scopes
   * included, changes only by the gcs that ran meanwhile.
   */
  ghost predicate AllOrNothing(config: Config, pre: Db, post: Db, scope: string, changes: Changes, rejected: Rejections) {
    && (forall k: RowKey ::
          EntryAfter(Lookup(pre.rows, k), Lookup(post.rows, k),
                     AcceptedStatement(config.tables, scope, changes, rejected, k), pre.rev, post.floor))
    && (forall t :: t in rejected ==> t in config.tables)
    && (forall t, id :: t in config.tables && id in RejectedIn(rejected, t) ==>
          StatementFor(ChangesFor(changes, t), id) != Silent)
    && (forall k: RowKey ::
          var s := AcceptedStatement(config.tables, scope, changes, rejected, k);
          s.Upserts? ==> Admissible(config, post, scope, k.key, s.row) && Replaceable(config, pre, post.floor, scope, k.key))
  }

  /** An accepted push never touched an entry its cursor had not seen. */
  ghost predicate NoStaleOverwrite(config: Config, pre: Db, post: Db, scope: string, changes: Changes, rejected: Rejections, since: nat) {
    forall k: RowKey :: k in pre.rows && k.scope == scope && k.key.table in config.tables
                        && StatementFor(ChangesFor(changes, k.key.table), k.key.id) != Silent
                        && !ForeignTo(pre, scope, k.key) ==>
      pre.rows[k].rev <= since || Collectable(pre.rows[k], post.floor)
  }

  /**
   * The interleave: exactly the entries stamped after the cursor that the
   * push did not name, deletions included, or nothing at all once gc has
   * passed the cursor.
   */
  ghost predicate CompleteReply(config: Config, pre: Db, post: Db, scope: string, args: PushArgs, since: nat,
                                cursor: Option<string>, changes: Option<Changes>, floorSeen: nat)
  {
    && pre.floor <= floorSeen <= post.floor
    && (if since < floorSeen then cursor == None && changes == None
        else
          && changes.Some?
          && changes.value.Keys == (set t | t in config.tables)
          && (exists max: nat :: IsMaxRev(post, scope, max)
                && cursor == Some(EncodeCursor(if max > floorSeen then max else floorSeen)))
          && forall t :: t in config.tables ==>
               && WellFormedDelivery(changes.value[t])
               && forall id ::
                    StatementFor(changes.value[t], id)
                      == if StatementFor(ChangesFor(args.changes, t), id) != Silent then Silent
                         else WindowStatement(pre, scope, Key(t, id), since))
  }

  ghost predicate PushContract(config: Config, pre: Db, post: Db, scope: string, args: PushArgs, reply: PushReply, floorSeen: nat) {
    match reply
    case Conflict => GcOnly(pre, post) && PushConflicts(config, pre, post, scope, args)
    case Pushed(cursor, changes, rejected) =>
      && DecodeCursor(args.cursor).Some?
      && pre.rev <= post.rev && pre.floor <= post.floor <= post.rev
      && CursorReached(pre, post, scope, DecodeCursor(args.cursor).value)
      && AllOrNothing(config, pre, post, scope, args.changes, rejected)
      && (exists h :: Judgement(config, pre, post, scope, args.changes, rejected, h))
      && NoStaleOverwrite(config, pre, post, scope, args.changes, rejected, DecodeCursor(args.cursor).value)
      && CompleteReply(config, pre, post, scope, args, DecodeCursor(args.cursor).value, cursor, changes, floorSeen)
  }
}
