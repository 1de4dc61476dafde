/**
 * Raw records: values, the sanitizing trust boundary, dirty tracking and the
 * per-column merge (packages/core/src/rawRecord/index.ts, and the parts of
 * Collection.ts, sync/helpers.ts and sync/applyRemote.ts that work on one
 * record).
 */
module RawRecords {

  datatype Option<+T> = None | Some(value: T)

  /** A JavaScript value as it can reach a record. Finite numbers are reals. */
  newtype byte = b: int | 0 <= b < 256
  datatype Js =
    | Undefined
    | Null
    | Str(s: string)
    | Num(n: real)
    | NotFinite
    | Bool(b: bool)
    | Bytes(bytes: seq<byte>)
    | Other


  /** Untrusted input: a driver row, a sync payload, user data. */
  type DirtyRaw = map<string, Js>

  function Get(dirty: DirtyRaw, key: string): Js {
    if key in dirty then dirty[key] else Undefined
  }

  // ----- schema -----

  datatype ColumnType = StringColumn | NumberColumn | BooleanColumn | BlobColumn
  datatype Column = Column(name: string, ctype: ColumnType, isOptional: bool)
  datatype Table = Table(name: string, columns: seq<Column>, localOnly: bool)

  const RESERVED: set<string> := {"id", "_status", "_changed"}

  /** What the schema builders enforce: identifier names, unique and not reserved. */
  predicate ValidTable(table: Table) {
    && (forall i :: 0 <= i < |table.columns| ==>
         && table.columns[i].name != ""
         && ',' !in table.columns[i].name
         && table.columns[i].name !in RESERVED)
    && (forall i, j :: 0 <= i < j < |table.columns| ==> table.columns[i].name != table.columns[j].name)
  }

  function Names(columns: seq<Column>): set<string> {
    set i | 0 <= i < |columns| :: columns[i].name
  }

  // ----- sanitizing -----

  const MAX_SAFE: int := 9007199254740991

  predicate UnsafeInteger(n: real) {
    n == n.Floor as real && !(-MAX_SAFE <= n.Floor <= MAX_SAFE)
  }

  function NullValue(column: Column): Js {
    if column.isOptional then Null
    else match column.ctype
      case StringColumn => Str("")
      case NumberColumn => Num(0.0)
      case BooleanColumn => Bool(false)
      case BlobColumn => Bytes([])
  }

  /** None is the thrown "outside the safe integer range" error. */
  function SanitizeValue(v: Js, column: Column): Option<Js> {
    match column.ctype
    case StringColumn => Some(if v.Str? then v else NullValue(column))
    case NumberColumn =>
      if v.Num? && UnsafeInteger(v.n) then None
      else Some(if v.Num? then v else NullValue(column))
    case BooleanColumn =>
      Some(if v.Bool? then v
           else if v == Num(1.0) then Bool(true)
           else if v == Num(0.0) then Bool(false)
           else NullValue(column))
    case BlobColumn => Some(if v.Bytes? then v else NullValue(column))
  }

  type Values = DirtyRaw

  function ValueOf(values: Values, column: string): Js {
    if column in values then values[column] else Null
  }

  function SanitizeColumns(dirty: DirtyRaw, columns: seq<Column>): Option<Values> {
    if |columns| == 0 then Some(map[])
    else
      var column := columns[|columns| - 1];
      match SanitizeColumns(dirty, columns[..|columns| - 1])
      case None => None
      case Some(values) =>
        match SanitizeValue(Get(dirty, column.name), column)
        case None => None
        case Some(v) => Some(values[column.name := v])
  }

  datatype Status = Synced | Created | Updated | Deleted
  datatype Raw = Raw(id: string, status: Status, changed: string, values: Values)

  function StatusOf(v: Js): Status {
    if v == Str("synced") then Synced
    else if v == Str("updated") then Updated
    else if v == Str("deleted") then Deleted
    else Created
  }

  /** The record a dirty input becomes; freshId stands for the random id source. */
  function Sanitized(dirty: DirtyRaw, table: Table, freshId: string): Option<Raw> {
    match SanitizeColumns(dirty, table.columns)
    case None => None
    case Some(values) =>
      var id := Get(dirty, "id");
      var changed := Get(dirty, "_changed");
      Some(Raw(if id.Str? && id.s != "" then id.s else freshId,
               StatusOf(Get(dirty, "_status")),
               if changed.Str? then changed.s else "",
               values))
  }

  method SanitizedRaw(dirty: DirtyRaw, table: Table, freshId: string) returns (raw: Option<Raw>)
    ensures raw == Sanitized(dirty, table, freshId)
  {
    var id := Get(dirty, "id");
    var changed := Get(dirty, "_changed");
    var result := Raw(if id.Str? && id.s != "" then id.s else freshId,
                      StatusOf(Get(dirty, "_status")),
                      if changed.Str? then changed.s else "",
                      map[]);
    var i := 0;
    while i < |table.columns|
      invariant 0 <= i <= |table.columns|
      invariant SanitizeColumns(dirty, table.columns[..i]) == Some(result.values)
      invariant result == Raw(if id.Str? && id.s != "" then id.s else freshId,
                              StatusOf(Get(dirty, "_status")),
                              if changed.Str? then changed.s else "",
                              result.values)
    {
      var column := table.columns[i];
      assert table.columns[..i + 1][..i] == table.columns[..i];
      var v := SanitizeValue(Get(dirty, column.name), column);
      if v.None? {
        SanitizeFailsEarly(dirty, table.columns, i + 1);
        return None;
      }
      result := result.(values := result.values[column.name := v.value]);
      i := i + 1;
    }
    assert table.columns[..i] == table.columns;
    raw := Some(result);
  }

  lemma {:induction false} SanitizeFailsEarly(dirty: DirtyRaw, columns: seq<Column>, n: nat)
    requires n <= |columns|
    requires SanitizeColumns(dirty, columns[..n]).None?
    ensures SanitizeColumns(dirty, columns).None?
    decreases |columns|
  {
    if n < |columns| {
      var prefix := columns[..|columns| - 1];
      assert prefix[..n] == columns[..n];
      SanitizeFailsEarly(dirty, prefix, n);
    } else {
      assert columns[..n] == columns;
    }
  }

  /** Sanitizing a row fails exactly when one of its columns does. */
  lemma {:induction false} SanitizesIff(dirty: DirtyRaw, columns: seq<Column>)
    ensures SanitizeColumns(dirty, columns).Some?
            <==> forall column :: column in columns ==> SanitizeValue(Get(dirty, column.name), column).Some?
    decreases |columns|
  {
    hide SanitizeValue;
    if |columns| > 0 {
      var prefix, last := columns[..|columns| - 1], columns[|columns| - 1];
      SanitizesIff(dirty, prefix);
      assert columns == prefix + [last];
    }
  }

  /** Only an integer a double cannot hold exactly throws; beyond 2^53 - 1 either way. */
  lemma SanitizeThrowsIff(v: Js, column: Column)
    ensures SanitizeValue(v, column).None? <==>
            && column.ctype == NumberColumn && v.Num? && v.n == v.n.Floor as real
            && (v.n.Floor > 9007199254740991 || v.n.Floor < -9007199254740991)
  {
  }

  /**
   * A value of the column's own type passes as it is; the numbers 1 and 0 are
   * booleans; anything else is null where the column is optional, and
   * otherwise the empty value of its type.
   */
  lemma SanitizeFallsBack(v: Js, column: Column)
    requires SanitizeValue(v, column).Some?
    ensures var r := SanitizeValue(v, column).value;
            match column.ctype
            case StringColumn => r == if v.Str? then v else if column.isOptional then Null else Str("")
            case NumberColumn => r == if v.Num? then v else if column.isOptional then Null else Num(0.0)
            case BooleanColumn =>
              r == if v.Bool? then v else if v == Num(1.0) || v == Num(0.0) then Bool(v.n != 0.0)
                   else if column.isOptional then Null else Bool(false)
            case BlobColumn => r == if v.Bytes? then v else if column.isOptional then Null else Bytes([])
  {
  }

  /** The id and the sync fields of a sanitized record: as stated where usable, else a fresh id, created, unlisted. */
  lemma SanitizedFields(dirty: DirtyRaw, table: Table, freshId: string)
    requires Sanitized(dirty, table, freshId).Some?
    ensures var raw := Sanitized(dirty, table, freshId).value;
            && (if Get(dirty, "id").Str? && Get(dirty, "id").s != "" then Get(dirty, "id") == Str(raw.id) else raw.id == freshId)
            && (if exists s :: Get(dirty, "_status") == Str(StatusText(s)) then Get(dirty, "_status") == Str(StatusText(raw.status))
                else raw.status == Created)
            && (if Get(dirty, "_changed").Str? then Get(dirty, "_changed") == Str(raw.changed) else raw.changed == "")
  {
    assert StatusText(Synced) == "synced" && StatusText(Created) == "created" && StatusText(Updated) == "updated" && StatusText(Deleted) == "deleted";
  }

  /** Every schema column present with a value its type admits, nothing else. */
  predicate WellTyped(values: Values, columns: seq<Column>) {
    && values.Keys == Names(columns)
    && ShowsSanitized(values, values, columns)
  }

  /** Each column of values is the sanitized entry of dirty. */
  predicate ShowsSanitized(dirty: DirtyRaw, values: Values, columns: seq<Column>) {
    forall column :: column in columns ==>
      SanitizeValue(Get(dirty, column.name), column) == Some(ValueOf(values, column.name))
  }

  /** What a sanitized record holds in each column, and that nothing else is in it. */
  lemma {:induction false} SanitizedLookup(dirty: DirtyRaw, table: Table)
    requires ValidTable(table)
    requires SanitizeColumns(dirty, table.columns).Some?
    ensures var values := SanitizeColumns(dirty, table.columns).value;
            values.Keys == Names(table.columns) && ShowsSanitized(dirty, values, table.columns)
    decreases |table.columns|
  {
    hide SanitizeValue;
    var columns := table.columns;
    if |columns| > 0 {
      var prefix := table.(columns := columns[..|columns| - 1]);
      SanitizedLookup(dirty, prefix);
      NamesOfPrefix(columns);
      ShownOneMore(dirty, SanitizeColumns(dirty, prefix.columns).value, table);
    }
  }

  lemma ShownOneMore(dirty: DirtyRaw, before: Values, table: Table)
    requires ValidTable(table) && |table.columns| > 0
    requires ShowsSanitized(dirty, before, table.columns[..|table.columns| - 1])
    ensures var last := table.columns[|table.columns| - 1];
            SanitizeValue(Get(dirty, last.name), last).Some? ==>
              ShowsSanitized(dirty, before[last.name := SanitizeValue(Get(dirty, last.name), last).value], table.columns)
  {
    hide SanitizeValue;
    var columns := table.columns;
    var last := columns[|columns| - 1];
    if SanitizeValue(Get(dirty, last.name), last).Some? {
      var after := before[last.name := SanitizeValue(Get(dirty, last.name), last).value];
      forall column | column in columns ensures SanitizeValue(Get(dirty, column.name), column) == Some(ValueOf(after, column.name)) {
        var i :| 0 <= i < |columns| && columns[i] == column;
        if i < |columns| - 1 { assert column in columns[..|columns| - 1] && column.name != last.name; }
      }
    }
  }

  lemma NamesOfPrefix(columns: seq<Column>)
    requires |columns| > 0
    ensures Names(columns) == Names(columns[..|columns| - 1]) + {columns[|columns| - 1].name}
  {
    var prefix := columns[..|columns| - 1];
    forall c | c in Names(prefix) ensures c in Names(columns) {
      var i :| 0 <= i < |prefix| && prefix[i].name == c;
      assert columns[i].name == c;
    }
    forall c | c in Names(columns) && c != columns[|columns| - 1].name ensures c in Names(prefix) {
      var i :| 0 <= i < |columns| && columns[i].name == c;
      assert prefix[i].name == c;
    }
  }

  /**
   * Sanitizing is idempotent: a record that came out of the boundary passes it
   * again unchanged, so two replicas that sanitize the same row agree.
   */
  lemma {:induction false} SanitizeIdempotent(dirty: DirtyRaw, table: Table)
    requires ValidTable(table)
    requires SanitizeColumns(dirty, table.columns).Some?
    ensures var values := SanitizeColumns(dirty, table.columns).value;
            WellTyped(values, table.columns) && SanitizeColumns(values, table.columns) == Some(values)
  {
    SanitizedLookup(dirty, table);
    var values := SanitizeColumns(dirty, table.columns).value;
    ShownIsWellTyped(dirty, values, table.columns);
    WellTypedIsFixed(values, table);
  }

  lemma ShownIsWellTyped(dirty: DirtyRaw, values: Values, columns: seq<Column>)
    requires values.Keys == Names(columns) && ShowsSanitized(dirty, values, columns)
    ensures WellTyped(values, columns)
  {
    forall column | column in columns
      ensures SanitizeValue(Get(values, column.name), column) == Some(ValueOf(values, column.name))
    {
      assert column.name in Names(columns);
      SanitizedValueIsFixed(Get(dirty, column.name), column);
    }
  }

  lemma WellTypedIsFixed(values: Values, table: Table)
    requires ValidTable(table) && WellTyped(values, table.columns)
    ensures SanitizeColumns(values, table.columns) == Some(values)
  {
    SanitizeAgrees(values, values, table);
  }

  /** Sanitizing reads only the schema's columns. */
  lemma SanitizeAgrees(dirty: DirtyRaw, values: Values, table: Table)
    requires ValidTable(table) && WellTyped(values, table.columns)
    requires forall c :: c in Names(table.columns) ==> Get(dirty, c) == ValueOf(values, c)
    ensures SanitizeColumns(dirty, table.columns) == Some(values)
  {
    hide SanitizeValue;
    forall column | column in table.columns
      ensures SanitizeValue(Get(dirty, column.name), column) == Some(ValueOf(values, column.name))
    {
      var i :| 0 <= i < |table.columns| && table.columns[i] == column;
      assert column.name in Names(table.columns);
    }
    SanitizeShows(dirty, values, table);
  }

  /** The sanitized values are determined column by column. */
  lemma SanitizeShows(dirty: DirtyRaw, values: Values, table: Table)
    requires ValidTable(table) && values.Keys == Names(table.columns) && ShowsSanitized(dirty, values, table.columns)
    ensures SanitizeColumns(dirty, table.columns) == Some(values)
  {
    hide SanitizeValue;
    ShownSanitizes(dirty, values, table.columns);
    SanitizedLookup(dirty, table);
    var out := SanitizeColumns(dirty, table.columns).value;
    forall c | c in out.Keys ensures out[c] == values[c] {
      var i :| 0 <= i < |table.columns| && table.columns[i].name == c;
      assert table.columns[i] in table.columns;
    }
    assert out == values;
  }

  lemma {:induction false} ShownSanitizes(dirty: DirtyRaw, values: Values, columns: seq<Column>)
    requires ShowsSanitized(dirty, values, columns)
    ensures SanitizeColumns(dirty, columns).Some?
    decreases |columns|
  {
    hide SanitizeValue;
    if |columns| > 0 {
      assert columns[|columns| - 1] in columns;
      ShownSanitizes(dirty, values, columns[..|columns| - 1]);
    }
  }

  // ----- the comma-joined list of changed columns -----

  function Split(s: string): (parts: seq<string>)
    ensures |parts| > 0
  {
    if s == "" then [""]
    else
      var rest := Split(s[1..]);
      if s[0] == ',' then [""] + rest else [[s[0]] + rest[0]] + rest[1..]
  }

  function Join(parts: seq<string>): string {
    if |parts| == 0 then ""
    else if |parts| == 1 then parts[0]
    else parts[0] + "," + Join(parts[1..])
  }

  lemma {:induction false} SplitWord(word: string)
    requires ',' !in word
    ensures Split(word) == [word]
  {
    if word != "" {
      SplitWord(word[1..]);
      assert [word[0]] + word[1..] == word;
    }
  }

  lemma {:induction false} SplitFirst(word: string, rest: string)
    requires ',' !in word
    ensures Split(word + "," + rest) == [word] + Split(rest)
  {
    var s := word + "," + rest;
    if word == "" {
      assert s[1..] == rest;
    } else {
      assert s[1..] == word[1..] + "," + rest;
      SplitFirst(word[1..], rest);
      assert [word[0]] + word[1..] == word;
    }
  }

  lemma {:induction false} SplitJoin(parts: seq<string>)
    requires |parts| > 0
    requires forall i :: 0 <= i < |parts| ==> ',' !in parts[i]
    ensures Split(Join(parts)) == parts
    decreases |parts|
  {
    if |parts| == 1 {
      SplitWord(parts[0]);
    } else {
      SplitJoin(parts[1..]);
      SplitFirst(parts[0], Join(parts[1..]));
    }
  }

  lemma {:induction false} SplitPartsHaveNoComma(s: string)
    ensures forall i :: 0 <= i < |Split(s)| ==> ',' !in Split(s)[i]
  {
    if s != "" {
      SplitPartsHaveNoComma(s[1..]);
    }
  }

  function ChangedColumns(changed: string): seq<string> {
    if changed == "" then [] else Split(changed)
  }

  function AddChanged(changed: string, column: string): string {
    var columns := ChangedColumns(changed);
    if column in columns then changed else Join(columns + [column])
  }

  /** The stored list parses back to the columns it listed, plus the new one. */
  lemma AddChangedParses(changed: string, column: string)
    requires column != "" && ',' !in column
    ensures var before := ChangedColumns(changed);
            ChangedColumns(AddChanged(changed, column))
              == if column in before then before else before + [column]
  {
    var before := ChangedColumns(changed);
    if column !in before {
      if changed != "" { SplitPartsHaveNoComma(changed); }
      SplitJoin(before + [column]);
      assert Split("") == [""];
    }
  }

  /** The list of changed columns as a set. */
  function ChangedSet(raw: Raw): set<string> {
    set c | c in ChangedColumns(raw.changed)
  }

  function MarkAsChanged(raw: Raw, column: string): Raw {
    if raw.status == Deleted then raw
    else raw.(status := if raw.status == Created then Created else Updated,
              changed := AddChanged(raw.changed, column))
  }

  // ----- local updates -----

  datatype FieldError = UnknownColumn | OutsideSafeRange
  datatype Result<+T, +E> = Ok(value: T) | Err(error: E)

  type Fields = seq<(string, Js)>

  function ColumnNamed(columns: seq<Column>, name: string): Option<Column> {
    if |columns| == 0 then None
    else if columns[0].name == name then Some(columns[0])
    else ColumnNamed(columns[1..], name)
  }

  lemma {:induction false} ColumnNamedFinds(columns: seq<Column>, name: string)
    ensures ColumnNamed(columns, name).Some? <==> name in Names(columns)
    ensures ColumnNamed(columns, name).Some? ==>
              ColumnNamed(columns, name).value in columns && ColumnNamed(columns, name).value.name == name
  {
    if |columns| > 0 {
      ColumnNamedFinds(columns[1..], name);
      assert Names(columns) == {columns[0].name} + Names(columns[1..]) by {
        forall c | c in Names(columns) ensures c in {columns[0].name} + Names(columns[1..]) {
          var i :| 0 <= i < |columns| && columns[i].name == c;
          if i > 0 { assert columns[1..][i - 1].name == c; }
        }
        forall c | c in Names(columns[1..]) ensures c in Names(columns) {
          var i :| 0 <= i < |columns[1..]| && columns[1..][i].name == c;
          assert columns[i + 1].name == c;
        }
      }
    }
  }

  /** updated_at is touched unless the caller states it. */
  function Stamped(table: Table, fields: Fields, now: Js): Fields {
    if ColumnNamed(table.columns, "updated_at").None? then fields
    else Touch(fields, now)
  }

  function Touch(fields: Fields, now: Js): Fields {
    if |fields| == 0 then [("updated_at", now)]
    else if fields[0].0 == "updated_at" then
      if fields[0].1 == Undefined then [("updated_at", now)] + fields[1..] else fields
    else [fields[0]] + Touch(fields[1..], now)
  }

  function SetField(raw: Raw, table: Table, field: (string, Js)): Result<Raw, FieldError> {
    match ColumnNamed(table.columns, field.0)
    case None => Err(UnknownColumn)
    case Some(column) =>
      match SanitizeValue(field.1, column)
      case None => Err(OutsideSafeRange)
      case Some(v) =>
        if v == ValueOf(raw.values, field.0) then Ok(raw.(values := raw.values[field.0 := v]))
        else Ok(MarkAsChanged(raw.(values := raw.values[field.0 := v]), field.0))
  }

  function SetFields(raw: Raw, table: Table, fields: Fields): Result<Raw, FieldError> {
    if |fields| == 0 then Ok(raw)
    else match SetFields(raw, table, fields[..|fields| - 1])
      case Err(e) => Err(e)
      case Ok(r) => SetField(r, table, fields[|fields| - 1])
  }

  lemma {:induction false} SetFieldsFailsEarly(raw: Raw, table: Table, fields: Fields, n: nat)
    requires n <= |fields| && SetFields(raw, table, fields[..n]).Err?
    ensures SetFields(raw, table, fields) == SetFields(raw, table, fields[..n])
    decreases |fields|
  {
    if n < |fields| {
      var prefix := fields[..|fields| - 1];
      assert prefix[..n] == fields[..n];
      SetFieldsFailsEarly(raw, table, prefix, n);
    } else {
      assert fields[..n] == fields;
    }
  }

  /** Collection.prepareUpdate: a modified copy, dirty only where a value changed. */
  method PrepareUpdate(record: Raw, table: Table, fields: Fields, now: Js) returns (r: Result<Raw, FieldError>)
    ensures r == SetFields(record, table, Stamped(table, fields, now))
    ensures ValidTable(table) && UniqueKeys(fields) ==> (r.Ok? <==> EditFits(table, fields, now))
    ensures ValidTable(table) && UniqueKeys(fields) && WellTyped(record.values, table.columns) && record.status != Deleted && r.Ok? ==>
              ShowsEdit(record, r.value, table, fields, now)
  {
    EditPrepared(record, table, fields, now);
    hide EditFits, ShowsEdit, WellTyped, ValidTable, UniqueKeys;
    var stamped := Stamped(table, fields, now);
    var updated := record;
    var i := 0;
    while i < |stamped|
      invariant 0 <= i <= |stamped|
      invariant SetFields(record, table, stamped[..i]) == Ok(updated)
    {
      assert stamped[..i + 1][..i] == stamped[..i];
      var (key, value) := stamped[i];
      var column := ColumnNamed(table.columns, key);
      if column.None? {
        SetFieldsFailsEarly(record, table, stamped, i + 1);
        return Err(UnknownColumn);
      }
      var before := ValueOf(updated.values, key);
      var v := SanitizeValue(value, column.value);
      if v.None? {
        SetFieldsFailsEarly(record, table, stamped, i + 1);
        return Err(OutsideSafeRange);
      }
      updated := updated.(values := updated.values[key := v.value]);
      if v.value != before {
        updated := MarkAsChanged(updated, key);
      } else {
        assert updated.values[key := before] == updated.values;
        updated := updated.(values := updated.values[key := before]);
      }
      i := i + 1;
    }
    assert stamped[..i] == stamped;
    r := Ok(updated);
  }

  // ----- the per-column merge -----

  function Overlay(base: Values, local: Values, columns: seq<string>): Values {
    if |columns| == 0 then base
    else
      var last := columns[|columns| - 1];
      Overlay(base, local, columns[..|columns| - 1])[last := ValueOf(local, last)]
  }

  lemma {:induction false} OverlayLookup(base: Values, local: Values, columns: seq<string>)
    ensures Overlay(base, local, columns).Keys == base.Keys + (set c | c in columns)
    ensures forall c :: c in Overlay(base, local, columns).Keys ==>
              Overlay(base, local, columns)[c] == if c in columns then ValueOf(local, c) else base[c]
  {
    if |columns| > 0 {
      var prefix := columns[..|columns| - 1];
      OverlayLookup(base, local, prefix);
      assert columns == prefix + [columns[|columns| - 1]];
    }
  }

  /** Remote base, local values for the locally changed columns on top. */
  function Merged(local: Raw, remote: DirtyRaw, table: Table): Option<Raw> {
    match SanitizeColumns(remote, table.columns)
    case None => None
    case Some(base) => Some(local.(values := Overlay(base, local.values, ChangedColumns(local.changed))))
  }

  function StatusText(s: Status): string {
    match s case Synced => "synced" case Created => "created" case Updated => "updated" case Deleted => "deleted"
  }

  method ResolveConflict(local: Raw, remote: DirtyRaw, table: Table) returns (resolved: Option<Raw>)
    requires ValidTable(table) && local.id != ""
    ensures resolved == Merged(local, remote, table)
  {
    var stated: DirtyRaw := remote["id" := Str(local.id)]["_status" := Str(StatusText(local.status))]["_changed" := Str(local.changed)];
    var base := SanitizedRaw(stated, table, "");
    SanitizeIgnoresSyncFields(stated, remote, table.columns);
    if base.None? { return None; }
    var r := base.value;
    var changed := ChangedColumns(local.changed);
    var i := 0;
    while i < |changed|
      invariant 0 <= i <= |changed|
      invariant r == local.(values := Overlay(base.value.values, local.values, changed[..i]))
    {
      assert changed[..i + 1][..i] == changed[..i];
      r := r.(values := r.values[changed[i] := ValueOf(local.values, changed[i])]);
      i := i + 1;
    }
    assert changed[..i] == changed;
    resolved := Some(r);
  }

  lemma {:induction false} SanitizeIgnoresSyncFields(a: DirtyRaw, b: DirtyRaw, columns: seq<Column>)
    requires forall i :: 0 <= i < |columns| ==> Get(a, columns[i].name) == Get(b, columns[i].name)
    ensures SanitizeColumns(a, columns) == SanitizeColumns(b, columns)
  {
    if |columns| > 0 {
      SanitizeIgnoresSyncFields(a, b, columns[..|columns| - 1]);
    }
  }

  /**
   * Applying a remote row: remote values on exactly the unlisted columns,
   * local values on the listed ones, status and list untouched.
   */
  lemma MergeKeepsLocalEdits(local: Raw, remote: DirtyRaw, table: Table)
    requires ValidTable(table) && Merged(local, remote, table).Some?
    ensures var merged := Merged(local, remote, table).value;
            && merged.id == local.id && merged.status == local.status && merged.changed == local.changed
            && merged.values.Keys == Names(table.columns) + ChangedSet(local)
            && (forall c :: c in ChangedSet(local) ==> merged.values[c] == ValueOf(local.values, c))
            && (forall column :: column in table.columns && column.name !in ChangedSet(local) ==>
                  SanitizeValue(Get(remote, column.name), column) == Some(ValueOf(merged.values, column.name)))
  {
    SanitizedLookup(remote, table);
    OverlayLookup(SanitizeColumns(remote, table.columns).value, local.values, ChangedColumns(local.changed));
  }

  /** Merging the same remote row twice is merging it once. */
  lemma MergeIdempotent(local: Raw, remote: DirtyRaw, table: Table)
    requires Merged(local, remote, table).Some?
    ensures Merged(Merged(local, remote, table).value, remote, table) == Merged(local, remote, table)
  {
    var base := SanitizeColumns(remote, table.columns).value;
    var columns := ChangedColumns(local.changed);
    var once := Merged(local, remote, table).value;
    OverlayLookup(base, local.values, columns);
    OverlayLookup(base, once.values, columns);
    assert Overlay(base, once.values, columns) == once.values;
  }

  // ----- what an update stores -----

  /** The keys of a JavaScript object differ. */
  predicate UniqueKeys(fields: Fields) {
    forall i, j :: 0 <= i < j < |fields| ==> fields[i].0 != fields[j].0
  }

  function KeysIn(fields: Fields): set<string> {
    set i | 0 <= i < |fields| :: fields[i].0
  }

  function StatedIn(fields: Fields, column: string): Option<Js> {
    if |fields| == 0 then None
    else if fields[0].0 == column then Some(fields[0].1)
    else StatedIn(fields[1..], column)
  }

  /** What an update states for a column: updated_at is now unless the caller states it. */
  function EditStates(fields: Fields, now: Js, column: string): Option<Js> {
    var stated := StatedIn(fields, column);
    if column == "updated_at" && (stated == None || stated == Some(Undefined)) then Some(now) else stated
  }

  /** Only columns of the table are stated, and nothing stated is an unsafe integer. */
  predicate EditFits(table: Table, fields: Fields, now: Js) {
    && KeysIn(fields) <= Names(table.columns)
    && (forall column :: column in table.columns ==>
          var stated := EditStates(fields, now, column.name);
          stated.Some? ==> SanitizeValue(stated.value, column).Some?)
  }

  /** A column after an update: the sanitized value stated for it, or what it held. */
  predicate ShowsColumn(before: Values, after: Values, column: Column, stated: Option<Js>) {
    match stated
    case None => ValueOf(after, column.name) == ValueOf(before, column.name)
    case Some(v) => SanitizeValue(v, column) == Some(ValueOf(after, column.name))
  }

  function ChangedNames(before: Values, after: Values, columns: seq<Column>): set<string> {
    set c | c in Names(columns) && ValueOf(after, c) != ValueOf(before, c)
  }

  /** Exactly the columns whose value changed are listed, and dirt is only where something changed. */
  ghost predicate TracksChanges(before: Raw, after: Raw, table: Table) {
    var changed := ChangedNames(before.values, after.values, table.columns);
    && after.id == before.id && after.values.Keys == before.values.Keys
    && ChangedSet(after) == ChangedSet(before) + changed
    && after.status == if before.status == Created || changed == {} then before.status else Updated
  }

  /** What an update makes of a record, column by column. */
  ghost predicate ShowsEdit(before: Raw, after: Raw, table: Table, fields: Fields, now: Js) {
    && TracksChanges(before, after, table)
    && forall column :: column in table.columns ==>
         ShowsColumn(before.values, after.values, column, EditStates(fields, now, column.name))
  }

  /** The same for fields already stamped. */
  ghost predicate ShowsFields(before: Raw, after: Raw, table: Table, fields: Fields) {
    && TracksChanges(before, after, table)
    && forall column :: column in table.columns ==>
         ShowsColumn(before.values, after.values, column, StatedIn(fields, column.name))
  }

  lemma {:induction false} TouchStates(fields: Fields, now: Js, column: string)
    ensures StatedIn(Touch(fields, now), column) == EditStates(fields, now, column)
  {
    if |fields| > 0 && fields[0].0 != "updated_at" {
      TouchStates(fields[1..], now, column);
    }
  }

  lemma {:induction false} TouchKeys(fields: Fields, now: Js)
    ensures KeysIn(Touch(fields, now)) == KeysIn(fields) + {"updated_at"}
    ensures UniqueKeys(fields) ==> UniqueKeys(Touch(fields, now))
  {
    if |fields| > 0 {
      var touched := Touch(fields, now);
      assert fields == [fields[0]] + fields[1..];
      KeysCons(fields[0], fields[1..]);
      if fields[0].0 == "updated_at" {
        assert |touched| == |fields| && forall i :: 0 <= i < |fields| ==> touched[i].0 == fields[i].0;
        SameKeys(touched, fields);
      } else {
        TouchKeys(fields[1..], now);
        KeysCons(fields[0], Touch(fields[1..], now));
      }
    } else {
      KeysCons(("updated_at", now), []);
      assert [("updated_at", now)] + [] == Touch(fields, now);
    }
  }

  lemma SameKeys(a: Fields, b: Fields)
    requires |a| == |b| && forall i :: 0 <= i < |b| ==> a[i].0 == b[i].0
    ensures KeysIn(a) == KeysIn(b) && (UniqueKeys(b) ==> UniqueKeys(a))
  {
    forall k | k in KeysIn(b) ensures k in KeysIn(a) {
      var i :| 0 <= i < |b| && b[i].0 == k;
      assert a[i].0 == k;
    }
  }

  lemma KeysCons(first: (string, Js), rest: Fields)
    ensures KeysIn([first] + rest) == {first.0} + KeysIn(rest)
    ensures UniqueKeys([first] + rest) <==> UniqueKeys(rest) && first.0 !in KeysIn(rest)
  {
    var all := [first] + rest;
    assert all[0] == first;
    forall i | 0 <= i < |rest| ensures all[i + 1] == rest[i] && rest[i].0 in KeysIn(rest) {
    }
    forall k | k in KeysIn(rest) ensures k in KeysIn(all) {
      var i :| 0 <= i < |rest| && rest[i].0 == k;
      assert all[i + 1].0 == k;
    }
    if UniqueKeys(all) {
      forall i, j | 0 <= i < j < |rest| ensures rest[i].0 != rest[j].0 {
        assert all[i + 1].0 != all[j + 1].0;
      }
      forall k | k in KeysIn(rest) ensures k != first.0 {
        var i :| 0 <= i < |rest| && rest[i].0 == k;
        assert all[i + 1].0 == k;
      }
    }
  }

  lemma {:induction false} StatedInMore(fields: Fields, last: (string, Js), column: string)
    ensures StatedIn(fields + [last], column)
            == if StatedIn(fields, column).None? && last.0 == column then Some(last.1) else StatedIn(fields, column)
  {
    if |fields| > 0 {
      assert (fields + [last])[1..] == fields[1..] + [last];
      StatedInMore(fields[1..], last, column);
    }
  }

  lemma {:induction false} StatedInFinds(fields: Fields, column: string)
    ensures StatedIn(fields, column).Some? <==> exists i :: 0 <= i < |fields| && fields[i].0 == column
    ensures StatedIn(fields, column).Some? ==> exists i :: 0 <= i < |fields| && fields[i] == (column, StatedIn(fields, column).value)
  {
    if |fields| > 0 {
      StatedInFinds(fields[1..], column);
      assert fields == [fields[0]] + fields[1..];
    }
  }

  /** A field a record of the table can take. */
  predicate FieldFits(table: Table, field: (string, Js)) {
    var column := ColumnNamed(table.columns, field.0);
    column.Some? && SanitizeValue(field.1, column.value).Some?
  }

  lemma {:induction false} SetFieldsOkIff(raw: Raw, table: Table, fields: Fields)
    ensures SetFields(raw, table, fields).Ok? <==> forall i :: 0 <= i < |fields| ==> FieldFits(table, fields[i])
    decreases |fields|
  {
    if |fields| > 0 {
      var prefix := fields[..|fields| - 1];
      SetFieldsOkIff(raw, table, prefix);
      assert fields == prefix + [fields[|fields| - 1]];
    }
  }

  lemma SetFieldTracks(start: Raw, raw: Raw, table: Table, field: (string, Js)) returns (i: nat)
    requires ValidTable(table) && SetField(raw, table, field).Ok? && raw.status != Deleted && start.status != Deleted
    requires raw.values.Keys == Names(table.columns) && TracksChanges(start, raw, table)
    requires ValueOf(raw.values, field.0) == ValueOf(start.values, field.0)
    ensures i < |table.columns| && table.columns[i].name == field.0
    ensures var after := SetField(raw, table, field).value;
            && TracksChanges(start, after, table) && after.status != Deleted
            && SanitizeValue(field.1, table.columns[i]) == Some(ValueOf(after.values, field.0))
            && forall c :: c != field.0 ==> ValueOf(after.values, c) == ValueOf(raw.values, c)
  {
    var v;
    i, v := SetFieldShape(raw, table, field);
    hide SetField, SanitizeValue, ChangedSet, MarkAsChanged, TracksChanges, ChangedNames, ValidTable;
    var after := SetField(raw, table, field).value;
    assert field.0 in Names(table.columns);
    if v == ValueOf(raw.values, field.0) {
      assert after == raw;
    } else {
      FieldNamed(table, i);
      MarkedField(raw.(values := raw.values[field.0 := v]), field.0);
      TracksOneMore(start, raw, after, table, field.0, v);
    }
  }

  lemma FieldNamed(table: Table, i: nat)
    requires ValidTable(table) && i < |table.columns|
    ensures table.columns[i].name != "" && ',' !in table.columns[i].name
  {
  }

  /** Marking touches only the status and the list. */
  lemma MarkedField(raw: Raw, column: string)
    requires column != "" && ',' !in column && raw.status != Deleted
    ensures var marked := MarkAsChanged(raw, column);
            && marked.id == raw.id && marked.values == raw.values
            && marked.status == (if raw.status == Created then Created else Updated)
            && ChangedSet(marked) == ChangedSet(raw) + {column}
  {
    MarkAsChangedAdds(raw, column);
  }

  lemma TracksOneMore(start: Raw, raw: Raw, after: Raw, table: Table, name: string, v: Js)
    requires TracksChanges(start, raw, table) && raw.values.Keys == Names(table.columns) && name in Names(table.columns)
    requires ValueOf(raw.values, name) == ValueOf(start.values, name) != v
    requires after.id == raw.id && after.values == raw.values[name := v] && ChangedSet(after) == ChangedSet(raw) + {name}
    requires after.status == if raw.status == Created then Created else Updated
    ensures TracksChanges(start, after, table)
  {
    hide ChangedSet;
    ChangedNamesMore(start.values, raw.values, table.columns, name, v);
  }

  lemma ChangedNamesMore(start: Values, values: Values, columns: seq<Column>, name: string, v: Js)
    requires name in Names(columns) && ValueOf(values, name) == ValueOf(start, name) != v
    ensures ChangedNames(start, values[name := v], columns) == ChangedNames(start, values, columns) + {name}
  {
  }

  lemma {:induction false} SetFieldsShow(raw: Raw, table: Table, fields: Fields)
    requires ValidTable(table) && raw.values.Keys == Names(table.columns) && raw.status != Deleted
    requires UniqueKeys(fields) && SetFields(raw, table, fields).Ok?
    ensures var after := SetFields(raw, table, fields).value;
            ShowsFields(raw, after, table, fields) && after.status != Deleted
    decreases |fields|
  {
    hide SanitizeValue, TracksChanges, ValidTable, SetField;
    if |fields| == 0 {
      ShowsNothing(raw, table);
    } else {
      var prefix, last := fields[..|fields| - 1], fields[|fields| - 1];
      assert fields == prefix + [last];
      SetFieldsShow(raw, table, prefix);
      var mid := SetFields(raw, table, prefix).value;
      StatedInFinds(prefix, last.0);
      LastIsUnstated(raw, mid, table, fields);
      var i := SetFieldTracks(raw, mid, table, last);
      ShowsOneMore(raw, mid, SetField(mid, table, last).value, table, fields, i);
    }
  }

  lemma ShowsNothing(raw: Raw, table: Table)
    ensures ShowsFields(raw, raw, table, [])
  {
  }

  lemma LastIsUnstated(raw: Raw, mid: Raw, table: Table, fields: Fields)
    requires |fields| > 0 && UniqueKeys(fields) && ShowsFields(raw, mid, table, fields[..|fields| - 1])
    requires raw.values.Keys == Names(table.columns)
    ensures mid.values.Keys == Names(table.columns) && TracksChanges(raw, mid, table)
    ensures ValueOf(mid.values, fields[|fields| - 1].0) == ValueOf(raw.values, fields[|fields| - 1].0)
  {
    var prefix, name := fields[..|fields| - 1], fields[|fields| - 1].0;
    StatedInFinds(prefix, name);
    if name in Names(table.columns) {
      var i :| 0 <= i < |table.columns| && table.columns[i].name == name;
      assert ShowsColumn(raw.values, mid.values, table.columns[i], None);
    }
  }

  lemma ShowsOneMore(raw: Raw, mid: Raw, after: Raw, table: Table, fields: Fields, i: nat)
    requires ValidTable(table) && |fields| > 0 && UniqueKeys(fields) && i < |table.columns|
    requires ShowsFields(raw, mid, table, fields[..|fields| - 1]) && TracksChanges(raw, after, table)
    requires var last := fields[|fields| - 1];
             && table.columns[i].name == last.0
             && SanitizeValue(last.1, table.columns[i]) == Some(ValueOf(after.values, last.0))
             && forall c :: c != last.0 ==> ValueOf(after.values, c) == ValueOf(mid.values, c)
    ensures ShowsFields(raw, after, table, fields)
  {
    hide SanitizeValue, TracksChanges;
    var prefix, last := fields[..|fields| - 1], fields[|fields| - 1];
    assert fields == prefix + [last];
    forall column | column in table.columns
      ensures ShowsColumn(raw.values, after.values, column, StatedIn(fields, column.name))
    {
      StatedInMore(prefix, last, column.name);
      StatedInFinds(prefix, last.0);
      var j :| 0 <= j < |table.columns| && table.columns[j] == column;
      assert ShowsColumn(raw.values, mid.values, column, StatedIn(prefix, column.name));
    }
  }

  /** A prepared update throws exactly when it does not fit, and otherwise shows what it states. */
  lemma EditPrepared(raw: Raw, table: Table, fields: Fields, now: Js)
    ensures ValidTable(table) && UniqueKeys(fields) ==>
              (SetFields(raw, table, Stamped(table, fields, now)).Ok? <==> EditFits(table, fields, now))
    ensures ValidTable(table) && UniqueKeys(fields) && WellTyped(raw.values, table.columns) && raw.status != Deleted
            && SetFields(raw, table, Stamped(table, fields, now)).Ok? ==>
              ShowsEdit(raw, SetFields(raw, table, Stamped(table, fields, now)).value, table, fields, now)
  {
    if ValidTable(table) && UniqueKeys(fields) {
      var stamped := Stamped(table, fields, now);
      StampedKeys(table, fields, now);
      StampedFits(table, fields, now);
      SetFieldsOkIff(raw, table, stamped);
      if WellTyped(raw.values, table.columns) && raw.status != Deleted && SetFields(raw, table, stamped).Ok? {
        SetFieldsShow(raw, table, stamped);
        StampedShows(raw, SetFields(raw, table, stamped).value, table, fields, now);
      }
    }
  }

  lemma StampedStates(table: Table, fields: Fields, now: Js, column: Column)
    requires column in table.columns
    ensures StatedIn(Stamped(table, fields, now), column.name) == EditStates(fields, now, column.name)
  {
    TouchStates(fields, now, column.name);
    ColumnNamedFinds(table.columns, "updated_at");
    var i :| 0 <= i < |table.columns| && table.columns[i] == column;
    assert column.name in Names(table.columns);
  }

  lemma StampedShows(raw: Raw, after: Raw, table: Table, fields: Fields, now: Js)
    requires ShowsFields(raw, after, table, Stamped(table, fields, now))
    ensures ShowsEdit(raw, after, table, fields, now)
  {
    hide ShowsColumn, TracksChanges, Stamped;
    forall column | column in table.columns
      ensures ShowsColumn(raw.values, after.values, column, EditStates(fields, now, column.name))
    {
      StampedStates(table, fields, now, column);
    }
  }

  lemma StampedFits(table: Table, fields: Fields, now: Js)
    requires ValidTable(table) && UniqueKeys(fields)
    ensures var stamped := Stamped(table, fields, now);
            (forall i :: 0 <= i < |stamped| ==> FieldFits(table, stamped[i])) <==> EditFits(table, fields, now)
  {
    var stamped := Stamped(table, fields, now);
    hide EditFits, FieldFits, Stamped, ValidTable, UniqueKeys;
    if forall i :: 0 <= i < |stamped| ==> FieldFits(table, stamped[i]) { FitsWhole(table, fields, now); }
    if EditFits(table, fields, now) { FitsEach(table, fields, now); }
  }

  lemma FitsWhole(table: Table, fields: Fields, now: Js)
    requires ValidTable(table) && UniqueKeys(fields)
    requires var stamped := Stamped(table, fields, now); forall i :: 0 <= i < |stamped| ==> FieldFits(table, stamped[i])
    ensures EditFits(table, fields, now)
  {
    var stamped := Stamped(table, fields, now);
    StampedKeys(table, fields, now);
    hide SanitizeValue, Stamped, ColumnNamed, EditStates;
    forall c | c in KeysIn(fields) ensures c in Names(table.columns) {
      var j :| 0 <= j < |stamped| && stamped[j].0 == c;
      ColumnNamedFinds(table.columns, stamped[j].0);
    }
    forall column | column in table.columns && EditStates(fields, now, column.name).Some?
      ensures SanitizeValue(EditStates(fields, now, column.name).value, column).Some?
    {
      StampedStates(table, fields, now, column);
      StatedInFinds(stamped, column.name);
      var j :| 0 <= j < |stamped| && stamped[j] == (column.name, StatedIn(stamped, column.name).value);
      ColumnIs(table, column);
    }
  }

  lemma FitsEach(table: Table, fields: Fields, now: Js)
    requires ValidTable(table) && UniqueKeys(fields) && EditFits(table, fields, now)
    ensures var stamped := Stamped(table, fields, now); forall i :: 0 <= i < |stamped| ==> FieldFits(table, stamped[i])
  {
    var stamped := Stamped(table, fields, now);
    StampedKeys(table, fields, now);
    hide SanitizeValue, Stamped, ColumnNamed, EditStates;
    forall j | 0 <= j < |stamped| ensures FieldFits(table, stamped[j]) {
      assert stamped[j].0 in KeysIn(stamped);
      ColumnNamedFinds(table.columns, stamped[j].0);
      var column := ColumnNamed(table.columns, stamped[j].0).value;
      StampedStates(table, fields, now, column);
      UniqueStated(stamped, j);
    }
  }

  lemma UniqueStated(fields: Fields, j: nat)
    requires UniqueKeys(fields) && j < |fields|
    ensures StatedIn(fields, fields[j].0) == Some(fields[j].1)
  {
    StatedInFinds(fields, fields[j].0);
  }

  lemma StampedKeys(table: Table, fields: Fields, now: Js)
    requires UniqueKeys(fields)
    ensures var stamped := Stamped(table, fields, now);
            UniqueKeys(stamped) && KeysIn(fields) <= KeysIn(stamped) <= KeysIn(fields) + Names(table.columns)
  {
    TouchKeys(fields, now);
    ColumnNamedFinds(table.columns, "updated_at");
  }

  lemma ColumnIs(table: Table, column: Column)
    requires ValidTable(table) && column in table.columns
    ensures ColumnNamed(table.columns, column.name) == Some(column)
  {
    var i :| 0 <= i < |table.columns| && table.columns[i] == column;
    assert column.name in Names(table.columns);
    ColumnNamedFinds(table.columns, column.name);
    var found := ColumnNamed(table.columns, column.name).value;
    var j :| 0 <= j < |table.columns| && table.columns[j] == found;
  }

  // ----- what a run of edits and remote applies keeps -----

  /** Something that happens to one live record between its creation and its deletion. */
  datatype RecordEvent =
    | Edit(fields: Fields)
    | RemoteRow(row: DirtyRaw)
    | MarkedSynced

  /** A record beside the row its unlisted columns must still show. */
  datatype Tracked = Tracked(raw: Raw, base: Values)

  function After(t: Tracked, table: Table, e: RecordEvent): Tracked {
    match e
    case Edit(fields) =>
      (match SetFields(t.raw, table, fields)
       case Ok(raw) => t.(raw := raw)
       case Err(_) => t)
    case RemoteRow(row) =>
      (match Merged(t.raw, row, table)
       case Some(raw) => Tracked(raw, SanitizeColumns(row, table.columns).value)
       case None => t)
    case MarkedSynced => Tracked(t.raw.(status := Synced, changed := ""), t.raw.values)
  }

  function AfterAll(t: Tracked, table: Table, events: seq<RecordEvent>): Tracked {
    if |events| == 0 then t
    else After(AfterAll(t, table, events[..|events| - 1]), table, events[|events| - 1])
  }

  ghost predicate ShowsBase(t: Tracked, table: Table) {
    WellTyped(t.raw.values, table.columns) && ListsChanges(t, Names(table.columns))
  }

  /** Every column not listed as changed shows the base. */
  ghost predicate ListsChanges(t: Tracked, names: set<string>) {
    && t.raw.values.Keys == t.base.Keys == names
    && t.raw.status != Deleted
    && ChangedSet(t.raw) <= names
    && (t.raw.status == Synced ==> t.raw.changed == "")
    && forall c :: c in names && c !in ChangedSet(t.raw) ==> t.raw.values[c] == t.base[c]
  }

  /** One field set: the value that went in, and how the list grew. */
  lemma SetFieldShape(raw: Raw, table: Table, field: (string, Js)) returns (i: nat, v: Js)
    requires ValidTable(table) && SetField(raw, table, field).Ok?
    ensures i < |table.columns| && table.columns[i].name == field.0
    ensures SanitizeValue(field.1, table.columns[i]) == Some(v)
    ensures SetField(raw, table, field).value
              == if v == ValueOf(raw.values, field.0) then raw.(values := raw.values[field.0 := v])
                 else MarkAsChanged(raw.(values := raw.values[field.0 := v]), field.0)
  {
    ColumnNamedFinds(table.columns, field.0);
    var column := ColumnNamed(table.columns, field.0).value;
    v := SanitizeValue(field.1, column).value;
    i :| 0 <= i < |table.columns| && table.columns[i] == column;
  }

  lemma MarkAsChangedAdds(raw: Raw, column: string)
    requires column != "" && ',' !in column && raw.status != Deleted
    ensures ChangedSet(MarkAsChanged(raw, column)) == ChangedSet(raw) + {column}
  {
    AddChangedParses(raw.changed, column);
  }

  lemma SetFieldWellTyped(raw: Raw, table: Table, field: (string, Js))
    requires ValidTable(table) && WellTyped(raw.values, table.columns)
    requires SetField(raw, table, field).Ok?
    ensures WellTyped(SetField(raw, table, field).value.values, table.columns)
  {
    hide SanitizeValue;
    var i, v := SetFieldShape(raw, table, field);
    SanitizedValueIsFixed(field.1, table.columns[i]);
    SetKeepsWellTyped(raw.values, table, i, v);
  }

  lemma SetFieldKeepsBase(t: Tracked, table: Table, field: (string, Js))
    requires ValidTable(table) && ListsChanges(t, Names(table.columns))
    requires SetField(t.raw, table, field).Ok?
    ensures var raw := SetField(t.raw, table, field).value;
            && ListsChanges(t.(raw := raw), Names(table.columns))
            && raw.id == t.raw.id
            && raw.status == (if raw == t.raw || t.raw.status == Created then t.raw.status else Updated)
            && ChangedSet(raw) == ChangedSet(t.raw) + (if raw.values == t.raw.values then {} else {field.0})
  {
    hide SanitizeValue;
    var i, v := SetFieldShape(t.raw, table, field);
    var moved := t.raw.(values := t.raw.values[field.0 := v]);
    assert field.0 in Names(table.columns);
    MarkAsChangedAdds(moved, field.0);
    if v == t.raw.values[field.0] {
      assert moved.values == t.raw.values;
    }
  }

  lemma SanitizedValueIsFixed(v: Js, column: Column)
    ensures SanitizeValue(v, column).Some? ==>
              SanitizeValue(SanitizeValue(v, column).value, column) == SanitizeValue(v, column)
  {
  }

  lemma SetKeepsWellTyped(values: Values, table: Table, i: nat, v: Js)
    requires ValidTable(table) && WellTyped(values, table.columns) && i < |table.columns|
    requires SanitizeValue(v, table.columns[i]) == Some(v)
    ensures WellTyped(values[table.columns[i].name := v], table.columns)
  {
    hide SanitizeValue;
    var out := values[table.columns[i].name := v];
    assert table.columns[i].name in Names(table.columns);
    forall column | column in table.columns
      ensures SanitizeValue(Get(out, column.name), column) == Some(ValueOf(out, column.name))
    {
      var j :| 0 <= j < |table.columns| && table.columns[j] == column;
      if column.name != table.columns[i].name {
        assert Get(values, column.name) == Get(out, column.name);
      }
    }
  }

  lemma {:induction false} SetFieldsKeepBase(t: Tracked, table: Table, fields: Fields)
    requires ValidTable(table) && WellTyped(t.raw.values, table.columns) && ListsChanges(t, Names(table.columns))
    requires SetFields(t.raw, table, fields).Ok?
    ensures var raw := SetFields(t.raw, table, fields).value;
            && WellTyped(raw.values, table.columns)
            && ListsChanges(t.(raw := raw), Names(table.columns))
            && raw.id == t.raw.id
            && (raw.status == t.raw.status || raw.status == Updated)
            && (t.raw.status == Created ==> raw.status == Created)
            && (raw.status == Synced ==> raw == t.raw)
    decreases |fields|
  {
    if |fields| > 0 {
      var prefix := fields[..|fields| - 1];
      SetFieldsKeepBase(t, table, prefix);
      SetFieldWellTyped(SetFields(t.raw, table, prefix).value, table, fields[|fields| - 1]);
      SetFieldKeepsBase(t.(raw := SetFields(t.raw, table, prefix).value), table, fields[|fields| - 1]);
    }
  }

  lemma OverlayWellTyped(base: Values, local: Values, listed: seq<string>, columns: seq<Column>)
    requires WellTyped(base, columns) && WellTyped(local, columns)
    requires forall c :: c in listed ==> c in Names(columns)
    ensures WellTyped(Overlay(base, local, listed), columns)
  {
    hide SanitizeValue;
    OverlayLookup(base, local, listed);
    var merged := Overlay(base, local, listed);
    assert merged.Keys == Names(columns);
    forall column | column in columns
      ensures SanitizeValue(Get(merged, column.name), column) == Some(ValueOf(merged, column.name))
    {
      assert column.name in Names(columns);
      assert Get(merged, column.name) == Get(base, column.name) || Get(merged, column.name) == Get(local, column.name);
    }
  }

  lemma MergedWellTyped(local: Raw, row: DirtyRaw, table: Table)
    requires ValidTable(table) && WellTyped(local.values, table.columns) && Merged(local, row, table).Some?
    requires ChangedSet(local) <= Names(table.columns)
    ensures WellTyped(Merged(local, row, table).value.values, table.columns)
    ensures SanitizeColumns(row, table.columns).value.Keys == Names(table.columns)
  {
    SanitizeIdempotent(row, table);
    var base := SanitizeColumns(row, table.columns).value;
    forall c | c in ChangedColumns(local.changed) ensures c in Names(table.columns) {
      assert c in ChangedSet(local);
    }
    OverlayWellTyped(base, local.values, ChangedColumns(local.changed), table.columns);
  }

  lemma RemoteRowKeepsBase(t: Tracked, table: Table, row: DirtyRaw)
    requires ValidTable(table) && ShowsBase(t, table) && Merged(t.raw, row, table).Some?
    ensures ShowsBase(After(t, table, RemoteRow(row)), table)
  {
    MergedWellTyped(t.raw, row, table);
    OverlayLookup(SanitizeColumns(row, table.columns).value, t.raw.values, ChangedColumns(t.raw.changed));
  }

  /**
   * Over any run of local edits, remote rows and marks, every column the
   * record does not list as changed still shows its base: the last row the
   * server sent, or the row as it was created.
   */
  lemma {:induction false} UnlistedColumnsShowBase(t: Tracked, table: Table, events: seq<RecordEvent>)
    requires ValidTable(table) && ShowsBase(t, table)
    ensures ShowsBase(AfterAll(t, table, events), table)
    ensures AfterAll(t, table, events).raw.id == t.raw.id
    decreases |events|
  {
    if |events| > 0 {
      var prefix := events[..|events| - 1];
      UnlistedColumnsShowBase(t, table, prefix);
      var mid := AfterAll(t, table, prefix);
      match events[|events| - 1]
      case Edit(fields) =>
        if SetFields(mid.raw, table, fields).Ok? { SetFieldsKeepBase(mid, table, fields); }
      case RemoteRow(row) =>
        if Merged(mid.raw, row, table).Some? { RemoteRowKeepsBase(mid, table, row); }
      case MarkedSynced =>
    }
  }
}
