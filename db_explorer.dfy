/**
 * The request logic of hw6_db_explorer, with the database left out: finding
 * a table's primary key, turning a decoded JSON body into the column list,
 * argument list and SQL text of an UPDATE or an INSERT, routing a URL path to
 * an action, and reading limit/offset. Executing the SQL is not part of this
 * model; the builders return the statement that would be executed.
 */
module DbExplorer {
  import opened Wrappers
  import opened GoStrings
  import opened Strconv
  import opened UrlValues

  /** A column as SHOW FULL COLUMNS describes it (the fields the code reads):
      `nullable` is "YES" or "NO", `key` is "PRI" for the primary key. */
  datatype TableInfo = TableInfo(field: string, typeName: string, nullable: string, key: string)

  /** A decoded JSON value. Numbers are integers here (see README). */
  datatype Json = JNull | JNumber(n: int) | JString(s: string) | JBool(b: bool) | JCompound

  /** A decoded JSON object body. */
  type Body = map<string, Json>

  /** A value passed to the database for a `?` placeholder. */
  datatype SqlArg = ArgInt(i: int) | ArgNull | ArgString(s: string)

  /** A statement as it would be handed to DB.Exec. */
  datatype Statement = Statement(query: string, args: seq<SqlArg>)

  // ---------------------------------------------------------------------
  // The primary key: the loop that ends on the last "PRI" column.

  function PrimaryKeyOf(tInfos: seq<TableInfo>): string {
    if tInfos == [] then ""
    else if tInfos[|tInfos| - 1].key == "PRI" then tInfos[|tInfos| - 1].field
    else PrimaryKeyOf(tInfos[..|tInfos| - 1])
  }

  /** The idColumn loop of every Store method. */
  method PrimaryKey(tInfos: seq<TableInfo>) returns (idColumn: string)
    ensures idColumn == PrimaryKeyOf(tInfos)
  {
    idColumn := "";
    for i := 0 to |tInfos|
      invariant idColumn == PrimaryKeyOf(tInfos[..i])
    {
      assert tInfos[..i + 1][..i] == tInfos[..i];
      if tInfos[i].key == "PRI" {
        idColumn := tInfos[i].field;
      }
    }
    assert tInfos[..|tInfos|] == tInfos;
  }

  /** The primary key is the field of the last "PRI" column, or "" when there is none. */
  lemma {:induction false} PrimaryKeyIsLastPri(tInfos: seq<TableInfo>)
    ensures (forall k :: 0 <= k < |tInfos| ==> tInfos[k].key != "PRI") ==> PrimaryKeyOf(tInfos) == ""
    ensures forall k :: 0 <= k < |tInfos| && tInfos[k].key == "PRI" &&
                        (forall m :: k < m < |tInfos| ==> tInfos[m].key != "PRI") ==>
                          PrimaryKeyOf(tInfos) == tInfos[k].field
  {
    if tInfos != [] {
      var init := tInfos[..|tInfos| - 1];
      PrimaryKeyIsLastPri(init);
      assert forall k :: 0 <= k < |init| ==> init[k] == tInfos[k];
    }
  }

  // ---------------------------------------------------------------------
  // One column of the body.

  function InvalidType(field: string): string {
    "field " + field + " have invalid type"
  }

  /** The argument for a column present in the body, or the DecodingError's text. */
  function ColumnArg(v: TableInfo, j: Json): Result<SqlArg, string> {
    if v.typeName == "int" then
      if j.JNumber? then Success(ArgInt(j.n)) else Failure(InvalidType(v.field))
    else if j.JNull? then
      if v.nullable == "NO" then Failure(InvalidType(v.field)) else Success(ArgNull)
    else if j.JString? then Success(ArgString(j.s))
    else Failure(InvalidType(v.field))
  }

  /** The three ways a present value is refused, and nothing else. */
  lemma ColumnArgRefuses(v: TableInfo, j: Json)
    ensures ColumnArg(v, j).Failure? <==>
              || (v.typeName == "int" && !j.JNumber?)
              || (v.typeName != "int" && j.JNull? && v.nullable == "NO")
              || (v.typeName != "int" && !j.JNull? && !j.JString?)
    ensures ColumnArg(v, j).Failure? ==> ColumnArg(v, j).error == InvalidType(v.field)
  {
  }

  /** What a column contributes: nothing, a column with its argument, or a refusal. */
  datatype Step = Skip | Emit(column: string, arg: SqlArg) | Reject(message: string)

  function FromArg(v: TableInfo, a: Result<SqlArg, string>): Step {
    match a
    case Success(x) => Emit(v.field, x)
    case Failure(m) => Reject(m)
  }

  /** updateTableContent's treatment of one column. */
  function UpdateStep(data: Body, idColumn: string): TableInfo -> Step {
    (v: TableInfo) => if v.field !in data then Skip
         else if v.field == idColumn then Reject(InvalidType(v.field))
         else FromArg(v, ColumnArg(v, data[v.field]))
  }

  /** createTableContent's treatment of one column: an absent NOT NULL column
      gets 1 (int) or "" (otherwise). */
  function CreateStep(data: Body, idColumn: string): TableInfo -> Step {
    (v: TableInfo) => if v.field in data then
           if v.field == idColumn then Skip else FromArg(v, ColumnArg(v, data[v.field]))
         else if v.nullable == "NO" then
           Emit(v.field, if v.typeName == "int" then ArgInt(1) else ArgString(""))
         else Skip
  }

  /** The columns and the arguments, appended side by side. */
  datatype Lists = Lists(columns: seq<string>, values: seq<SqlArg>)

  /** The lists the loop over the schema builds, stopping at the first refusal. */
  function Collect(tInfos: seq<TableInfo>, step: TableInfo -> Step): Result<Lists, string> {
    if tInfos == [] then Success(Lists([], []))
    else
      match step(tInfos[0])
      case Reject(m) => Failure(m)
      case Skip => Collect(tInfos[1..], step)
      case Emit(c, a) => Prepend([c], [a], Collect(tInfos[1..], step))
  }

  function Prepend(columns: seq<string>, values: seq<SqlArg>, r: Result<Lists, string>): Result<Lists, string> {
    match r
    case Failure(m) => Failure(m)
    case Success(l) => Success(Lists(columns + l.columns, values + l.values))
  }

  lemma PrependNothing(columns: seq<string>, values: seq<SqlArg>, r: Result<Lists, string>)
    ensures Prepend([], [], r) == r
    ensures Prepend(columns, values, Success(Lists([], []))) == Success(Lists(columns, values))
  {
    if r.Success? {
      assert [] + r.value.columns == r.value.columns;
      assert [] + r.value.values == r.value.values;
    }
    assert columns + [] == columns;
    assert values + [] == values;
  }

  lemma PrependTwice(c1: seq<string>, v1: seq<SqlArg>, c2: seq<string>, v2: seq<SqlArg>, r: Result<Lists, string>)
    ensures Prepend(c1, v1, Prepend(c2, v2, r)) == Prepend(c1 + c2, v1 + v2, r)
  {
    if r.Success? {
      assert c1 + (c2 + r.value.columns) == (c1 + c2) + r.value.columns;
      assert v1 + (v2 + r.value.values) == (v1 + v2) + r.value.values;
    }
  }

  /** Collect, one column further. */
  lemma CollectStep(tInfos: seq<TableInfo>, step: TableInfo -> Step, i: nat,
                    columns: seq<string>, values: seq<SqlArg>)
    requires i < |tInfos|
    ensures step(tInfos[i]).Skip? ==>
              Prepend(columns, values, Collect(tInfos[i..], step)) ==
              Prepend(columns, values, Collect(tInfos[i + 1..], step))
    ensures step(tInfos[i]).Emit? ==>
              Prepend(columns, values, Collect(tInfos[i..], step)) ==
              Prepend(columns + [step(tInfos[i]).column], values + [step(tInfos[i]).arg],
                      Collect(tInfos[i + 1..], step))
    ensures step(tInfos[i]).Reject? ==>
              Prepend(columns, values, Collect(tInfos[i..], step)) == Failure(step(tInfos[i]).message)
  {
    assert tInfos[i..][1..] == tInfos[i + 1..];
    var s := step(tInfos[i]);
    if s.Emit? {
      PrependTwice(columns, values, [s.column], [s.arg], Collect(tInfos[i + 1..], step));
    }
  }

  /** The lists always have one argument per column. */
  lemma {:induction false} CollectAligned(tInfos: seq<TableInfo>, step: TableInfo -> Step)
    ensures Collect(tInfos, step).Success? ==>
              |Collect(tInfos, step).value.columns| == |Collect(tInfos, step).value.values|
  {
    if tInfos != [] {
      CollectAligned(tInfos[1..], step);
    }
  }

  /** How many columns of the schema are not skipped. */
  function NotSkipped(tInfos: seq<TableInfo>, step: TableInfo -> Step): nat {
    if tInfos == [] then 0
    else (if step(tInfos[0]).Skip? then 0 else 1) + NotSkipped(tInfos[1..], step)
  }

  /** An emitted column lands at the position given by the columns before it
      that were not skipped, with its own argument beside it. */
  lemma {:induction false} CollectAt(tInfos: seq<TableInfo>, step: TableInfo -> Step, k: nat)
    requires k < |tInfos| && step(tInfos[k]).Emit?
    ensures Collect(tInfos, step).Success? ==>
              var l := Collect(tInfos, step).value;
              var j := NotSkipped(tInfos[..k], step);
              j < |l.columns| && j < |l.values| &&
              l.columns[j] == step(tInfos[k]).column && l.values[j] == step(tInfos[k]).arg
  {
    assert tInfos[..k][..0] == [];
    if k > 0 && !step(tInfos[0]).Reject? {
      CollectAt(tInfos[1..], step, k - 1);
      assert tInfos[..k][1..] == tInfos[1..][..k - 1];
    }
  }

  /** Any refused column makes the whole body refused. */
  lemma {:induction false} CollectRejects(tInfos: seq<TableInfo>, step: TableInfo -> Step, k: nat)
    requires k < |tInfos| && step(tInfos[k]).Reject?
    ensures Collect(tInfos, step).Failure?
  {
    if k > 0 {
      CollectRejects(tInfos[1..], step, k - 1);
    }
  }

  // ---------------------------------------------------------------------
  // updateTableContent

  function UpdateQuery(table: string, columns: seq<string>, idColumn: string, id: int): string {
    "UPDATE " + table + " SET " + Join(columns, "=?,") + "=?" + " WHERE " + idColumn + " = " + Itoa(id)
  }

  /** What updateTableContent would execute, or the DecodingError it returns. */
  function UpdateOf(tInfos: seq<TableInfo>, table: string, data: Body, id: int): Result<Statement, string> {
    var idColumn := PrimaryKeyOf(tInfos);
    match Collect(tInfos, UpdateStep(data, idColumn))
    case Failure(m) => Failure(m)
    case Success(l) => Success(Statement(UpdateQuery(table, l.columns, idColumn, id), l.values))
  }

  /** updateTableContent up to the DB.Exec call. */
  method UpdateTableContent(tInfos: seq<TableInfo>, table: string, data: Body, id: int)
    returns (r: Result<Statement, string>)
    ensures r == UpdateOf(tInfos, table, data, id)
  {
    var idColumn := PrimaryKey(tInfos);
    var collected := UpdateColumns(tInfos, data, idColumn);
    if collected.Failure? {
      return Failure(collected.error);
    }
    var columns, values := collected.value.columns, collected.value.values;
    var sqlColumns := Join(columns, "=?,");
    sqlColumns := sqlColumns + "=?";
    var query := "UPDATE " + table + " SET " + sqlColumns + " WHERE " + idColumn + " = " + Itoa(id);
    assert query == UpdateQuery(table, columns, idColumn, id);
    return Success(Statement(query, values));
  }

  /** The loop of updateTableContent over the schema: the SET columns and
      their values, or the first DecodingError. */
  method UpdateColumns(tInfos: seq<TableInfo>, data: Body, idColumn: string) returns (r: Result<Lists, string>)
    ensures r == Collect(tInfos, UpdateStep(data, idColumn))
  {
    ghost var step := UpdateStep(data, idColumn);
    var columns: seq<string> := [];
    var values: seq<SqlArg> := [];
    assert tInfos[0..] == tInfos;
    PrependNothing([], [], Collect(tInfos, step));
    for i := 0 to |tInfos|
      invariant Collect(tInfos, step) == Prepend(columns, values, Collect(tInfos[i..], step))
    {
      var v := tInfos[i];
      CollectStep(tInfos, step, i, columns, values);
      if v.field in data {
        if v.field != idColumn {
          if v.typeName == "int" {
            if !data[v.field].JNumber? {
              return Failure(InvalidType(v.field));
            }
            values := values + [ArgInt(data[v.field].n)];
          } else if data[v.field].JNull? {
            if v.nullable == "NO" {
              return Failure(InvalidType(v.field));
            }
            values := values + [ArgNull];
          } else {
            if !data[v.field].JString? {
              return Failure(InvalidType(v.field));
            }
            values := values + [ArgString(data[v.field].s)];
          }
          columns := columns + [v.field];
        } else {
          return Failure(InvalidType(v.field));
        }
      }
    }
    assert tInfos[|tInfos|..] == [];
    PrependNothing(columns, values, Collect(tInfos, step));
    return Success(Lists(columns, values));
  }

  /** The fields of the schema that the body holds, in schema order. */
  function PresentFields(tInfos: seq<TableInfo>, data: Body): seq<string> {
    if tInfos == [] then []
    else (if tInfos[0].field in data then [tInfos[0].field] else []) + PresentFields(tInfos[1..], data)
  }

  /** An accepted update sets exactly the schema's columns present in the
      body, in schema order, one argument each. */
  lemma {:induction false} UpdateSetsPresentColumns(tInfos: seq<TableInfo>, data: Body, idColumn: string)
    ensures Collect(tInfos, UpdateStep(data, idColumn)).Success? ==>
              var l := Collect(tInfos, UpdateStep(data, idColumn)).value;
              l.columns == PresentFields(tInfos, data) && |l.values| == |l.columns|
  {
    CollectAligned(tInfos, UpdateStep(data, idColumn));
    if tInfos != [] {
      UpdateSetsPresentColumns(tInfos[1..], data, idColumn);
    }
  }

  /** The SET columns counted by the update rule's steps. */
  lemma {:induction false} PresentCount(tInfos: seq<TableInfo>, data: Body, idColumn: string)
    ensures |PresentFields(tInfos, data)| == NotSkipped(tInfos, UpdateStep(data, idColumn))
  {
    if tInfos != [] {
      PresentCount(tInfos[1..], data, idColumn);
    }
  }

  /** Each column given in the body is set, at its place among the SET
      columns, to the value the body gives for it. */
  lemma UpdateTakesGivenValues(tInfos: seq<TableInfo>, data: Body, idColumn: string, k: nat)
    requires k < |tInfos| && tInfos[k].field in data
    ensures Collect(tInfos, UpdateStep(data, idColumn)).Success? ==>
              var l := Collect(tInfos, UpdateStep(data, idColumn)).value;
              var j := |PresentFields(tInfos[..k], data)|;
              var a := ColumnArg(tInfos[k], data[tInfos[k].field]);
              j < |l.columns| && j < |l.values| && l.columns[j] == tInfos[k].field &&
              a.Success? && l.values[j] == a.value
  {
    var step := UpdateStep(data, idColumn);
    if step(tInfos[k]).Reject? {
      CollectRejects(tInfos, step, k);
    } else {
      PresentCount(tInfos[..k], data, idColumn);
      CollectAt(tInfos, step, k);
    }
  }

  /** A body that holds the primary-key column is refused with a DecodingError. */
  lemma UpdateRefusesPrimaryKey(tInfos: seq<TableInfo>, table: string, data: Body, id: int, k: nat)
    requires k < |tInfos| && tInfos[k].field == PrimaryKeyOf(tInfos) && tInfos[k].field in data
    ensures UpdateOf(tInfos, table, data, id).Failure?
  {
    CollectRejects(tInfos, UpdateStep(data, PrimaryKeyOf(tInfos)), k);
  }

  /** The body restricted to the schema's fields. */
  function Restrict(data: Body, tInfos: seq<TableInfo>): Body {
    map f | f in data && exists k :: 0 <= k < |tInfos| && tInfos[k].field == f :: data[f]
  }

  /** Keys of the body that name no column are ignored. */
  lemma {:induction false} UpdateIgnoresUnknownKeys(tInfos: seq<TableInfo>, data: Body, idColumn: string, all: seq<TableInfo>)
    requires forall k :: 0 <= k < |tInfos| ==> tInfos[k] in all
    ensures Collect(tInfos, UpdateStep(data, idColumn)) == Collect(tInfos, UpdateStep(Restrict(data, all), idColumn))
  {
    if tInfos != [] {
      var v := tInfos[0];
      var k :| 0 <= k < |all| && all[k] == v;
      assert v.field in data <==> v.field in Restrict(data, all);
      UpdateIgnoresUnknownKeys(tInfos[1..], data, idColumn, all);
    }
  }

  /** The SET clause has one "=?" per column: it is the columns, each followed by "=?", joined by ",". */
  lemma {:induction false} UpdatePlaceholders(columns: seq<string>)
    requires |columns| >= 1
    ensures Join(columns, "=?,") + "=?" == Join(AppendEach(columns, "=?"), ",")
  {
    if |columns| > 1 {
      UpdatePlaceholders(columns[1..]);
      assert AppendEach(columns, "=?")[1..] == AppendEach(columns[1..], "=?");
    }
  }

  function AppendEach(parts: seq<string>, suffix: string): (r: seq<string>)
    ensures |r| == |parts|
  {
    if parts == [] then [] else [parts[0] + suffix] + AppendEach(parts[1..], suffix)
  }

  // ---------------------------------------------------------------------
  // createTableContent

  /** What went wrong in createTableContent: a DecodingError, or the
      out-of-range slice `sqlParams[:len(sqlParams)-1]` when no column is left. */
  datatype CreateFailure = Decoding(message: string) | SliceOutOfRange

  /** The statement createTableContent would execute, and the primary key it reports. */
  datatype Insert = Insert(idColumn: string, statement: Statement)

  function InsertQuery(table: string, columns: seq<string>): string
    requires |columns| >= 1
  {
    var params := Repeat("?,", |columns|);
    "INSERT INTO " + table + " (" + Join(columns, ",") + ") VALUES(" + params[..|params| - 1] + ")"
  }

  function CreateOf(tInfos: seq<TableInfo>, table: string, data: Body): Result<Insert, CreateFailure> {
    var idColumn := PrimaryKeyOf(tInfos);
    match Collect(tInfos, CreateStep(data, idColumn))
    case Failure(m) => Failure(Decoding(m))
    case Success(l) =>
      if l.columns == [] then Failure(SliceOutOfRange)
      else Success(Insert(idColumn, Statement(InsertQuery(table, l.columns), l.values)))
  }

  /** createTableContent up to the DB.Exec call. */
  method CreateTableContent(tInfos: seq<TableInfo>, table: string, data: Body)
    returns (r: Result<Insert, CreateFailure>)
    ensures r == CreateOf(tInfos, table, data)
  {
    var idColumn := PrimaryKey(tInfos);
    var collected := InsertColumns(tInfos, data, idColumn);
    if collected.Failure? {
      return Failure(Decoding(collected.error));
    }
    var columns, values := collected.value.columns, collected.value.values;
    var sqlColumns := Join(columns, ",");
    var sqlParams := Repeat("?,", |columns|);
    if |sqlParams| - 1 < 0 {
      return Failure(SliceOutOfRange);
    }
    sqlParams := sqlParams[..|sqlParams| - 1];
    var query := "INSERT INTO " + table + " (" + sqlColumns + ") VALUES(" + sqlParams + ")";
    return Success(Insert(idColumn, Statement(query, values)));
  }

  /** The loop of createTableContent over the schema: the columns to insert
      and their values, or the first DecodingError. */
  method InsertColumns(tInfos: seq<TableInfo>, data: Body, idColumn: string) returns (r: Result<Lists, string>)
    ensures r == Collect(tInfos, CreateStep(data, idColumn))
  {
    ghost var step := CreateStep(data, idColumn);
    var columns: seq<string> := [];
    var values: seq<SqlArg> := [];
    assert tInfos[0..] == tInfos;
    PrependNothing([], [], Collect(tInfos, step));
    for i := 0 to |tInfos|
      invariant Collect(tInfos, step) == Prepend(columns, values, Collect(tInfos[i..], step))
    {
      var v := tInfos[i];
      CollectStep(tInfos, step, i, columns, values);
      if v.field in data {
        if v.field != idColumn {
          if v.typeName == "int" {
            if !data[v.field].JNumber? {
              return Failure(InvalidType(v.field));
            }
            values := values + [ArgInt(data[v.field].n)];
          } else if data[v.field].JNull? {
            if v.nullable == "NO" {
              return Failure(InvalidType(v.field));
            }
            values := values + [ArgNull];
          } else {
            if !data[v.field].JString? {
              return Failure(InvalidType(v.field));
            }
            values := values + [ArgString(data[v.field].s)];
          }
          columns := columns + [v.field];
        }
      } else if v.nullable == "NO" {
        columns := columns + [v.field];
        if v.typeName == "int" {
          values := values + [ArgInt(1)];
        } else {
          values := values + [ArgString("")];
        }
      }
    }
    assert tInfos[|tInfos|..] == [];
    PrependNothing(columns, values, Collect(tInfos, step));
    return Success(Lists(columns, values));
  }

  /** The columns an INSERT names: those in the body other than the primary
      key, and the NOT NULL ones missing from the body. */
  function InsertedFields(tInfos: seq<TableInfo>, data: Body, idColumn: string): seq<string> {
    if tInfos == [] then []
    else
      var v := tInfos[0];
      var keep := if v.field in data then v.field != idColumn else v.nullable == "NO";
      (if keep then [v.field] else []) + InsertedFields(tInfos[1..], data, idColumn)
  }

  /** An accepted insert names exactly those columns, in schema order: a
      primary key given in the body is dropped silently, a missing NOT NULL
      column is filled in, a missing nullable one left out. */
  lemma {:induction false} CreateColumns(tInfos: seq<TableInfo>, data: Body, idColumn: string)
    ensures Collect(tInfos, CreateStep(data, idColumn)).Success? ==>
              var l := Collect(tInfos, CreateStep(data, idColumn)).value;
              l.columns == InsertedFields(tInfos, data, idColumn) && |l.values| == |l.columns|
  {
    CollectAligned(tInfos, CreateStep(data, idColumn));
    if tInfos != [] {
      CreateColumns(tInfos[1..], data, idColumn);
    }
  }

  /** The inserted columns counted by the create rule's steps. */
  lemma {:induction false} InsertedCount(tInfos: seq<TableInfo>, data: Body, idColumn: string)
    ensures |InsertedFields(tInfos, data, idColumn)| == NotSkipped(tInfos, CreateStep(data, idColumn))
  {
    if tInfos != [] {
      InsertedCount(tInfos[1..], data, idColumn);
    }
  }

  /** A NOT NULL column missing from the body is inserted, at its place among
      the inserted columns, with 1 when it is an int column and "" otherwise. */
  lemma CreateFillsMissing(tInfos: seq<TableInfo>, data: Body, idColumn: string, k: nat)
    requires k < |tInfos| && tInfos[k].field !in data && tInfos[k].nullable == "NO"
    ensures Collect(tInfos, CreateStep(data, idColumn)).Success? ==>
              var l := Collect(tInfos, CreateStep(data, idColumn)).value;
              var j := |InsertedFields(tInfos[..k], data, idColumn)|;
              j < |l.columns| && j < |l.values| && l.columns[j] == tInfos[k].field &&
              l.values[j] == (if tInfos[k].typeName == "int" then ArgInt(1) else ArgString(""))
  {
    InsertedCount(tInfos[..k], data, idColumn);
    CollectAt(tInfos, CreateStep(data, idColumn), k);
  }

  /** A column given in the body, other than the primary key, is inserted at
      its place with the value the body gives for it. */
  lemma CreateTakesGivenValues(tInfos: seq<TableInfo>, data: Body, idColumn: string, k: nat)
    requires k < |tInfos| && tInfos[k].field in data && tInfos[k].field != idColumn
    ensures Collect(tInfos, CreateStep(data, idColumn)).Success? ==>
              var l := Collect(tInfos, CreateStep(data, idColumn)).value;
              var j := |InsertedFields(tInfos[..k], data, idColumn)|;
              var a := ColumnArg(tInfos[k], data[tInfos[k].field]);
              j < |l.columns| && j < |l.values| && l.columns[j] == tInfos[k].field &&
              a.Success? && l.values[j] == a.value
  {
    var step := CreateStep(data, idColumn);
    if step(tInfos[k]).Reject? {
      CollectRejects(tInfos, step, k);
    } else {
      InsertedCount(tInfos[..k], data, idColumn);
      CollectAt(tInfos, step, k);
    }
  }

  /** A primary key given in the body never reaches the INSERT. */
  lemma {:induction false} CreateDropsGivenPrimaryKey(tInfos: seq<TableInfo>, data: Body, idColumn: string)
    requires idColumn in data
    ensures idColumn !in InsertedFields(tInfos, data, idColumn)
  {
    if tInfos != [] {
      CreateDropsGivenPrimaryKey(tInfos[1..], data, idColumn);
    }
  }

  /** The VALUES list is one "?" per column, separated by ",". */
  lemma {:induction false} InsertPlaceholders(n: nat)
    requires n >= 1
    ensures var params := Repeat("?,", n);
            params[..|params| - 1] == Join(seq(n, _ => "?"), ",")
  {
    if n > 1 {
      InsertPlaceholders(n - 1);
      var rest := Repeat("?,", n - 1);
      assert Repeat("?,", n)[..2 * n - 1] == "?," + rest[..|rest| - 1];
      assert seq(n, _ => "?")[1..] == seq(n - 1, _ => "?");
    }
  }

  /** The slice of the placeholder list is out of range exactly when nothing
      is left to insert: every column the body gives is the primary key, and
      every column it leaves out is nullable. */
  lemma CreateWithoutColumnsPanics(tInfos: seq<TableInfo>, table: string, data: Body)
    ensures CreateOf(tInfos, table, data) == Failure(SliceOutOfRange) <==>
              forall k :: 0 <= k < |tInfos| ==>
                (tInfos[k].field in data ==> tInfos[k].field == PrimaryKeyOf(tInfos)) &&
                (tInfos[k].field !in data ==> tInfos[k].nullable != "NO")
  {
    var step := CreateStep(data, PrimaryKeyOf(tInfos));
    if forall k :: 0 <= k < |tInfos| ==> step(tInfos[k]).Skip? {
      NothingCollected(tInfos, step);
    } else {
      var k :| 0 <= k < |tInfos| && !step(tInfos[k]).Skip?;
      if step(tInfos[k]).Reject? {
        CollectRejects(tInfos, step, k);
      } else {
        CollectAt(tInfos, step, k);
      }
    }
  }

  lemma {:induction false} NothingCollected(tInfos: seq<TableInfo>, step: TableInfo -> Step)
    requires forall k :: 0 <= k < |tInfos| ==> step(tInfos[k]).Skip?
    ensures Collect(tInfos, step) == Success(Lists([], []))
  {
    if tInfos != [] {
      NothingCollected(tInfos[1..], step);
    }
  }

  /** With no column refused, the lists are built. */
  lemma {:induction false} CollectAccepts(tInfos: seq<TableInfo>, step: TableInfo -> Step)
    requires forall k :: 0 <= k < |tInfos| ==> !step(tInfos[k]).Reject?
    ensures Collect(tInfos, step).Success?
  {
    if tInfos != [] {
      assert !step(tInfos[0]).Reject?;
      CollectAccepts(tInfos[1..], step);
    }
  }

  // ---------------------------------------------------------------------
  // The status codes of the update and create handlers

  /** What the create handler ends in: a status code, or the panic of the
      out-of-range slice. */
  datatype Answer = Status(code: int) | Panic

  /** updateTableContentByIdHandler: 500 when the body does not decode as
      JSON (None), 400 for a DecodingError, 500 when the database refuses the
      statement, 200 otherwise. `accepts` stands for DB.Exec and RowsAffected. */
  function UpdateHandlerStatus(tInfos: seq<TableInfo>, table: string, body: Option<Body>, id: int,
                               accepts: Statement -> bool): int {
    match body
    case None => 500
    case Some(data) =>
      match UpdateOf(tInfos, table, data, id)
      case Failure(_) => 400
      case Success(st) => if accepts(st) then 200 else 500
  }

  /** createTableContentByIdHandler: 500 when the body does not decode, 400
      for a DecodingError, a panic when no column is left, 500 when the
      database refuses the statement, 200 otherwise. */
  function CreateHandlerAnswer(tInfos: seq<TableInfo>, table: string, body: Option<Body>,
                               accepts: Statement -> bool): Answer {
    match body
    case None => Status(500)
    case Some(data) =>
      match CreateOf(tInfos, table, data)
      case Failure(Decoding(_)) => Status(400)
      case Failure(SliceOutOfRange) => Panic
      case Success(ins) => if accepts(ins.statement) then Status(200) else Status(500)
  }

  /** An update is answered 400 exactly when the body gives the primary key
      or a value of the wrong type for one of the schema's columns. */
  lemma UpdateHandlerRefuses(tInfos: seq<TableInfo>, table: string, data: Body, id: int, accepts: Statement -> bool)
    ensures UpdateHandlerStatus(tInfos, table, Some(data), id, accepts) == 400 <==>
              exists k :: 0 <= k < |tInfos| && tInfos[k].field in data &&
                (tInfos[k].field == PrimaryKeyOf(tInfos) || ColumnArg(tInfos[k], data[tInfos[k].field]).Failure?)
  {
    var step := UpdateStep(data, PrimaryKeyOf(tInfos));
    if exists k :: 0 <= k < |tInfos| && step(tInfos[k]).Reject? {
      var k :| 0 <= k < |tInfos| && step(tInfos[k]).Reject?;
      CollectRejects(tInfos, step, k);
    } else {
      CollectAccepts(tInfos, step);
    }
  }

  /** A create is answered 400 exactly when the body gives a value of the
      wrong type for a column other than the primary key. */
  lemma CreateHandlerRefuses(tInfos: seq<TableInfo>, table: string, data: Body, accepts: Statement -> bool)
    ensures CreateHandlerAnswer(tInfos, table, Some(data), accepts) == Status(400) <==>
              exists k :: 0 <= k < |tInfos| && tInfos[k].field in data &&
                tInfos[k].field != PrimaryKeyOf(tInfos) && ColumnArg(tInfos[k], data[tInfos[k].field]).Failure?
  {
    var step := CreateStep(data, PrimaryKeyOf(tInfos));
    CreateAnswerDecoding(tInfos, table, data, accepts);
    if exists k :: 0 <= k < |tInfos| && step(tInfos[k]).Reject? {
      var k :| 0 <= k < |tInfos| && step(tInfos[k]).Reject?;
      CollectRejects(tInfos, step, k);
    } else {
      CollectAccepts(tInfos, step);
    }
  }

  lemma CreateAnswerDecoding(tInfos: seq<TableInfo>, table: string, data: Body, accepts: Statement -> bool)
    ensures CreateHandlerAnswer(tInfos, table, Some(data), accepts) == Status(400) <==>
              Collect(tInfos, CreateStep(data, PrimaryKeyOf(tInfos))).Failure?
  {
  }

  // ---------------------------------------------------------------------
  // Routing

  /** What ServeHTTP does with a request. `Nothing` answers with an empty 200. */
  datatype Action =
    | ListTables
    | UnknownTable
    | ListRecords(table: string)
    | BadId(segment: string)
    | GetRecord(table: string, id: int)
    | CreateRecord(table: string)
    | UpdateRecord(table: string, id: int)
    | DeleteRecord(table: string, id: int)
    | Nothing
    | PathPanic

  /** The status code of an action that answers at once. */
  function ImmediateStatus(a: Action): Option<int> {
    match a
    case UnknownTable => Some(404)
    case BadId(_) => Some(400)
    case Nothing => Some(200)
    case _ => None
  }

  /** ServeHTTP: "/" lists the tables; otherwise the second segment names the
      table, and a third segment, when there is one, is the record id. */
  function Route(path: string, verb: string, tables: set<string>): (a: Action)
    ensures a == ListTables <==> path == "/"
    ensures a.ListRecords? || a.GetRecord? ==> verb == "GET" && a.table in tables
    ensures a.UpdateRecord? ==> verb == "POST" && a.table in tables
    ensures a.DeleteRecord? ==> verb == "DELETE" && a.table in tables
    ensures a.CreateRecord? ==> verb == "PUT" && a.table in tables
    ensures a.BadId? ==> verb in {"GET", "POST", "DELETE"} && Atoi(a.segment).None?
  {
    if path == "/" then ListTables
    else
      var parts := Split(path, '/');
      if |parts| < 2 then PathPanic
      else if parts[1] !in tables then UnknownTable
      else if |parts| == 2 then (if verb == "GET" then ListRecords(parts[1]) else Nothing)
      else if verb == "GET" || verb == "POST" || verb == "DELETE" then
        match Atoi(parts[2])
        case None => BadId(parts[2])
        case Some(id) =>
          if verb == "GET" then GetRecord(parts[1], id)
          else if verb == "POST" then UpdateRecord(parts[1], id)
          else DeleteRecord(parts[1], id)
      else if verb == "PUT" then CreateRecord(parts[1])
      else Nothing
  }

  /** Any path other than "/" whose table is unknown gets 404 "unknown table". */
  lemma RouteUnknownTable(t: string, rest: string, verb: string, tables: set<string>)
    requires '/' !in t && t !in tables
    requires rest == [] || rest[0] == '/'
    requires t + rest != ""
    ensures Route("/" + t + rest, verb, tables) == UnknownTable
    ensures ImmediateStatus(Route("/" + t + rest, verb, tables)) == Some(404)
  {
    SplitPrefix("", t + rest, '/');
    assert "/" + t + rest == "" + "/" + (t + rest);
    if rest == "" {
      SplitNoSep(t, '/');
      assert t + rest == t;
    } else {
      SplitPrefix(t, rest[1..], '/');
      assert t + rest == t + "/" + rest[1..];
    }
  }

  /** "/t": GET lists the records; any other method does nothing. */
  lemma RouteTable(t: string, verb: string, tables: set<string>)
    requires '/' !in t && t in tables && t != ""
    ensures Route("/" + t, verb, tables) == if verb == "GET" then ListRecords(t) else Nothing
    ensures ImmediateStatus(Route("/" + t, verb, tables)) == if verb == "GET" then None else Some(200)
  {
    SplitPrefix("", t, '/');
    SplitNoSep(t, '/');
    assert "/" + t == "" + "/" + t;
  }

  /** "/t/x": GET, POST and DELETE need an integer x, and answer 400 otherwise;
      "/t/" is such a path, with x empty. */
  lemma RouteRecord(t: string, x: string, verb: string, tables: set<string>)
    requires '/' !in t && '/' !in x && t in tables
    requires verb == "GET" || verb == "POST" || verb == "DELETE"
    ensures Atoi(x).None? ==> Route("/" + t + "/" + x, verb, tables) == BadId(x)
    ensures ImmediateStatus(Route("/" + t + "/" + x, verb, tables)) == if Atoi(x).None? then Some(400) else None
    ensures Atoi(x).Some? ==>
              (Route("/" + t + "/" + x, verb, tables) ==
                 if verb == "GET" then GetRecord(t, Atoi(x).value)
                 else if verb == "POST" then UpdateRecord(t, Atoi(x).value)
                 else DeleteRecord(t, Atoi(x).value))
  {
    SplitPrefix("", t + "/" + x, '/');
    SplitPrefix(t, x, '/');
    SplitNoSep(x, '/');
    assert "/" + t + "/" + x == "" + "/" + (t + "/" + x);
  }

  // ---------------------------------------------------------------------
  // getTableContentsHandler's limit and offset

  /** The limit and offset of a listing. */
  function Paging(q: Values): (int, int) {
    var limit := if Get(q, "limit") == "" then "5" else Get(q, "limit");
    var limitInt := match Atoi(limit) case Some(n) => n case None => 5;
    var offset := if Get(q, "offset") == "" then "0" else Get(q, "offset");
    var offsetInt := match Atoi(offset) case Some(n) => n case None => 0;
    (limitInt, offsetInt)
  }

  /** limit is the integer given, or 5 when it is missing or not an integer;
      offset likewise with 0. */
  lemma PagingDefaults(q: Values)
    ensures Paging(q).0 == match Atoi(Get(q, "limit")) case Some(n) => n case None => 5
    ensures Paging(q).1 == match Atoi(Get(q, "offset")) case Some(n) => n case None => 0
  {
    assert Atoi("5") == Some(5) by {
      assert DigitsValue("5") == DigitsValue("") * 10 + DigitValue('5');
    }
    assert Atoi("0") == Some(0) by {
      assert DigitsValue("0") == DigitsValue("") * 10 + DigitValue('0');
    }
  }
}
