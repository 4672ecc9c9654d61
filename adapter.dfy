/** The statement assembly and result shaping of the operations of `libsqlAdapter`.
    The database client is a function from the statement it is handed to what
    `client.execute` resolves to or throws. */
module Adapter {
  import opened Wrappers
  import opened Values
  import opened Text
  import opened Errors
  import opened WhereClause

  /** A result row: column name to value. */
  type Row = map<string, Value>

  /** The entries of a JavaScript object, in `Object.entries` order. Its keys are
      distinct, as an object's are; no lemma here depends on that. */
  type Entries = seq<(string, Value)>

  /** What `client.execute` resolves to. */
  datatype ExecResult = ExecResult(rows: seq<Row>, rowsAffected: int)

  /** What `client.execute` does: resolve, or throw an error with a message. */
  datatype ClientOutcome = Executed(result: ExecResult) | Threw(message: string)

  /** The `{ sql, args }` handed to `client.execute`. */
  datatype Statement = Statement(sql: string, args: seq<Value>)

  /** A `sortBy` option. */
  datatype SortBy = SortBy(field: string, direction: string)

  function Keys(es: Entries): (r: seq<string>)
    ensures |r| == |es| && forall i :: 0 <= i < |es| ==> r[i] == es[i].0
  {
    seq(|es|, i requires 0 <= i < |es| => es[i].0)
  }

  function Vals(es: Entries): (r: seq<Value>)
    ensures |r| == |es| && forall i :: 0 <= i < |es| ==> r[i] == es[i].1
  {
    seq(|es|, i requires 0 <= i < |es| => es[i].1)
  }

  /** `Object.keys(record).map(k => k + " = ?").join(", ")` of `update`. */
  function SetClause(update: Entries): string
  {
    Join(seq(|update|, i requires 0 <= i < |update| => update[i].0 + " = ?"), ", ")
  }

  /** No key of the entries holds a `?`. */
  predicate PlainKeys(es: Entries)
  {
    forall i :: 0 <= i < |es| ==> NoMarks(es[i].0)
  }

  /** No column name holds a `?`. */
  predicate PlainColumns(cols: seq<string>)
  {
    forall i :: 0 <= i < |cols| ==> NoMarks(cols[i])
  }

  // ---------------------------------------------------------------------------
  // create

  /** Whether `create` keeps an entry: defined, and not `id` unless `forceAllowId`. */
  predicate KeepsEntry(e: (string, Value), forceAllowId: bool)
  {
    e.1 != Undefined && (e.0 != "id" || forceAllowId)
  }

  /** The entries `create` inserts, in their original order. */
  function Kept(data: Entries, forceAllowId: bool): Entries
  {
    if data == [] then []
    else
      var init := Kept(data[..|data| - 1], forceAllowId);
      var (key, value) := data[|data| - 1];
      if value != Undefined && !(key == "id" && !forceAllowId) then init + [(key, value)] else init
  }

  /** The loop of `create` that fills `filteredRecord`. */
  method FilterRecord(record: Entries, forceAllowId: bool) returns (filtered: Entries)
    ensures filtered == Kept(record, forceAllowId)
  {
    filtered := [];
    var i := 0;
    while i < |record|
      invariant 0 <= i <= |record|
      invariant filtered == Kept(record[..i], forceAllowId)
    {
      assert record[..i + 1][..i] == record[..i];
      var (key, value) := record[i];
      i := i + 1;
      if value != Undefined {
        if key == "id" && !forceAllowId {
          continue;
        }
        filtered := filtered + [(key, value)];
      }
    }
    assert record[..i] == record;
  }

  /** The RETURNING list of `create`: the selected columns when there are any, else `*`. */
  function ReturningList(select: Option<seq<string>>): string
  {
    if select.Some? && |select.value| > 0 then Join(select.value, ", ") else "*"
  }

  /** The statement `create` executes. */
  function CreateStatement(model: string, data: Entries, select: Option<seq<string>>, forceAllowId: bool): Statement
  {
    var kept := Kept(data, forceAllowId);
    Statement("INSERT INTO " + model + " (" + Join(Keys(kept), ", ") + ") VALUES (" + Placeholders(|kept|)
              + ") RETURNING " + ReturningList(select),
              Vals(kept))
  }

  /** `create` up to `client.execute`. */
  method BuildCreate(model: string, data: Entries, select: Option<seq<string>>, forceAllowId: bool)
    returns (stmt: Statement)
    ensures stmt == CreateStatement(model, data, select, forceAllowId)
  {
    var filtered := FilterRecord(data, forceAllowId);
    var columns, values := Keys(filtered), Vals(filtered);
    var placeholders := Placeholders(|columns|);
    var selectClause := if select.Some? && |select.value| > 0 then Join(select.value, ", ") else "*";
    var sql := "INSERT INTO " + model + " (" + Join(columns, ", ") + ") VALUES (" + placeholders + ") RETURNING " + selectClause;
    stmt := Statement(sql, values);
  }

  /** How `create` turns the client's outcome into its result. */
  function CreateResult(model: string, out: ClientOutcome): Result<Row, Error>
  {
    match out
    case Threw(m) => Failure(OperationFailed("Create", m))
    case Executed(res) =>
      if |res.rows| == 0 then Failure(OperationFailed("Create", "Failed to create record in " + model))
      else Success(res.rows[0])
  }

  function Create(model: string, data: Entries, select: Option<seq<string>>, forceAllowId: bool,
                  execute: Statement -> ClientOutcome): Result<Row, Error>
  {
    CreateResult(model, execute(CreateStatement(model, data, select, forceAllowId)))
  }

  // ---------------------------------------------------------------------------
  // update, updateMany

  function UpdateManyStatement(model: string, where: seq<Condition>, update: Entries): Result<Statement, Error>
  {
    match CompileWhere(where)
    case Failure(e) => Failure(e)
    case Success(w) => Success(Statement("UPDATE " + model + " SET " + SetClause(update) + w.sql, Vals(update) + w.args))
  }

  function UpdateStatement(model: string, where: seq<Condition>, update: Entries): Result<Statement, Error>
  {
    match CompileWhere(where)
    case Failure(e) => Failure(e)
    case Success(w) =>
      Success(Statement("UPDATE " + model + " SET " + SetClause(update) + w.sql + " RETURNING *", Vals(update) + w.args))
  }

  function UpdateResult(out: ClientOutcome): Result<Option<Row>, Error>
  {
    match out
    case Threw(m) => Failure(OperationFailed("Update", m))
    case Executed(res) => Success(if |res.rows| > 0 then Some(res.rows[0]) else None)
  }

  function UpdateManyResult(out: ClientOutcome): Result<int, Error>
  {
    match out
    case Threw(m) => Failure(OperationFailed("UpdateMany", m))
    case Executed(res) => Success(res.rowsAffected)
  }

  /** `update`: the where clause is compiled outside the `try`, so its error escapes unwrapped. */
  function Update(model: string, where: seq<Condition>, update: Entries,
                  execute: Statement -> ClientOutcome): Result<Option<Row>, Error>
  {
    match UpdateStatement(model, where, update)
    case Failure(e) => Failure(e)
    case Success(stmt) => UpdateResult(execute(stmt))
  }

  function UpdateMany(model: string, where: seq<Condition>, update: Entries,
                      execute: Statement -> ClientOutcome): Result<int, Error>
  {
    match UpdateManyStatement(model, where, update)
    case Failure(e) => Failure(e)
    case Success(stmt) => UpdateManyResult(execute(stmt))
  }

  // ---------------------------------------------------------------------------
  // delete, deleteMany

  /** The statement of both `delete` and `deleteMany`. */
  function DeleteStatement(model: string, where: seq<Condition>): Result<Statement, Error>
  {
    match CompileWhere(where)
    case Failure(e) => Failure(e)
    case Success(w) => Success(Statement("DELETE FROM " + model + w.sql, w.args))
  }

  function DeleteResult(out: ClientOutcome): Result<(), Error>
  {
    match out
    case Threw(m) => Failure(OperationFailed("Delete", m))
    case Executed(_) => Success(())
  }

  function DeleteManyResult(out: ClientOutcome): Result<int, Error>
  {
    match out
    case Threw(m) => Failure(OperationFailed("DeleteMany", m))
    case Executed(res) => Success(res.rowsAffected)
  }

  function Delete(model: string, where: seq<Condition>, execute: Statement -> ClientOutcome): Result<(), Error>
  {
    match DeleteStatement(model, where)
    case Failure(e) => Failure(e)
    case Success(stmt) => DeleteResult(execute(stmt))
  }

  function DeleteMany(model: string, where: seq<Condition>, execute: Statement -> ClientOutcome): Result<int, Error>
  {
    match DeleteStatement(model, where)
    case Failure(e) => Failure(e)
    case Success(stmt) => DeleteManyResult(execute(stmt))
  }

  // ---------------------------------------------------------------------------
  // findOne

  /** The column list of `findOne`: any `select` array, even an empty one, replaces `*`. */
  function SelectList(select: Option<seq<string>>): string
  {
    match select
    case None => "*"
    case Some(cols) => Join(cols, ", ")
  }

  function FindOneStatement(model: string, where: seq<Condition>, select: Option<seq<string>>): Result<Statement, Error>
  {
    match CompileWhere(where)
    case Failure(e) => Failure(e)
    case Success(w) => Success(Statement("SELECT " + SelectList(select) + " FROM " + model + w.sql + " LIMIT 1", w.args))
  }

  function FindOneResult(out: ClientOutcome): Result<Option<Row>, Error>
  {
    match out
    case Threw(m) => Failure(OperationFailed("FindOne", m))
    case Executed(res) => Success(if |res.rows| > 0 then Some(res.rows[0]) else None)
  }

  function FindOne(model: string, where: seq<Condition>, select: Option<seq<string>>,
                   execute: Statement -> ClientOutcome): Result<Option<Row>, Error>
  {
    match FindOneStatement(model, where, select)
    case Failure(e) => Failure(e)
    case Success(stmt) => FindOneResult(execute(stmt))
  }

  // ---------------------------------------------------------------------------
  // findMany

  /** JavaScript truthiness of an optional number: present and not zero. */
  predicate Truthy(n: Option<int>)
  {
    n.Some? && n.value != 0
  }

  /** The ORDER BY suffix: ascending only for the exact direction "asc". */
  function OrderBy(sortBy: Option<SortBy>): string
  {
    match sortBy
    case None => ""
    case Some(s) => " ORDER BY " + s.field + " " + (if s.direction == "asc" then "ASC" else "DESC")
  }

  /** The suffix and argument a truthy `limit` or `offset` adds: `clause` is " LIMIT ?" or " OFFSET ?". */
  function Paging(clause: string, n: Option<int>): Statement
  {
    if Truthy(n) then Statement(clause, [Num(n.value)]) else Statement("", [])
  }

  /** The where clause of `findMany` and `count`, compiled only for a non-empty list. */
  function WherePart(where: seq<Condition>): Result<Compiled, Error>
  {
    if |where| > 0 then CompileWhere(where) else Success(Compiled("", []))
  }

  /** The statement `findMany` executes. */
  function FindManyStatement(model: string, where: seq<Condition>, limit: Option<int>,
                             sortBy: Option<SortBy>, offset: Option<int>): Result<Statement, Error>
  {
    match WherePart(where)
    case Failure(e) => Failure(e)
    case Success(w) =>
      var lim, off := Paging(" LIMIT ?", limit), Paging(" OFFSET ?", offset);
      Success(Statement("SELECT * FROM " + model + w.sql + OrderBy(sortBy) + lim.sql + off.sql,
                        w.args + lim.args + off.args))
  }

  /** `findMany` up to `client.execute`: the SQL grows with `+=` and the arguments with `push`. */
  method BuildFindMany(model: string, where: seq<Condition>, limit: Option<int>,
                       sortBy: Option<SortBy>, offset: Option<int>) returns (r: Result<Statement, Error>)
    ensures r == FindManyStatement(model, where, limit, sortBy, offset)
  {
    var sql := "SELECT * FROM " + model;
    var args: seq<Value> := [];
    ghost var w := Compiled("", []);
    assert sql + "" == sql;
    if |where| > 0 {
      var compiled := BuildWhereClause(where);
      if compiled.Failure? {
        return Failure(compiled.error);
      }
      w := compiled.value;
      sql := sql + compiled.value.sql;
      args := args + compiled.value.args;
    }
    assert WherePart(where) == Success(w);
    assert sql == "SELECT * FROM " + model + w.sql && args == w.args;
    if sortBy.Some? {
      sql := sql + (" ORDER BY " + sortBy.value.field + " " + (if sortBy.value.direction == "asc" then "ASC" else "DESC"));
    }
    assert sql == "SELECT * FROM " + model + w.sql + OrderBy(sortBy);
    ghost var base := sql;
    if limit.Some? && limit.value != 0 {
      sql := sql + " LIMIT ?";
      args := args + [Num(limit.value)];
    }
    assert sql == base + Paging(" LIMIT ?", limit).sql && args == w.args + Paging(" LIMIT ?", limit).args;
    base := sql;
    if offset.Some? && offset.value != 0 {
      sql := sql + " OFFSET ?";
      args := args + [Num(offset.value)];
    }
    assert sql == base + Paging(" OFFSET ?", offset).sql;
    assert args == w.args + Paging(" LIMIT ?", limit).args + Paging(" OFFSET ?", offset).args;
    r := Success(Statement(sql, args));
  }

  function FindManyResult(out: ClientOutcome): Result<seq<Row>, Error>
  {
    match out
    case Threw(m) => Failure(OperationFailed("FindMany", m))
    case Executed(res) => Success(res.rows)
  }

  function FindMany(model: string, where: seq<Condition>, limit: Option<int>, sortBy: Option<SortBy>,
                    offset: Option<int>, execute: Statement -> ClientOutcome): Result<seq<Row>, Error>
  {
    match FindManyStatement(model, where, limit, sortBy, offset)
    case Failure(e) => Failure(e)
    case Success(stmt) => FindManyResult(execute(stmt))
  }

  // ---------------------------------------------------------------------------
  // count

  function CountStatement(model: string, where: seq<Condition>): Result<Statement, Error>
  {
    match WherePart(where)
    case Failure(e) => Failure(e)
    case Success(w) => Success(Statement("SELECT COUNT(*) as count FROM " + model + w.sql, w.args))
  }

  /** `count` up to `client.execute`. */
  method BuildCount(model: string, where: seq<Condition>) returns (r: Result<Statement, Error>)
    ensures r == CountStatement(model, where)
  {
    var sql := "SELECT COUNT(*) as count FROM " + model;
    var args: seq<Value> := [];
    assert sql + "" == sql;
    if |where| > 0 {
      var compiled := BuildWhereClause(where);
      if compiled.Failure? {
        return Failure(compiled.error);
      }
      sql := sql + compiled.value.sql;
      args := args + compiled.value.args;
      assert args == compiled.value.args;
    }
    r := Success(Statement(sql, args));
  }

  /** The `count` column of the first row, or the error a missing row or column raises. */
  function CountResult(out: ClientOutcome): Result<Value, Error>
  {
    match out
    case Threw(m) => Failure(OperationFailed("Count", m))
    case Executed(res) =>
      if |res.rows| == 0 || "count" !in res.rows[0] then
        Failure(OperationFailed("Count", "Count query returned invalid result"))
      else Success(res.rows[0]["count"])
  }

  function Count(model: string, where: seq<Condition>, execute: Statement -> ClientOutcome): Result<Value, Error>
  {
    match CountStatement(model, where)
    case Failure(e) => Failure(e)
    case Success(stmt) => CountResult(execute(stmt))
  }

  // ---------------------------------------------------------------------------
  // Properties of create

  /** The fixed words of the INSERT, UPDATE and DELETE statements hold no placeholder. */
  lemma WriteWordsPlain()
    ensures NoMarks("INSERT INTO ") && NoMarks(" (") && NoMarks(") VALUES (") && NoMarks(") RETURNING ")
    ensures NoMarks("UPDATE ") && NoMarks(" SET ") && NoMarks(" RETURNING *") && NoMarks("DELETE FROM ")
  {
  }

  /** The fixed words of the SELECT statements hold no placeholder. */
  lemma ReadWordsPlain()
    ensures NoMarks("SELECT ") && NoMarks(" FROM ") && NoMarks(" LIMIT 1") && NoMarks("SELECT * FROM ")
    ensures NoMarks(" ORDER BY ") && NoMarks(" ") && NoMarks("ASC") && NoMarks("DESC") && NoMarks("*")
    ensures NoMarks("SELECT COUNT(*) as count FROM ")
  {
  }

  /** `create` keeps exactly the defined entries, and `id` only when forced. */
  lemma {:induction false} KeptMembers(data: Entries, forceAllowId: bool)
    ensures forall e :: e in Kept(data, forceAllowId) <==> e in data && KeepsEntry(e, forceAllowId)
    decreases |data|
  {
    if data != [] {
      var init, last := data[..|data| - 1], data[|data| - 1];
      KeptMembers(init, forceAllowId);
      assert data == init + [last];
      assert Kept(data, forceAllowId) == if KeepsEntry(last, forceAllowId) then Kept(init, forceAllowId) + [last]
                                         else Kept(init, forceAllowId);
      forall e ensures e in data <==> e in init || e == last {
      }
    }
  }

  /** Without `forceAllowId` no `id` column is inserted, whatever its value; with
      it, a defined `id` is inserted, its value at the same position as its column. */
  lemma CreateIdColumn(model: string, data: Entries, select: Option<seq<string>>, forceAllowId: bool)
    ensures var kept := Kept(data, forceAllowId);
      !forceAllowId ==> "id" !in Keys(kept)
    ensures var stmt := CreateStatement(model, data, select, forceAllowId);
      var kept := Kept(data, forceAllowId);
      forceAllowId ==> forall v :: ("id", v) in data && v != Undefined ==>
        exists j :: 0 <= j < |kept| && Keys(kept)[j] == "id" && stmt.args[j] == v
  {
    var kept := Kept(data, forceAllowId);
    KeptMembers(data, forceAllowId);
    if !forceAllowId {
      forall j | 0 <= j < |kept| ensures Keys(kept)[j] != "id" {
        assert kept[j] in kept;
      }
    }
    if forceAllowId {
      forall v | ("id", v) in data && v != Undefined
        ensures exists j :: 0 <= j < |kept| && Keys(kept)[j] == "id" && Vals(kept)[j] == v
      {
        assert ("id", v) in kept;
        var j :| 0 <= j < |kept| && kept[j] == ("id", v);
        assert Keys(kept)[j] == "id" && Vals(kept)[j] == v;
      }
    }
  }

  /** The columns of the INSERT, its `?` list and its arguments line up: the
      i-th placeholder receives the value of the i-th kept column, and the
      RETURNING list is the selected columns, or `*` when none are selected. */
  lemma CreateAlignment(model: string, data: Entries, select: Option<seq<string>>, forceAllowId: bool)
    requires NoMarks(model) && PlainKeys(data)
    requires select.Some? ==> PlainColumns(select.value)
    ensures var stmt := CreateStatement(model, data, select, forceAllowId);
      var kept := Kept(data, forceAllowId);
      stmt.args == Vals(kept) &&
      |Keys(kept)| == |stmt.args| == CountMarks(stmt.sql) &&
      Inline(stmt.sql, stmt.args) ==
        Some(Lit("INSERT INTO " + model + " (" + Join(Keys(kept), ", ") + ") VALUES (")
             + BoundList(Vals(kept))
             + Lit(") RETURNING " + ReturningList(select)))
  {
    WriteWordsPlain();
    ReadWordsPlain();
    var stmt := CreateStatement(model, data, select, forceAllowId);
    var kept := Kept(data, forceAllowId);
    KeptMembers(data, forceAllowId);
    forall i | 0 <= i < |kept| ensures NoMarks(Keys(kept)[i]) {
      assert kept[i] in data;
    }
    JoinNoMarks(Keys(kept), ", ");
    var prefix := "INSERT INTO " + model + " (" + Join(Keys(kept), ", ") + ") VALUES (";
    NoMarksAppend("INSERT INTO ", model);
    NoMarksAppend("INSERT INTO " + model, " (");
    NoMarksAppend("INSERT INTO " + model + " (", Join(Keys(kept), ", "));
    NoMarksAppend("INSERT INTO " + model + " (" + Join(Keys(kept), ", "), ") VALUES (");
    if select.Some? && |select.value| > 0 {
      JoinNoMarks(select.value, ", ");
    }
    var suffix := ") RETURNING " + ReturningList(select);
    NoMarksAppend(") RETURNING ", ReturningList(select));
    PlaceholdersBind(Vals(kept));
    InlineAround(prefix, Placeholders(|kept|), Vals(kept), suffix);
    assert stmt.sql == prefix + Placeholders(|kept|) + suffix;
    InlineDefinedIff(stmt.sql, stmt.args);
  }

  /** `create` yields the first returned row; no row, or a client error, is an
      error whose message starts "Create operation failed: ". */
  lemma CreateOutcome(model: string, data: Entries, select: Option<seq<string>>, forceAllowId: bool,
                      execute: Statement -> ClientOutcome)
    ensures var out := execute(CreateStatement(model, data, select, forceAllowId));
      var r := Create(model, data, select, forceAllowId, execute);
      (r.Success? <==> out.Executed? && |out.result.rows| > 0) &&
      (r.Success? ==> r.value == out.result.rows[0]) &&
      (r.Failure? ==>
         r.error == OperationFailed("Create", if out.Threw? then out.message else "Failed to create record in " + model))
  {
  }

  // ---------------------------------------------------------------------------
  // Properties of update and updateMany

  /** Each updated column with its own value bound. */
  function SetPieces(update: Entries): (r: seq<seq<Piece>>)
    ensures |r| == |update|
    ensures forall i :: 0 <= i < |update| ==> r[i] == Lit(update[i].0 + " = ") + [Bound(update[i].1)]
  {
    seq(|update|, i requires 0 <= i < |update| => Lit(update[i].0 + " = ") + [Bound(update[i].1)])
  }

  /** The SET list binds the values of the update, one per column, in order. */
  lemma SetClauseBinds(update: Entries)
    requires PlainKeys(update)
    ensures Inline(SetClause(update), Vals(update)) == Some(JoinPieces(SetPieces(update), Lit(", ")))
  {
    var texts := seq(|update|, i requires 0 <= i < |update| => update[i].0 + " = ?");
    var argss := Units(Vals(update));
    forall i | 0 <= i < |update|
      ensures Inline(texts[i], argss[i]) == Some(SetPieces(update)[i])
    {
      NoMarksAppend(update[i].0, " = ");
      assert texts[i] == (update[i].0 + " = ") + "?";
      BindOne(update[i].0 + " = ", update[i].1);
    }
    FlattenUnits(Vals(update));
    InlineLit(", ");
    InlineJoin(texts, argss, SetPieces(update), ", ");
  }

  /** The UPDATE binds the new values to the SET placeholders first and then the
      where arguments to the where placeholders, one to one and in order. */
  lemma UpdateManyAlignment(model: string, where: seq<Condition>, update: Entries)
    requires NoMarks(model) && PlainKeys(update) && PlainFields(where)
    requires UpdateManyStatement(model, where, update).Success?
    ensures var stmt := UpdateManyStatement(model, where, update).value;
      stmt.args == Vals(update) + CompileWhere(where).value.args &&
      CountMarks(stmt.sql) == |stmt.args| &&
      Inline(stmt.sql, stmt.args) ==
        Some(Lit("UPDATE " + model + " SET ") + JoinPieces(SetPieces(update), Lit(", ")) + ExpectedWhere(where))
  {
    WriteWordsPlain();
    ReadWordsPlain();
    var stmt := UpdateManyStatement(model, where, update).value;
    var w := CompileWhere(where).value;
    var prefix := "UPDATE " + model + " SET ";
    NoMarksAppend("UPDATE ", model);
    NoMarksAppend("UPDATE " + model, " SET ");
    InlineLit(prefix);
    SetClauseBinds(update);
    WhereAlignment(where);
    InlineAppend3(prefix, [], SetClause(update), Vals(update), w.sql, w.args);
    assert [] + Vals(update) + w.args == stmt.args;
    InlineDefinedIff(stmt.sql, stmt.args);
  }

  /** `update` executes the statement of `updateMany` with " RETURNING *" added,
      and binds the same arguments; so its placeholders line up as well. */
  lemma UpdateAlignment(model: string, where: seq<Condition>, update: Entries)
    requires NoMarks(model) && PlainKeys(update) && PlainFields(where)
    requires UpdateStatement(model, where, update).Success?
    ensures UpdateManyStatement(model, where, update).Success?
    ensures var stmt := UpdateStatement(model, where, update).value;
      var many := UpdateManyStatement(model, where, update).value;
      stmt.sql == many.sql + " RETURNING *" && stmt.args == many.args &&
      CountMarks(stmt.sql) == |stmt.args| &&
      Inline(stmt.sql, stmt.args) ==
        Some(Lit("UPDATE " + model + " SET ") + JoinPieces(SetPieces(update), Lit(", ")) + ExpectedWhere(where)
             + Lit(" RETURNING *"))
  {
    WriteWordsPlain();
    ReadWordsPlain();
    var stmt := UpdateStatement(model, where, update).value;
    var many := UpdateManyStatement(model, where, update).value;
    UpdateManyAlignment(model, where, update);
    InlineLit(" RETURNING *");
    InlineAppend(many.sql, many.args, " RETURNING *", []);
    assert many.args + [] == stmt.args;
    InlineDefinedIff(stmt.sql, stmt.args);
  }

  /** `update` yields the first returned row or `None`; `updateMany` the number of
      affected rows. A client error is wrapped with the operation's name. */
  lemma UpdateOutcomes(model: string, where: seq<Condition>, update: Entries, execute: Statement -> ClientOutcome)
    requires CompileWhere(where).Success?
    ensures var out := execute(UpdateStatement(model, where, update).value);
      var r := Update(model, where, update, execute);
      (out.Threw? ==> r == Failure(OperationFailed("Update", out.message))) &&
      (out.Executed? ==> r == Success(if out.result.rows == [] then None else Some(out.result.rows[0])))
    ensures var out := execute(UpdateManyStatement(model, where, update).value);
      var r := UpdateMany(model, where, update, execute);
      (out.Threw? ==> r == Failure(OperationFailed("UpdateMany", out.message))) &&
      (out.Executed? ==> r == Success(out.result.rowsAffected))
  {
  }

  // ---------------------------------------------------------------------------
  // Properties of delete, deleteMany and findOne

  /** The DELETE binds exactly the where arguments. */
  lemma DeleteAlignment(model: string, where: seq<Condition>)
    requires NoMarks(model) && PlainFields(where)
    requires DeleteStatement(model, where).Success?
    ensures var stmt := DeleteStatement(model, where).value;
      CountMarks(stmt.sql) == |stmt.args| &&
      Inline(stmt.sql, stmt.args) == Some(Lit("DELETE FROM " + model) + ExpectedWhere(where))
  {
    WriteWordsPlain();
    ReadWordsPlain();
    var stmt := DeleteStatement(model, where).value;
    var w := CompileWhere(where).value;
    NoMarksAppend("DELETE FROM ", model);
    InlineLit("DELETE FROM " + model);
    WhereAlignment(where);
    InlineAppend("DELETE FROM " + model, [], w.sql, w.args);
    assert [] + w.args == w.args;
    InlineDefinedIff(stmt.sql, stmt.args);
  }

  /** `delete` succeeds whenever the client does, however many rows were removed
      (none, for a row that does not exist); `deleteMany` reports that number. */
  lemma DeleteOutcomes(model: string, where: seq<Condition>, execute: Statement -> ClientOutcome)
    requires CompileWhere(where).Success?
    ensures var out := execute(DeleteStatement(model, where).value);
      (Delete(model, where, execute).Success? <==> out.Executed?) &&
      (out.Threw? ==> Delete(model, where, execute) == Failure(OperationFailed("Delete", out.message))) &&
      (out.Executed? ==> DeleteMany(model, where, execute) == Success(out.result.rowsAffected)) &&
      (out.Threw? ==> DeleteMany(model, where, execute) == Failure(OperationFailed("DeleteMany", out.message)))
  {
  }

  /** The SELECT of `findOne` binds exactly the where arguments. */
  lemma FindOneAlignment(model: string, where: seq<Condition>, select: Option<seq<string>>)
    requires NoMarks(model) && PlainFields(where)
    requires select.Some? ==> PlainColumns(select.value)
    requires FindOneStatement(model, where, select).Success?
    ensures var stmt := FindOneStatement(model, where, select).value;
      CountMarks(stmt.sql) == |stmt.args| &&
      Inline(stmt.sql, stmt.args) ==
        Some(Lit("SELECT " + SelectList(select) + " FROM " + model) + ExpectedWhere(where) + Lit(" LIMIT 1"))
  {
    WriteWordsPlain();
    ReadWordsPlain();
    var stmt := FindOneStatement(model, where, select).value;
    var w := CompileWhere(where).value;
    var prefix := "SELECT " + SelectList(select) + " FROM " + model;
    if select.Some? {
      JoinNoMarks(select.value, ", ");
    }
    NoMarksAppend("SELECT ", SelectList(select));
    NoMarksAppend("SELECT " + SelectList(select), " FROM ");
    NoMarksAppend("SELECT " + SelectList(select) + " FROM ", model);
    WhereAlignment(where);
    InlineAround(prefix, w.sql, w.args, " LIMIT 1");
    InlineDefinedIff(stmt.sql, stmt.args);
  }

  /** An empty `select` empties the column list of `findOne` (an empty array is
      truthy), while `create` falls back to `*` for it. */
  lemma EmptySelectDiffers(model: string, where: seq<Condition>)
    requires CompileWhere(where).Success?
    ensures SelectList(Some([])) == "" && ReturningList(Some([])) == "*"
    ensures FindOneStatement(model, where, Some([])).value.sql
         == "SELECT  FROM " + model + CompileWhere(where).value.sql + " LIMIT 1"
  {
    assert "SELECT " + Join([], ", ") == "SELECT ";
  }

  /** `findOne` yields the first returned row or `None`; `findMany` every row, in order. */
  lemma FindOutcomes(model: string, where: seq<Condition>, select: Option<seq<string>>, limit: Option<int>,
                     sortBy: Option<SortBy>, offset: Option<int>, execute: Statement -> ClientOutcome)
    requires CompileWhere(where).Success?
    ensures var out := execute(FindOneStatement(model, where, select).value);
      var r := FindOne(model, where, select, execute);
      (out.Threw? ==> r == Failure(OperationFailed("FindOne", out.message))) &&
      (out.Executed? ==> r == Success(if out.result.rows == [] then None else Some(out.result.rows[0])))
    ensures var out := execute(FindManyStatement(model, where, limit, sortBy, offset).value);
      var r := FindMany(model, where, limit, sortBy, offset, execute);
      (out.Threw? ==> r == Failure(OperationFailed("FindMany", out.message))) &&
      (out.Executed? ==> r == Success(out.result.rows))
  {
  }

  // ---------------------------------------------------------------------------
  // Properties of findMany and count

  /** With no conditions, no sort and no truthy limit or offset, `findMany`
      executes exactly "SELECT * FROM <model>" with no arguments. */
  lemma FindManyPlain(model: string, where: seq<Condition>, limit: Option<int>,
                      sortBy: Option<SortBy>, offset: Option<int>)
    requires where == [] && sortBy.None? && !Truthy(limit) && !Truthy(offset)
    ensures FindManyStatement(model, where, limit, sortBy, offset) == Success(Statement("SELECT * FROM " + model, []))
  {
    assert WherePart(where) == Success(Compiled("", []));
    assert Paging(" LIMIT ?", limit) == Statement("", []) && Paging(" OFFSET ?", offset) == Statement("", []);
    assert "SELECT * FROM " + model + "" + "" + "" + "" == "SELECT * FROM " + model;
    var none: seq<Value> := [];
    assert none + none + none == none;
  }

  /** A `limit` or `offset` of 0 is the same as none. */
  lemma ZeroPagingSkipped(model: string, where: seq<Condition>, sortBy: Option<SortBy>,
                          limit: Option<int>, offset: Option<int>)
    ensures FindManyStatement(model, where, Some(0), sortBy, offset) == FindManyStatement(model, where, None, sortBy, offset)
    ensures FindManyStatement(model, where, limit, sortBy, Some(0)) == FindManyStatement(model, where, limit, sortBy, None)
  {
  }

  /** ORDER BY is ascending exactly when the direction is the string "asc". */
  lemma SortDirection(s: SortBy)
    ensures var o := OrderBy(Some(s));
      |o| >= 4 && (s.direction == "asc" <==> o[|o| - 4..] == " ASC") &&
      (s.direction != "asc" <==> o[|o| - 5..] == " DESC")
  {
    var o := OrderBy(Some(s));
    var head := " ORDER BY " + s.field;
    if s.direction == "asc" {
      assert o == head + " ASC";
      assert o[|o| - 4..] == " ASC";
      assert o[|o| - 5..][1] == ' ';
    } else {
      assert o == head + " DESC";
      assert o[|o| - 4..] == "DESC";
      assert o[|o| - 4..][0] == 'D';
    }
  }

  /** The SELECT of `findMany` binds the where arguments, then the limit, then
      the offset, each to its own placeholder; a falsy limit or offset adds
      neither text nor argument. */
  lemma FindManyAlignment(model: string, where: seq<Condition>, limit: Option<int>,
                          sortBy: Option<SortBy>, offset: Option<int>)
    requires NoMarks(model) && PlainFields(where)
    requires sortBy.Some? ==> NoMarks(sortBy.value.field)
    requires FindManyStatement(model, where, limit, sortBy, offset).Success?
    ensures var stmt := FindManyStatement(model, where, limit, sortBy, offset).value;
      CountMarks(stmt.sql) == |stmt.args| &&
      Inline(stmt.sql, stmt.args) ==
        Some(Lit("SELECT * FROM " + model) + ExpectedWhere(where) + Lit(OrderBy(sortBy))
             + (if Truthy(limit) then Lit(" LIMIT ") + [Bound(Num(limit.value))] else [])
             + (if Truthy(offset) then Lit(" OFFSET ") + [Bound(Num(offset.value))] else []))
  {
    WriteWordsPlain();
    ReadWordsPlain();
    var stmt := FindManyStatement(model, where, limit, sortBy, offset).value;
    var w := WherePart(where).value;
    var lim, off := Paging(" LIMIT ?", limit), Paging(" OFFSET ?", offset);
    var head := "SELECT * FROM " + model;
    NoMarksAppend("SELECT * FROM ", model);
    if sortBy.Some? {
      NoMarksAppend(" ORDER BY ", sortBy.value.field);
      NoMarksAppend(" ORDER BY " + sortBy.value.field, " ");
      NoMarksAppend(" ORDER BY " + sortBy.value.field + " ", if sortBy.value.direction == "asc" then "ASC" else "DESC");
    }
    WhereAlignment(where);
    InlineAround(head, w.sql, w.args, OrderBy(sortBy));
    var front := head + w.sql + OrderBy(sortBy);
    assert " LIMIT ?" == " LIMIT " + "?" && " OFFSET ?" == " OFFSET " + "?";
    PagingBinds(" LIMIT ", " LIMIT ?", limit);
    PagingBinds(" OFFSET ", " OFFSET ?", offset);
    InlineAppend3(front, w.args, lim.sql, lim.args, off.sql, off.args);
    InlineDefinedIff(stmt.sql, stmt.args);
  }

  /** A truthy `limit` or `offset` binds its value to the one placeholder of its clause. */
  lemma PagingBinds(head: string, clause: string, n: Option<int>)
    requires NoMarks(head) && clause == head + "?"
    ensures Inline(Paging(clause, n).sql, Paging(clause, n).args)
         == Some(if Truthy(n) then Lit(head) + [Bound(Num(n.value))] else [])
  {
    if Truthy(n) {
      BindOne(head, Num(n.value));
    } else {
      InlineLit("");
    }
  }

  /** The COUNT binds exactly the where arguments. */
  lemma CountAlignment(model: string, where: seq<Condition>)
    requires NoMarks(model) && PlainFields(where)
    requires CountStatement(model, where).Success?
    ensures var stmt := CountStatement(model, where).value;
      CountMarks(stmt.sql) == |stmt.args| &&
      Inline(stmt.sql, stmt.args) == Some(Lit("SELECT COUNT(*) as count FROM " + model) + ExpectedWhere(where))
  {
    WriteWordsPlain();
    ReadWordsPlain();
    var stmt := CountStatement(model, where).value;
    var w := WherePart(where).value;
    var head := "SELECT COUNT(*) as count FROM " + model;
    NoMarksAppend("SELECT COUNT(*) as count FROM ", model);
    WhereAlignment(where);
    InlineAround(head, w.sql, w.args, "");
    assert head + w.sql + "" == stmt.sql;
    assert Lit("") == [];
    assert Lit(head) + ExpectedWhere(where) + [] == Lit(head) + ExpectedWhere(where);
    InlineDefinedIff(stmt.sql, stmt.args);
  }

  /** `count` and a plain `findMany` with the same conditions filter with the
      same WHERE text and the same arguments. */
  lemma CountFiltersLikeFindMany(model: string, where: seq<Condition>)
    ensures CountStatement(model, where).Success? <==> FindManyStatement(model, where, None, None, None).Success?
    ensures CountStatement(model, where).Success? ==>
      var c := CountStatement(model, where).value;
      var f := FindManyStatement(model, where, None, None, None).value;
      c.args == f.args &&
      c.sql[|"SELECT COUNT(*) as count FROM " + model|..] == f.sql[|"SELECT * FROM " + model|..]
  {
  }

  /** `count` yields the `count` column of the first row; a missing row or column
      is the error "Count operation failed: Count query returned invalid result",
      and a client error is wrapped as "Count operation failed: <message>". */
  lemma CountOutcome(out: ClientOutcome)
    ensures CountResult(out).Success? <==> out.Executed? && |out.result.rows| > 0 && "count" in out.result.rows[0]
    ensures CountResult(out).Success? ==> CountResult(out).value == out.result.rows[0]["count"]
    ensures out.Executed? && CountResult(out).Failure? ==>
      CountResult(out).error == OperationFailed("Count", "Count query returned invalid result")
    ensures out.Threw? ==> CountResult(out) == Failure(OperationFailed("Count", out.message))
  {
  }

  /** An unsupported operator escapes every operation unwrapped, and no
      statement reaches the client. */
  lemma WhereErrorsEscape(model: string, where: seq<Condition>, update: Entries, select: Option<seq<string>>,
                          limit: Option<int>, sortBy: Option<SortBy>, offset: Option<int>,
                          execute: Statement -> ClientOutcome)
    requires CompileWhere(where).Failure?
    ensures var e := CompileWhere(where).error;
      e.UnsupportedOperator? &&
      Update(model, where, update, execute) == Failure(e) &&
      UpdateMany(model, where, update, execute) == Failure(e) &&
      Delete(model, where, execute) == Failure(e) &&
      DeleteMany(model, where, execute) == Failure(e) &&
      FindOne(model, where, select, execute) == Failure(e) &&
      FindMany(model, where, limit, sortBy, offset, execute) == Failure(e) &&
      Count(model, where, execute) == Failure(e)
  {
    FailsIffUnsupported(where);
  }
}
