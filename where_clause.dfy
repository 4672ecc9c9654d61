/** `buildWhereClause`: a list of conditions compiled to a WHERE fragment and its bind arguments. */
module WhereClause {
  import opened Wrappers
  import opened Values
  import opened Text
  import opened Errors

  /** The filter operators, with `Unknown` for any other operator string. */
  datatype Op = Eq | Ne | Contains | StartsWith | EndsWith | Lt | Lte | Gt | Gte | In | Unknown(name: string)

  datatype Connector = And | Or

  /** A `WhereCondition`; `operator == None` is an absent operator. */
  datatype Condition = Condition(field: string, value: Value, operator: Option<string>, connector: Option<Connector>)

  /** The result of compiling: the SQL fragment and its positional arguments. */
  datatype Compiled = Compiled(sql: string, args: seq<Value>)

  /** What one condition contributes: its SQL text and the arguments it binds. */
  datatype Clause = Clause(text: string, args: seq<Value>)

  /** The `switch` on the operator string. */
  function ParseOp(name: string): (op: Op)
    ensures op.Unknown? ==> op.name == name
  {
    if name == "eq" then Eq
    else if name == "ne" then Ne
    else if name == "contains" then Contains
    else if name == "starts_with" then StartsWith
    else if name == "ends_with" then EndsWith
    else if name == "lt" then Lt
    else if name == "lte" then Lte
    else if name == "gt" then Gt
    else if name == "gte" then Gte
    else if name == "in" then In
    else Unknown(name)
  }

  /** The operator of `c`, `eq` when it has none. */
  function OperatorOf(c: Condition): Op
  {
    ParseOp(match c.operator case None => "eq" case Some(name) => name)
  }

  /** True when `v` is an array with at least one element, the test `in` makes. */
  predicate NonEmptyArray(v: Value)
  {
    v.Arr? && |v.items| > 0
  }

  /** One iteration of the loop in `buildWhereClause`: the clause the condition
      adds (`None` when `in` drops it) or the error it throws. */
  function CompileCondition(c: Condition): Result<Option<Clause>, Error>
  {
    var f, v := c.field, c.value;
    match OperatorOf(c)
    case Eq => Success(Some(Clause(f + " = ?", [v])))
    case Ne => Success(Some(Clause(f + " != ?", [v])))
    case Contains => Success(Some(Clause(f + " LIKE ?", [Str("%" + ToStr(v) + "%")])))
    case StartsWith => Success(Some(Clause(f + " LIKE ?", [Str(ToStr(v) + "%")])))
    case EndsWith => Success(Some(Clause(f + " LIKE ?", [Str("%" + ToStr(v))])))
    case Lt => Success(Some(Clause(f + " < ?", [v])))
    case Lte => Success(Some(Clause(f + " <= ?", [v])))
    case Gt => Success(Some(Clause(f + " > ?", [v])))
    case Gte => Success(Some(Clause(f + " >= ?", [v])))
    case In =>
      if NonEmptyArray(v) then Success(Some(Clause(f + " IN (" + Placeholders(|v.items|) + ")", v.items)))
      else Success(None)
    case Unknown(name) => Failure(UnsupportedOperator(name))
  }

  /** The clauses the conditions contribute, in order, or the first error. */
  function Collect(ws: seq<Condition>): Result<seq<Clause>, Error>
  {
    if ws == [] then Success([])
    else
      match Collect(ws[..|ws| - 1])
      case Failure(e) => Failure(e)
      case Success(cls) =>
        match CompileCondition(ws[|ws| - 1])
        case Failure(e) => Failure(e)
        case Success(None) => Success(cls)
        case Success(Some(cl)) => Success(cls + [cl])
  }

  function Texts(cls: seq<Clause>): (r: seq<string>)
    ensures |r| == |cls| && forall i :: 0 <= i < |cls| ==> r[i] == cls[i].text
  {
    seq(|cls|, i requires 0 <= i < |cls| => cls[i].text)
  }

  function ArgLists(cls: seq<Clause>): (r: seq<seq<Value>>)
    ensures |r| == |cls| && forall i :: 0 <= i < |cls| ==> r[i] == cls[i].args
  {
    seq(|cls|, i requires 0 <= i < |cls| => cls[i].args)
  }

  /** What `buildWhereClause(where)` returns or throws. */
  function CompileWhere(where: seq<Condition>): Result<Compiled, Error>
  {
    if |where| == 0 then Success(Compiled("", []))
    else
      match Collect(where)
      case Failure(e) => Failure(e)
      case Success(cls) => Success(Compiled(" WHERE " + Join(Texts(cls), " AND "), Flatten(ArgLists(cls))))
  }

  /** `buildWhereClause` as the source writes it: one pass over the conditions,
      pushing each clause onto `conditions` and its values onto `args`. */
  method BuildWhereClause(where: seq<Condition>) returns (r: Result<Compiled, Error>)
    ensures r == CompileWhere(where)
  {
    if |where| == 0 {
      return Success(Compiled("", []));
    }
    var conditions: seq<string> := [];
    var args: seq<Value> := [];
    var i := 0;
    while i < |where|
      invariant 0 <= i <= |where|
      invariant Collect(where[..i]).Success?
      invariant conditions == Texts(Collect(where[..i]).value)
      invariant args == Flatten(ArgLists(Collect(where[..i]).value))
    {
      var field, value := where[i].field, where[i].value;
      ghost var before := args;
      var clause := "";
      match OperatorOf(where[i]) {
        case Eq => clause := field + " = ?"; args := args + [value];
        case Ne => clause := field + " != ?"; args := args + [value];
        case Contains => clause := field + " LIKE ?"; args := args + [Str("%" + ToStr(value) + "%")];
        case StartsWith => clause := field + " LIKE ?"; args := args + [Str(ToStr(value) + "%")];
        case EndsWith => clause := field + " LIKE ?"; args := args + [Str("%" + ToStr(value))];
        case Lt => clause := field + " < ?"; args := args + [value];
        case Lte => clause := field + " <= ?"; args := args + [value];
        case Gt => clause := field + " > ?"; args := args + [value];
        case Gte => clause := field + " >= ?"; args := args + [value];
        case In =>
          if NonEmptyArray(value) {
            clause := field + " IN (" + Placeholders(|value.items|) + ")";
            args := args + value.items;
          }
        case Unknown(name) =>
          CollectStopsAtError(where, i);
          return Failure(UnsupportedOperator(name));
      }
      ghost var added := args[|before|..];
      assert args == before + added;
      assert CompileCondition(where[i]) == Success(if clause == "" then None else Some(Clause(clause, added)));
      CollectNext(where, i);
      ghost var cls := Collect(where[..i]).value;
      if clause != "" {
        conditions := conditions + [clause];
        ClausesSnoc(cls, Clause(clause, added));
      } else {
        assert added == [];
      }
      i := i + 1;
    }
    assert where[..i] == where;
    r := Success(Compiled(" WHERE " + Join(conditions, " AND "), args));
  }

  /** One more condition: the clauses so far, followed by the one it adds. */
  lemma CollectNext(ws: seq<Condition>, i: nat)
    requires i < |ws|
    requires Collect(ws[..i]).Success? && CompileCondition(ws[i]).Success?
    ensures Collect(ws[..i + 1]) == Success(
      match CompileCondition(ws[i]).value
      case None => Collect(ws[..i]).value
      case Some(cl) => Collect(ws[..i]).value + [cl])
  {
    assert ws[..i + 1][..i] == ws[..i];
  }

  /** The texts and arguments of the clauses after one more is appended. */
  lemma ClausesSnoc(cls: seq<Clause>, cl: Clause)
    ensures Texts(cls + [cl]) == Texts(cls) + [cl.text]
    ensures Flatten(ArgLists(cls + [cl])) == Flatten(ArgLists(cls)) + cl.args
  {
    FlattenSnoc(ArgLists(cls), cl.args);
    assert ArgLists(cls + [cl]) == ArgLists(cls) + [cl.args];
  }

  lemma {:induction false} FlattenSnoc(argss: seq<seq<Value>>, last: seq<Value>)
    ensures Flatten(argss + [last]) == Flatten(argss) + last
    decreases |argss|
  {
    if argss == [] {
      assert [last][1..] == [];
      assert [] + [last] == [last];
    } else {
      assert (argss + [last])[1..] == argss[1..] + [last];
      FlattenSnoc(argss[1..], last);
    }
  }

  /** Once a condition throws, later conditions are never looked at. */
  lemma {:induction false} CollectStopsAtError(ws: seq<Condition>, i: nat)
    requires i < |ws|
    requires Collect(ws[..i]).Success? && CompileCondition(ws[i]).Failure?
    ensures Collect(ws) == Failure(CompileCondition(ws[i]).error)
    decreases |ws|
  {
    if i < |ws| - 1 {
      var init := ws[..|ws| - 1];
      assert init[..i] == ws[..i] && init[i] == ws[i];
      CollectStopsAtError(init, i);
    } else {
      assert ws[..|ws| - 1] == ws[..i];
    }
  }

  // ---------------------------------------------------------------------------
  // What the compiled clause means: each condition's own value in its own placeholders.

  /** True when the condition adds a clause: a known operator, and for `in` a non-empty array. */
  predicate Survives(c: Condition)
  {
    match OperatorOf(c)
    case In => NonEmptyArray(c.value)
    case Unknown(_) => false
    case _ => true
  }

  /** The clause of `c` with its arguments bound, written out per operator. */
  function Expected(c: Condition): seq<Piece>
  {
    var f, v := c.field, c.value;
    match OperatorOf(c)
    case Eq => Lit(f + " = ") + [Bound(v)]
    case Ne => Lit(f + " != ") + [Bound(v)]
    case Contains => Lit(f + " LIKE ") + [Bound(Str("%" + ToStr(v) + "%"))]
    case StartsWith => Lit(f + " LIKE ") + [Bound(Str(ToStr(v) + "%"))]
    case EndsWith => Lit(f + " LIKE ") + [Bound(Str("%" + ToStr(v)))]
    case Lt => Lit(f + " < ") + [Bound(v)]
    case Lte => Lit(f + " <= ") + [Bound(v)]
    case Gt => Lit(f + " > ") + [Bound(v)]
    case Gte => Lit(f + " >= ") + [Bound(v)]
    case In => if v.Arr? then Lit(f + " IN (") + BoundList(v.items) + Lit(")") else []
    case Unknown(_) => []
  }

  /** The bound clauses of the conditions that survive, in order. */
  function ExpectedClauses(ws: seq<Condition>): seq<seq<Piece>>
  {
    if ws == [] then []
    else
      var init := ExpectedClauses(ws[..|ws| - 1]);
      if Survives(ws[|ws| - 1]) then init + [Expected(ws[|ws| - 1])] else init
  }

  /** The WHERE fragment with every placeholder filled by the value meant for it. */
  function ExpectedWhere(ws: seq<Condition>): seq<Piece>
  {
    if ws == [] then [] else Lit(" WHERE ") + JoinPieces(ExpectedClauses(ws), Lit(" AND "))
  }

  /** No field name holds a `?`. */
  predicate PlainFields(ws: seq<Condition>)
  {
    forall i :: 0 <= i < |ws| ==> NoMarks(ws[i].field)
  }

  /** A prefix without placeholders followed by one `?` binds exactly one value. */
  lemma BindOne(prefix: string, v: Value)
    requires NoMarks(prefix)
    ensures Inline(prefix + "?", [v]) == Some(Lit(prefix) + [Bound(v)])
  {
    InlineLit(prefix);
    InlineMark(v);
    InlineAppend(prefix, [], "?", [v]);
    assert [] + [v] == [v];
  }

  /** A condition binds exactly its own values to the placeholders of its clause,
      and the operator table decides the text around them. */
  lemma ConditionAlignment(c: Condition)
    requires NoMarks(c.field)
    requires CompileCondition(c).Success?
    ensures CompileCondition(c).value.Some? <==> Survives(c)
    ensures Survives(c) ==>
      var cl := CompileCondition(c).value.value;
      Inline(cl.text, cl.args) == Some(Expected(c))
  {
    var f, v := c.field, c.value;
    if Survives(c) {
      var cl := CompileCondition(c).value.value;
      var op := OperatorOf(c);
      if op.In? {
        var opening := f + " IN (";
        NoMarksAppend(f, " IN (");
        InlineLit(opening);
        InlineLit(")");
        PlaceholdersBind(v.items);
        InlineAppend3(opening, [], Placeholders(|v.items|), v.items, ")", []);
        assert [] + v.items + [] == v.items;
      } else {
        var prefix :=
          match op
          case Eq => f + " = "
          case Ne => f + " != "
          case Lt => f + " < "
          case Lte => f + " <= "
          case Gt => f + " > "
          case Gte => f + " >= "
          case _ => f + " LIKE ";
        NoMarksAppend(f, prefix[|f|..]);
        assert prefix == f + prefix[|f|..];
        assert cl.text == prefix + "?";
        BindOne(prefix, cl.args[0]);
      }
    }
  }

  /** The compiled clauses line up with the expected ones, one for one. */
  lemma {:induction false} CollectAlignment(ws: seq<Condition>)
    requires PlainFields(ws)
    requires Collect(ws).Success?
    ensures |Collect(ws).value| == |ExpectedClauses(ws)|
    ensures forall j :: 0 <= j < |ExpectedClauses(ws)| ==>
      Inline(Collect(ws).value[j].text, Collect(ws).value[j].args) == Some(ExpectedClauses(ws)[j])
    decreases |ws|
  {
    if ws != [] {
      var init, last := ws[..|ws| - 1], ws[|ws| - 1];
      CollectAlignment(init);
      ConditionAlignment(last);
    }
  }

  /** The central invariant of `buildWhereClause`: the placeholders of the SQL
      and the arguments correspond one to one, in order, and each condition's
      placeholders receive that condition's own (possibly LIKE-wrapped) values. */
  lemma WhereAlignment(where: seq<Condition>)
    requires PlainFields(where)
    requires CompileWhere(where).Success?
    ensures CountMarks(CompileWhere(where).value.sql) == |CompileWhere(where).value.args|
    ensures Inline(CompileWhere(where).value.sql, CompileWhere(where).value.args) == Some(ExpectedWhere(where))
  {
    var r := CompileWhere(where).value;
    if where == [] {
      assert r == Compiled("", []);
    } else {
      var cls := Collect(where).value;
      var body, args := Join(Texts(cls), " AND "), Flatten(ArgLists(cls));
      assert r.sql == " WHERE " + body && r.args == args;
      CollectAlignment(where);
      var texts, argss, parts := Texts(cls), ArgLists(cls), ExpectedClauses(where);
      forall j | 0 <= j < |texts| ensures Inline(texts[j], argss[j]) == Some(parts[j]) {
        assert texts[j] == cls[j].text && argss[j] == cls[j].args;
      }
      InlineLit(" AND ");
      InlineJoin(texts, argss, parts, " AND ");
      InlineLit(" WHERE ");
      InlineAppend(" WHERE ", [], body, args);
      assert [] + args == args;
    }
    InlineDefinedIff(r.sql, r.args);
  }

  // ---------------------------------------------------------------------------
  // Shape, composition and errors.

  /** No conditions compile to nothing at all; any others to a fragment that
      starts with " WHERE ", whose placeholders match its arguments in number. */
  lemma WhereShape(where: seq<Condition>)
    requires PlainFields(where)
    ensures |where| == 0 ==> CompileWhere(where) == Success(Compiled("", []))
    ensures |where| > 0 && CompileWhere(where).Success? ==>
      var r := CompileWhere(where).value;
      |r.sql| >= 7 && r.sql[..7] == " WHERE " && CountMarks(r.sql) == |r.args|
  {
    if |where| > 0 && CompileWhere(where).Success? {
      WhereAlignment(where);
    }
  }

  /** An absent operator behaves as `eq`. */
  lemma MissingOperatorMeansEq(c: Condition)
    requires c.operator.None?
    ensures CompileCondition(c) == CompileCondition(c.(operator := Some("eq")))
    ensures CompileCondition(c) == Success(Some(Clause(c.field + " = ?", [c.value])))
  {
  }

  /** Compiling a concatenation: the first error of the left part, else the first
      error of the right part, else the clauses of both in order. */
  lemma {:induction false} CollectAppend(a: seq<Condition>, b: seq<Condition>)
    ensures Collect(a + b) ==
      match Collect(a)
      case Failure(e) => Failure(e)
      case Success(ca) =>
        match Collect(b)
        case Failure(e) => Failure(e)
        case Success(cb) => Success(ca + cb)
    decreases |b|
  {
    if b == [] {
      assert a + b == a;
      assert Collect(b) == Success([]);
      if Collect(a).Success? {
        assert Collect(a).value + [] == Collect(a).value;
      }
    } else {
      var ab := a + b;
      assert ab[..|ab| - 1] == a + b[..|b| - 1];
      assert ab[|ab| - 1] == b[|b| - 1];
      CollectAppend(a, b[..|b| - 1]);
      if Collect(a).Success? && Collect(b[..|b| - 1]).Success? {
        var ca, cb := Collect(a).value, Collect(b[..|b| - 1]).value;
        if CompileCondition(b[|b| - 1]) .Success? && CompileCondition(b[|b| - 1]).value.Some? {
          var cl := CompileCondition(b[|b| - 1]).value.value;
          assert ca + cb + [cl] == ca + (cb + [cl]);
        }
      }
    }
  }

  /** An `in` condition whose value is not a non-empty array is invisible: the
      other conditions compile as if it were not there, except that a list made
      only of such conditions still yields a bare " WHERE ". */
  lemma DroppedInIsInvisible(pre: seq<Condition>, c: Condition, post: seq<Condition>)
    requires OperatorOf(c) == In && !NonEmptyArray(c.value)
    ensures CompileWhere(pre + [c] + post) ==
      if pre + post == [] then Success(Compiled(" WHERE ", []))
      else CompileWhere(pre + post)
  {
    CollectAppend(pre, [c]);
    CollectAppend(pre + [c], post);
    CollectAppend(pre, post);
    assert [c][..0] == [];
    if Collect(pre).Success? {
      assert Collect(pre + [c]) == Collect(pre) by {
        assert Collect([c]) == Success([]);
        assert Collect(pre).value + [] == Collect(pre).value;
      }
    }
    if pre + post == [] {
      assert pre == [] && post == [];
      assert pre + [c] + post == [c];
      assert Collect([c]) == Success([]);
      assert Texts([]) == [] && ArgLists([]) == [];
      assert " WHERE " + Join([], " AND ") == " WHERE ";
    }
  }

  /** The condition with its `connector` erased. */
  function Unconnected(c: Condition): Condition
  {
    c.(connector := None)
  }

  /** The `connector` of a condition is never consulted: lists that differ only
      in connectors compile identically, all joined with AND. */
  lemma {:induction false} ConnectorIgnored(ws: seq<Condition>, vs: seq<Condition>)
    requires |ws| == |vs|
    requires forall i :: 0 <= i < |ws| ==> Unconnected(ws[i]) == Unconnected(vs[i])
    ensures CompileWhere(ws) == CompileWhere(vs)
    ensures Collect(ws) == Collect(vs)
    decreases |ws|
  {
    if ws != [] {
      var n := |ws| - 1;
      assert forall i :: 0 <= i < n ==> ws[..n][i] == ws[i] && vs[..n][i] == vs[i];
      ConnectorIgnored(ws[..n], vs[..n]);
      ConnectorFree(ws[n]);
      ConnectorFree(vs[n]);
      assert Unconnected(ws[n]) == Unconnected(vs[n]);
    }
  }

  lemma ConnectorFree(c: Condition)
    ensures CompileCondition(c) == CompileCondition(Unconnected(c))
  {
    assert OperatorOf(c) == OperatorOf(Unconnected(c));
  }

  /** True when some condition has an operator outside the table. */
  predicate HasUnsupported(ws: seq<Condition>)
  {
    exists i :: 0 <= i < |ws| && OperatorOf(ws[i]).Unknown?
  }

  /** A single condition throws exactly when its operator is outside the table. */
  lemma ConditionFailsIff(c: Condition)
    ensures CompileCondition(c).Failure? <==> OperatorOf(c).Unknown?
    ensures CompileCondition(c).Failure? ==> CompileCondition(c).error.UnsupportedOperator?
  {
  }

  /** Compilation throws exactly when some condition has an operator outside the
      table, and what it throws is then an unsupported-operator error. */
  lemma {:induction false} FailsIffUnsupported(ws: seq<Condition>)
    ensures Collect(ws).Failure? <==> HasUnsupported(ws)
    ensures Collect(ws).Failure? ==> Collect(ws).error.UnsupportedOperator?
    decreases |ws|
  {
    if ws != [] {
      var n := |ws| - 1;
      var init := ws[..n];
      FailsIffUnsupported(init);
      ConditionFailsIff(ws[n]);
      if HasUnsupported(init) {
        var i :| 0 <= i < n && OperatorOf(init[i]).Unknown?;
        assert ws[i] == init[i];
      }
      if HasUnsupported(ws) && !OperatorOf(ws[n]).Unknown? {
        var i :| 0 <= i < |ws| && OperatorOf(ws[i]).Unknown?;
        assert init[i] == ws[i];
      }
    }
  }

  /** The error names the operator string of the first condition whose operator
      is outside the table, in the message "Unsupported operator: <op>". */
  lemma FirstUnsupportedReported(ws: seq<Condition>, k: nat)
    requires k < |ws| && OperatorOf(ws[k]).Unknown?
    requires forall j :: 0 <= j < k ==> !OperatorOf(ws[j]).Unknown?
    ensures ws[k].operator.Some?
    ensures CompileWhere(ws) == Failure(UnsupportedOperator(ws[k].operator.value))
    ensures Message(CompileWhere(ws).error) == "Unsupported operator: " + ws[k].operator.value
  {
    assert forall j :: 0 <= j < k ==> ws[..k][j] == ws[j];
    FailsIffUnsupported(ws[..k]);
    ConditionFailsIff(ws[k]);
    CollectStopsAtError(ws, k);
  }
}
