/** Which WHERE clauses count as matching every row: crates/ownpg-core/src/classify.rs. */
module EveryRow {
  import opened Basics
  import opened ParseTree

  const BOOL_AND := 1
  const BOOL_OR := 2
  const BOOL_NOT := 3
  const EXPRESSION_OPERATOR := 1
  const EXPRESSION_NOT_DISTINCT := 5

  function NumberAt(value: Value, name: string): Option<int> {
    var member := Get(value, name);
    if member.Some? && member.value.Number? then Some(member.value.number) else None
  }

  function ItemsAt(value: Value, name: string): (r: Option<seq<Value>>)
    ensures r.Some? ==> forall i :: 0 <= i < |r.value| ==> (value decreases to r.value[i])
  {
    var member := Get(value, name);
    if member.Some? && member.value.Array? then Some(member.value.items) else None
  }

  // The code's two predicates.

  predicate IsConstantExpression(node: Value)
    decreases node
  {
    var cast, operation, boolean := Node(node, "TypeCast"), Node(node, "AExpr"), Node(node, "BoolExpr");
    if Node(node, "AConst").Some? then true
    else if cast.Some? then
      var arg := Get(cast.value, "arg");
      arg.Some? && IsConstantExpression(arg.value)
    else if operation.Some? then
      var left, right := Get(operation.value, "lexpr"), Get(operation.value, "rexpr");
      (left.Some? ==> IsConstantExpression(left.value)) && (right.Some? ==> IsConstantExpression(right.value))
    else if boolean.Some? then
      var args := ItemsAt(boolean.value, "args");
      args.Some? && forall i :: 0 <= i < |args.value| ==> IsConstantExpression(args.value[i])
    else false
  }

  /** The first part of an operator's name. */
  function FirstPart(name: Option<Value>): Option<string> {
    if name.None? || !name.value.Array? || name.value.items == [] then None else StringNode(name.value.items[0])
  }

  /** The column an operand names. */
  function ColumnFields(operation: Value, side: string): Option<Value> {
    var operand := Get(operation, side);
    if operand.None? then None
    else
      var column := Node(operand.value, "ColumnRef");
      if column.None? then None else Get(column.value, "fields")
  }

  predicate Compares(name: Option<Value>) {
    var operator := FirstPart(name);
    operator == Some("=") || operator == Some("<=") || operator == Some(">=")
  }

  predicate ComparesItself(operation: Value) {
    var kind := NumberAt(operation, "kind");
    var left, right := ColumnFields(operation, "lexpr"), ColumnFields(operation, "rexpr");
    && (kind == Some(EXPRESSION_NOT_DISTINCT) ||
        (kind == Some(EXPRESSION_OPERATOR) && Compares(Get(operation, "name"))))
    && left.Some? && left == right
  }

  predicate MatchesEveryRow(node: Value)
    decreases node
  {
    var operation, boolean := Node(node, "AExpr"), Node(node, "BoolExpr");
    if IsConstantExpression(node) then true
    else if boolean.Some? then
      var found := ItemsAt(boolean.value, "args");
      var args := if found.Some? then found.value else [];
      var op := NumberAt(boolean.value, "boolop");
      if op == Some(BOOL_OR) then exists i :: 0 <= i < |args| && MatchesEveryRow(args[i])
      else if op == Some(BOOL_AND) then args != [] && forall i :: 0 <= i < |args| ==> MatchesEveryRow(args[i])
      else false
    else operation.Some? && ComparesItself(operation.value)
  }

  predicate WhereIsAbsentOrConstant(statement: Value) {
    var clause := Get(statement, "where_clause");
    clause.None? || clause.value.Null? || MatchesEveryRow(clause.value)
  }

  // What an expression means.

  datatype Truth = True | False | Unknown

  function And(a: Truth, b: Truth): Truth {
    if a.False? || b.False? then False else if a.True? && b.True? then True else Unknown
  }

  function Or(a: Truth, b: Truth): Truth {
    if a.True? || b.True? then True else if a.False? && b.False? then False else Unknown
  }

  function Not(a: Truth): Truth {
    match a
    case True => False
    case False => True
    case Unknown => Unknown
  }

  /** What constants, casts, operators, columns and all other expressions are worth. */
  datatype Semantics<!Row, !D> = Semantics(
    constant: Value -> D,
    cast: (Option<Value>, D) -> D,
    operate: (Option<int>, Option<Value>, Option<D>, Option<D>) -> D,
    column: (Value, Row) -> D,
    other: (Value, Row) -> D,
    boolean: Truth -> D,
    truth: D -> Truth,
    isNull: D -> bool)

  function Eval<Row, D>(node: Value, row: Row, sem: Semantics<Row, D>): D
    decreases node
  {
    var cast, operation, boolean, column :=
      Node(node, "TypeCast"), Node(node, "AExpr"), Node(node, "BoolExpr"), Node(node, "ColumnRef");
    var constant := Node(node, "AConst");
    if constant.Some? then sem.constant(constant.value)
    else if cast.Some? && Get(cast.value, "arg").Some? then
      sem.cast(Get(cast.value, "type_name"), Eval(Get(cast.value, "arg").value, row, sem))
    else if operation.Some? then
      var left, right := Get(operation.value, "lexpr"), Get(operation.value, "rexpr");
      sem.operate(NumberAt(operation.value, "kind"), Get(operation.value, "name"),
                  if left.Some? then Some(Eval(left.value, row, sem)) else None,
                  if right.Some? then Some(Eval(right.value, row, sem)) else None)
    else if boolean.Some? && ItemsAt(boolean.value, "args").Some? then
      var args := ItemsAt(boolean.value, "args").value;
      sem.boolean(Combined(node, NumberAt(boolean.value, "boolop"), args, |args|, row, sem))
    else if column.Some? && Get(column.value, "fields").Some? then sem.column(Get(column.value, "fields").value, row)
    else sem.other(node, row)
  }

  /** The conjunction or disjunction of the first n arguments, or the negation of the last. */
  function Combined<Row, D>(node: Value, op: Option<int>, args: seq<Value>, n: nat, row: Row, sem: Semantics<Row, D>): Truth
    requires n <= |args| && forall i :: 0 <= i < |args| ==> (node decreases to args[i])
    decreases node, n
  {
    if n == 0 then if op == Some(BOOL_AND) then True else if op == Some(BOOL_OR) then False else Unknown
    else
      var last := sem.truth(Eval(args[n - 1], row, sem));
      if op == Some(BOOL_AND) then And(Combined(node, op, args, n - 1, row, sem), last)
      else if op == Some(BOOL_OR) then Or(Combined(node, op, args, n - 1, row, sem), last)
      else if op == Some(BOOL_NOT) then Not(last)
      else Unknown
  }

  /** A constant expression is worth the same on all rows. */
  lemma {:induction false} ConstantOnAllRows<Row, D>(node: Value, row: Row, other: Row, sem: Semantics<Row, D>)
    requires IsConstantExpression(node)
    ensures Eval(node, row, sem) == Eval(node, other, sem)
    decreases node
  {
    var cast, operation, boolean := Node(node, "TypeCast"), Node(node, "AExpr"), Node(node, "BoolExpr");
    if Node(node, "AConst").Some? {
    } else if cast.Some? {
      ConstantOnAllRows(Get(cast.value, "arg").value, row, other, sem);
    } else if operation.Some? {
      var left, right := Get(operation.value, "lexpr"), Get(operation.value, "rexpr");
      if left.Some? { ConstantOnAllRows(left.value, row, other, sem); }
      if right.Some? { ConstantOnAllRows(right.value, row, other, sem); }
    } else {
      var args := ItemsAt(boolean.value, "args").value;
      forall i | 0 <= i < |args| ensures Eval(args[i], row, sem) == Eval(args[i], other, sem) {
        ConstantOnAllRows(args[i], row, other, sem);
      }
      CombinedOnAllRows(node, NumberAt(boolean.value, "boolop"), args, |args|, row, other, sem);
    }
  }

  lemma {:induction false} CombinedOnAllRows<Row, D>(node: Value, op: Option<int>, args: seq<Value>, n: nat, row: Row, other: Row,
                                                     sem: Semantics<Row, D>)
    requires n <= |args| && forall i :: 0 <= i < |args| ==> (node decreases to args[i])
    requires forall i :: 0 <= i < |args| ==> Eval(args[i], row, sem) == Eval(args[i], other, sem)
    ensures Combined(node, op, args, n, row, sem) == Combined(node, op, args, n, other, sem)
    decreases n
  {
    if n > 0 {
      CombinedOnAllRows(node, op, args, n - 1, row, other, sem);
    }
  }

  // What a flagged clause means.

  /** An operator name of one part. */
  predicate Plain(name: Option<Value>) {
    name.Some? && name.value.Array? && |name.value.items| == 1
  }

  /** The comparisons are reflexive on values that are not null, and IS NOT DISTINCT FROM on all values. */
  ghost predicate Standard<Row, D(!new)>(sem: Semantics<Row, D>) {
    && (forall t :: sem.truth(sem.boolean(t)) == t)
    && (forall name, d :: Plain(name) && Compares(name) && !sem.isNull(d) ==>
          sem.truth(sem.operate(Some(EXPRESSION_OPERATOR), name, Some(d), Some(d))) == True)
    && (forall name, d :: sem.truth(sem.operate(Some(EXPRESSION_NOT_DISTINCT), name, Some(d), Some(d))) == True)
  }

  /** A parse-tree node is of one kind. */
  predicate OneKind(node: Value) {
    Get(node, "node").Some? && Get(node, "node").value.Object? && |Get(node, "node").value.members| == 1
  }

  /** On this row the constant parts of a flagged clause are true, the columns it compares with themselves are not null
      (unless by IS NOT DISTINCT FROM), and its operators have plain names. */
  predicate PartsHold<Row, D>(node: Value, row: Row, sem: Semantics<Row, D>)
    decreases node
  {
    && OneKind(node)
    && var operation, boolean := Node(node, "AExpr"), Node(node, "BoolExpr");
       if IsConstantExpression(node) then sem.truth(Eval(node, row, sem)) == True
       else if boolean.Some? then
         var found := ItemsAt(boolean.value, "args");
         var args := if found.Some? then found.value else [];
         forall i :: 0 <= i < |args| && MatchesEveryRow(args[i]) ==> PartsHold(args[i], row, sem)
       else
         operation.Some? && ComparesItself(operation.value) ==>
           && OneKind(Get(operation.value, "lexpr").value) && OneKind(Get(operation.value, "rexpr").value)
           && (NumberAt(operation.value, "kind") == Some(EXPRESSION_OPERATOR) ==>
                 && Plain(Get(operation.value, "name"))
                 && !sem.isNull(sem.column(ColumnFields(operation.value, "lexpr").value, row)))
  }

  lemma OnlyKind(node: Value, kind: string, other: string)
    requires OneKind(node) && Node(node, kind).Some? && other != kind
    ensures Node(node, other).None?
  {
  }

  lemma ColumnIsWorth<Row, D(!new)>(operation: Value, side: string, row: Row, sem: Semantics<Row, D>)
    requires ColumnFields(operation, side).Some? && OneKind(Get(operation, side).value)
    ensures Eval(Get(operation, side).value, row, sem) == sem.column(ColumnFields(operation, side).value, row)
  {
    var operand := Get(operation, side).value;
    OnlyKind(operand, "ColumnRef", "AConst");
    OnlyKind(operand, "ColumnRef", "TypeCast");
    OnlyKind(operand, "ColumnRef", "AExpr");
    OnlyKind(operand, "ColumnRef", "BoolExpr");
  }

  lemma SelfComparisonIsTrue<Row, D(!new)>(node: Value, row: Row, sem: Semantics<Row, D>)
    requires Standard(sem) && PartsHold(node, row, sem) && !IsConstantExpression(node)
    requires Node(node, "AExpr").Some? && ComparesItself(Node(node, "AExpr").value)
    ensures sem.truth(Eval(node, row, sem)) == True
  {
    var operation := Node(node, "AExpr").value;
    OnlyKind(node, "AExpr", "AConst");
    OnlyKind(node, "AExpr", "TypeCast");
    OnlyKind(node, "AExpr", "BoolExpr");
    ColumnIsWorth(operation, "lexpr", row, sem);
    ColumnIsWorth(operation, "rexpr", row, sem);
  }

  lemma {:induction false} CombinedIsTrue<Row, D>(node: Value, op: Option<int>, args: seq<Value>, n: nat, row: Row,
                                                  sem: Semantics<Row, D>)
    requires n <= |args| && forall i :: 0 <= i < |args| ==> (node decreases to args[i])
    ensures op == Some(BOOL_AND) && (forall i :: 0 <= i < n ==> sem.truth(Eval(args[i], row, sem)) == True) ==>
              Combined(node, op, args, n, row, sem) == True
    ensures op == Some(BOOL_OR) && (exists i :: 0 <= i < n && sem.truth(Eval(args[i], row, sem)) == True) ==>
              Combined(node, op, args, n, row, sem) == True
    decreases n
  {
    if n > 0 {
      CombinedIsTrue(node, op, args, n - 1, row, sem);
    }
  }

  /** The arguments that are flagged are true. */
  ghost predicate FlaggedAreTrue<Row, D>(args: seq<Value>, row: Row, sem: Semantics<Row, D>) {
    forall i :: 0 <= i < |args| && MatchesEveryRow(args[i]) ==> sem.truth(Eval(args[i], row, sem)) == True
  }

  lemma CombinationIsTrue<Row, D(!new)>(node: Value, row: Row, sem: Semantics<Row, D>)
    requires Standard(sem) && OneKind(node) && !IsConstantExpression(node)
    requires Node(node, "BoolExpr").Some? && MatchesEveryRow(node)
    requires var found := ItemsAt(Node(node, "BoolExpr").value, "args");
             found.Some? ==> FlaggedAreTrue(found.value, row, sem)
    ensures sem.truth(Eval(node, row, sem)) == True
  {
    var boolean := Node(node, "BoolExpr").value;
    OnlyKind(node, "BoolExpr", "AConst");
    OnlyKind(node, "BoolExpr", "TypeCast");
    OnlyKind(node, "BoolExpr", "AExpr");
    var args := ItemsAt(boolean, "args").value;
    CombinedIsTrue(node, NumberAt(boolean, "boolop"), args, |args|, row, sem);
  }

  /** A clause flagged as matching every row is true on every row on which its parts hold. */
  lemma {:induction false} FlaggedClauseIsTrue<Row, D(!new)>(node: Value, row: Row, sem: Semantics<Row, D>)
    requires Standard(sem) && MatchesEveryRow(node) && PartsHold(node, row, sem)
    ensures sem.truth(Eval(node, row, sem)) == True
    decreases node
  {
    if IsConstantExpression(node) {
    } else if Node(node, "BoolExpr").Some? {
      var found := ItemsAt(Node(node, "BoolExpr").value, "args");
      if found.Some? {
        forall i | 0 <= i < |found.value| && MatchesEveryRow(found.value[i])
          ensures sem.truth(Eval(found.value[i], row, sem)) == True
        {
          FlaggedClauseIsTrue(found.value[i], row, sem);
        }
      }
      CombinationIsTrue(node, row, sem);
    } else {
      SelfComparisonIsTrue(node, row, sem);
    }
  }

  /** So a statement flagged for its WHERE clause keeps every such row. */
  lemma FlaggedStatementKeepsRow<Row, D(!new)>(statement: Value, row: Row, sem: Semantics<Row, D>)
    requires Standard(sem) && WhereIsAbsentOrConstant(statement)
    requires var clause := Get(statement, "where_clause"); clause.Some? && !clause.value.Null? ==> PartsHold(clause.value, row, sem)
    ensures Kept(statement, row, sem)
  {
    var clause := Get(statement, "where_clause");
    if clause.Some? && !clause.value.Null? {
      FlaggedClauseIsTrue(clause.value, row, sem);
    }
  }

  /** A statement without a WHERE clause keeps every row, one with a clause the rows on which it is true. */
  predicate Kept<Row, D>(statement: Value, row: Row, sem: Semantics<Row, D>) {
    var clause := Get(statement, "where_clause");
    clause.None? || clause.value.Null? || sem.truth(Eval(clause.value, row, sem)) == True
  }

  // An operator name of two parts.

  function NamePart(text: string): Value {
    Object([Member("node", Object([Member("String", Object([Member("sval", String(text))]))]))])
  }

  function Column(name: string): Value {
    Object([Member("node", Object([Member("ColumnRef", Object([Member("fields", Array([NamePart(name)]))]))]))])
  }

  function Inequality(): Value {
    Object([Member("kind", Number(EXPRESSION_OPERATOR)), Member("name", Array([NamePart("="), NamePart("<>")])),
            Member("lexpr", Column("a")), Member("rexpr", Column("a"))])
  }

  /** a OPERATOR("=".<>) a */
  function QualifiedInequality(): Value {
    Object([Member("node", Object([Member("AExpr", Inequality())]))])
  }

  lemma InequalityMembers()
    ensures Get(Inequality(), "kind") == Some(Number(EXPRESSION_OPERATOR))
    ensures Get(Inequality(), "name") == Some(Array([NamePart("="), NamePart("<>")]))
    ensures Get(Inequality(), "lexpr") == Some(Column("a")) && Get(Inequality(), "rexpr") == Some(Column("a"))
  {
    var members := Inequality().members;
    FindAt(members, 0, 4);
    FindAt(members, 1, 4);
    FindAt(members, 2, 4);
    FindAt(members, 3, 4);
  }

  lemma ColumnNode(name: string)
    ensures Node(Column(name), "ColumnRef") == Some(Object([Member("fields", Array([NamePart(name)]))]))
    ensures OneKind(Column(name))
  {
  }

  /** Only the first part of an operator's name is looked at, so an operator of any name in a schema called "=" is flagged
      too, and such a clause need not be true. */
  lemma QualifiedOperatorIsFlagged<Row, D(!new)>(row: Row, sem: Semantics<Row, D>)
    ensures MatchesEveryRow(QualifiedInequality()) && OneKind(QualifiedInequality())
    ensures var a := sem.column(Array([NamePart("a")]), row);
            Eval(QualifiedInequality(), row, sem) ==
            sem.operate(Some(EXPRESSION_OPERATOR), Some(Array([NamePart("="), NamePart("<>")])), Some(a), Some(a))
  {
    var node, operation := QualifiedInequality(), Inequality();
    InequalityMembers();
    ColumnNode("a");
    assert Node(node, "AExpr") == Some(operation);
    OnlyKind(node, "AExpr", "AConst");
    OnlyKind(node, "AExpr", "TypeCast");
    OnlyKind(node, "AExpr", "BoolExpr");
    ColumnIsWorth(operation, "lexpr", row, sem);
    ColumnIsWorth(operation, "rexpr", row, sem);
    assert Node(NamePart("="), "String") == Some(Object([Member("sval", String("="))]));
  }

  /** Three-valued truth itself, where the comparisons are as they should be and operators with longer names are never
      true. */
  function Perverse(): Semantics<int, Truth> {
    Semantics(_ => True, (_, d) => d,
              (kind, name, _, _) => if kind == Some(EXPRESSION_OPERATOR) && !Plain(name) then False else True,
              (_, _) => True, (_, _) => True, t => t, d => d, (d: Truth) => d == Unknown)
  }

  lemma PerverseIsStandard()
    ensures Standard(Perverse())
  {
  }

  lemma PerverseOperator(name: Option<Value>, left: Option<Truth>, right: Option<Truth>)
    requires !Plain(name)
    ensures Perverse().operate(Some(EXPRESSION_OPERATOR), name, left, right) == False
  {
  }

  /** The clause is true in every standard semantics on every row on which this column is not null. */
  ghost predicate AlwaysTrue(node: Value, fields: Value) {
    forall sem: Semantics<int, Truth>, row: int :: Standard(sem) && !sem.isNull(sem.column(fields, row)) ==>
      sem.truth(Eval(node, row, sem)) == True
  }

  /** A comparison of a column with itself by an operator, as the code flags it. */
  predicate FlaggedOperator(node: Value) {
    && OneKind(node) && Node(node, "AExpr").Some?
    && var operation := Node(node, "AExpr").value;
       && ComparesItself(operation) && NumberAt(operation, "kind") == Some(EXPRESSION_OPERATOR)
       && OneKind(Get(operation, "lexpr").value) && OneKind(Get(operation, "rexpr").value)
  }

  lemma FlaggedOperatorIsWorth<Row, D(!new)>(node: Value, row: Row, sem: Semantics<Row, D>)
    requires FlaggedOperator(node)
    ensures var operation := Node(node, "AExpr").value;
            var column := sem.column(ColumnFields(operation, "lexpr").value, row);
            Eval(node, row, sem) ==
            sem.operate(Some(EXPRESSION_OPERATOR), Get(operation, "name"), Some(column), Some(column))
  {
    var operation := Node(node, "AExpr").value;
    OnlyKind(node, "AExpr", "AConst");
    OnlyKind(node, "AExpr", "TypeCast");
    OnlyKind(node, "AExpr", "BoolExpr");
    ColumnIsWorth(operation, "lexpr", row, sem);
    ColumnIsWorth(operation, "rexpr", row, sem);
  }

  /** A flagged comparison of a column with itself is true in every standard semantics, wherever the column is not null, if
      and only if its operator has a plain name. */
  lemma FlaggedOperatorIsTrueExactlyWhen(node: Value)
    requires FlaggedOperator(node)
    ensures var operation := Node(node, "AExpr").value;
            AlwaysTrue(node, ColumnFields(operation, "lexpr").value) <==> Plain(Get(operation, "name"))
  {
    var operation := Node(node, "AExpr").value;
    var fields := ColumnFields(operation, "lexpr").value;
    forall sem: Semantics<int, Truth>, row: int | Standard(sem) && !sem.isNull(sem.column(fields, row))
      ensures Plain(Get(operation, "name")) ==> sem.truth(Eval(node, row, sem)) == True
    {
      FlaggedOperatorIsWorth(node, row, sem);
    }
    if !Plain(Get(operation, "name")) {
      PerverseIsStandard();
      FlaggedOperatorIsWorth(node, 0, Perverse());
      assert Perverse().truth(Eval(node, 0, Perverse())) == False;
    }
  }

  /** So the clause a OPERATOR("=".<>) a is flagged, and can be false on every row. */
  lemma QualifiedOperatorCanBeFalse(row: int)
    ensures Standard(Perverse()) && MatchesEveryRow(QualifiedInequality())
    ensures !Perverse().isNull(Perverse().column(Array([NamePart("a")]), row))
    ensures Perverse().truth(Eval(QualifiedInequality(), row, Perverse())) == False
  {
    PerverseIsStandard();
    QualifiedOperatorIsFlagged(row, Perverse());
    PerverseOperator(Some(Array([NamePart("="), NamePart("<>")])), Some(True), Some(True));
  }
}
