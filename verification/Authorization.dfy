/** The classification of a statement from what the walk finds, and the gate of a mode and a schema scope:
    crates/ownpg-core/src/classify.rs. */
module Authorization {
  import opened Basics
  import opened ParseTree
  import opened Classifier

  datatype Refusal = KindRefused(kind: string) | DeniedFunction(name: string) | NotifyFunction(name: string)
                   | CascadeUnchecked | CopyProgram | CopyFile

  datatype Classification = Classification(class_: Class, kind: string, refusals: seq<Refusal>, relations: seq<Relation>,
                                           functions: seq<string>, explainAnalyze: bool, returnsRows: bool)

  /** The first member of the first statement's node. */
  function TopStatement(tree: Value): Option<Member> {
    var stmts := Get(tree, "stmts");
    if stmts.None? || !stmts.value.Array? || stmts.value.items == [] then None
    else
      var stmt := Get(stmts.value.items[0], "stmt");
      var node := if stmt.None? then None else Get(stmt.value, "node");
      if node.None? || !node.value.Object? || node.value.members == [] then None else Some(node.value.members[0])
  }

  // EXPLAIN.

  predicate ArgIsFalse(arg: Value) {
    var constant := Node(arg, "AConst");
    var val := if constant.None? then None else Get(constant.value, "val");
    var sval := if val.None? then None else Get(val.value, "Sval");
    var boolval := if val.None? then None else Get(val.value, "Boolval");
    var direct := StringNode(arg);
    var quoted := if sval.None? then None else TextAt(sval.value, "sval");
    var text := Lower(if direct.Some? then direct.value else if quoted.Some? then quoted.value else "");
    var number := Node(arg, "Integer");
    || text in {"false", "off", "0", "no", "f"}
    || (boolval.Some? && Get(boolval.value, "boolval") == Some(Bool(false)))
    || (number.Some? && Get(number.value, "ival") == Some(Number(0)))
  }

  predicate AsksAnalyze(option: Value) {
    var element := Node(option, "DefElem");
    && element.Some?
    && var name := TextAt(element.value, "defname");
       && name.Some? && Lower(name.value) == "analyze"
       && (Get(element.value, "arg").Some? ==> !ArgIsFalse(Get(element.value, "arg").value))
  }

  predicate ExplainAnalyzes(body: Value) {
    var options := Get(body, "options");
    options.Some? && options.value.Array? && exists i :: 0 <= i < |options.value.items| && AsksAnalyze(options.value.items[i])
  }

  /** The kind of the statement that is explained. */
  function InnerKind(body: Value): string {
    var query := Get(body, "query");
    var node := if query.None? then None else Get(query.value, "node");
    if node.None? || !node.value.Object? || node.value.members == [] then "" else node.value.members[0].name
  }

  // Other things that the classification looks at.

  predicate ContainsKey(value: Value, key: string)
    decreases value
  {
    match value
    case Object(members) => exists i :: 0 <= i < |members| && (members[i].name == key || ContainsKey(members[i].value, key))
    case Array(items) => exists i :: 0 <= i < |items| && ContainsKey(items[i], key)
    case _ => false
  }

  const DROP_CASCADE := 2

  const ADDRESSABLE: set<int> := {5, 8, 13, 16, 19, 20, 21, 24, 29, 30, 35, 36, 37, 38, 40, 42, 45, 50, 52}

  /** A cascading DROP of a kind of object whose dependents cannot be looked up. */
  predicate UncheckedCascade(top: Member) {
    && top.name == "DropStmt" && Get(top.value, "behavior") == Some(Number(DROP_CASCADE))
    && var kind := Get(top.value, "remove_type");
       !(kind.Some? && kind.value.Number? && kind.value.number in ADDRESSABLE)
  }

  /** The relations that are not names of common table expressions, among the first n. */
  function Kept(relations: seq<Relation>, n: nat, ctes: seq<string>): seq<Relation>
    requires n <= |relations|
  {
    if n == 0 then []
    else
      var last := relations[n - 1];
      Kept(relations, n - 1, ctes) + if last.schema.Some? || last.name !in ctes then [last] else []
  }

  // The classification.

  function KindsClass(kinds: seq<string>, n: nat, rules: Rules): Class
    requires n <= |kinds|
  {
    if n == 0 then Class.Read
    else
      var verdict := rules.classOf(kinds[n - 1]);
      if verdict.Classed? then Max(KindsClass(kinds, n - 1, rules), verdict.class_) else KindsClass(kinds, n - 1, rules)
  }

  function KindRefusals(kinds: seq<string>, n: nat, rules: Rules): seq<Refusal>
    requires n <= |kinds|
  {
    if n == 0 then []
    else KindRefusals(kinds, n - 1, rules) + if rules.classOf(kinds[n - 1]).Refused? then [KindRefused(kinds[n - 1])] else []
  }

  /** What an EXPLAIN makes of the class: its statement only counts if it is run. */
  function ExplainedClass(top: Member, class_: Class, rules: Rules): Class {
    var inner := rules.classOf(InnerKind(top.value));
    if top.name != "ExplainStmt" then class_
    else if !ExplainAnalyzes(top.value) then Class.Read
    else if inner.Classed? then Max(class_, inner.class_)
    else class_
  }

  function ExplainRefusals(top: Member, rules: Rules): seq<Refusal> {
    if top.name == "ExplainStmt" && rules.classOf(InnerKind(top.value)).Refused? then [KindRefused(InnerKind(top.value))] else []
  }

  function FunctionRefusal(function_: string, rules: Rules): seq<Refusal> {
    match rules.Effect(function_)
    case Outside => [DeniedFunction(function_)]
    case Notifies => [NotifyFunction(function_)]
    case _ => []
  }

  function FunctionRefusals(functions: seq<string>, n: nat, rules: Rules): seq<Refusal>
    requires n <= |functions|
  {
    if n == 0 then [] else FunctionRefusals(functions, n - 1, rules) + FunctionRefusal(functions[n - 1], rules)
  }

  function FunctionsClass(functions: seq<string>, n: nat, class_: Class, rules: Rules): Class
    requires n <= |functions|
  {
    if n == 0 then class_
    else
      var before := FunctionsClass(functions, n - 1, class_, rules);
      if rules.Effect(functions[n - 1]).Writes? then Max(before, Class.Write) else before
  }

  function CopyRefusal(copy: Copy): seq<Refusal> {
    if copy.isProgram then [CopyProgram] else if copy.filename != "" then [CopyFile] else []
  }

  function CopyRefusals(copies: seq<Copy>, n: nat): seq<Refusal>
    requires n <= |copies|
  {
    if n == 0 then [] else CopyRefusals(copies, n - 1) + CopyRefusal(copies[n - 1])
  }

  function CopiesClass(copies: seq<Copy>, n: nat, class_: Class): Class
    requires n <= |copies|
  {
    if n == 0 then class_
    else if copies[n - 1].isFrom then Max(CopiesClass(copies, n - 1, class_), Class.Write)
    else CopiesClass(copies, n - 1, class_)
  }

  predicate Executes(top: Member) {
    top.name != "ExplainStmt" || ExplainAnalyzes(top.value)
  }

  predicate Locks(top: Member) {
    Executes(top) && ContainsKey(top.value, "LockingClause")
  }

  function FinalClass(top: Member, found: Report, rules: Rules): Class {
    var kinds := ExplainedClass(top, KindsClass(found.kinds, |found.kinds|, rules), rules);
    var functions := FunctionsClass(found.functions, |found.functions|, kinds, rules);
    CopiesClass(found.copies, |found.copies|, if Locks(top) then Max(functions, Class.Write) else functions)
  }

  function Refusals(top: Member, found: Report, rules: Rules): seq<Refusal> {
    KindRefusals(found.kinds, |found.kinds|, rules) + ExplainRefusals(top, rules)
    + FunctionRefusals(found.functions, |found.functions|, rules)
    + (if UncheckedCascade(top) then [CascadeUnchecked] else []) + CopyRefusals(found.copies, |found.copies|)
  }

  /** The classification, or nothing if the tree holds no statement. */
  function Classified(tree: Value, reader: Reader, rules: Rules): Option<Classification> {
    var top := TopStatement(tree);
    if top.None? then None
    else
      var found := Found(tree, reader);
      Some(Classification(FinalClass(top.value, found, rules), top.value.name, Refusals(top.value, found, rules),
                          Kept(found.relations, |found.relations|, found.ctes), found.functions,
                          top.value.name == "ExplainStmt" && ExplainAnalyzes(top.value.value),
                          top.value.name == "SelectStmt"))
  }

  method Retain(relations: seq<Relation>, ctes: seq<string>) returns (kept: seq<Relation>)
    ensures kept == Kept(relations, |relations|, ctes)
  {
    kept := [];
    for i := 0 to |relations|
      invariant kept == Kept(relations, i, ctes)
    {
      if relations[i].schema.Some? || relations[i].name !in ctes { kept := kept + [relations[i]]; }
    }
  }

  method JudgeKinds(kinds: seq<string>, rules: Rules) returns (strongest: Class, refusals: seq<Refusal>)
    ensures strongest == KindsClass(kinds, |kinds|, rules) && refusals == KindRefusals(kinds, |kinds|, rules)
  {
    strongest, refusals := Class.Read, [];
    for i := 0 to |kinds|
      invariant strongest == KindsClass(kinds, i, rules) && refusals == KindRefusals(kinds, i, rules)
    {
      match rules.classOf(kinds[i])
      case Classed(class_) => strongest := Max(strongest, class_);
      case Refused => refusals := refusals + [KindRefused(kinds[i])];
    }
  }

  method JudgeFunctions(functions: seq<string>, class_: Class, rules: Rules) returns (strongest: Class, refusals: seq<Refusal>)
    ensures strongest == FunctionsClass(functions, |functions|, class_, rules)
    ensures refusals == FunctionRefusals(functions, |functions|, rules)
  {
    strongest, refusals := class_, [];
    for i := 0 to |functions|
      invariant strongest == FunctionsClass(functions, i, class_, rules)
      invariant refusals == FunctionRefusals(functions, i, rules)
    {
      match rules.Effect(functions[i])
      case Outside => refusals := refusals + [DeniedFunction(functions[i])];
      case Notifies => refusals := refusals + [NotifyFunction(functions[i])];
      case Writes => strongest := Max(strongest, Class.Write);
      case Harmless =>
    }
  }

  method JudgeCopies(copies: seq<Copy>, class_: Class) returns (strongest: Class, refusals: seq<Refusal>)
    ensures strongest == CopiesClass(copies, |copies|, class_) && refusals == CopyRefusals(copies, |copies|)
  {
    strongest, refusals := class_, [];
    for i := 0 to |copies|
      invariant strongest == CopiesClass(copies, i, class_) && refusals == CopyRefusals(copies, i)
    {
      if copies[i].isFrom { strongest := Max(strongest, Class.Write); }
      if copies[i].isProgram {
        refusals := refusals + [CopyProgram];
      } else if copies[i].filename != "" {
        refusals := refusals + [CopyFile];
      }
    }
  }

  method JudgeExplain(top: Member, class_: Class, rules: Rules) returns (strongest: Class, refusals: seq<Refusal>)
    ensures strongest == ExplainedClass(top, class_, rules) && refusals == ExplainRefusals(top, rules)
  {
    strongest, refusals := class_, [];
    if top.name == "ExplainStmt" {
      match rules.classOf(InnerKind(top.value)) {
        case Classed(inner) => strongest := Max(strongest, inner);
        case Refused => refusals := refusals + [KindRefused(InnerKind(top.value))];
      }
      if !ExplainAnalyzes(top.value) { strongest := Class.Read; }
    }
  }

  method Judge(top: Member, found: Findings, rules: Rules) returns (strongest: Class, refusals: seq<Refusal>)
    ensures strongest == FinalClass(top, found.All(), rules) && refusals == Refusals(top, found.All(), rules)
  {
    var more;
    strongest, refusals := JudgeKinds(found.kinds, rules);
    strongest, more := JudgeExplain(top, strongest, rules);
    refusals := refusals + more;
    strongest, more := JudgeFunctions(found.functions, strongest, rules);
    refusals := refusals + more;
    if Locks(top) { strongest := Max(strongest, Class.Write); }
    refusals := refusals + if UncheckedCascade(top) then [CascadeUnchecked] else [];
    strongest, more := JudgeCopies(found.copies, strongest);
    refusals := refusals + more;
  }

  method Classify(tree: Value, reader: Reader, rules: Rules) returns (r: Option<Classification>)
    ensures r == Classified(tree, reader, rules)
  {
    var top := TopStatement(tree);
    if top.None? { return None; }
    var found := new Findings();
    Walk(tree, found, reader);
    NothingPlus(Found(tree, reader));
    var strongest, refusals := Judge(top.value, found, rules);
    var relations := Retain(found.relations, found.ctes);
    r := Some(Classification(strongest, top.value.name, refusals, relations, found.functions,
                             top.value.name == "ExplainStmt" && ExplainAnalyzes(top.value.value), top.value.name == "SelectStmt"));
  }

  // The gate.

  datatype Mode = ReadOnly | WriteOnly | ReadWrite {
    predicate AllowsReads() { ReadOnly? || ReadWrite? }
    predicate AllowsWrites() { WriteOnly? || ReadWrite? }
  }

  predicate AllowedIn(class_: Class, mode: Mode) {
    if class_.Read? then mode.AllowsReads() else mode.AllowsWrites()
  }

  datatype Scope = Scope(schema: string, requireQualified: bool)

  datatype Denial = ByRule(refusal: Refusal) | OutsideScope(relation: Relation) | Unqualified(relation: Relation)
                  | FunctionOutside(relation: Relation) | ClassNotAllowed | RowsNotAllowed

  predicate Serves(schema: string, scope: Scope, rules: Rules) {
    schema == scope.schema || rules.catalog(schema)
  }

  function RelationDenial(relation: Relation, scope: Scope, rules: Rules): Option<Denial> {
    match relation.schema
    case Some(schema) => if Serves(schema, scope, rules) then None else Some(OutsideScope(relation))
    case None =>
      if scope.requireQualified && !("pg_" <= relation.name) then Some(Unqualified(relation)) else None
  }

  function FunctionDenial(function_: string, scope: Scope, rules: Rules): Option<Denial> {
    var qualified := SplitQualified(function_);
    if qualified.schema.Some? && !Serves(qualified.schema.value, scope, rules) then Some(FunctionOutside(qualified)) else None
  }

  /** The first denial among the first n relations. */
  function RelationsDenial(relations: seq<Relation>, n: nat, scope: Scope, rules: Rules): Option<Denial>
    requires n <= |relations|
  {
    if n == 0 then None
    else
      var before := RelationsDenial(relations, n - 1, scope, rules);
      if before.Some? then before else RelationDenial(relations[n - 1], scope, rules)
  }

  function FunctionsDenial(functions: seq<string>, n: nat, scope: Scope, rules: Rules): Option<Denial>
    requires n <= |functions|
  {
    if n == 0 then None
    else
      var before := FunctionsDenial(functions, n - 1, scope, rules);
      if before.Some? then before else FunctionDenial(functions[n - 1], scope, rules)
  }

  /** The first reason not to run a statement, if there is one. */
  function Authorize(c: Classification, mode: Mode, scope: Scope, rules: Rules): Option<Denial> {
    var relations := RelationsDenial(c.relations, |c.relations|, scope, rules);
    var functions := FunctionsDenial(c.functions, |c.functions|, scope, rules);
    if c.refusals != [] then Some(ByRule(c.refusals[0]))
    else if relations.Some? then relations
    else if functions.Some? then functions
    else if !AllowedIn(c.class_, mode) then Some(ClassNotAllowed)
    else if c.returnsRows && !mode.AllowsReads() then Some(RowsNotAllowed)
    else None
  }

  // What the gate lets through in read-only mode.

  /** What a statement that only reads may hold. */
  predicate ThingAllowed(thing: Thing, ctes: seq<string>, scope: Scope, rules: Rules) {
    match thing
    case Kind(kind) => rules.classOf(kind) == Classed(Class.Read)
    case Function(function_) =>
      rules.Effect(function_).Harmless? && FunctionDenial(function_, scope, rules).None?
    case Named(relation) =>
      (relation.schema.None? && relation.name in ctes) || RelationDenial(relation, scope, rules).None?
    case Cte(_) => true
    case Copied(copy) => !copy.isFrom && !copy.isProgram && copy.filename == ""
  }

  ghost predicate ThingsAllowed(found: Report, scope: Scope, rules: Rules) {
    forall thing :: In(thing, found) ==> ThingAllowed(thing, found.ctes, scope, rules)
  }

  lemma {:induction false} KindsAllowed(kinds: seq<string>, n: nat, rules: Rules)
    requires n <= |kinds|
    ensures KindsClass(kinds, n, rules).Read? && KindRefusals(kinds, n, rules) == [] <==>
            forall i :: 0 <= i < n ==> rules.classOf(kinds[i]) == Classed(Class.Read)
  {
    if n > 0 { KindsAllowed(kinds, n - 1, rules); }
  }

  lemma {:induction false} FunctionsAllowed(functions: seq<string>, n: nat, class_: Class, rules: Rules)
    requires n <= |functions|
    ensures FunctionsClass(functions, n, class_, rules).Read? && FunctionRefusals(functions, n, rules) == [] <==>
            class_.Read? && forall i :: 0 <= i < n ==> rules.Effect(functions[i]).Harmless?
  {
    if n > 0 {
      FunctionsAllowed(functions, n - 1, class_, rules);
    }
  }

  lemma {:induction false} FunctionsScoped(functions: seq<string>, n: nat, scope: Scope, rules: Rules)
    requires n <= |functions|
    ensures FunctionsDenial(functions, n, scope, rules).None? <==>
            forall i :: 0 <= i < n ==> FunctionDenial(functions[i], scope, rules).None?
  {
    if n > 0 { FunctionsScoped(functions, n - 1, scope, rules); }
  }

  lemma {:induction false} CopiesAllowed(copies: seq<Copy>, n: nat, class_: Class)
    requires n <= |copies|
    ensures CopiesClass(copies, n, class_).Read? && CopyRefusals(copies, n) == [] <==>
            class_.Read? && forall i :: 0 <= i < n ==>
              !copies[i].isFrom && !copies[i].isProgram && copies[i].filename == ""
  {
    if n > 0 { CopiesAllowed(copies, n - 1, class_); }
  }

  lemma {:induction false} RelationsAllowed(relations: seq<Relation>, n: nat, ctes: seq<string>, scope: Scope, rules: Rules)
    requires n <= |relations|
    ensures var kept := Kept(relations, n, ctes);
            RelationsDenial(kept, |kept|, scope, rules).None? <==>
            forall i :: 0 <= i < n ==>
              (relations[i].schema.None? && relations[i].name in ctes) || RelationDenial(relations[i], scope, rules).None?
  {
    if n > 0 {
      RelationsAllowed(relations, n - 1, ctes, scope, rules);
      var before, kept := Kept(relations, n - 1, ctes), Kept(relations, n, ctes);
      SameDenial(before, kept, |before|, scope, rules);
    }
  }

  lemma {:induction false} SameDenial(a: seq<Relation>, b: seq<Relation>, n: nat, scope: Scope, rules: Rules)
    requires n <= |a| && n <= |b| && forall i :: 0 <= i < n ==> a[i] == b[i]
    ensures RelationsDenial(a, n, scope, rules) == RelationsDenial(b, n, scope, rules)
  {
    if n > 0 { SameDenial(a, b, n - 1, scope, rules); }
  }

  /** Nothing is refused and the class is a read. */
  predicate Clean(top: Member, found: Report, rules: Rules) {
    Refusals(top, found, rules) == [] && FinalClass(top, found, rules).Read?
  }

  predicate ExplainsRead(top: Member, rules: Rules) {
    top.name == "ExplainStmt" ==> rules.classOf(InnerKind(top.value)) == Classed(Class.Read)
  }

  lemma NoRefusals(top: Member, found: Report, rules: Rules)
    ensures Refusals(top, found, rules) == [] <==>
            && KindRefusals(found.kinds, |found.kinds|, rules) == [] && ExplainRefusals(top, rules) == []
            && FunctionRefusals(found.functions, |found.functions|, rules) == []
            && !UncheckedCascade(top) && CopyRefusals(found.copies, |found.copies|) == []
  {
    var kinds, explain := KindRefusals(found.kinds, |found.kinds|, rules), ExplainRefusals(top, rules);
    var functions := FunctionRefusals(found.functions, |found.functions|, rules);
    var cascade := if UncheckedCascade(top) then [CascadeUnchecked] else [];
    var copies := CopyRefusals(found.copies, |found.copies|);
    assert |Refusals(top, found, rules)| == |kinds| + |explain| + |functions| + |cascade| + |copies|;
  }

  lemma ReadClass(top: Member, found: Report, rules: Rules)
    requires Executes(top)
    ensures FinalClass(top, found, rules).Read? && FunctionRefusals(found.functions, |found.functions|, rules) == []
            && CopyRefusals(found.copies, |found.copies|) == [] && ExplainRefusals(top, rules) == [] <==>
            && KindsClass(found.kinds, |found.kinds|, rules).Read? && ExplainsRead(top, rules) && !Locks(top)
            && (forall i :: 0 <= i < |found.functions| ==> rules.Effect(found.functions[i]).Harmless?)
            && (forall i :: 0 <= i < |found.copies| ==>
                  !found.copies[i].isFrom && !found.copies[i].isProgram && found.copies[i].filename == "")
  {
    var explained := ExplainedClass(top, KindsClass(found.kinds, |found.kinds|, rules), rules);
    var functions := FunctionsClass(found.functions, |found.functions|, explained, rules);
    FunctionsAllowed(found.functions, |found.functions|, explained, rules);
    CopiesAllowed(found.copies, |found.copies|, if Locks(top) then Max(functions, Class.Write) else functions);
  }

  lemma CleanExactlyWhen(top: Member, found: Report, rules: Rules)
    requires Executes(top)
    ensures Clean(top, found, rules) <==>
            && (forall i :: 0 <= i < |found.kinds| ==> rules.classOf(found.kinds[i]) == Classed(Class.Read))
            && (forall i :: 0 <= i < |found.functions| ==> rules.Effect(found.functions[i]).Harmless?)
            && (forall i :: 0 <= i < |found.copies| ==>
                  !found.copies[i].isFrom && !found.copies[i].isProgram && found.copies[i].filename == "")
            && ExplainsRead(top, rules) && !Locks(top) && !UncheckedCascade(top)
  {
    NoRefusals(top, found, rules);
    ReadClass(top, found, rules);
    KindsAllowed(found.kinds, |found.kinds|, rules);
  }

  /** A statement that is run is let through in read-only mode exactly when everything the walk finds is allowed, it takes
      no row locks, its cascade is checked, and what an EXPLAIN ANALYZE runs is a read. */
  lemma AuthorizedExactlyWhenFound(tree: Value, reader: Reader, scope: Scope, rules: Rules)
    requires TopStatement(tree).Some? && Executes(TopStatement(tree).value)
    ensures var top := TopStatement(tree).value;
            Authorize(Classified(tree, reader, rules).value, ReadOnly, scope, rules).None? <==>
            && ThingsAllowed(Found(tree, reader), scope, rules)
            && !ContainsKey(top.value, "LockingClause") && !UncheckedCascade(top) && ExplainsRead(top, rules)
  {
    var top, found := TopStatement(tree).value, Found(tree, reader);
    CleanExactlyWhen(top, found, rules);
    FunctionsScoped(found.functions, |found.functions|, scope, rules);
    RelationsAllowed(found.relations, |found.relations|, found.ctes, scope, rules);
    AllowedThings(found, scope, rules);
    LetThrough(tree, reader, scope, rules);
  }

  lemma LetThrough(tree: Value, reader: Reader, scope: Scope, rules: Rules)
    requires TopStatement(tree).Some?
    ensures var top, found := TopStatement(tree).value, Found(tree, reader);
            var kept := Kept(found.relations, |found.relations|, found.ctes);
            Authorize(Classified(tree, reader, rules).value, ReadOnly, scope, rules).None? <==>
            && Clean(top, found, rules)
            && FunctionsDenial(found.functions, |found.functions|, scope, rules).None?
            && RelationsDenial(kept, |kept|, scope, rules).None?
  {
  }

  lemma AllowedThings(found: Report, scope: Scope, rules: Rules)
    ensures ThingsAllowed(found, scope, rules) <==>
            && (forall i :: 0 <= i < |found.kinds| ==> rules.classOf(found.kinds[i]) == Classed(Class.Read))
            && (forall i :: 0 <= i < |found.functions| ==>
                  rules.Effect(found.functions[i]).Harmless? && FunctionDenial(found.functions[i], scope, rules).None?)
            && (forall i :: 0 <= i < |found.relations| ==>
                  (found.relations[i].schema.None? && found.relations[i].name in found.ctes) ||
                  RelationDenial(found.relations[i], scope, rules).None?)
            && (forall i :: 0 <= i < |found.copies| ==>
                  !found.copies[i].isFrom && !found.copies[i].isProgram && found.copies[i].filename == "")
  {
    if ThingsAllowed(found, scope, rules) {
      forall i | 0 <= i < |found.kinds| ensures rules.classOf(found.kinds[i]) == Classed(Class.Read) {
        assert In(Kind(found.kinds[i]), found);
      }
      forall i | 0 <= i < |found.functions|
        ensures rules.Effect(found.functions[i]).Harmless? && FunctionDenial(found.functions[i], scope, rules).None?
      {
        assert In(Function(found.functions[i]), found);
      }
      forall i | 0 <= i < |found.relations|
        ensures (found.relations[i].schema.None? && found.relations[i].name in found.ctes) ||
                RelationDenial(found.relations[i], scope, rules).None?
      {
        assert In(Named(found.relations[i]), found);
      }
      forall i | 0 <= i < |found.copies|
        ensures !found.copies[i].isFrom && !found.copies[i].isProgram && found.copies[i].filename == ""
      {
        assert In(Copied(found.copies[i]), found);
      }
    }
  }

  ghost predicate ReportAllowed(report: Report, ctes: seq<string>, scope: Scope, rules: Rules) {
    forall thing :: In(thing, report) ==> ThingAllowed(thing, ctes, scope, rules)
  }

  /** Everything at a place the walk comes to is allowed. */
  ghost predicate PlacesAllowed(tree: Value, ctes: seq<string>, reader: Reader, scope: Scope, rules: Rules) {
    forall place :: Shows(tree, place, reader) ==> ReportAllowed(Source(place, reader), ctes, scope, rules)
  }

  /** The same over the parse tree itself: the gate looks at every place, at any depth, but those in SET and RESET clauses. */
  lemma AuthorizedExactlyWhen(tree: Value, reader: Reader, scope: Scope, rules: Rules)
    requires TopStatement(tree).Some? && Executes(TopStatement(tree).value)
    ensures var top := TopStatement(tree).value;
            Authorize(Classified(tree, reader, rules).value, ReadOnly, scope, rules).None? <==>
            && PlacesAllowed(tree, Found(tree, reader).ctes, reader, scope, rules)
            && !ContainsKey(top.value, "LockingClause") && !UncheckedCascade(top) && ExplainsRead(top, rules)
  {
    AuthorizedExactlyWhenFound(tree, reader, scope, rules);
    if PlacesAllowed(tree, Found(tree, reader).ctes, reader, scope, rules) {
      forall thing | In(thing, Found(tree, reader)) ensures ThingAllowed(thing, Found(tree, reader).ctes, scope, rules) {
        var place := FoundHasPlace(tree, thing, reader);
        assert ReportAllowed(Source(place, reader), Found(tree, reader).ctes, scope, rules);
      }
    }
    if ThingsAllowed(Found(tree, reader), scope, rules) {
      forall place | Shows(tree, place, reader)
        ensures ReportAllowed(Source(place, reader), Found(tree, reader).ctes, scope, rules)
      {
        forall thing | In(thing, Source(place, reader)) ensures ThingAllowed(thing, Found(tree, reader).ctes, scope, rules) {
          PlaceIsFound(tree, place, thing, reader);
        }
      }
    }
  }

  // What that says of a single place.

  ghost predicate AllRead(kinds: seq<string>, rules: Rules) {
    forall kind :: kind in kinds ==> rules.classOf(kind) == Classed(Class.Read)
  }

  ghost predicate AllHarmless(functions: seq<string>, scope: Scope, rules: Rules) {
    forall f :: f in functions ==> rules.Effect(f).Harmless? && FunctionDenial(f, scope, rules).None?
  }

  ghost predicate AllServed(relations: seq<Relation>, scope: Scope, rules: Rules) {
    forall r :: r in relations && r.schema.Some? ==> Serves(r.schema.value, scope, rules)
  }

  ghost predicate AllCopyOut(copies: seq<Copy>) {
    forall c :: c in copies ==> !c.isFrom && !c.isProgram && c.filename == ""
  }

  ghost predicate Clear(found: Report, scope: Scope, rules: Rules) {
    && AllRead(found.kinds, rules) && AllHarmless(found.functions, scope, rules)
    && AllServed(found.relations, scope, rules) && AllCopyOut(found.copies)
  }

  lemma AllowedIsClear(found: Report, ctes: seq<string>, scope: Scope, rules: Rules)
    requires ReportAllowed(found, ctes, scope, rules)
    ensures Clear(found, scope, rules)
  {
    forall kind | kind in found.kinds ensures rules.classOf(kind) == Classed(Class.Read) {
      assert In(Kind(kind), found);
    }
    forall f | f in found.functions ensures rules.Effect(f).Harmless? && FunctionDenial(f, scope, rules).None? {
      assert In(Function(f), found);
    }
    forall r | r in found.relations && r.schema.Some? ensures Serves(r.schema.value, scope, rules) {
      assert In(Named(r), found);
    }
    forall c | c in found.copies ensures !c.isFrom && !c.isProgram && c.filename == "" {
      assert In(Copied(c), found);
    }
  }

  lemma PlaceIsClear(tree: Value, place: Place, reader: Reader, scope: Scope, rules: Rules)
    requires TopStatement(tree).Some? && Executes(TopStatement(tree).value) && Shows(tree, place, reader)
    requires Authorize(Classified(tree, reader, rules).value, ReadOnly, scope, rules).None?
    ensures Clear(Source(place, reader), scope, rules)
    ensures !ContainsKey(TopStatement(tree).value.value, "LockingClause")
  {
    AuthorizedExactlyWhen(tree, reader, scope, rules);
    AllowedIsClear(Source(place, reader), Found(tree, reader).ctes, scope, rules);
  }
}
