/** What the gate lets through in read-only mode: crates/ownpg-core/src/classify.rs. */
module ReadOnlyGate {
  import opened Basics
  import opened ParseTree
  import opened Classifier
  import opened Authorization
  import opened DottedNames
  import opened StatementLists

  /** A function's name without its schema. */
  function Bare(function_: string): string {
    Lower(AfterDot(function_))
  }

  function RulesOf(lists: Lists): Rules {
    Rules(kind => ClassOf(kind, lists), Bare, name => EffectOf(name, lists), schema => schema in lists.catalogs)
  }

  /** A function whose name, without its schema, is in a list has an effect whatever its schema is. */
  lemma ListedIsFound(parts: seq<string>, lists: Lists)
    requires Fit(lists) && parts != []
    ensures EffectOf(Bare(Joined(parts, '.')), lists).Harmless? ==> EffectOf(Lower(Last(parts)), lists).Harmless?
  {
    LastOfJoined(parts);
    var name := Lower(Last(parts));
    if !EffectOf(name, lists).Harmless? {
      LowerKeepsDots(Last(parts));
      DotFreeIsLast(Last(parts));
    }
  }

  lemma LowerKeepsDots(s: string)
    ensures '.' in s ==> '.' in Lower(s)
  {
    if '.' in s {
      var i :| 0 <= i < |s| && s[i] == '.';
      assert Lower(s)[i] == '.';
    }
  }

  // What is let through.

  /** A call of a function in no list, and of the served schema or a catalog if its name says so without dots. */
  predicate CallAllowed(parts: seq<string>, scope: Scope, lists: Lists) {
    parts != [] ==>
      && EffectOf(Lower(Last(parts)), lists).Harmless?
      && (|parts| >= 2 && DotFree(parts) ==> parts[|parts| - 2] == scope.schema || parts[|parts| - 2] in lists.catalogs)
  }

  predicate CopyAllowed(statement: Value) {
    var filename := TextAt(statement, "filename");
    !FlagAt(statement, "is_from") && !FlagAt(statement, "is_program") && (filename.Some? ==> filename.value == "")
  }

  predicate StatementReads(member: Member, lists: Lists) {
    IsStatement(member) ==> member.name in lists.reading
  }

  predicate CopyReads(member: Member) {
    member.name == "CopyStmt" ==> CopyAllowed(member.value)
  }

  predicate CallReads(member: Member, scope: Scope, lists: Lists) {
    member.name == "FuncCall" ==> CallAllowed(NameParts(Get(member.value, "funcname")), scope, lists)
  }

  /** What a member of the parse tree may be in a statement that only reads. */
  predicate OnlyReads(member: Member, scope: Scope, lists: Lists) {
    StatementReads(member, lists) && !SelectsInto(member) && CopyReads(member) && CallReads(member, scope, lists)
  }

  /** What a range variable may be. */
  predicate RangeAllowed(object_: Value, scope: Scope, lists: Lists) {
    var relname, schema := TextAt(object_, "relname"), TextAt(object_, "schemaname");
    relname.Some? && schema.Some? ==> schema.value == "" || schema.value == scope.schema || schema.value in lists.catalogs
  }

  lemma InEither(a: seq<string>, b: seq<string>, x: string)
    ensures x in a || x in b ==> x in a + b
  {
  }

  lemma StatementIsRead(member: Member, lists: Lists)
    requires AllRead(StatementKinds(member), RulesOf(lists))
    ensures StatementReads(member, lists)
    ensures SelectsInto(member) ==> "CreateTableAsStmt" in lists.reading
  {
    var into := if SelectsInto(member) then ["CreateTableAsStmt"] else [];
    var own := if IsStatement(member) then [member.name] else [];
    if IsStatement(member) {
      InEither(into, own, member.name);
      KindIsReading(StatementKinds(member), member.name, lists);
    }
    if SelectsInto(member) {
      InEither(into, own, "CreateTableAsStmt");
      KindIsReading(StatementKinds(member), "CreateTableAsStmt", lists);
    }
  }

  lemma RuleOfKind(kind: string, lists: Lists)
    ensures RulesOf(lists).classOf(kind) == ClassOf(kind, lists)
  {
  }

  lemma ReadKind(kind: string, lists: Lists)
    requires ClassOf(kind, lists) == Classed(Class.Read)
    ensures kind in lists.reading
  {
  }

  lemma KindIsReading(kinds: seq<string>, kind: string, lists: Lists)
    requires AllRead(kinds, RulesOf(lists)) && kind in kinds
    ensures kind in lists.reading
  {
    RuleOfKind(kind, lists);
    ReadKind(kind, lists);
  }

  lemma CopyOnlyReads(member: Member)
    requires AllCopyOut(Copies(member))
    ensures CopyReads(member)
  {
    if member.name == "CopyStmt" { assert Copies(member)[0] in Copies(member); }
  }

  lemma CallIsAllowed(member: Member, scope: Scope, lists: Lists)
    requires AllHarmless(FunctionNames(member), scope, RulesOf(lists)) && Fit(lists)
    ensures CallReads(member, scope, lists)
  {
    var parts := NameParts(Get(member.value, "funcname"));
    if member.name == "FuncCall" && parts != [] {
      assert FunctionNames(member) == [Joined(parts, '.')];
      assert Joined(parts, '.') in FunctionNames(member);
      FunctionMayBeCalled(parts, scope, lists);
    }
  }

  lemma FunctionMayBeCalled(parts: seq<string>, scope: Scope, lists: Lists)
    requires Fit(lists) && parts != []
    requires EffectOf(Bare(Joined(parts, '.')), lists).Harmless?
    requires FunctionDenial(Joined(parts, '.'), scope, RulesOf(lists)).None?
    ensures CallAllowed(parts, scope, lists)
  {
    ListedIsFound(parts, lists);
    if DotFree(parts) { DotFreeSplits(parts); }
  }

  lemma RuleOfSchema(schema: string, scope: Scope, lists: Lists)
    ensures Serves(schema, scope, RulesOf(lists)) <==> schema == scope.schema || schema in lists.catalogs
  {
  }

  lemma RangeIsAllowed(object_: Value, scope: Scope, lists: Lists)
    requires AllServed(RangeVar(object_), scope, RulesOf(lists))
    ensures RangeAllowed(object_, scope, lists)
  {
    var schema := TextAt(object_, "schemaname");
    if RangeVar(object_) != [] {
      assert RangeVar(object_)[0] in RangeVar(object_);
      RuleOfSchema(schema.value, scope, lists);
    }
  }

  lemma MemberOnlyReads(member: Member, scope: Scope, lists: Lists)
    requires Clear(OfMember(member), scope, RulesOf(lists)) && Fit(lists)
    ensures OnlyReads(member, scope, lists)
  {
    StatementIsRead(member, lists);
    CopyOnlyReads(member);
    CallIsAllowed(member, scope, lists);
  }

  /** The gate lets through a statement that is run. */
  ghost predicate LetsThrough(tree: Value, reader: Reader, scope: Scope, rules: Rules) {
    && TopStatement(tree).Some? && Executes(TopStatement(tree).value)
    && Authorize(Classified(tree, reader, rules).value, ReadOnly, scope, rules).None?
  }

  lemma ClearPlace(tree: Value, place: Place, reader: Reader, scope: Scope, rules: Rules)
    requires LetsThrough(tree, reader, scope, rules) && Shows(tree, place, reader)
    ensures Clear(Source(place, reader), scope, rules)
  {
    PlaceIsClear(tree, place, reader, scope, rules);
  }

  /** A statement that is run and that the gate lets through in read-only mode holds, at any depth outside SET and RESET
      clauses, no statement but reads, no SELECT INTO, no COPY from or to a file or program, and no call of a listed
      function. */
  lemma AuthorizedOnlyReads(tree: Value, member: Member, scope: Scope, lists: Lists)
    requires Fit(lists) && LetsThrough(tree, CodeReader(), scope, RulesOf(lists))
    requires Shows(tree, AtMember(member), CodeReader())
    ensures OnlyReads(member, scope, lists)
  {
    ClearPlace(tree, AtMember(member), CodeReader(), scope, RulesOf(lists));
    MemberOnlyReads(member, scope, lists);
  }

  /** It names no relation of a schema but the served one and the catalogs. */
  lemma AuthorizedStaysInScope(tree: Value, object_: Value, scope: Scope, lists: Lists)
    requires LetsThrough(tree, CodeReader(), scope, RulesOf(lists))
    requires Shows(tree, AtObject(object_), CodeReader())
    ensures RangeAllowed(object_, scope, lists)
  {
    ClearPlace(tree, AtObject(object_), CodeReader(), scope, RulesOf(lists));
    RangeIsAllowed(object_, scope, lists);
  }

  /** And it takes no row locks, not even in a SET or RESET clause. */
  lemma AuthorizedTakesNoRowLocks(tree: Value, reader: Reader, scope: Scope, rules: Rules)
    requires LetsThrough(tree, reader, scope, rules)
    ensures !ContainsKey(TopStatement(tree).value.value, "LockingClause")
  {
    AuthorizedExactlyWhen(tree, reader, scope, rules);
  }
}
