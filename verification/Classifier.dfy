/** What a statement does, read from its parse tree, and whether a mode and a schema scope allow it:
    crates/ownpg-core/src/classify.rs. */
module Classifier {
  import opened Basics
  import opened ParseTree

  datatype Class = Read | Write | Procedure | Maintenance | Ddl | Roles {
    function Rank(): nat {
      match this
      case Read => 0
      case Write => 1
      case Procedure => 2
      case Maintenance => 3
      case Ddl => 4
      case Roles => 5
    }
  }

  function Max(a: Class, b: Class): Class {
    if a.Rank() < b.Rank() then b else a
  }

  datatype Verdict = Classed(class_: Class) | Refused

  /** What a function does: it reaches outside the database, notifies or locks past the transaction, resets statistics or
      locks within it, or none of these. */
  datatype Effect = Outside | Notifies | Writes | Harmless

  /** The classes of statement kinds, the names of functions without their schemas, the effects of functions by these
      names, and the catalog schemas. */
  datatype Rules = Rules(classOf: string -> Verdict, bare: string -> string, effectOf: string -> Effect, catalog: string -> bool)
  {
    function Effect(function_: string): Effect {
      effectOf(bare(function_))
    }
  }

  // Names.

  datatype Relation = Relation(schema: Option<string>, name: string)

  function FlagAt(value: Value, name: string): bool {
    var member := Get(value, name);
    member.Some? && member.value.Bool? && member.value.flag
  }

  /** The texts of the String nodes among the first n items. */
  function Parts(items: seq<Value>, n: nat): seq<string>
    requires n <= |items|
  {
    if n == 0 then []
    else
      var text := StringNode(items[n - 1]);
      Parts(items, n - 1) + if text.Some? then [text.value] else []
  }

  function NameParts(name: Option<Value>): seq<string> {
    if name.Some? && name.value.Array? then Parts(name.value.items, |name.value.items|) else []
  }

  /** Name parts joined with dots, if there are any. */
  function DottedName(name: Option<Value>): Option<string> {
    var parts := NameParts(name);
    if parts == [] then None else Some(Joined(parts, '.'))
  }

  /** What follows the last dot: the last piece of the text split at its dots. */
  function AfterDot(s: string): string {
    if s == [] || s[|s| - 1] == '.' then [] else AfterDot(s[..|s| - 1]) + [s[|s| - 1]]
  }

  /** What comes before the last dot: the other pieces. */
  function BeforeDot(s: string): string
    requires '.' in s
  {
    if s[|s| - 1] == '.' then s[..|s| - 1] else BeforeDot(s[..|s| - 1])
  }

  /** The last piece is the name, and the one before it the schema. */
  function SplitQualified(joined: string): Relation {
    Relation(if '.' in joined then Some(AfterDot(BeforeDot(joined))) else None, AfterDot(joined))
  }

  function QualifiedName(value: Value): Option<Relation> {
    var list, object_ := Node(value, "List"), Node(value, "ObjectWithArgs");
    var items := if list.Some? then Get(list.value, "items") else None;
    var objname := if object_.Some? then Get(object_.value, "objname") else None;
    var name := if items.Some? then items else objname;
    if name.Some? then
      var joined := DottedName(name);
      if joined.None? then None else Some(SplitQualified(joined.value))
    else
      var text := StringNode(value);
      if text.None? then None else Some(Relation(None, text.value))
  }

  // What the walk finds.

  datatype Copy = Copy(isProgram: bool, isFrom: bool, filename: string)

  datatype Report = Report(kinds: seq<string>, functions: seq<string>, relations: seq<Relation>, ctes: seq<string>,
                               copies: seq<Copy>)

  const NOTHING := Report([], [], [], [], [])

  function Plus(a: Report, b: Report): Report {
    Report(a.kinds + b.kinds, a.functions + b.functions, a.relations + b.relations, a.ctes + b.ctes, a.copies + b.copies)
  }

  /** A range variable of an object with these members. */
  function RangeVar(value: Value): seq<Relation> {
    var relname, schemaname := TextAt(value, "relname"), TextAt(value, "schemaname");
    if relname.Some? && schemaname.Some? then
      [Relation(if schemaname.value == "" then None else schemaname, relname.value)]
    else []
  }

  /** SET and RESET clauses of other statements are not looked into. */
  predicate Skipped(member: Member) {
    member.name == "DefElem" && TextAt(member.value, "defname") in {Some("set"), Some("reset")}
  }

  function Listed<T>(option: Option<T>): seq<T> {
    if option.Some? then [option.value] else []
  }

  /** The names of called functions, cast types and operators. */
  function FunctionNames(member: Member): seq<string> {
    var child := member.value;
    if member.name == "FuncCall" then Listed(DottedName(Get(child, "funcname")))
    else if member.name == "CallStmt" then
      var call := Get(child, "funccall");
      if call.None? then [] else Listed(DottedName(Get(call.value, "funcname")))
    else if member.name == "TypeCast" then
      var type_ := Get(child, "type_name");
      if type_.None? then [] else Listed(DottedName(Get(type_.value, "names")))
    else if member.name == "AExpr" then Listed(DottedName(Get(child, "name")))
    else []
  }

  function DroppedNames(objects: seq<Value>, n: nat): seq<Relation>
    requires n <= |objects|
  {
    if n == 0 then [] else DroppedNames(objects, n - 1) + Listed(QualifiedName(objects[n - 1]))
  }

  /** The relations that a member names outside range variables. */
  function NamedRelations(member: Member): seq<Relation> {
    var child := member.value;
    if member.name == "DropStmt" then
      var objects := Get(child, "objects");
      if objects.Some? && objects.value.Array? then DroppedNames(objects.value.items, |objects.value.items|) else []
    else if member.name == "CreateFunctionStmt" || member.name == "AlterFunctionStmt" then
      var func := Get(child, "func");
      var direct := Get(child, "funcname");
      var name := DottedName(if direct.Some? then direct else if func.Some? then Get(func.value, "objname") else None);
      if name.Some? then [SplitQualified(name.value)] else []
    else []
  }

  predicate SelectsInto(member: Member) {
    && member.name == "SelectStmt"
    && var into := Get(member.value, "into_clause");
       into.Some? && !into.value.Null?
  }

  predicate IsStatement(member: Member) {
    |member.name| >= 4 && member.name[|member.name| - 4..] == "Stmt" && member.value.Object?
  }

  function StatementKinds(member: Member): seq<string> {
    (if SelectsInto(member) then ["CreateTableAsStmt"] else []) + if IsStatement(member) then [member.name] else []
  }

  function Copies(member: Member): seq<Copy> {
    if member.name != "CopyStmt" then []
    else
      var filename := TextAt(member.value, "filename");
      [Copy(FlagAt(member.value, "is_program"), FlagAt(member.value, "is_from"), if filename.Some? then filename.value else "")]
  }

  /** What one member of an object adds, besides what is inside it. */
  function OfMember(member: Member): Report {
    Report(StatementKinds(member), FunctionNames(member), NamedRelations(member),
             if member.name == "CommonTableExpr" then Listed(TextAt(member.value, "ctename")) else [], Copies(member))
  }

  function OfObject(value: Value): Report {
    Report([], [], RangeVar(value), [], [])
  }

  /** What the walk takes from an object, from one of its members, and which members it passes by. */
  datatype Reader = Reader(own: Value -> Report, of: Member -> Report, skips: Member -> bool)

  function CodeReader(): Reader {
    Reader(OfObject, OfMember, Skipped)
  }

  /** Everything the walk finds in a value. */
  function Found(value: Value, reader: Reader): Report
    decreases value
  {
    match value
    case Object(members) => Plus(reader.own(value), FoundMembers(value, members, |members|, reader))
    case Array(items) => FoundItems(value, items, |items|, reader)
    case _ => NOTHING
  }

  function FoundMembers(value: Value, members: seq<Member>, n: nat, reader: Reader): Report
    requires value == Object(members) && n <= |members|
    decreases value, n
  {
    if n == 0 then NOTHING
    else if reader.skips(members[n - 1]) then FoundMembers(value, members, n - 1, reader)
    else
      Plus(FoundMembers(value, members, n - 1, reader), Plus(reader.of(members[n - 1]), Found(members[n - 1].value, reader)))
  }

  function FoundItems(value: Value, items: seq<Value>, n: nat, reader: Reader): Report
    requires value == Array(items) && n <= |items|
    decreases value, n
  {
    if n == 0 then NOTHING else Plus(FoundItems(value, items, n - 1, reader), Found(items[n - 1], reader))
  }

  lemma PlusAssociates(a: Report, b: Report, c: Report)
    ensures Plus(Plus(a, b), c) == Plus(a, Plus(b, c))
  {
  }

  lemma PlusNothing(a: Report)
    ensures Plus(a, NOTHING) == a
  {
  }

  lemma NothingPlus(a: Report)
    ensures Plus(NOTHING, a) == a
  {
  }

  class Findings {
    var kinds: seq<string>
    var functions: seq<string>
    var relations: seq<Relation>
    var ctes: seq<string>
    var copies: seq<Copy>

    constructor ()
      ensures All() == NOTHING
    {
      kinds, functions, relations, ctes, copies := [], [], [], [], [];
    }

    function All(): Report
      reads this
    {
      Report(kinds, functions, relations, ctes, copies)
    }

    method Push(more: Report)
      modifies this
      ensures All() == Plus(old(All()), more)
    {
      kinds := kinds + more.kinds;
      functions := functions + more.functions;
      relations := relations + more.relations;
      ctes := ctes + more.ctes;
      copies := copies + more.copies;
    }
  }

  /** Walks a value and notes what it finds. */
  method Walk(value: Value, found: Findings, reader: Reader)
    modifies found
    ensures found.All() == Plus(old(found.All()), Found(value, reader))
    decreases value
  {
    ghost var before := found.All();
    match value
    case Object(members) =>
      found.Push(reader.own(value));
      ghost var start := found.All();
      PlusNothing(start);
      for i := 0 to |members|
        invariant found.All() == Plus(start, FoundMembers(value, members, i, reader))
      {
        if !reader.skips(members[i]) {
          ghost var so := FoundMembers(value, members, i, reader);
          ghost var of, inside := reader.of(members[i]), Found(members[i].value, reader);
          found.Push(reader.of(members[i]));
          Walk(members[i].value, found, reader);
          Gathered(start, so, of, inside);
        }
      }
      PlusAssociates(before, reader.own(value), FoundMembers(value, members, |members|, reader));
    case Array(items) =>
      PlusNothing(before);
      for i := 0 to |items|
        invariant found.All() == Plus(before, FoundItems(value, items, i, reader))
      {
        Walk(items[i], found, reader);
        PlusAssociates(before, FoundItems(value, items, i, reader), Found(items[i], reader));
      }
    case _ =>
      PlusNothing(before);
  }

  lemma Gathered(start: Report, so: Report, of: Report, inside: Report)
    ensures Plus(Plus(Plus(start, so), of), inside) == Plus(start, Plus(so, Plus(of, inside)))
  {
  }

  // Where a finding comes from.

  /** An object, or a member of one. */
  datatype Place = AtObject(value: Value) | AtMember(member: Member)

  /** The walk comes to this place. */
  predicate Shows(value: Value, place: Place, reader: Reader)
    decreases value
  {
    match value
    case Object(members) =>
      || place == AtObject(value)
      || exists i :: 0 <= i < |members| && !reader.skips(members[i]) &&
                     (place == AtMember(members[i]) || Shows(members[i].value, place, reader))
    case Array(items) => exists i :: 0 <= i < |items| && Shows(items[i], place, reader)
    case _ => false
  }

  function Source(place: Place, reader: Reader): Report {
    if place.AtObject? then reader.own(place.value) else reader.of(place.member)
  }

  datatype Thing = Kind(kind: string) | Function(function_: string) | Named(relation: Relation) | Cte(cte: string) | Copied(copy: Copy)

  predicate In(thing: Thing, report: Report) {
    match thing
    case Kind(kind) => kind in report.kinds
    case Function(function_) => function_ in report.functions
    case Named(relation) => relation in report.relations
    case Cte(cte) => cte in report.ctes
    case Copied(copy) => copy in report.copies
  }

  lemma InPlus(thing: Thing, a: Report, b: Report)
    ensures In(thing, Plus(a, b)) <==> In(thing, a) || In(thing, b)
  {
  }

  /** What is at a place the walk comes to is found. */
  lemma {:induction false} PlaceIsFound(value: Value, place: Place, thing: Thing, reader: Reader)
    requires Shows(value, place, reader) && In(thing, Source(place, reader))
    ensures In(thing, Found(value, reader))
    decreases value
  {
    match value
    case Object(members) =>
      InPlus(thing, reader.own(value), FoundMembers(value, members, |members|, reader));
      if place != AtObject(value) {
        var i :| 0 <= i < |members| && !reader.skips(members[i]) &&
                 (place == AtMember(members[i]) || Shows(members[i].value, place, reader));
        if place != AtMember(members[i]) {
          PlaceIsFound(members[i].value, place, thing, reader);
        }
        MemberIsFound(value, members, i, |members|, thing, reader);
      }
    case Array(items) =>
      var i :| 0 <= i < |items| && Shows(items[i], place, reader);
      PlaceIsFound(items[i], place, thing, reader);
      ItemIsFound(value, items, i, |items|, thing, reader);
    case _ =>
  }

  lemma {:induction false} MemberIsFound(value: Value, members: seq<Member>, i: nat, n: nat, thing: Thing, reader: Reader)
    requires value == Object(members) && i < n <= |members| && !reader.skips(members[i])
    requires In(thing, reader.of(members[i])) || In(thing, Found(members[i].value, reader))
    ensures In(thing, FoundMembers(value, members, n, reader))
    decreases n
  {
    var so, last := FoundMembers(value, members, n - 1, reader), members[n - 1];
    InPlus(thing, reader.of(last), Found(last.value, reader));
    InPlus(thing, so, Plus(reader.of(last), Found(last.value, reader)));
    if i < n - 1 { MemberIsFound(value, members, i, n - 1, thing, reader); }
  }

  lemma {:induction false} ItemIsFound(value: Value, items: seq<Value>, i: nat, n: nat, thing: Thing, reader: Reader)
    requires value == Array(items) && i < n <= |items| && In(thing, Found(items[i], reader))
    ensures In(thing, FoundItems(value, items, n, reader))
    decreases n
  {
    InPlus(thing, FoundItems(value, items, n - 1, reader), Found(items[n - 1], reader));
    if i < n - 1 { ItemIsFound(value, items, i, n - 1, thing, reader); }
  }

  /** And whatever is found is at a place the walk comes to. */
  lemma {:induction false} FoundHasPlace(value: Value, thing: Thing, reader: Reader) returns (place: Place)
    requires In(thing, Found(value, reader))
    ensures Shows(value, place, reader) && In(thing, Source(place, reader))
    decreases value
  {
    match value
    case Object(members) =>
      InPlus(thing, reader.own(value), FoundMembers(value, members, |members|, reader));
      if In(thing, reader.own(value)) {
        place := AtObject(value);
      } else {
        place := MembersHavePlace(value, members, |members|, thing, reader);
      }
    case Array(items) =>
      place := ItemsHavePlace(value, items, |items|, thing, reader);
    case _ =>
      place := AtObject(value);
  }

  lemma {:induction false} MembersHavePlace(value: Value, members: seq<Member>, n: nat, thing: Thing, reader: Reader)
    returns (place: Place)
    requires value == Object(members) && n <= |members| && In(thing, FoundMembers(value, members, n, reader))
    ensures Shows(value, place, reader) && In(thing, Source(place, reader))
    decreases value, n
  {
    if n == 0 {
      place := AtObject(value);
    } else {
      var so, last := FoundMembers(value, members, n - 1, reader), members[n - 1];
      InPlus(thing, reader.of(last), Found(last.value, reader));
      InPlus(thing, so, Plus(reader.of(last), Found(last.value, reader)));
      if In(thing, so) {
        place := MembersHavePlace(value, members, n - 1, thing, reader);
      } else if In(thing, reader.of(last)) {
        place := AtMember(last);
      } else {
        place := FoundHasPlace(last.value, thing, reader);
      }
    }
  }

  lemma {:induction false} ItemsHavePlace(value: Value, items: seq<Value>, n: nat, thing: Thing, reader: Reader)
    returns (place: Place)
    requires value == Array(items) && n <= |items| && In(thing, FoundItems(value, items, n, reader))
    ensures Shows(value, place, reader) && In(thing, Source(place, reader))
    decreases value, n
  {
    if n == 0 {
      place := AtObject(value);
    } else {
      InPlus(thing, FoundItems(value, items, n - 1, reader), Found(items[n - 1], reader));
      if In(thing, FoundItems(value, items, n - 1, reader)) {
        place := ItemsHavePlace(value, items, n - 1, thing, reader);
      } else {
        place := FoundHasPlace(items[n - 1], thing, reader);
      }
    }
  }
}
