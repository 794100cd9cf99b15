/** Names that are joined with dots and split again: crates/ownpg-core/src/classify.rs. */
module DottedNames {
  import opened Basics
  import opened Classifier
  import opened Authorization

  function Last(parts: seq<string>): string
    requires parts != []
  {
    parts[|parts| - 1]
  }

  lemma {:induction false} DotFreeIsLast(s: string)
    requires '.' !in s
    ensures AfterDot(s) == s
  {
    if s != [] {
      DotFreeIsLast(s[..|s| - 1]);
      assert s == s[..|s| - 1] + [s[|s| - 1]];
    }
  }

  lemma {:induction false} LastHasNoDot(s: string)
    ensures '.' !in AfterDot(s)
  {
    if s != [] { LastHasNoDot(s[..|s| - 1]); }
  }

  lemma {:induction false} AfterDotOfJoined(a: string, b: string)
    ensures AfterDot(a + ['.'] + b) == AfterDot(b)
  {
    if b != [] && b[|b| - 1] != '.' {
      AfterDotOfJoined(a, b[..|b| - 1]);
      assert (a + ['.'] + b)[..|a + ['.'] + b| - 1] == a + ['.'] + b[..|b| - 1];
    }
  }

  lemma {:induction false} BeforeDotOfJoined(a: string, b: string)
    requires '.' !in b
    ensures '.' in a + ['.'] + b && BeforeDot(a + ['.'] + b) == a
  {
    assert (a + ['.'] + b)[|a|] == '.';
    if b != [] {
      BeforeDotOfJoined(a, b[..|b| - 1]);
      assert (a + ['.'] + b)[..|a + ['.'] + b| - 1] == a + ['.'] + b[..|b| - 1];
    } else {
      assert (a + ['.'] + b)[..|a|] == a;
    }
  }

  lemma {:induction false} JoinedLast(parts: seq<string>)
    requires |parts| >= 2
    ensures Joined(parts, '.') == Joined(parts[..|parts| - 1], '.') + ['.'] + Last(parts)
  {
    if |parts| > 2 {
      JoinedLast(parts[1..]);
      assert parts[1..][..|parts| - 2] == parts[..|parts| - 1][1..];
    }
  }

  /** The last piece of joined parts is the last one of the last part. */
  lemma LastOfJoined(parts: seq<string>)
    requires parts != []
    ensures AfterDot(Joined(parts, '.')) == AfterDot(Last(parts))
  {
    if |parts| >= 2 {
      JoinedLast(parts);
      AfterDotOfJoined(Joined(parts[..|parts| - 1], '.'), Last(parts));
    }
  }

  /** What the name parts say. */
  function Qualified(parts: seq<string>): Relation
    requires parts != []
  {
    Relation(if |parts| >= 2 then Some(parts[|parts| - 2]) else None, Last(parts))
  }

  /** Neither the name nor the schema holds a dot. */
  predicate DotFree(parts: seq<string>)
    requires parts != []
  {
    '.' !in Last(parts) && (|parts| >= 2 ==> '.' !in parts[|parts| - 2])
  }

  lemma DotFreeSplits(parts: seq<string>)
    requires parts != [] && DotFree(parts)
    ensures SplitQualified(Joined(parts, '.')) == Qualified(parts)
  {
    DotFreeIsLast(Last(parts));
    LastOfJoined(parts);
    if |parts| >= 2 {
      var front := parts[..|parts| - 1];
      JoinedLast(parts);
      BeforeDotOfJoined(Joined(front, '.'), Last(parts));
      LastOfJoined(front);
      DotFreeIsLast(Last(front));
    }
  }

  /** Joining and splitting gives back schema and name exactly when neither holds a dot. */
  lemma SplitQualifiedExactlyWhen(parts: seq<string>)
    requires parts != []
    ensures SplitQualified(Joined(parts, '.')) == Qualified(parts) <==> DotFree(parts)
  {
    var joined := Joined(parts, '.');
    LastHasNoDot(joined);
    if DotFree(parts) {
      DotFreeSplits(parts);
    } else if '.' in joined {
      LastHasNoDot(BeforeDot(joined));
    }
  }

  /** So a dot in a name can hide a schema: a function of any schema passes the scope if its own name begins with the
      served schema and a dot. */
  lemma DottedNameHidesSchema(schema: string, name: string, scope: Scope, rules: Rules)
    requires '.' !in scope.schema && '.' !in name
    ensures FunctionDenial(Joined([schema, scope.schema + ['.'] + name], '.'), scope, rules).None?
  {
    var parts, front := [schema, scope.schema + ['.'] + name], schema + ['.'] + scope.schema;
    assert Joined(parts, '.') == front + ['.'] + name;
    BeforeDotOfJoined(front, name);
    AfterDotOfJoined(schema, scope.schema);
    DotFreeIsLast(scope.schema);
  }
}
