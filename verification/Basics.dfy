/** Failure values and the few facts about text that several components share. */
module Basics {

  datatype Option<+T> = None | Some(value: T)

  datatype Result<+T, +E> = Ok(value: T) | Err(error: E)

  type byte = b: int | 0 <= b < 256

  /** The characters of Unicode's White_Space property, which is what trimming removes. */
  predicate IsWhitespace(c: char) {
    var code := c as int;
    || 0x9 <= code <= 0xd || code == 0x20 || code == 0x85 || code == 0xa0 || code == 0x1680
    || 0x2000 <= code <= 0x200a || code == 0x2028 || code == 0x2029 || code == 0x202f || code == 0x205f || code == 0x3000
  }

  function TrimStart(s: string): string {
    if s != [] && IsWhitespace(s[0]) then TrimStart(s[1..]) else s
  }

  function TrimEnd(s: string): string {
    if s != [] && IsWhitespace(s[|s| - 1]) then TrimEnd(s[..|s| - 1]) else s
  }

  function Trim(s: string): string {
    TrimEnd(TrimStart(s))
  }

  function LowerChar(c: char): char {
    if 'A' <= c <= 'Z' then c + 32 as char else c
  }

  /** ASCII letters in lower case. */
  function Lower(s: string): string {
    seq(|s|, i requires 0 <= i < |s| => LowerChar(s[i]))
  }

  /** The parts joined with the separator between them. */
  function Joined<T>(parts: seq<seq<T>>, separator: T): seq<T> {
    if parts == [] then [] else if |parts| == 1 then parts[0] else parts[0] + [separator] + Joined(parts[1..], separator)
  }

  /** The parts between the separators; text without one is a single part. */
  function SplitOn<T(==)>(s: seq<T>, separator: T): (parts: seq<seq<T>>)
    ensures |parts| >= 1
  {
    if s == [] then [[]]
    else
      var rest := SplitOn(s[1..], separator);
      if s[0] == separator then [[]] + rest else [[s[0]] + rest[0]] + rest[1..]
  }

  /** A part without the separator, followed by it, is the first part. */
  lemma {:induction false} SplitFirst<T>(part: seq<T>, separator: T, rest: seq<T>)
    requires separator !in part
    ensures SplitOn(part + [separator] + rest, separator) == [part] + SplitOn(rest, separator)
    ensures SplitOn(part, separator) == [part]
  {
    if part == [] {
      assert (part + [separator] + rest)[1..] == rest;
    } else {
      SplitFirst(part[1..], separator, rest);
      assert (part + [separator] + rest)[1..] == part[1..] + [separator] + rest;
      assert part == [part[0]] + part[1..];
    }
  }

  lemma {:induction false} SplitUndoesJoined<T>(parts: seq<seq<T>>, separator: T)
    requires |parts| >= 1
    requires forall part :: part in parts ==> separator !in part
    ensures SplitOn(Joined(parts, separator), separator) == parts
  {
    assert parts[0] in parts;
    if |parts| == 1 {
      SplitFirst(parts[0], separator, []);
    } else {
      SplitUndoesJoined(parts[1..], separator);
      SplitFirst(parts[0], separator, Joined(parts[1..], separator));
    }
  }

  lemma {:induction false} JoinedUndoesSplit<T>(s: seq<T>, separator: T)
    ensures Joined(SplitOn(s, separator), separator) == s
  {
    if s != [] {
      JoinedUndoesSplit(s[1..], separator);
      var rest := SplitOn(s[1..], separator);
      if s[0] == separator {
        assert ([[]] + rest)[1..] == rest;
      } else {
        assert ([[s[0]] + rest[0]] + rest[1..])[1..] == rest[1..];
      }
    }
  }

  lemma {:induction false} JoinedHolds<T>(parts: seq<seq<T>>, separator: T, c: T)
    requires c != separator
    requires forall part :: part in parts ==> c !in part
    ensures c !in Joined(parts, separator)
  {
    if parts != [] {
      assert parts[0] in parts;
      JoinedHolds(parts[1..], separator, c);
    }
  }

  /** What s holds from i on begins with part. */
  ghost predicate Holds<T>(s: seq<T>, i: nat, part: seq<T>) {
    i + |part| <= |s| && forall k :: 0 <= k < |part| ==> s[i + k] == part[k]
  }

  lemma HoldsParts<T>(s: seq<T>, i: nat, a: seq<T>, b: seq<T>)
    requires Holds(s, i, a + b)
    ensures Holds(s, i, a) && Holds(s, i + |a|, b)
  {
    forall k | 0 <= k < |a| ensures s[i + k] == a[k] {
      assert (a + b)[k] == a[k];
    }
    forall k | 0 <= k < |b| ensures s[i + |a| + k] == b[k] {
      assert (a + b)[|a| + k] == b[k];
    }
  }

  lemma HoldsAt<T>(s: seq<T>, i: nat, part: seq<T>, k: nat)
    requires Holds(s, i, part) && k < |part|
    ensures s[i + k] == part[k]
  {
  }

  lemma HoldsSlice<T>(s: seq<T>, i: nat, part: seq<T>)
    requires Holds(s, i, part)
    ensures s[i..i + |part|] == part
  {
  }
}
