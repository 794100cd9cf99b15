/** The check that a JSON cell survives being re-encoded: crates/ownpg-core/src/shape.rs. A byte scanner with two
    stacks stands in for a parser; here it is compared with the tree it never builds. */
module JsonFidelity {
  import opened Basics

  type Bytes = seq<byte>

  const OPEN_OBJECT: byte := 0x7b
  const CLOSE_OBJECT: byte := 0x7d
  const OPEN_ARRAY: byte := 0x5b
  const CLOSE_ARRAY: byte := 0x5d
  const COMMA: byte := 0x2c
  const COLON: byte := 0x3a
  const QUOTE: byte := 0x22
  const BACKSLASH: byte := 0x5c
  const MINUS: byte := 0x2d
  const PLUS: byte := 0x2b
  const DOT: byte := 0x2e

  predicate IsDigit(c: byte) {
    0x30 <= c <= 0x39
  }

  predicate IsExponentMark(c: byte) {
    c == 0x65 || c == 0x45
  }

  /** What the scan asks about the pieces it cuts out: the text of a quoted key, if it can be decoded, and whether a
      number keeps its value. */
  datatype Readers = Readers(decode: Bytes -> Option<string>, survives: Bytes -> bool)

  /** The questions as the code answers them, given the library's key decoder and its test that a literal with a
      fraction or an exponent reads as a finite double. */
  function CodeReaders(decode: Bytes -> Option<string>, finite: Bytes -> bool): Readers {
    Readers(decode, literal => NumberSurvives(literal, finite))
  }

  // Numbers.

  const SIGNIFICANT_DIGITS_KEPT := 15

  function Mantissa(literal: Bytes): Bytes {
    if literal == [] || IsExponentMark(literal[0]) then [] else [literal[0]] + Mantissa(literal[1..])
  }

  function DigitsOf(s: Bytes): Bytes {
    if s == [] then [] else (if IsDigit(s[0]) then [s[0]] else []) + DigitsOf(s[1..])
  }

  function WithoutLeadingZeros(digits: Bytes): Bytes {
    if digits != [] && digits[0] == 0x30 then WithoutLeadingZeros(digits[1..]) else digits
  }

  function SignificantDigits(literal: Bytes): nat {
    |WithoutLeadingZeros(DigitsOf(Mantissa(literal)))|
  }

  function Decimal(digits: Bytes): Option<int> {
    if digits == [] then Some(0)
    else
      var last := digits[|digits| - 1];
      match Decimal(digits[..|digits| - 1])
      case Some(n) => if IsDigit(last) then Some(10 * n + last - 0x30) else None
      case None => None
  }

  /** The integer reader of the code: an optional sign and at least one digit, within the bounds. */
  predicate ReadsAsInteger(literal: Bytes, signed: bool, low: int, high: int) {
    var negative := signed && literal != [] && literal[0] == MINUS;
    var digits := if negative || (literal != [] && literal[0] == PLUS) then literal[1..] else literal;
    && digits != []
    && Decimal(digits).Some?
    && low <= (if negative then -Decimal(digits).value else Decimal(digits).value) <= high
  }

  predicate NumberSurvives(literal: Bytes, finite: Bytes -> bool) {
    if exists i :: 0 <= i < |literal| && (literal[i] == DOT || IsExponentMark(literal[i]))
    then SignificantDigits(literal) <= SIGNIFICANT_DIGITS_KEPT && finite(literal)
    else
      || ReadsAsInteger(literal, true, -0x8000_0000_0000_0000, 0x7fff_ffff_ffff_ffff)
      || ReadsAsInteger(literal, false, 0, 0xffff_ffff_ffff_ffff)
  }

  // The scanner.

  /** The open objects, each with the keys it has shown and whether a key comes next; and the open brackets. */
  datatype Stacks = Stacks(objects: seq<(set<string>, bool)>, containers: Bytes) {
    predicate InObject() {
      containers != [] && containers[|containers| - 1] == OPEN_OBJECT
    }

    predicate ExpectsKey() {
      InObject() && objects != [] && objects[|objects| - 1].1
    }

    function Expecting(key: bool): Stacks {
      if objects == [] then this
      else this.(objects := objects[..|objects| - 1] + [(objects[|objects| - 1].0, key)])
    }

    function OpenObject(): Stacks {
      Stacks(objects + [({}, true)], containers + [OPEN_OBJECT])
    }

    function OpenArray(): Stacks {
      this.(containers := containers + [OPEN_ARRAY])
    }

    function CloseObject(): Stacks {
      Stacks(if objects == [] then [] else objects[..|objects| - 1], if containers == [] then [] else containers[..|containers| - 1])
    }

    function CloseArray(): Stacks {
      this.(containers := if containers == [] then [] else containers[..|containers| - 1])
    }

    function AfterComma(): Stacks {
      if InObject() then Expecting(true) else this
    }

    function Key(key: string): Stacks
      requires objects != []
    {
      var (keys, expecting) := objects[|objects| - 1];
      this.(objects := objects[..|objects| - 1] + [(keys + {key}, expecting)])
    }

    function LastKeys(): set<string>
      requires objects != []
    {
      objects[|objects| - 1].0
    }
  }

  /** The index after the quote that closes a string whose inside starts at i; one past the end when an escape
      runs off it. */
  function StringEnd(s: Bytes, i: nat): (end: nat)
    ensures i <= end
    ensures i < |s| ==> i < end
    decreases |s| - i
  {
    if i >= |s| then i
    else if s[i] == BACKSLASH then StringEnd(s, i + 2)
    else if s[i] == QUOTE then i + 1
    else StringEnd(s, i + 1)
  }

  predicate InNumber(c: byte) {
    c == MINUS || c == PLUS || c == DOT || IsExponentMark(c) || IsDigit(c)
  }

  function NumberEnd(s: Bytes, i: nat): (end: nat)
    requires i <= |s|
    ensures i <= end <= |s|
    ensures i < |s| && InNumber(s[i]) ==> i < end
    decreases |s| - i
  {
    if i < |s| && InNumber(s[i]) then NumberEnd(s, i + 1) else i
  }

  /** What the scan answers from index i on with the given stacks. */
  function Scan(s: Bytes, i: nat, stacks: Stacks, readers: Readers): bool
    decreases |s| - i
  {
    if i >= |s| then true
    else
      var c := s[i];
      if c == OPEN_OBJECT then Scan(s, i + 1, stacks.OpenObject(), readers)
      else if c == OPEN_ARRAY then Scan(s, i + 1, stacks.OpenArray(), readers)
      else if c == CLOSE_OBJECT then Scan(s, i + 1, stacks.CloseObject(), readers)
      else if c == CLOSE_ARRAY then Scan(s, i + 1, stacks.CloseArray(), readers)
      else if c == COMMA then Scan(s, i + 1, stacks.AfterComma(), readers)
      else if c == COLON then Scan(s, i + 1, stacks.Expecting(false), readers)
      else if c == QUOTE then
        var end := StringEnd(s, i + 1);
        if !stacks.ExpectsKey() then Scan(s, end, stacks, readers)
        else if end > |s| then false
        else
          match readers.decode(s[i..end])
          case None => false
          case Some(key) => key !in stacks.LastKeys() && Scan(s, end, stacks.Key(key), readers)
      else if c == MINUS || IsDigit(c) then
        var end := NumberEnd(s, i);
        readers.survives(s[i..end]) && Scan(s, end, stacks, readers)
      else Scan(s, i + 1, stacks, readers)
  }

  /** The scanner as it runs: an index and two stacks, updated in place. */
  method FaithfulJson(text: Bytes, readers: Readers) returns (faithful: bool)
    ensures faithful == Scan(text, 0, Stacks([], []), readers)
  {
    var stacks := Stacks([], []);
    var index := 0;
    while index < |text|
      invariant Scan(text, 0, Stacks([], []), readers) == Scan(text, index, stacks, readers)
      decreases |text| - index
    {
      var c := text[index];
      if c == OPEN_OBJECT {
        stacks := stacks.OpenObject();
        index := index + 1;
      } else if c == OPEN_ARRAY {
        stacks := stacks.OpenArray();
        index := index + 1;
      } else if c == CLOSE_OBJECT {
        stacks := stacks.CloseObject();
        index := index + 1;
      } else if c == CLOSE_ARRAY {
        stacks := stacks.CloseArray();
        index := index + 1;
      } else if c == COMMA {
        stacks := stacks.AfterComma();
        index := index + 1;
      } else if c == COLON {
        stacks := stacks.Expecting(false);
        index := index + 1;
      } else if c == QUOTE {
        var start := index;
        index := SkipString(text, index + 1);
        if stacks.ExpectsKey() {
          if index > |text| {
            return false;
          }
          match readers.decode(text[start..index]) {
            case None => return false;
            case Some(key) => {
              if key in stacks.LastKeys() {
                return false;
              }
              stacks := stacks.Key(key);
            }
          }
        }
      } else if c == MINUS || IsDigit(c) {
        var start := index;
        index := SkipNumber(text, index);
        if !readers.survives(text[start..index]) {
          return false;
        }
      } else {
        index := index + 1;
      }
    }
    return true;
  }

  method SkipString(text: Bytes, from: nat) returns (index: nat)
    ensures index == StringEnd(text, from)
  {
    index := from;
    while index < |text|
      invariant StringEnd(text, from) == StringEnd(text, index)
      decreases |text| - index
    {
      var c := text[index];
      index := index + 1;
      if c == BACKSLASH {
        index := index + 1;
      } else if c == QUOTE {
        return;
      }
    }
  }

  method SkipNumber(text: Bytes, from: nat) returns (index: nat)
    requires from <= |text|
    ensures index == NumberEnd(text, from)
  {
    index := from;
    while index < |text| && InNumber(text[index])
      invariant from <= index <= |text|
      invariant NumberEnd(text, from) == NumberEnd(text, index)
    {
      index := index + 1;
    }
  }

  // JSON texts: the grammar of RFC 8259, with the white space written out.

  /** One character of a string: section 7. A character beyond ASCII is several plain bytes. */
  datatype StringPart = Plain(c: byte) | Short(c: byte) | Unicode(a: byte, b: byte, c: byte, d: byte)

  predicate IsHex(c: byte) {
    IsDigit(c) || 0x41 <= c <= 0x46 || 0x61 <= c <= 0x66
  }

  const SHORT_ESCAPES: set<byte> := {QUOTE, BACKSLASH, 0x2f, 0x62, 0x66, 0x6e, 0x72, 0x74}

  predicate ValidPart(part: StringPart) {
    match part
    case Plain(c) => c >= 0x20 && c != QUOTE && c != BACKSLASH
    case Short(c) => c in SHORT_ESCAPES
    case Unicode(a, b, c, d) => IsHex(a) && IsHex(b) && IsHex(c) && IsHex(d)
  }

  function PartText(part: StringPart): Bytes {
    match part
    case Plain(c) => [c]
    case Short(c) => [BACKSLASH, c]
    case Unicode(a, b, c, d) => [BACKSLASH, 0x75, a, b, c, d]
  }

  function PartsText(parts: seq<StringPart>): Bytes {
    if parts == [] then [] else PartText(parts[0]) + PartsText(parts[1..])
  }

  predicate ValidParts(parts: seq<StringPart>) {
    forall i :: 0 <= i < |parts| ==> ValidPart(parts[i])
  }

  function StringText(parts: seq<StringPart>): Bytes {
    [QUOTE] + (PartsText(parts) + [QUOTE])
  }

  /** A number: section 6. No digits after the point or the mark mean that part is absent. */
  datatype NumberLiteral = NumberLiteral(negative: bool, whole: Bytes, fraction: Bytes, mark: byte, sign: Bytes, exponent: Bytes)

  predicate Digits(s: Bytes) {
    forall i :: 0 <= i < |s| ==> IsDigit(s[i])
  }

  predicate ValidNumber(n: NumberLiteral) {
    && n.whole != [] && Digits(n.whole) && (|n.whole| > 1 ==> n.whole[0] != 0x30)
    && Digits(n.fraction) && Digits(n.exponent)
    && IsExponentMark(n.mark) && (n.sign == [] || n.sign == [PLUS] || n.sign == [MINUS])
  }

  function NumberText(n: NumberLiteral): Bytes {
    (if n.negative then [MINUS] else []) + n.whole
    + (if n.fraction == [] then [] else [DOT] + n.fraction)
    + (if n.exponent == [] then [] else [n.mark] + n.sign + n.exponent)
  }

  const TRUE: Bytes := [0x74, 0x72, 0x75, 0x65]
  const FALSE: Bytes := [0x66, 0x61, 0x6c, 0x73, 0x65]
  const NULL: Bytes := [0x6e, 0x75, 0x6c, 0x6c]

  /** A value: section 3 to 5. An empty array or object may hold white space of its own. */
  datatype Json =
    | Word(text: Bytes)
    | Number(number: NumberLiteral)
    | Str(parts: seq<StringPart>)
    | Array(inside: Bytes, items: seq<Padded>)
    | Object(inside: Bytes, members: seq<Member>)

  datatype Padded = Padded(before: Bytes, value: Json, after: Bytes)

  datatype Member = Member(before: Bytes, key: seq<StringPart>, after: Bytes, value: Padded)

  predicate IsSpace(s: Bytes) {
    forall i :: 0 <= i < |s| ==> s[i] == 0x20 || s[i] == 0x9 || s[i] == 0xa || s[i] == 0xd
  }

  predicate Valid(v: Json)
    decreases v, 0
  {
    match v
    case Word(text) => text == TRUE || text == FALSE || text == NULL
    case Number(n) => ValidNumber(n)
    case Str(parts) => ValidParts(parts)
    case Array(inside, items) => IsSpace(inside) && forall i :: 0 <= i < |items| ==> ValidPadded(items[i])
    case Object(inside, members) =>
      && IsSpace(inside)
      && forall i :: 0 <= i < |members| ==> ValidMember(members[i])
  }

  predicate ValidPadded(p: Padded)
    decreases p, 1
  {
    IsSpace(p.before) && IsSpace(p.after) && Valid(p.value)
  }

  predicate ValidMember(m: Member)
    decreases m, 2
  {
    IsSpace(m.before) && IsSpace(m.after) && ValidParts(m.key) && ValidPadded(m.value)
  }

  function Text(v: Json): Bytes
    decreases v, 0
  {
    match v
    case Word(text) => text
    case Number(n) => NumberText(n)
    case Str(parts) => StringText(parts)
    case Array(inside, items) => [OPEN_ARRAY] + (if items == [] then inside else ItemsText(items)) + [CLOSE_ARRAY]
    case Object(inside, members) => [OPEN_OBJECT] + (if members == [] then inside else MembersText(members)) + [CLOSE_OBJECT]
  }

  function PaddedText(p: Padded): Bytes
    decreases p, 1
  {
    p.before + (Text(p.value) + p.after)
  }

  function ItemsText(items: seq<Padded>): Bytes
    requires items != []
    decreases items, 2
  {
    if |items| == 1 then PaddedText(items[0]) else PaddedText(items[0]) + ([COMMA] + ItemsText(items[1..]))
  }

  function MemberText(m: Member): Bytes
    decreases m, 2
  {
    m.before + (StringText(m.key) + (m.after + ([COLON] + PaddedText(m.value))))
  }

  function MembersText(members: seq<Member>): Bytes
    requires members != []
    decreases members, 3
  {
    if |members| == 1 then MemberText(members[0]) else MemberText(members[0]) + ([COMMA] + MembersText(members[1..]))
  }

  // What the tree must satisfy.

  function KeyOf(m: Member, readers: Readers): Option<string> {
    readers.decode(StringText(m.key))
  }

  /** In every object the keys are decodable and pairwise distinct, and every number survives. */
  predicate Faithful(v: Json, readers: Readers)
    decreases v
  {
    match v
    case Word(_) => true
    case Number(n) => readers.survives(NumberText(n))
    case Str(_) => true
    case Array(_, items) => forall i :: 0 <= i < |items| ==> Faithful(items[i].value, readers)
    case Object(_, members) =>
      && (forall i :: 0 <= i < |members| ==> KeyOf(members[i], readers).Some?)
      && (forall i, j :: 0 <= i < j < |members| ==> KeyOf(members[i], readers) != KeyOf(members[j], readers))
      && (forall i :: 0 <= i < |members| ==> Faithful(members[i].value.value, readers))
  }

  // The scanner over each kind of text.

  /** A value may start here: in an object, its key has been read. */
  predicate AtValue(stacks: Stacks) {
    stacks.InObject() ==> !stacks.ExpectsKey()
  }

  /** A bracket, comma or colon only changes the stacks. */
  function AfterMark(c: byte, stacks: Stacks): Stacks {
    if c == OPEN_OBJECT then stacks.OpenObject()
    else if c == OPEN_ARRAY then stacks.OpenArray()
    else if c == CLOSE_OBJECT then stacks.CloseObject()
    else if c == CLOSE_ARRAY then stacks.CloseArray()
    else if c == COMMA then stacks.AfterComma()
    else stacks.Expecting(false)
  }

  lemma ScanMark(s: Bytes, i: nat, c: byte, stacks: Stacks, readers: Readers)
    requires Holds(s, i, [c])
    requires c == OPEN_OBJECT || c == OPEN_ARRAY || c == CLOSE_OBJECT || c == CLOSE_ARRAY || c == COMMA || c == COLON
    ensures s[i] == c
    ensures Scan(s, i, stacks, readers) == Scan(s, i + 1, AfterMark(c, stacks), readers)
  {
    HoldsAt(s, i, [c], 0);
  }

  lemma {:induction false} ScanSpace(s: Bytes, i: nat, space: Bytes, stacks: Stacks, readers: Readers)
    requires Holds(s, i, space) && IsSpace(space)
    ensures Scan(s, i, stacks, readers) == Scan(s, i + |space|, stacks, readers)
    decreases |space|
  {
    if space != [] {
      HoldsAt(s, i, space, 0);
      assert space == [space[0]] + space[1..];
      HoldsParts(s, i, [space[0]], space[1..]);
      ScanSpace(s, i + 1, space[1..], stacks, readers);
    }
  }

  lemma PartOver(s: Bytes, i: nat, part: StringPart)
    requires ValidPart(part) && Holds(s, i, PartText(part))
    ensures StringEnd(s, i) == StringEnd(s, i + |PartText(part)|)
  {
    HoldsAt(s, i, PartText(part), 0);
    if part.Unicode? {
      assert StringEnd(s, i) == StringEnd(s, i + 2);
      HoldsAt(s, i, PartText(part), 2);
      assert StringEnd(s, i + 2) == StringEnd(s, i + 3);
      HoldsAt(s, i, PartText(part), 3);
      assert StringEnd(s, i + 3) == StringEnd(s, i + 4);
      HoldsAt(s, i, PartText(part), 4);
      assert StringEnd(s, i + 4) == StringEnd(s, i + 5);
      HoldsAt(s, i, PartText(part), 5);
    }
  }

  lemma {:induction false} StringEndOver(s: Bytes, i: nat, parts: seq<StringPart>)
    requires ValidParts(parts) && Holds(s, i, PartsText(parts) + [QUOTE])
    ensures StringEnd(s, i) == i + |PartsText(parts)| + 1
    decreases |parts|
  {
    if parts == [] {
      HoldsAt(s, i, PartsText(parts) + [QUOTE], 0);
    } else {
      var head, rest := PartText(parts[0]), PartsText(parts[1..]) + [QUOTE];
      assert PartsText(parts) + [QUOTE] == head + rest;
      HoldsParts(s, i, head, rest);
      PartOver(s, i, parts[0]);
      StringEndOver(s, i + |head|, parts[1..]);
    }
  }

  lemma StringOver(s: Bytes, i: nat, parts: seq<StringPart>)
    requires ValidParts(parts) && Holds(s, i, StringText(parts))
    ensures s[i] == QUOTE && StringEnd(s, i + 1) == i + |StringText(parts)|
    ensures s[i..i + |StringText(parts)|] == StringText(parts)
  {
    HoldsParts(s, i, [QUOTE], PartsText(parts) + [QUOTE]);
    HoldsAt(s, i, [QUOTE], 0);
    StringEndOver(s, i + 1, parts);
    HoldsSlice(s, i, StringText(parts));
  }

  lemma ScanString(s: Bytes, i: nat, parts: seq<StringPart>, stacks: Stacks, readers: Readers)
    requires ValidParts(parts) && Holds(s, i, StringText(parts)) && AtValue(stacks)
    ensures Scan(s, i, stacks, readers) == Scan(s, i + |StringText(parts)|, stacks, readers)
  {
    StringOver(s, i, parts);
  }

  lemma {:induction false} NumberEndOver(s: Bytes, i: nat, text: Bytes)
    requires Holds(s, i, text) && forall k :: 0 <= k < |text| ==> InNumber(text[k])
    requires i + |text| == |s| || !InNumber(s[i + |text|])
    ensures NumberEnd(s, i) == i + |text|
    decreases |text|
  {
    if text != [] {
      HoldsAt(s, i, text, 0);
      assert text == [text[0]] + text[1..];
      HoldsParts(s, i, [text[0]], text[1..]);
      NumberEndOver(s, i + 1, text[1..]);
    }
  }

  lemma NumberIsOneRun(n: NumberLiteral)
    requires ValidNumber(n)
    ensures forall k :: 0 <= k < |NumberText(n)| ==> InNumber(NumberText(n)[k])
    ensures NumberText(n) != [] && (NumberText(n)[0] == MINUS || IsDigit(NumberText(n)[0]))
  {
    var head := (if n.negative then [MINUS] else []) + n.whole;
    var fraction := if n.fraction == [] then [] else [DOT] + n.fraction;
    var exponent := if n.exponent == [] then [] else [n.mark] + n.sign + n.exponent;
    assert forall k :: 0 <= k < |head| ==> InNumber(head[k]);
    assert forall k :: 0 <= k < |fraction| ==> InNumber(fraction[k]);
    assert forall k :: 0 <= k < |exponent| ==> InNumber(exponent[k]);
    assert NumberText(n) == head + fraction + exponent;
  }

  lemma ScanNumber(s: Bytes, i: nat, n: NumberLiteral, stacks: Stacks, readers: Readers)
    requires ValidNumber(n) && Holds(s, i, NumberText(n))
    requires i + |NumberText(n)| == |s| || !InNumber(s[i + |NumberText(n)|])
    ensures Scan(s, i, stacks, readers)
            == (readers.survives(NumberText(n)) && Scan(s, i + |NumberText(n)|, stacks, readers))
  {
    NumberIsOneRun(n);
    HoldsAt(s, i, NumberText(n), 0);
    NumberEndOver(s, i, NumberText(n));
    HoldsSlice(s, i, NumberText(n));
  }

  lemma ScanWord(s: Bytes, i: nat, word: Bytes, stacks: Stacks, readers: Readers)
    requires Valid(Word(word)) && Holds(s, i, word)
    ensures Scan(s, i, stacks, readers) == Scan(s, i + |word|, stacks, readers)
  {
    ScanLetters(s, i, word, stacks, readers);
  }

  lemma {:induction false} ScanLetters(s: Bytes, i: nat, word: Bytes, stacks: Stacks, readers: Readers)
    requires Holds(s, i, word) && forall k :: 0 <= k < |word| ==> 0x61 <= word[k] <= 0x7a
    ensures Scan(s, i, stacks, readers) == Scan(s, i + |word|, stacks, readers)
    decreases |word|
  {
    if word != [] {
      HoldsAt(s, i, word, 0);
      assert word == [word[0]] + word[1..];
      HoldsParts(s, i, [word[0]], word[1..]);
      ScanLetters(s, i + 1, word[1..], stacks, readers);
    }
  }

  /** What follows a value in a valid text does not continue a number. */
  predicate EndsValue(s: Bytes, i: nat) {
    i == |s| || (i < |s| && !InNumber(s[i]))
  }

  lemma {:induction false} ScanValue(s: Bytes, i: nat, v: Json, stacks: Stacks, readers: Readers)
    requires Valid(v) && Holds(s, i, Text(v)) && AtValue(stacks) && EndsValue(s, i + |Text(v)|)
    ensures Scan(s, i, stacks, readers) == (Faithful(v, readers) && Scan(s, i + |Text(v)|, stacks, readers))
    decreases v, 9
  {
    match v
    case Word(text) => ScanWord(s, i, text, stacks, readers);
    case Number(n) => ScanNumber(s, i, n, stacks, readers);
    case Str(parts) => ScanString(s, i, parts, stacks, readers);
    case Array(inside, items) => ScanArray(s, i, v, stacks, readers);
    case Object(inside, members) => ScanObject(s, i, v, stacks, readers);
  }

  lemma PaddedParts(s: Bytes, i: nat, p: Padded)
    requires IsSpace(p.after) && Holds(s, i, PaddedText(p)) && EndsValue(s, i + |PaddedText(p)|)
    ensures var a := i + |p.before|;
            var b := a + |Text(p.value)|;
            Holds(s, i, p.before) && Holds(s, a, Text(p.value)) && Holds(s, b, p.after) && EndsValue(s, b)
            && b + |p.after| == i + |PaddedText(p)|
  {
    HoldsParts(s, i, p.before, Text(p.value) + p.after);
    HoldsParts(s, i + |p.before|, Text(p.value), p.after);
    if p.after != [] { HoldsAt(s, i + |p.before| + |Text(p.value)|, p.after, 0); }
  }

  lemma {:induction false} ScanPadded(s: Bytes, i: nat, p: Padded, stacks: Stacks, readers: Readers)
    requires ValidPadded(p) && Holds(s, i, PaddedText(p)) && AtValue(stacks) && EndsValue(s, i + |PaddedText(p)|)
    ensures Scan(s, i, stacks, readers) == (Faithful(p.value, readers) && Scan(s, i + |PaddedText(p)|, stacks, readers))
    decreases p, 1
  {
    PaddedParts(s, i, p);
    ScanSpace(s, i, p.before, stacks, readers);
    ScanValue(s, i + |p.before|, p.value, stacks, readers);
    ScanSpace(s, i + |p.before| + |Text(p.value)|, p.after, stacks, readers);
  }

  function ArrayBody(v: Json): Bytes
    requires v.Array?
  {
    if v.items == [] then v.inside else ItemsText(v.items)
  }

  lemma {:induction false} ScanArray(s: Bytes, i: nat, v: Json, stacks: Stacks, readers: Readers)
    requires v.Array? && Valid(v) && Holds(s, i, Text(v))
    ensures Scan(s, i, stacks, readers) == (Faithful(v, readers) && Scan(s, i + |Text(v)|, stacks, readers))
    decreases v.items, 5
  {
    var body, inner := ArrayBody(v), stacks.OpenArray();
    HoldsParts(s, i, [OPEN_ARRAY] + body, [CLOSE_ARRAY]);
    HoldsParts(s, i, [OPEN_ARRAY], body);
    HoldsAt(s, i + 1 + |body|, [CLOSE_ARRAY], 0);
    ScanMark(s, i, OPEN_ARRAY, stacks, readers);
    ScanMark(s, i + 1 + |body|, CLOSE_ARRAY, inner, readers);
    assert inner.CloseArray() == stacks;
    ScanArrayBody(s, i + 1, v, inner, readers);
  }

  lemma {:induction false} ScanArrayBody(s: Bytes, i: nat, v: Json, inner: Stacks, readers: Readers)
    requires v.Array? && Valid(v) && Holds(s, i, ArrayBody(v)) && !inner.InObject()
    requires var end := i + |ArrayBody(v)|; end < |s| && s[end] == CLOSE_ARRAY
    ensures Scan(s, i, inner, readers) == (Faithful(v, readers) && Scan(s, i + |ArrayBody(v)|, inner, readers))
    decreases v.items, 4
  {
    if v.items == [] {
      ScanSpace(s, i, v.inside, inner, readers);
    } else {
      ScanItems(s, i, v.items, inner, readers);
    }
  }

  lemma {:induction false} ScanItemThenComma(s: Bytes, i: nat, item: Padded, stacks: Stacks, readers: Readers)
    requires ValidPadded(item) && !stacks.InObject()
    requires Holds(s, i, PaddedText(item)) && Holds(s, i + |PaddedText(item)|, [COMMA])
    ensures Scan(s, i, stacks, readers)
            == (Faithful(item.value, readers) && Scan(s, i + |PaddedText(item)| + 1, stacks, readers))
    decreases item, 2
  {
    ScanMark(s, i + |PaddedText(item)|, COMMA, stacks, readers);
    ScanPadded(s, i, item, stacks, readers);
  }

  predicate AllFaithful(items: seq<Padded>, readers: Readers) {
    forall k :: 0 <= k < |items| ==> Faithful(items[k].value, readers)
  }

  lemma {:induction false} ScanItems(s: Bytes, i: nat, items: seq<Padded>, stacks: Stacks, readers: Readers)
    requires items != [] && forall k :: 0 <= k < |items| ==> ValidPadded(items[k])
    requires Holds(s, i, ItemsText(items)) && !stacks.InObject()
    requires var end := i + |ItemsText(items)|; end < |s| && s[end] == CLOSE_ARRAY
    ensures Scan(s, i, stacks, readers) == (AllFaithful(items, readers) && Scan(s, i + |ItemsText(items)|, stacks, readers))
    decreases items, 3
  {
    if |items| == 1 {
      ScanPadded(s, i, items[0], stacks, readers);
    } else {
      var first, rest := PaddedText(items[0]), items[1..];
      HoldsParts(s, i, first, [COMMA] + ItemsText(rest));
      HoldsParts(s, i + |first|, [COMMA], ItemsText(rest));
      ScanItemThenComma(s, i, items[0], stacks, readers);
      ScanItems(s, i + |first| + 1, rest, stacks, readers);
      assert AllFaithful(items, readers) == (Faithful(items[0].value, readers) && AllFaithful(rest, readers)) by {
        assert forall k :: 1 <= k < |items| ==> items[k] == rest[k - 1];
        assert forall k :: 0 <= k < |rest| ==> rest[k] == items[k + 1];
      }
    }
  }

  /** Inside an object that has shown some keys. */
  function Inside(stacks: Stacks, keys: set<string>, expecting: bool): Stacks {
    Stacks(stacks.objects + [(keys, expecting)], stacks.containers + [OPEN_OBJECT])
  }

  /** The members are faithful and their keys new, given the keys shown before. */
  predicate FaithfulFrom(members: seq<Member>, keys: set<string>, readers: Readers) {
    if members == [] then true
    else
      var key := KeyOf(members[0], readers);
      && key.Some? && key.value !in keys && Faithful(members[0].value.value, readers)
      && FaithfulFrom(members[1..], keys + {key.value}, readers)
  }

  function KeysFrom(members: seq<Member>, keys: set<string>, readers: Readers): set<string> {
    if members == [] then keys
    else
      var key := KeyOf(members[0], readers);
      KeysFrom(members[1..], if key.Some? then keys + {key.value} else keys, readers)
  }

  lemma {:induction false} FaithfulFromMeaning(members: seq<Member>, keys: set<string>, readers: Readers)
    ensures FaithfulFrom(members, keys, readers) <==>
              && (forall i :: 0 <= i < |members| ==> KeyOf(members[i], readers).Some? && KeyOf(members[i], readers).value !in keys)
              && (forall i, j :: 0 <= i < j < |members| ==> KeyOf(members[i], readers) != KeyOf(members[j], readers))
              && (forall i :: 0 <= i < |members| ==> Faithful(members[i].value.value, readers))
  {
    if members != [] {
      var key, rest := KeyOf(members[0], readers), members[1..];
      assert forall i :: 0 < i < |members| ==> members[i] == rest[i - 1];
      assert forall i :: 0 <= i < |rest| ==> rest[i] == members[i + 1];
      if key.Some? {
        FaithfulFromMeaning(rest, keys + {key.value}, readers);
      }
    }
  }

  function ObjectBody(v: Json): Bytes
    requires v.Object?
  {
    if v.members == [] then v.inside else MembersText(v.members)
  }

  lemma {:induction false} ScanObject(s: Bytes, i: nat, v: Json, stacks: Stacks, readers: Readers)
    requires v.Object? && Valid(v) && Holds(s, i, Text(v))
    ensures Scan(s, i, stacks, readers) == (Faithful(v, readers) && Scan(s, i + |Text(v)|, stacks, readers))
    decreases v.members, 6
  {
    var body := ObjectBody(v);
    HoldsParts(s, i, [OPEN_OBJECT] + body, [CLOSE_OBJECT]);
    HoldsParts(s, i, [OPEN_OBJECT], body);
    ScanMark(s, i, OPEN_OBJECT, stacks, readers);
    assert stacks.OpenObject() == Inside(stacks, {}, true);
    ScanObjectBody(s, i + 1, v, stacks, readers);
  }

  lemma {:induction false} ScanObjectBody(s: Bytes, i: nat, v: Json, stacks: Stacks, readers: Readers)
    requires v.Object? && Valid(v) && Holds(s, i, ObjectBody(v)) && Holds(s, i + |ObjectBody(v)|, [CLOSE_OBJECT])
    ensures Scan(s, i, Inside(stacks, {}, true), readers)
         == (Faithful(v, readers) && Scan(s, i + |ObjectBody(v)| + 1, stacks, readers))
    decreases v.members, 5
  {
    var end := i + |ObjectBody(v)|;
    if v.members == [] {
      ScanSpace(s, i, v.inside, Inside(stacks, {}, true), readers);
      ScanMark(s, end, CLOSE_OBJECT, Inside(stacks, {}, true), readers);
      CloseInside(stacks, {}, true);
    } else {
      var keys := KeysFrom(v.members, {}, readers);
      ScanMark(s, end, CLOSE_OBJECT, Inside(stacks, keys, false), readers);
      ScanMembers(s, i, v.members, stacks, {}, readers);
      CloseInside(stacks, keys, false);
      ObjectMeaning(v, readers);
    }
  }

  lemma CloseInside(stacks: Stacks, keys: set<string>, expecting: bool)
    ensures AfterMark(CLOSE_OBJECT, Inside(stacks, keys, expecting)) == stacks
  {
  }

  lemma ObjectMeaning(v: Json, readers: Readers)
    requires v.Object?
    ensures Faithful(v, readers) <==> FaithfulFrom(v.members, {}, readers)
  {
    FaithfulFromMeaning(v.members, {}, readers);
  }

  /** A key in its place is decoded, must be new, and is then known. */
  lemma ScanKey(s: Bytes, i: nat, m: Member, stacks: Stacks, keys: set<string>, readers: Readers)
    requires ValidParts(m.key) && Holds(s, i, StringText(m.key))
    ensures var key := KeyOf(m, readers);
            Scan(s, i, Inside(stacks, keys, true), readers)
            == (key.Some? && key.value !in keys && Scan(s, i + |StringText(m.key)|, Inside(stacks, keys + {key.value}, true), readers))
  {
    StringOver(s, i, m.key);
    var key := KeyOf(m, readers);
    if key.Some? {
      assert Inside(stacks, keys, true).Key(key.value) == Inside(stacks, keys + {key.value}, true);
    }
  }

  /** White space, the colon and the value. */
  lemma {:induction false} ScanAfterKey(s: Bytes, i: nat, m: Member, stacks: Stacks, keys: set<string>, readers: Readers)
    requires IsSpace(m.after) && ValidPadded(m.value)
    requires Holds(s, i, m.after + ([COLON] + PaddedText(m.value)))
    requires EndsValue(s, i + |m.after| + 1 + |PaddedText(m.value)|)
    ensures Scan(s, i, Inside(stacks, keys, true), readers)
            == (Faithful(m.value.value, readers)
                && Scan(s, i + |m.after| + 1 + |PaddedText(m.value)|, Inside(stacks, keys, false), readers))
    decreases m, 1
  {
    HoldsParts(s, i, m.after, [COLON] + PaddedText(m.value));
    var c := i + |m.after|;
    HoldsParts(s, c, [COLON], PaddedText(m.value));
    ScanSpace(s, i, m.after, Inside(stacks, keys, true), readers);
    ScanMark(s, c, COLON, Inside(stacks, keys, true), readers);
    assert AfterMark(COLON, Inside(stacks, keys, true)) == Inside(stacks, keys, false);
    ScanPadded(s, c + 1, m.value, Inside(stacks, keys, false), readers);
  }

  lemma {:induction false} ScanMember(s: Bytes, i: nat, m: Member, stacks: Stacks, keys: set<string>, readers: Readers)
    requires IsSpace(m.before) && IsSpace(m.after) && ValidParts(m.key) && ValidPadded(m.value)
    requires Holds(s, i, MemberText(m)) && EndsValue(s, i + |MemberText(m)|)
    ensures var key := KeyOf(m, readers);
            Scan(s, i, Inside(stacks, keys, true), readers)
            == (key.Some? && key.value !in keys && Faithful(m.value.value, readers)
                && Scan(s, i + |MemberText(m)|, Inside(stacks, keys + {key.value}, false), readers))
    decreases m, 2
  {
    var name := StringText(m.key);
    HoldsParts(s, i, m.before, name + (m.after + ([COLON] + PaddedText(m.value))));
    var a := i + |m.before|;
    HoldsParts(s, a, name, m.after + ([COLON] + PaddedText(m.value)));
    ScanSpace(s, i, m.before, Inside(stacks, keys, true), readers);
    ScanKey(s, a, m, stacks, keys, readers);
    var key := KeyOf(m, readers);
    if key.Some? {
      ScanAfterKey(s, a + |name|, m, stacks, keys + {key.value}, readers);
    }
  }

  /** A member, and the comma that brings the next key. */
  lemma {:induction false} ScanMemberThenComma(s: Bytes, i: nat, m: Member, stacks: Stacks, keys: set<string>, readers: Readers)
    requires ValidMember(m) && Holds(s, i, MemberText(m)) && Holds(s, i + |MemberText(m)|, [COMMA])
    ensures var key := KeyOf(m, readers);
            Scan(s, i, Inside(stacks, keys, true), readers)
            == (key.Some? && key.value !in keys && Faithful(m.value.value, readers)
                && Scan(s, i + |MemberText(m)| + 1, Inside(stacks, keys + {key.value}, true), readers))
    decreases m, 3
  {
    HoldsAt(s, i + |MemberText(m)|, [COMMA], 0);
    ScanMember(s, i, m, stacks, keys, readers);
    var key := KeyOf(m, readers);
    if key.Some? {
      ScanMark(s, i + |MemberText(m)|, COMMA, Inside(stacks, keys + {key.value}, false), readers);
      assert AfterMark(COMMA, Inside(stacks, keys + {key.value}, false)) == Inside(stacks, keys + {key.value}, true);
    }
  }

  lemma {:induction false} ScanMembers(s: Bytes, i: nat, members: seq<Member>, stacks: Stacks, keys: set<string>, readers: Readers)
    requires members != []
    requires forall k :: 0 <= k < |members| ==> ValidMember(members[k])
    requires Holds(s, i, MembersText(members))
    requires var end := i + |MembersText(members)|; end < |s| && s[end] == CLOSE_OBJECT
    ensures Scan(s, i, Inside(stacks, keys, true), readers)
            == (FaithfulFrom(members, keys, readers)
                && Scan(s, i + |MembersText(members)|, Inside(stacks, KeysFrom(members, keys, readers), false), readers))
    decreases members, 4
  {
    if |members| == 1 {
      ScanMember(s, i, members[0], stacks, keys, readers);
      LastMember(members, keys, readers);
    } else {
      MembersParts(s, i, members);
      ScanMemberThenComma(s, i, members[0], stacks, keys, readers);
      var key := KeyOf(members[0], readers);
      if key.Some? {
        ScanMembers(s, i + |MemberText(members[0])| + 1, members[1..], stacks, keys + {key.value}, readers);
      }
    }
  }

  lemma LastMember(members: seq<Member>, keys: set<string>, readers: Readers)
    requires |members| == 1
    ensures var key := KeyOf(members[0], readers);
            && FaithfulFrom(members, keys, readers) == (key.Some? && key.value !in keys && Faithful(members[0].value.value, readers))
            && (key.Some? ==> KeysFrom(members, keys, readers) == keys + {key.value})
  {
    assert members[1..] == [];
  }

  lemma MembersParts(s: Bytes, i: nat, members: seq<Member>)
    requires |members| > 1 && Holds(s, i, MembersText(members))
    ensures var a := i + |MemberText(members[0])|;
            && Holds(s, i, MemberText(members[0])) && Holds(s, a, [COMMA]) && Holds(s, a + 1, MembersText(members[1..]))
            && a + 1 + |MembersText(members[1..])| == i + |MembersText(members)|
  {
    var first, rest := MemberText(members[0]), members[1..];
    HoldsParts(s, i, first, [COMMA] + MembersText(rest));
    HoldsParts(s, i + |first|, [COMMA], MembersText(rest));
  }

  /** For every valid JSON text, with any white space and any nesting, the scanner says yes exactly when in its tree
      every object's keys are decodable and pairwise distinct and every number survives. */
  lemma ScannerMatchesTree(text: Padded, readers: Readers)
    requires ValidPadded(text)
    ensures Scan(PaddedText(text), 0, Stacks([], []), readers) <==> Faithful(text.value, readers)
  {
    ScanPadded(PaddedText(text), 0, text, Stacks([], []), readers);
  }

  // What surviving means for whole numbers.

  function Magnitude(whole: Bytes): int
    requires Digits(whole)
    ensures Magnitude(whole) >= 0
  {
    if whole == [] then 0 else 10 * Magnitude(whole[..|whole| - 1]) + (whole[|whole| - 1] - 0x30)
  }

  lemma {:induction false} DecimalIsMagnitude(whole: Bytes)
    requires Digits(whole)
    ensures Decimal(whole) == Some(Magnitude(whole))
  {
    if whole != [] { DecimalIsMagnitude(whole[..|whole| - 1]); }
  }

  lemma NoPointOrMark(n: NumberLiteral)
    requires ValidNumber(n) && n.fraction == [] && n.exponent == []
    ensures NumberText(n) == (if n.negative then [MINUS] else []) + n.whole
    ensures forall i :: 0 <= i < |NumberText(n)| ==> NumberText(n)[i] != DOT && !IsExponentMark(NumberText(n)[i])
  {
    var text := (if n.negative then [MINUS] else []) + n.whole;
    assert NumberText(n) == text;
    assert forall i :: 0 <= i < |text| ==> text[i] == MINUS || IsDigit(text[i]);
  }

  lemma WholeNumberReads(text: Bytes, negative: bool, whole: Bytes, low: int, high: int)
    requires whole != [] && Digits(whole) && text == (if negative then [MINUS] else []) + whole
    ensures ReadsAsInteger(text, true, low, high) <==> low <= (if negative then -Magnitude(whole) else Magnitude(whole)) <= high
    ensures ReadsAsInteger(text, false, low, high) <==> !negative && low <= Magnitude(whole) <= high
  {
    DecimalIsMagnitude(whole);
    if negative {
      assert text[1..] == whole;
      NoMinusInDecimal(text);
    } else {
      assert text == whole && IsDigit(text[0]);
    }
  }

  /** A whole number survives exactly when its value fits a signed or an unsigned 64-bit integer. */
  lemma WholeNumberSurvives(n: NumberLiteral, finite: Bytes -> bool)
    requires ValidNumber(n) && n.fraction == [] && n.exponent == []
    ensures NumberSurvives(NumberText(n), finite)
            <==> -0x8000_0000_0000_0000 <= (if n.negative then -Magnitude(n.whole) else Magnitude(n.whole)) <= 0xffff_ffff_ffff_ffff
  {
    NoPointOrMark(n);
    WholeNumberReads(NumberText(n), n.negative, n.whole, -0x8000_0000_0000_0000, 0x7fff_ffff_ffff_ffff);
    WholeNumberReads(NumberText(n), n.negative, n.whole, 0, 0xffff_ffff_ffff_ffff);
  }

  lemma {:induction false} NoMinusInDecimal(digits: Bytes)
    requires digits != [] && digits[0] == MINUS
    ensures Decimal(digits).None?
  {
    if |digits| > 1 { NoMinusInDecimal(digits[..|digits| - 1]); }
  }
}
