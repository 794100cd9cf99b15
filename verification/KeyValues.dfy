/** The reader of `key=value` connection strings: crates/ownpg-core/src/config/libpq.rs. */
module KeyValues {
  import opened Basics

  datatype Fault =
    | ExpectedPair          // no '=' after a key
    | EndedInEscape         // a bare value ended inside an escape
    | QuotedEndedInEscape
    | NoClosingQuote
    | EmptyKey

  // Key and value pairs.

  type Pairs = map<string, string>

  function SkipSpace(s: string, i: nat): (next: nat)
    requires i <= |s|
    ensures i <= next <= |s|
    ensures next < |s| ==> !IsWhitespace(s[next])
    decreases |s| - i
  {
    if i < |s| && IsWhitespace(s[i]) then SkipSpace(s, i + 1) else i
  }

  function KeyEnd(s: string, i: nat): (end: nat)
    requires i <= |s|
    ensures i <= end <= |s|
    decreases |s| - i
  {
    if i == |s| || s[i] == '=' || IsWhitespace(s[i]) then i else KeyEnd(s, i + 1)
  }

  /** A value read from the text, and the index after it. */
  type Reading = Result<(string, nat), Fault>

  function Before(c: char, reading: Reading): (r: Reading)
    ensures r.Ok? <==> reading.Ok?
    ensures r.Ok? ==> r.value == ([c] + reading.value.0, reading.value.1)
    ensures r.Err? ==> r.error == reading.error
  {
    match reading
    case Ok((value, next)) => Ok(([c] + value, next))
    case Err(fault) => Err(fault)
  }

  function After(read: string, reading: Reading): (r: Reading)
    ensures r.Ok? <==> reading.Ok?
    ensures r.Ok? ==> r.value == (read + reading.value.0, reading.value.1)
    ensures r.Err? ==> r.error == reading.error
  {
    match reading
    case Ok((value, next)) => Ok((read + value, next))
    case Err(fault) => Err(fault)
  }

  lemma AfterBefore(read: string, c: char, reading: Reading)
    ensures After(read, Before(c, reading)) == After(read + [c], reading)
    ensures After([], reading) == reading
  {
    if reading.Ok? {
      assert read + ([c] + reading.value.0) == read + [c] + reading.value.0;
      assert [] + reading.value.0 == reading.value.0;
    }
  }

  /** A quoted value after its opening quote; a backslash takes the next character as it is. */
  function QuotedValue(s: string, i: nat): (r: Reading)
    requires i <= |s|
    ensures r.Ok? ==> i < r.value.1 <= |s|
    decreases |s| - i
  {
    if i == |s| then Err(NoClosingQuote)
    else if s[i] == '\\' then (if i + 1 == |s| then Err(QuotedEndedInEscape) else Before(s[i + 1], QuotedValue(s, i + 2)))
    else if s[i] == '\'' then Ok(("", i + 1))
    else Before(s[i], QuotedValue(s, i + 1))
  }

  /** A bare value ends at white space. */
  function BareValue(s: string, i: nat): (r: Reading)
    requires i <= |s|
    ensures r.Ok? ==> i <= r.value.1 <= |s|
    decreases |s| - i
  {
    if i == |s| || IsWhitespace(s[i]) then Ok(("", i))
    else if s[i] == '\\' then (if i + 1 == |s| then Err(EndedInEscape) else Before(s[i + 1], BareValue(s, i + 2)))
    else Before(s[i], BareValue(s, i + 1))
  }

  function ValueAt(s: string, i: nat): (r: Reading)
    requires i <= |s|
    ensures r.Ok? ==> i <= r.value.1 <= |s|
  {
    if i < |s| && s[i] == '\'' then QuotedValue(s, i + 1) else BareValue(s, i)
  }

  /** What is read after a key and its equals sign. */
  function AfterKey(s: string, eq: nat, key: string): (r: Result<Option<(string, string, nat)>, Fault>)
    requires eq < |s|
    ensures r.Ok? && r.value.Some? ==> eq < r.value.value.2 <= |s|
  {
    var value := ValueAt(s, SkipSpace(s, eq + 1));
    if value.Err? then Err(value.error)
    else if key == [] then Err(EmptyKey)
    else Ok(Some((key, value.value.0, value.value.1)))
  }

  /** The key and value at i and the index after them; none at the end of the text. */
  function PairAt(s: string, i: nat): (r: Result<Option<(string, string, nat)>, Fault>)
    requires i <= |s|
    ensures r.Ok? && r.value.Some? ==> i < r.value.value.2 <= |s|
  {
    var start := SkipSpace(s, i);
    if start == |s| then Ok(None)
    else
      var end := KeyEnd(s, start);
      var eq := SkipSpace(s, end);
      if eq == |s| || s[eq] != '=' then Err(ExpectedPair) else AfterKey(s, eq, s[start..end])
  }

  /** What the reader makes of the text from i on, given the pairs read so far. */
  function PairsFrom(s: string, i: nat, pairs: Pairs): Result<Pairs, Fault>
    requires i <= |s|
    decreases |s| - i
  {
    match PairAt(s, i)
    case Err(fault) => Err(fault)
    case Ok(None) => Ok(pairs)
    case Ok(Some((key, value, next))) => PairsFrom(s, next, pairs[key := value])
  }

  method SkipSpaces(s: string, from: nat) returns (i: nat)
    requires from <= |s|
    ensures i == SkipSpace(s, from)
  {
    i := from;
    while i < |s| && IsWhitespace(s[i])
      invariant from <= i <= |s|
      invariant SkipSpace(s, from) == SkipSpace(s, i)
    {
      i := i + 1;
    }
  }

  method ReadQuoted(s: string, from: nat) returns (r: Reading)
    requires from <= |s|
    ensures r == QuotedValue(s, from)
  {
    var i := from;
    var value := "";
    AfterBefore(value, ' ', QuotedValue(s, i));
    while true
      invariant from <= i <= |s|
      invariant QuotedValue(s, from) == After(value, QuotedValue(s, i))
      decreases |s| - i
    {
      if i == |s| {
        return Err(NoClosingQuote);
      }
      var c := s[i];
      i := i + 1;
      if c == '\\' {
        if i == |s| {
          return Err(QuotedEndedInEscape);
        }
        AfterBefore(value, s[i], QuotedValue(s, i + 1));
        value := value + [s[i]];
        i := i + 1;
      } else if c == '\'' {
        assert value + "" == value;
        return Ok((value, i));
      } else {
        AfterBefore(value, c, QuotedValue(s, i));
        value := value + [c];
      }
    }
  }

  method ReadBare(s: string, from: nat) returns (r: Reading)
    requires from <= |s|
    ensures r == BareValue(s, from)
  {
    var i := from;
    var value := "";
    AfterBefore(value, ' ', BareValue(s, i));
    while i < |s|
      invariant from <= i <= |s|
      invariant BareValue(s, from) == After(value, BareValue(s, i))
    {
      var c := s[i];
      if IsWhitespace(c) {
        break;
      }
      i := i + 1;
      if c == '\\' {
        if i == |s| {
          return Err(EndedInEscape);
        }
        AfterBefore(value, s[i], BareValue(s, i + 1));
        value := value + [s[i]];
        i := i + 1;
      } else {
        AfterBefore(value, c, BareValue(s, i));
        value := value + [c];
      }
    }
    assert value + "" == value;
    return Ok((value, i));
  }

  method ReadKey(text: string, from: nat) returns (end: nat)
    requires from <= |text|
    ensures end == KeyEnd(text, from)
  {
    end := from;
    while end < |text| && text[end] != '=' && !IsWhitespace(text[end])
      invariant from <= end <= |text|
      invariant KeyEnd(text, from) == KeyEnd(text, end)
    {
      end := end + 1;
    }
  }

  method ReadValue(text: string, at: nat) returns (value: Reading)
    requires at <= |text|
    ensures value == ValueAt(text, at)
  {
    if at < |text| && text[at] == '\'' {
      value := ReadQuoted(text, at + 1);
    } else {
      value := ReadBare(text, at);
    }
  }

  method ReadPair(text: string, from: nat) returns (r: Result<Option<(string, string, nat)>, Fault>)
    requires from <= |text|
    ensures r == PairAt(text, from)
  {
    var start := SkipSpaces(text, from);
    if start == |text| {
      return Ok(None);
    }
    var end := ReadKey(text, start);
    var eq := SkipSpaces(text, end);
    if eq == |text| || text[eq] != '=' {
      return Err(ExpectedPair);
    }
    r := ReadAfterKey(text, eq, text[start..end]);
  }

  method ReadAfterKey(text: string, eq: nat, key: string) returns (r: Result<Option<(string, string, nat)>, Fault>)
    requires eq < |text|
    ensures r == AfterKey(text, eq, key)
  {
    var at := SkipSpaces(text, eq + 1);
    var value := ReadValue(text, at);
    if value.Err? {
      return Err(value.error);
    }
    if key == [] {
      return Err(EmptyKey);
    }
    return Ok(Some((key, value.value.0, value.value.1)));
  }

  method ParseKeyValues(text: string) returns (r: Result<Pairs, Fault>)
    ensures r == PairsFrom(text, 0, map[])
  {
    var pairs: Pairs := map[];
    var i := 0;
    while true
      invariant 0 <= i <= |text|
      invariant PairsFrom(text, 0, map[]) == PairsFrom(text, i, pairs)
      decreases |text| - i
    {
      var pair := ReadPair(text, i);
      match pair
      case Err(fault) => return Err(fault);
      case Ok(None) => return Ok(pairs);
      case Ok(Some((key, value, next))) => {
        pairs := pairs[key := value];
        i := next;
      }
    }
  }

  // Printing pairs as section 34.1.1 of the PostgreSQL 16 documentation describes, with free white space.

  datatype Item = Item(before: string, key: string, beforeEq: string, afterEq: string, value: string, quoted: bool)

  predicate AllSpace(s: string) {
    forall i :: 0 <= i < |s| ==> IsWhitespace(s[i])
  }

  predicate KeyText(s: string) {
    s != [] && forall i :: 0 <= i < |s| ==> s[i] != '=' && !IsWhitespace(s[i])
  }

  predicate NeedsEscape(c: char, quoted: bool) {
    c == '\\' || c == '\'' || (!quoted && IsWhitespace(c))
  }

  function EscapedValue(value: string, quoted: bool): string {
    if value == [] then []
    else (if NeedsEscape(value[0], quoted) then ['\\', value[0]] else [value[0]]) + EscapedValue(value[1..], quoted)
  }

  function ValueText(item: Item): string {
    if item.quoted then "'" + EscapedValue(item.value, true) + "'" else EscapedValue(item.value, false)
  }

  function FromEq(item: Item): string {
    "=" + (item.afterEq + ValueText(item))
  }

  function ItemText(item: Item): string {
    item.before + (item.key + (item.beforeEq + FromEq(item)))
  }

  function ItemsText(items: seq<Item>, trailing: string): string {
    if items == [] then trailing else ItemText(items[0]) + ItemsText(items[1..], trailing)
  }

  predicate Printable(items: seq<Item>) {
    && (forall i :: 0 <= i < |items| ==> var item := items[i];
        && AllSpace(item.before) && AllSpace(item.beforeEq) && AllSpace(item.afterEq)
        && KeyText(item.key)
        && (item.value == [] ==> item.quoted))
    && (forall i :: 0 < i < |items| && !items[i - 1].quoted ==> items[i].before != [])
  }

  function PairsOf(items: seq<Item>, pairs: Pairs): Pairs {
    if items == [] then pairs else PairsOf(items[1..], pairs[items[0].key := items[0].value])
  }

  lemma {:induction false} SkipSpaceOver(s: string, i: nat, space: string)
    requires Holds(s, i, space) && AllSpace(space)
    requires i + |space| == |s| || !IsWhitespace(s[i + |space|])
    ensures SkipSpace(s, i) == i + |space|
    decreases |space|
  {
    if space != [] {
      HoldsAt(s, i, space, 0);
      assert space == [space[0]] + space[1..];
      HoldsParts(s, i, [space[0]], space[1..]);
      SkipSpaceOver(s, i + 1, space[1..]);
    }
  }

  lemma {:induction false} KeyEndOver(s: string, i: nat, key: string)
    requires Holds(s, i, key)
    requires forall k :: 0 <= k < |key| ==> key[k] != '=' && !IsWhitespace(key[k])
    requires i + |key| < |s| && (s[i + |key|] == '=' || IsWhitespace(s[i + |key|]))
    ensures KeyEnd(s, i) == i + |key|
    decreases |key|
  {
    if key != [] {
      HoldsAt(s, i, key, 0);
      assert key == [key[0]] + key[1..];
      HoldsParts(s, i, [key[0]], key[1..]);
      KeyEndOver(s, i + 1, key[1..]);
    }
  }

  lemma EscapedValueParts(s: string, i: nat, value: string, quoted: bool)
    requires value != [] && Holds(s, i, EscapedValue(value, quoted))
    ensures NeedsEscape(value[0], quoted) ==>
      i + 1 < |s| && s[i] == '\\' && s[i + 1] == value[0] && Holds(s, i + 2, EscapedValue(value[1..], quoted))
    ensures !NeedsEscape(value[0], quoted) ==>
      i < |s| && s[i] == value[0] && Holds(s, i + 1, EscapedValue(value[1..], quoted))
    ensures |EscapedValue(value, quoted)|
         == (if NeedsEscape(value[0], quoted) then 2 else 1) + |EscapedValue(value[1..], quoted)|
  {
    var head := if NeedsEscape(value[0], quoted) then ['\\', value[0]] else [value[0]];
    HoldsParts(s, i, head, EscapedValue(value[1..], quoted));
    HoldsAt(s, i, head, 0);
    HoldsAt(s, i, head, |head| - 1);
  }

  lemma {:induction false} QuotedValueOver(s: string, i: nat, value: string)
    requires Holds(s, i, EscapedValue(value, true))
    requires i + |EscapedValue(value, true)| < |s| && s[i + |EscapedValue(value, true)|] == '\''
    ensures QuotedValue(s, i) == Ok((value, i + |EscapedValue(value, true)| + 1))
    decreases |value|
  {
    if value != [] {
      EscapedValueParts(s, i, value, true);
      QuotedValueOver(s, if NeedsEscape(value[0], true) then i + 2 else i + 1, value[1..]);
      assert [value[0]] + value[1..] == value;
    }
  }

  lemma {:induction false} BareValueOver(s: string, i: nat, value: string)
    requires Holds(s, i, EscapedValue(value, false))
    requires var end := i + |EscapedValue(value, false)|; end == |s| || IsWhitespace(s[end])
    ensures BareValue(s, i) == Ok((value, i + |EscapedValue(value, false)|))
    decreases |value|
  {
    if value != [] {
      EscapedValueParts(s, i, value, false);
      BareValueOver(s, if NeedsEscape(value[0], false) then i + 2 else i + 1, value[1..]);
      assert [value[0]] + value[1..] == value;
    }
  }

  /** The value of one item is read whole, and reading stops right after it. */
  lemma ValueAtOver(s: string, i: nat, item: Item)
    requires Holds(s, i, ValueText(item)) && (item.value == [] ==> item.quoted)
    requires var end := i + |ValueText(item)|; item.quoted || end == |s| || IsWhitespace(s[end])
    ensures i < |s| && !IsWhitespace(s[i])
    ensures ValueAt(s, i) == Ok((item.value, i + |ValueText(item)|))
  {
    if item.quoted {
      var inside := EscapedValue(item.value, true);
      assert ValueText(item) == "'" + (inside + "'");
      HoldsParts(s, i, "'", inside + "'");
      HoldsParts(s, i + 1, inside, "'");
      HoldsAt(s, i, "'", 0);
      HoldsAt(s, i + 1 + |inside|, "'", 0);
      QuotedValueOver(s, i + 1, item.value);
    } else {
      EscapedValueParts(s, i, item.value, false);
      BareValueOver(s, i, item.value);
    }
  }

  /** Where the parts of a printed item lie. */
  lemma ItemParts(s: string, i: nat, item: Item)
    requires Holds(s, i, ItemText(item))
    ensures var a := i + |item.before|;
            var b := a + |item.key|;
            var c := b + |item.beforeEq|;
            var d := c + 1 + |item.afterEq|;
            && Holds(s, i, item.before) && Holds(s, a, item.key) && Holds(s, b, item.beforeEq)
            && c < |s| && s[c] == '='
            && Holds(s, c + 1, item.afterEq) && Holds(s, d, ValueText(item))
            && d + |ValueText(item)| == i + |ItemText(item)|
  {
    var a := i + |item.before|;
    var b := a + |item.key|;
    var c := b + |item.beforeEq|;
    HoldsParts(s, i, item.before, item.key + (item.beforeEq + FromEq(item)));
    HoldsParts(s, a, item.key, item.beforeEq + FromEq(item));
    HoldsParts(s, b, item.beforeEq, FromEq(item));
    HoldsParts(s, c, "=", item.afterEq + ValueText(item));
    HoldsParts(s, c + 1, item.afterEq, ValueText(item));
    HoldsAt(s, c, "=", 0);
  }

  lemma KeyPartOver(s: string, i: nat, item: Item)
    requires AllSpace(item.before) && KeyText(item.key) && AllSpace(item.beforeEq)
    requires Holds(s, i, item.before) && Holds(s, i + |item.before|, item.key)
    requires Holds(s, i + |item.before| + |item.key|, item.beforeEq)
    requires var c := i + |item.before| + |item.key| + |item.beforeEq|; c < |s| && s[c] == '='
    ensures var a := i + |item.before|;
            var b := a + |item.key|;
            && SkipSpace(s, i) == a && a < |s| && KeyEnd(s, a) == b
            && SkipSpace(s, b) == b + |item.beforeEq| && s[a..b] == item.key
  {
    var a := i + |item.before|;
    var b := a + |item.key|;
    HoldsAt(s, a, item.key, 0);
    SkipSpaceOver(s, i, item.before);
    if item.beforeEq != [] { HoldsAt(s, b, item.beforeEq, 0); }
    KeyEndOver(s, a, item.key);
    SkipSpaceOver(s, b, item.beforeEq);
    assert forall k :: 0 <= k < |item.key| ==> s[a..b][k] == item.key[k];
    assert s[a..b] == item.key;
  }

  lemma ValuePartOver(s: string, i: nat, item: Item)
    requires AllSpace(item.afterEq) && Holds(s, i, item.afterEq)
    requires Holds(s, i + |item.afterEq|, ValueText(item)) && (item.value == [] ==> item.quoted)
    requires var end := i + |item.afterEq| + |ValueText(item)|; item.quoted || end == |s| || IsWhitespace(s[end])
    ensures ValueAt(s, SkipSpace(s, i)) == Ok((item.value, i + |item.afterEq| + |ValueText(item)|))
  {
    ValueAtOver(s, i + |item.afterEq|, item);
    SkipSpaceOver(s, i, item.afterEq);
  }

  lemma PairAtParts(s: string, i: nat, a: nat, b: nat, c: nat)
    requires i <= a < |s| && a < b <= c < |s| && s[c] == '='
    requires SkipSpace(s, i) == a && KeyEnd(s, a) == b && SkipSpace(s, b) == c
    ensures PairAt(s, i) == AfterKey(s, c, s[a..b])
  {
  }

  /** The key of a printed item is read up to its equals sign. */
  lemma KeyOver(s: string, i: nat, item: Item)
    requires Holds(s, i, ItemText(item))
    requires AllSpace(item.before) && AllSpace(item.beforeEq) && KeyText(item.key)
    ensures var c := i + |item.before| + |item.key| + |item.beforeEq|;
            c < |s| && PairAt(s, i) == AfterKey(s, c, item.key)
  {
    var a := i + |item.before|;
    var b := a + |item.key|;
    ItemParts(s, i, item);
    KeyPartOver(s, i, item);
    PairAtParts(s, i, a, b, b + |item.beforeEq|);
  }

  /** And its value after that. */
  lemma ValueOver(s: string, i: nat, item: Item)
    requires Holds(s, i, ItemText(item))
    requires AllSpace(item.afterEq) && item.key != [] && (item.value == [] ==> item.quoted)
    requires var end := i + |ItemText(item)|; item.quoted || end == |s| || IsWhitespace(s[end])
    ensures var c := i + |item.before| + |item.key| + |item.beforeEq|;
            c < |s| && AfterKey(s, c, item.key) == Ok(Some((item.key, item.value, i + |ItemText(item)|)))
  {
    ItemParts(s, i, item);
    ValuePartOver(s, i + |item.before| + |item.key| + |item.beforeEq| + 1, item);
  }

  /** One printed item is read as its key and value. */
  lemma ItemOver(s: string, i: nat, item: Item)
    requires Readable(s, i, item)
    ensures PairAt(s, i) == Ok(Some((item.key, item.value, i + |ItemText(item)|)))
  {
    KeyOver(s, i, item);
    ValueOver(s, i, item);
  }

  /** What an item needs to be read. */
  ghost predicate Readable(s: string, i: nat, item: Item) {
    && Holds(s, i, ItemText(item))
    && AllSpace(item.before) && AllSpace(item.beforeEq) && AllSpace(item.afterEq) && KeyText(item.key)
    && (item.value == [] ==> item.quoted)
    && var end := i + |ItemText(item)|; item.quoted || end == |s| || IsWhitespace(s[end])
  }

  /** After a bare value comes white space or the end of the text. */
  lemma SpaceFollows(s: string, i: nat, items: seq<Item>, trailing: string)
    requires items != [] ==> items[0].before != [] && AllSpace(items[0].before)
    requires AllSpace(trailing)
    requires Holds(s, i, ItemsText(items, trailing)) && i + |ItemsText(items, trailing)| == |s|
    ensures i == |s| || IsWhitespace(s[i])
  {
    if items != [] {
      HoldsParts(s, i, ItemText(items[0]), ItemsText(items[1..], trailing));
      HoldsParts(s, i, items[0].before, items[0].key + (items[0].beforeEq + FromEq(items[0])));
      HoldsAt(s, i, items[0].before, 0);
    } else if trailing != [] {
      HoldsAt(s, i, trailing, 0);
    }
  }

  /** Where the other items lie. */
  lemma RestFollows(s: string, i: nat, items: seq<Item>, trailing: string)
    requires items != [] && Printable(items)
    requires Holds(s, i, ItemsText(items, trailing)) && i + |ItemsText(items, trailing)| == |s|
    ensures var end := i + |ItemText(items[0])|;
            && Holds(s, i, ItemText(items[0]))
            && Holds(s, end, ItemsText(items[1..], trailing)) && end + |ItemsText(items[1..], trailing)| == |s|
  {
    HoldsParts(s, i, ItemText(items[0]), ItemsText(items[1..], trailing));
  }

  lemma RestIsPrintable(items: seq<Item>)
    requires items != [] && Printable(items)
    ensures Printable(items[1..])
    ensures !items[0].quoted && items[1..] != [] ==> items[1..][0].before != [] && AllSpace(items[1..][0].before)
  {
    assert forall k :: 0 <= k < |items| - 1 ==> items[1..][k] == items[k + 1];
  }

  /** White space comes after a bare first item, or the end of the text. */
  lemma FirstEnds(s: string, i: nat, items: seq<Item>, trailing: string)
    requires items != [] && Printable(items) && AllSpace(trailing)
    requires Holds(s, i, ItemsText(items, trailing)) && i + |ItemsText(items, trailing)| == |s|
    ensures var end := i + |ItemText(items[0])|;
            items[0].quoted || end == |s| || (end < |s| && IsWhitespace(s[end]))
  {
    RestFollows(s, i, items, trailing);
    RestIsPrintable(items);
    if !items[0].quoted { SpaceFollows(s, i + |ItemText(items[0])|, items[1..], trailing); }
  }

  lemma FirstIsReadable(s: string, i: nat, items: seq<Item>, trailing: string)
    requires items != [] && Printable(items) && AllSpace(trailing)
    requires Holds(s, i, ItemsText(items, trailing)) && i + |ItemsText(items, trailing)| == |s|
    ensures Readable(s, i, items[0])
  {
    HoldsParts(s, i, ItemText(items[0]), ItemsText(items[1..], trailing));
    FirstEnds(s, i, items, trailing);
  }

  lemma PairIsRead(s: string, i: nat, pairs: Pairs, key: string, value: string, next: nat)
    requires i <= |s| && PairAt(s, i) == Ok(Some((key, value, next)))
    ensures next <= |s| && PairsFrom(s, i, pairs) == PairsFrom(s, next, pairs[key := value])
  {
  }

  lemma TrailingOver(s: string, i: nat, trailing: string, pairs: Pairs)
    requires AllSpace(trailing) && Holds(s, i, trailing) && i + |trailing| == |s|
    ensures PairsFrom(s, i, pairs) == Ok(pairs)
  {
    SkipSpaceOver(s, i, trailing);
  }

  /** The text from i on is the printed items. */
  ghost predicate Remains(s: string, i: nat, items: seq<Item>, trailing: string) {
    && Printable(items) && AllSpace(trailing)
    && Holds(s, i, ItemsText(items, trailing)) && i + |ItemsText(items, trailing)| == |s|
  }

  lemma FirstPairIsRead(s: string, i: nat, items: seq<Item>, trailing: string, pairs: Pairs)
    requires items != [] && Remains(s, i, items, trailing)
    ensures var end := i + |ItemText(items[0])|;
            && i <= end <= |s|
            && PairsFrom(s, i, pairs) == PairsFrom(s, end, pairs[items[0].key := items[0].value])
  {
    FirstIsReadable(s, i, items, trailing);
    ItemOver(s, i, items[0]);
    PairIsRead(s, i, pairs, items[0].key, items[0].value, i + |ItemText(items[0])|);
  }

  lemma OthersRemain(s: string, i: nat, items: seq<Item>, trailing: string)
    requires items != [] && Remains(s, i, items, trailing)
    ensures Remains(s, i + |ItemText(items[0])|, items[1..], trailing)
  {
    RestFollows(s, i, items, trailing);
    RestIsPrintable(items);
  }

  lemma FirstIsRead(s: string, i: nat, items: seq<Item>, trailing: string, pairs: Pairs) returns (end: nat, more: Pairs)
    requires items != [] && Remains(s, i, items, trailing)
    ensures end <= |s| && Remains(s, end, items[1..], trailing)
    ensures PairsFrom(s, i, pairs) == PairsFrom(s, end, more) && PairsOf(items, pairs) == PairsOf(items[1..], more)
  {
    end, more := i + |ItemText(items[0])|, pairs[items[0].key := items[0].value];
    FirstPairIsRead(s, i, items, trailing, pairs);
    OthersRemain(s, i, items, trailing);
  }

  lemma {:induction false} ItemsOver(s: string, i: nat, items: seq<Item>, trailing: string, pairs: Pairs)
    requires i <= |s| && Remains(s, i, items, trailing)
    ensures PairsFrom(s, i, pairs) == Ok(PairsOf(items, pairs))
    decreases |items|
  {
    if items == [] {
      TrailingOver(s, i, trailing, pairs);
    } else {
      var end, more := FirstIsRead(s, i, items, trailing, pairs);
      ItemsOver(s, end, items[1..], trailing, more);
    }
  }

  /** Reading printed pairs returns the pairs, the last one winning where a key is repeated, whatever white space
      surrounds them and whichever way each value is quoted. */
  lemma ParseUndoesPrint(items: seq<Item>, trailing: string)
    requires Printable(items) && AllSpace(trailing)
    ensures PairsFrom(ItemsText(items, trailing), 0, map[]) == Ok(PairsOf(items, map[]))
  {
    var s := ItemsText(items, trailing);
    ItemsOver(s, 0, items, trailing, map[]);
  }
}
