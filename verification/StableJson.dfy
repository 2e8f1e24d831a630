/** The canonical serialiser behind fingerprints and signed headers (src/sharing/crypto.ts, stableStringify).
    Text is a sequence of UTF-16 code units; section 7 of RFC 8259 defines the string syntax. */
module StableJson {
  import opened Wrappers

  type Code = c: int | 0 <= c < 0x1_0000
  type Text = seq<Code>
  type SafeInt = n: int | -0x1F_FFFF_FFFF_FFFF <= n <= 0x1F_FFFF_FFFF_FFFF

  /** Unprintable stands for every non-object value for which JSON.stringify has no text of its own:
      undefined, functions, symbols and non-finite numbers. */
  datatype Json =
    | Unprintable
    | Null
    | Bool(b: bool)
    | Int(n: SafeInt)
    | Str(s: Text)
    | Arr(items: seq<Json>)
    | Obj(fields: seq<Field>)

  datatype Field = Field(key: Text, value: Json)

  const QUOTE: Code := 34
  const COMMA: Code := 44
  const MINUS: Code := 45
  const ZERO: Code := 48
  const COLON: Code := 58
  const BACKSLASH: Code := 92
  const LEFT_BRACKET: Code := 91
  const RIGHT_BRACKET: Code := 93
  const LEFT_BRACE: Code := 123
  const RIGHT_BRACE: Code := 125

  // ---- Records ----

  function Keys(fields: seq<Field>): set<Text> {
    set f <- fields :: f.key
  }

  predicate DistinctKeys(fields: seq<Field>) {
    forall i, j :: 0 <= i < j < |fields| ==> fields[i].key != fields[j].key
  }

  function IndexOf(fields: seq<Field>, key: Text): (i: nat)
    requires key in Keys(fields)
    ensures i < |fields| && fields[i].key == key
    ensures forall j :: 0 <= j < i ==> fields[j].key != key
  {
    if fields[0].key == key then 0 else
      assert fields == [fields[0]] + fields[1..];
      IndexOf(fields[1..], key) + 1
  }

  /** Reading a property of a record. */
  function Lookup(fields: seq<Field>, key: Text): (v: Json)
    requires key in Keys(fields)
  {
    fields[IndexOf(fields, key)].value
  }

  // ---- Order of keys: Array.prototype.sort without a comparator compares code units ----

  predicate Less(a: Text, b: Text) {
    if b == [] then false
    else if a == [] then true
    else a[0] < b[0] || (a[0] == b[0] && Less(a[1..], b[1..]))
  }

  predicate Sorted(keys: seq<Text>) {
    forall i, j :: 0 <= i < j < |keys| ==> Less(keys[i], keys[j])
  }

  function Insert(key: Text, keys: seq<Text>): seq<Text> {
    if keys == [] || Less(key, keys[0]) then [key] + keys else [keys[0]] + Insert(key, keys[1..])
  }

  /** Object.keys(record).sort(). */
  function SortedKeys(fields: seq<Field>): seq<Text> {
    if fields == [] then [] else Insert(fields[0].key, SortedKeys(fields[1..]))
  }

  // ---- JSON.stringify of strings and integers ----

  predicate HighSurrogate(c: Code) {
    0xD800 <= c < 0xDC00
  }

  predicate LowSurrogate(c: Code) {
    0xDC00 <= c < 0xE000
  }

  function HexDigit(d: nat): Code
    requires d < 16
  {
    if d < 10 then 48 + d else 87 + d
  }

  function Hex(c: Code): Text {
    [HexDigit(c / 4096), HexDigit(c / 256 % 16), HexDigit(c / 16 % 16), HexDigit(c % 16)]
  }

  /** The letter of a two-character escape. */
  function ShortEscape(c: Code): Option<Code> {
    if c == 8 then Some(98)
    else if c == 9 then Some(116)
    else if c == 10 then Some(110)
    else if c == 12 then Some(102)
    else if c == 13 then Some(114)
    else if c == QUOTE || c == BACKSLASH then Some(c)
    else None
  }

  function QuoteUnit(c: Code): Text {
    if ShortEscape(c).Some? then [BACKSLASH, ShortEscape(c).value]
    else if c < 32 || HighSurrogate(c) || LowSurrogate(c) then [BACKSLASH, 117] + Hex(c)
    else [c]
  }

  predicate StartsWithPair(s: Text) {
    |s| > 1 && HighSurrogate(s[0]) && LowSurrogate(s[1])
  }

  /** Paired surrogates are kept as they are, a lone one is escaped. */
  function QuoteBody(s: Text): Text {
    if s == [] then []
    else if StartsWithPair(s) then [s[0], s[1]] + QuoteBody(s[2..])
    else QuoteUnit(s[0]) + QuoteBody(s[1..])
  }

  function Quote(s: Text): Text {
    [QUOTE] + QuoteBody(s) + [QUOTE]
  }

  function Decimal(n: nat): Text {
    if n < 10 then [ZERO + n] else Decimal(n / 10) + [ZERO + n % 10]
  }

  function Number(n: int): Text {
    if n < 0 then [MINUS] + Decimal(-n) else Decimal(n)
  }

  // ---- The serialiser ----

  const NULL_TEXT: Text := [110, 117, 108, 108]
  const TRUE_TEXT: Text := [116, 114, 117, 101]
  const FALSE_TEXT: Text := [102, 97, 108, 115, 101]

  function Stable(v: Json): Text
    decreases v
  {
    match v
    case Unprintable => NULL_TEXT
    case Null => NULL_TEXT
    case Bool(b) => if b then TRUE_TEXT else FALSE_TEXT
    case Int(n) => Number(n)
    case Str(s) => Quote(s)
    case Arr(items) => [LEFT_BRACKET] + StableItems(items) + [RIGHT_BRACKET]
    case Obj(fields) =>
      SortedKeysAreKeys(fields);
      [LEFT_BRACE] + StableMembers(v, SortedKeys(fields)) + [RIGHT_BRACE]
  }

  function StableItems(items: seq<Json>): Text
    decreases items
  {
    if items == [] then []
    else Stable(items[0]) + if |items| == 1 then [] else [COMMA] + StableItems(items[1..])
  }

  function StableMembers(whole: Json, keys: seq<Text>): Text
    requires whole.Obj? && forall key <- keys :: key in Keys(whole.fields)
    decreases whole, |keys|
  {
    if keys == [] then []
    else
      Quote(keys[0]) + [COLON] + Stable(Lookup(whole.fields, keys[0]))
      + if |keys| == 1 then [] else [COMMA] + StableMembers(whole, keys[1..])
  }

  lemma InsertElements(key: Text, keys: seq<Text>)
    ensures forall k :: k in Insert(key, keys) <==> k == key || k in keys
  {
    if keys == [] || Less(key, keys[0]) {
    } else {
      InsertElements(key, keys[1..]);
      assert keys == [keys[0]] + keys[1..];
    }
  }

  lemma SortedKeysAreKeys(fields: seq<Field>)
    ensures forall key :: key in SortedKeys(fields) <==> key in Keys(fields)
  {
    if fields == [] {
    } else {
      SortedKeysAreKeys(fields[1..]);
      InsertElements(fields[0].key, SortedKeys(fields[1..]));
      assert fields == [fields[0]] + fields[1..];
    }
  }

  // ---- Equality up to key order ----

  /** A JavaScript record has each key once. */
  ghost predicate WellFormed(v: Json) {
    match v
    case Arr(items) => forall i | 0 <= i < |items| :: WellFormed(items[i])
    case Obj(fields) => DistinctKeys(fields) && forall i | 0 <= i < |fields| :: WellFormed(fields[i].value)
    case _ => true
  }

  /** Equal up to the order of record keys, with unprintable values read as null. */
  ghost predicate Equiv(a: Json, b: Json) {
    match a
    case Arr(items) =>
      b.Arr? && |items| == |b.items| && forall i | 0 <= i < |items| :: Equiv(items[i], b.items[i])
    case Obj(fields) =>
      b.Obj? && Keys(fields) == Keys(b.fields)
      && forall key | key in Keys(fields) :: Equiv(Lookup(fields, key), Lookup(b.fields, key))
    case Unprintable => b.Unprintable? || b.Null?
    case Null => b.Unprintable? || b.Null?
    case _ => a == b
  }

  // ---- The key order is total, so sorted keys are unique ----

  lemma {:induction false} LessIsTotal(a: Text, b: Text)
    ensures Less(a, b) || a == b || Less(b, a)
    ensures !(Less(a, b) && Less(b, a)) && !Less(a, a)
  {
    if a == [] || b == [] {
      if a != [] {
        LessIsTotal(a[1..], a[1..]);
      }
    } else {
      LessIsTotal(a[1..], b[1..]);
      LessIsTotal(a[1..], a[1..]);
      assert a == [a[0]] + a[1..] && b == [b[0]] + b[1..];
    }
  }

  lemma {:induction false} LessIsTransitive(a: Text, b: Text, c: Text)
    requires Less(a, b) && Less(b, c)
    ensures Less(a, c)
  {
    if a != [] && a[0] == b[0] && b[0] == c[0] {
      LessIsTransitive(a[1..], b[1..], c[1..]);
    }
  }

  lemma {:induction false} InsertKeepsSorted(key: Text, keys: seq<Text>)
    requires Sorted(keys) && key !in keys
    ensures Sorted(Insert(key, keys))
  {
    if keys == [] {
    } else if Less(key, keys[0]) {
      forall j | 0 < j < |keys|
        ensures Less(key, keys[j])
      {
        LessIsTransitive(key, keys[0], keys[j]);
      }
    } else {
      LessIsTotal(key, keys[0]);
      var rest := Insert(key, keys[1..]);
      InsertKeepsSorted(key, keys[1..]);
      InsertElements(key, keys[1..]);
      forall j | 0 <= j < |rest|
        ensures Less(keys[0], rest[j])
      {
        assert rest[j] in rest;
      }
    }
  }

  lemma {:induction false} SortedKeysSorted(fields: seq<Field>)
    requires DistinctKeys(fields)
    ensures Sorted(SortedKeys(fields))
  {
    if fields == [] {
    } else {
      SortedKeysSorted(fields[1..]);
      SortedKeysAreKeys(fields[1..]);
      InsertKeepsSorted(fields[0].key, SortedKeys(fields[1..]));
    }
  }

  lemma {:induction false} SortedIsUnique(a: seq<Text>, b: seq<Text>)
    requires Sorted(a) && Sorted(b)
    requires forall key :: key in a <==> key in b
    ensures a == b
  {
    EmptyWithoutElements(a);
    EmptyWithoutElements(b);
    if a != [] && b != [] {
      assert a[0] in b && b[0] in a;
      LessIsTotal(a[0], b[0]);
      assert a[0] == b[0];
      TailElements(a);
      TailElements(b);
      SortedIsUnique(a[1..], b[1..]);
    }
  }

  lemma EmptyWithoutElements(keys: seq<Text>)
    ensures keys == [] <==> forall key :: key !in keys
  {
    if keys != [] {
      assert keys[0] in keys;
    }
  }

  lemma TailElements(keys: seq<Text>)
    requires Sorted(keys) && keys != []
    ensures forall key :: key in keys[1..] <==> key in keys && key != keys[0]
  {
    LessIsTotal(keys[0], keys[0]);
    assert keys == [keys[0]] + keys[1..];
  }

  // ---- Strings: quoting can be undone, so it is injective and ends where it ends ----

  function HexValue(c: Code): Option<nat> {
    if 48 <= c < 58 then Some(c - 48) else if 97 <= c < 103 then Some(c - 87) else None
  }

  function Unhex(t: Text): Option<Code>
    requires |t| == 4
  {
    var a, b, c, d := HexValue(t[0]), HexValue(t[1]), HexValue(t[2]), HexValue(t[3]);
    if a.Some? && b.Some? && c.Some? && d.Some? then Some(((a.value * 16 + b.value) * 16 + c.value) * 16 + d.value)
    else None
  }

  function ShortUnescape(letter: Code): Option<Code> {
    if letter == 98 then Some(8)
    else if letter == 116 then Some(9)
    else if letter == 110 then Some(10)
    else if letter == 102 then Some(12)
    else if letter == 114 then Some(13)
    else if letter == QUOTE || letter == BACKSLASH then Some(letter)
    else None
  }

  datatype UnitRead = UnitRead(unit: Code, length: nat)

  /** The code unit that string content starts with, and the length of its text. */
  function UnquoteUnit(t: Text): (r: Option<UnitRead>)
    ensures r.Some? ==> 0 < r.value.length <= |t|
  {
    if t == [] || t[0] == QUOTE then None
    else if t[0] != BACKSLASH then Some(UnitRead(t[0], 1))
    else if |t| >= 6 && t[1] == 117 && Unhex(t[2..6]).Some? then Some(UnitRead(Unhex(t[2..6]).value, 6))
    else if |t| >= 2 && ShortUnescape(t[1]).Some? then Some(UnitRead(ShortUnescape(t[1]).value, 2))
    else None
  }

  datatype StringRead = StringRead(content: Text, rest: Text)

  /** Reads string content up to and including the closing quote. */
  function Unquote(t: Text): Option<StringRead> {
    if t != [] && t[0] == QUOTE then Some(StringRead([], t[1..]))
    else
      var unit := UnquoteUnit(t);
      if unit == None then None else Prepend(unit.value.unit, Unquote(t[unit.value.length..]))
  }

  function Prepend(c: Code, read: Option<StringRead>): Option<StringRead> {
    if read.Some? then Some(read.value.(content := [c] + read.value.content)) else None
  }

  lemma HexReadsBack(c: Code)
    ensures Unhex(Hex(c)) == Some(c)
  {
    var a, b, d, e := c / 4096, c / 256 % 16, c / 16 % 16, c % 16;
    assert c / 16 == c / 256 * 16 + d && c / 256 == a * 16 + b;
  }

  lemma EscapeReadsBack(c: Code, rest: Text)
    ensures UnquoteUnit([BACKSLASH, 117] + Hex(c) + rest) == Some(UnitRead(c, 6))
  {
    HexReadsBack(c);
    assert ([BACKSLASH, 117] + Hex(c) + rest)[2..6] == Hex(c);
  }

  lemma UnitReadsBack(c: Code, rest: Text)
    ensures UnquoteUnit(QuoteUnit(c) + rest) == Some(UnitRead(c, |QuoteUnit(c)|))
  {
    if ShortEscape(c) == None && (c < 32 || HighSurrogate(c) || LowSurrogate(c)) {
      EscapeReadsBack(c, rest);
    }
  }

  lemma UnquoteStep(c: Code, unit: Text, rest: Text)
    requires unit != [] && unit[0] != QUOTE
    requires UnquoteUnit(unit + rest) == Some(UnitRead(c, |unit|))
    ensures Unquote(unit + rest) == Prepend(c, Unquote(rest))
  {
    assert (unit + rest)[|unit|..] == rest;
  }

  lemma PairReadsBack(high: Code, low: Code, rest: Text)
    requires HighSurrogate(high) && LowSurrogate(low)
    ensures Unquote([high, low] + rest) == Prepend(high, Prepend(low, Unquote(rest)))
  {
    UnquoteStep(low, [low], rest);
    UnquoteStep(high, [high], [low] + rest);
    assert [high, low] + rest == [high] + ([low] + rest);
  }

  lemma {:induction false} StringReadsBack(s: Text, rest: Text)
    ensures Unquote(QuoteBody(s) + ([QUOTE] + rest)) == Some(StringRead(s, rest))
  {
    var end := [QUOTE] + rest;
    if s == [] {
      assert QuoteBody(s) + end == end && end[1..] == rest;
    } else if StartsWithPair(s) {
      StringReadsBack(s[2..], rest);
      PairFirst(s[0], s[1], s[2..], QuoteBody(s[2..]), end, rest);
      assert s == [s[0], s[1]] + s[2..];
    } else {
      StringReadsBack(s[1..], rest);
      UnitFirst(s[0], s[1..], QuoteBody(s[1..]), end, rest);
      assert s == [s[0]] + s[1..];
    }
  }

  lemma PairFirst(high: Code, low: Code, tail: Text, body: Text, end: Text, rest: Text)
    requires HighSurrogate(high) && LowSurrogate(low)
    requires Unquote(body + end) == Some(StringRead(tail, rest))
    ensures Unquote([high, low] + body + end) == Some(StringRead([high, low] + tail, rest))
  {
    PairReadsBack(high, low, body + end);
    assert [high, low] + body + end == [high, low] + (body + end);
    assert [high] + ([low] + tail) == [high, low] + tail;
  }

  lemma UnitFirst(c: Code, tail: Text, body: Text, end: Text, rest: Text)
    requires Unquote(body + end) == Some(StringRead(tail, rest))
    ensures Unquote(QuoteUnit(c) + body + end) == Some(StringRead([c] + tail, rest))
  {
    UnitReadsBack(c, body + end);
    UnquoteStep(c, QuoteUnit(c), body + end);
    assert QuoteUnit(c) + body + end == QuoteUnit(c) + (body + end);
  }

  lemma AfterQuote(s: Text, x: Text)
    ensures (Quote(s) + x)[1..] == QuoteBody(s) + ([QUOTE] + x)
  {
  }

  lemma QuoteIsReadable(a: Text, b: Text, x: Text, y: Text)
    requires Quote(a) + x == Quote(b) + y
    ensures a == b && x == y
  {
    AfterQuote(a, x);
    AfterQuote(b, y);
    StringReadsBack(a, x);
    StringReadsBack(b, y);
  }

  // ---- Integers ----

  predicate Digit(c: Code) {
    48 <= c < 58
  }

  predicate Stops(x: Text) {
    x == [] || x[0] == COMMA || x[0] == RIGHT_BRACKET || x[0] == RIGHT_BRACE
  }

  lemma {:induction false} DecimalDigits(n: nat)
    ensures Decimal(n) != [] && forall i | 0 <= i < |Decimal(n)| :: Digit(Decimal(n)[i])
  {
    if n < 10 {
    } else {
      DecimalDigits(n / 10);
    }
  }

  lemma {:induction false} DecimalIsInjective(m: nat, n: nat)
    requires Decimal(m) == Decimal(n)
    ensures m == n
  {
    DecimalDigits(m / 10);
    DecimalDigits(n / 10);
    if m >= 10 && n >= 10 {
      var k := |Decimal(m)| - 1;
      assert Decimal(m)[..k] == Decimal(m / 10) && Decimal(n)[..k] == Decimal(n / 10);
      assert Decimal(m)[k] == ZERO + m % 10 && Decimal(n)[k] == ZERO + n % 10;
      DecimalIsInjective(m / 10, n / 10);
    }
  }

  function LeadingDigits(t: Text): nat {
    if t == [] || !Digit(t[0]) then 0 else LeadingDigits(t[1..]) + 1
  }

  lemma {:induction false} DigitsEndAtStop(a: Text, x: Text)
    requires forall i | 0 <= i < |a| :: Digit(a[i])
    requires Stops(x)
    ensures LeadingDigits(a + x) == |a|
  {
    if a == [] {
      assert a + x == x;
    } else {
      DigitsEndAtStop(a[1..], x);
      assert (a + x)[1..] == a[1..] + x;
    }
  }

  lemma DigitsAreReadable(a: Text, b: Text, x: Text, y: Text)
    requires forall i | 0 <= i < |a| :: Digit(a[i])
    requires forall i | 0 <= i < |b| :: Digit(b[i])
    requires Stops(x) && Stops(y)
    requires a + x == b + y
    ensures a == b && x == y
  {
    DigitsEndAtStop(a, x);
    DigitsEndAtStop(b, y);
    assert (a + x)[..|a|] == a && (b + y)[..|b|] == b;
    assert (a + x)[|a|..] == x && (b + y)[|b|..] == y;
  }

  lemma NaturalIsReadable(m: nat, n: nat, x: Text, y: Text)
    requires Stops(x) && Stops(y) && Decimal(m) + x == Decimal(n) + y
    ensures m == n && x == y
  {
    DecimalDigits(m);
    DecimalDigits(n);
    DigitsAreReadable(Decimal(m), Decimal(n), x, y);
    DecimalIsInjective(m, n);
  }

  lemma NumberIsReadable(m: int, n: int, x: Text, y: Text)
    requires Stops(x) && Stops(y) && Number(m) + x == Number(n) + y
    ensures m == n && x == y
  {
    NumberSign(m, x);
    NumberSign(n, y);
    if m < 0 {
      NaturalIsReadable(-m, -n, x, y);
    } else {
      NaturalIsReadable(m, n, x, y);
    }
  }

  lemma NumberSign(n: int, x: Text)
    ensures |Number(n)| > 0 && (n < 0 <==> (Number(n) + x)[0] == MINUS)
    ensures n < 0 ==> (Number(n) + x)[1..] == Decimal(-n) + x
  {
    DecimalDigits(if n < 0 then -n else n);
    if n >= 0 {
      assert Digit(Decimal(n)[0]);
    }
  }

  // ---- The text determines the value up to key order ----

  datatype Kind = NullLike | True | False | Numeric | Text | List | Record | NotAValue

  function KindOf(v: Json): Kind {
    match v
    case Unprintable => NullLike
    case Null => NullLike
    case Bool(b) => if b then True else False
    case Int(_) => Numeric
    case Str(_) => Kind.Text
    case Arr(_) => List
    case Obj(_) => Record
  }

  /** The kind of value a text starting with this code unit can be. */
  function KindAt(c: Code): Kind {
    if c == NULL_TEXT[0] then NullLike
    else if c == TRUE_TEXT[0] then True
    else if c == FALSE_TEXT[0] then False
    else if Digit(c) || c == MINUS then Numeric
    else if c == QUOTE then Kind.Text
    else if c == LEFT_BRACKET then List
    else if c == LEFT_BRACE then Record
    else NotAValue
  }

  lemma TextShowsKind(v: Json, x: Text)
    ensures Stable(v) != [] && KindAt((Stable(v) + x)[0]) == KindOf(v)
  {
    match v
    case Int(n) => DecimalDigits(if n < 0 then -n else n);
    case Unprintable =>
    case Null =>
    case Bool(_) =>
    case Str(_) =>
    case Arr(_) =>
    case Obj(_) =>
  }

  function ItemsEnd(items: seq<Json>, x: Text): Text
    requires items != []
  {
    (if |items| == 1 then [] else [COMMA] + StableItems(items[1..])) + [RIGHT_BRACKET] + x
  }

  /** Taking a text apart from the left. */
  lemma Regroup(first: Text, more: Text, close: Text, x: Text)
    ensures first + more + close + x == first + (more + close + x)
    ensures |first| == 1 ==> (first + more + close + x)[1..] == more + close + x
  {
  }

  lemma ItemsSplit(items: seq<Json>, x: Text)
    requires items != []
    ensures StableItems(items) + [RIGHT_BRACKET] + x == Stable(items[0]) + ItemsEnd(items, x)
    ensures Stops(ItemsEnd(items, x)) && (ItemsEnd(items, x)[0] == COMMA <==> |items| > 1)
    ensures |items| > 1 ==> ItemsEnd(items, x)[1..] == StableItems(items[1..]) + [RIGHT_BRACKET] + x
    ensures |items| == 1 ==> ItemsEnd(items, x)[1..] == x
  {
    var more := if |items| == 1 then [] else [COMMA] + StableItems(items[1..]);
    Regroup(Stable(items[0]), more, [RIGHT_BRACKET], x);
    if |items| > 1 {
      Regroup([COMMA], StableItems(items[1..]), [RIGHT_BRACKET], x);
    } else {
      Regroup([RIGHT_BRACKET], [], [], x);
      assert more + [RIGHT_BRACKET] + x == [RIGHT_BRACKET] + x;
    }
  }

  function MembersEnd(whole: Json, keys: seq<Text>, x: Text): Text
    requires whole.Obj? && forall key <- keys :: key in Keys(whole.fields)
    requires keys != []
  {
    (if |keys| == 1 then [] else [COMMA] + StableMembers(whole, keys[1..])) + [RIGHT_BRACE] + x
  }

  lemma MembersEndShape(whole: Json, keys: seq<Text>, x: Text)
    requires whole.Obj? && forall key <- keys :: key in Keys(whole.fields)
    requires keys != []
    ensures Stops(MembersEnd(whole, keys, x)) && (MembersEnd(whole, keys, x)[0] == COMMA <==> |keys| > 1)
    ensures |keys| > 1 ==> MembersEnd(whole, keys, x)[1..] == StableMembers(whole, keys[1..]) + [RIGHT_BRACE] + x
    ensures |keys| == 1 ==> MembersEnd(whole, keys, x)[1..] == x
  {
    if |keys| > 1 {
      Regroup([COMMA], StableMembers(whole, keys[1..]), [RIGHT_BRACE], x);
    } else {
      assert [] + [RIGHT_BRACE] + x == [RIGHT_BRACE] + x;
    }
  }

  lemma MembersSplit(whole: Json, keys: seq<Text>, x: Text)
    requires whole.Obj? && forall key <- keys :: key in Keys(whole.fields)
    requires keys != []
    ensures StableMembers(whole, keys) + [RIGHT_BRACE] + x
         == Quote(keys[0]) + ([COLON] + (Stable(Lookup(whole.fields, keys[0])) + MembersEnd(whole, keys, x)))
  {
    var more := if |keys| == 1 then [] else [COMMA] + StableMembers(whole, keys[1..]);
    var key, value := Quote(keys[0]), Stable(Lookup(whole.fields, keys[0]));
    RegroupMember(key, value, more, [RIGHT_BRACE], x);
  }

  lemma RegroupMember(key: Text, value: Text, more: Text, close: Text, x: Text)
    ensures key + [COLON] + value + more + close + x == key + ([COLON] + (value + (more + close + x)))
  {
  }

  lemma KeyIsReadable(key: Text, other: Text, x: Text, y: Text)
    requires Quote(key) + ([COLON] + x) == Quote(other) + ([COLON] + y)
    ensures key == other && x == y
  {
    QuoteIsReadable(key, other, [COLON] + x, [COLON] + y);
    assert ([COLON] + x)[1..] == x && ([COLON] + y)[1..] == y;
  }

  /** Unique readability: a text has one reading, and it ends at one place. */
  lemma {:induction false} Readable(a: Json, b: Json, x: Text, y: Text)
    requires WellFormed(a) && WellFormed(b)
    requires Stops(x) && Stops(y)
    requires Stable(a) + x == Stable(b) + y
    ensures Equiv(a, b) && x == y
    decreases a
  {
    TextShowsKind(a, x);
    TextShowsKind(b, y);
    match a
    case Int(m) =>
      NumberIsReadable(m, b.n, x, y);
    case Str(s) =>
      QuoteIsReadable(s, b.s, x, y);
    case Arr(items) =>
      Regroup([LEFT_BRACKET], StableItems(items), [RIGHT_BRACKET], x);
      Regroup([LEFT_BRACKET], StableItems(b.items), [RIGHT_BRACKET], y);
      ItemsReadable(items, b.items, x, y);
    case Obj(_) =>
      RecordReadable(a, b, x, y);
    case Unprintable => WordIsReadable(a, b, x, y);
    case Null => WordIsReadable(a, b, x, y);
    case Bool(_) => WordIsReadable(a, b, x, y);
  }

  lemma {:induction false} RecordReadable(a: Json, b: Json, x: Text, y: Text)
    requires a.Obj? && WellFormed(a) && b.Obj? && WellFormed(b)
    requires Stops(x) && Stops(y)
    requires Stable(a) + x == Stable(b) + y
    ensures Equiv(a, b) && x == y
    decreases a, |SortedKeys(a.fields)| + 1
  {
    SortedKeysAreKeys(a.fields);
    SortedKeysAreKeys(b.fields);
    var keys, others := SortedKeys(a.fields), SortedKeys(b.fields);
    Regroup([LEFT_BRACE], StableMembers(a, keys), [RIGHT_BRACE], x);
    Regroup([LEFT_BRACE], StableMembers(b, others), [RIGHT_BRACE], y);
    MembersReadable(a, b, keys, others, x, y);
    assert Keys(a.fields) == Keys(b.fields);
  }

  lemma WordIsReadable(a: Json, b: Json, x: Text, y: Text)
    requires KindOf(a) == KindOf(b) && KindOf(a) in {NullLike, True, False}
    requires Stable(a) + x == Stable(b) + y
    ensures Equiv(a, b) && x == y
  {
    var n := |Stable(a)|;
    assert (Stable(a) + x)[n..] == x && (Stable(b) + y)[n..] == y;
  }

  lemma {:induction false} ItemsReadable(items: seq<Json>, others: seq<Json>, x: Text, y: Text)
    requires forall i | 0 <= i < |items| :: WellFormed(items[i])
    requires forall i | 0 <= i < |others| :: WellFormed(others[i])
    requires Stops(x) && Stops(y)
    requires StableItems(items) + [RIGHT_BRACKET] + x == StableItems(others) + [RIGHT_BRACKET] + y
    ensures |items| == |others| && x == y
    ensures forall i | 0 <= i < |items| :: Equiv(items[i], others[i])
    decreases items
  {
    var text, other := StableItems(items) + [RIGHT_BRACKET] + x, StableItems(others) + [RIGHT_BRACKET] + y;
    ItemsStart(items, x);
    ItemsStart(others, y);
    if items != [] && others != [] {
      ItemsSplit(items, x);
      ItemsSplit(others, y);
      Readable(items[0], others[0], ItemsEnd(items, x), ItemsEnd(others, y));
      if |items| > 1 {
        ItemsReadable(items[1..], others[1..], x, y);
        assert forall i | 0 < i < |items| :: items[i] == items[1..][i - 1] && others[i] == others[1..][i - 1];
      }
    } else {
      assert text[1..] == x && other[1..] == y;
    }
  }

  lemma ItemsStart(items: seq<Json>, x: Text)
    ensures (StableItems(items) + [RIGHT_BRACKET] + x)[0] == RIGHT_BRACKET <==> items == []
  {
    if items != [] {
      ItemsSplit(items, x);
      TextShowsKind(items[0], ItemsEnd(items, x));
    }
  }

  lemma MembersStart(whole: Json, keys: seq<Text>, x: Text)
    requires whole.Obj? && forall key <- keys :: key in Keys(whole.fields)
    ensures (StableMembers(whole, keys) + [RIGHT_BRACE] + x)[0] == RIGHT_BRACE <==> keys == []
  {
    if keys != [] {
      MembersSplit(whole, keys, x);
    }
  }

  lemma EndsAgree(a: Json, b: Json, keys: seq<Text>, others: seq<Text>, x: Text, y: Text)
    requires a.Obj? && forall key <- keys :: key in Keys(a.fields)
    requires b.Obj? && forall key <- others :: key in Keys(b.fields)
    requires keys != [] && others != [] && MembersEnd(a, keys, x) == MembersEnd(b, others, y)
    ensures |keys| > 1 <==> |others| > 1
    ensures |keys| == 1 ==> x == y
    ensures |keys| > 1 ==> StableMembers(a, keys[1..]) + [RIGHT_BRACE] + x == StableMembers(b, others[1..]) + [RIGHT_BRACE] + y
  {
    MembersEndShape(a, keys, x);
    MembersEndShape(b, others, y);
  }

  lemma HeadsAgree(a: Json, b: Json, keys: seq<Text>, others: seq<Text>, x: Text, y: Text)
    requires a.Obj? && forall key <- keys :: key in Keys(a.fields)
    requires b.Obj? && forall key <- others :: key in Keys(b.fields)
    requires keys != [] && others != []
    requires StableMembers(a, keys) + [RIGHT_BRACE] + x == StableMembers(b, others) + [RIGHT_BRACE] + y
    ensures keys[0] == others[0]
    ensures Stable(Lookup(a.fields, keys[0])) + MembersEnd(a, keys, x) == Stable(Lookup(b.fields, others[0])) + MembersEnd(b, others, y)
  {
    MembersSplit(a, keys, x);
    MembersSplit(b, others, y);
    KeyIsReadable(keys[0], others[0], Stable(Lookup(a.fields, keys[0])) + MembersEnd(a, keys, x),
                  Stable(Lookup(b.fields, others[0])) + MembersEnd(b, others, y));
  }

  lemma {:induction false} MembersReadable(a: Json, b: Json, keys: seq<Text>, others: seq<Text>, x: Text, y: Text)
    requires a.Obj? && WellFormed(a) && forall key <- keys :: key in Keys(a.fields)
    requires b.Obj? && WellFormed(b) && forall key <- others :: key in Keys(b.fields)
    requires Stops(x) && Stops(y)
    requires StableMembers(a, keys) + [RIGHT_BRACE] + x == StableMembers(b, others) + [RIGHT_BRACE] + y
    ensures keys == others && x == y
    ensures forall key <- keys :: Equiv(Lookup(a.fields, key), Lookup(b.fields, key))
    decreases a, |keys|
  {
    MembersStart(a, keys, x);
    MembersStart(b, others, y);
    if keys != [] && others != [] {
      HeadsAgree(a, b, keys, others, x, y);
      MembersEndShape(a, keys, x);
      MembersEndShape(b, others, y);
      Readable(Lookup(a.fields, keys[0]), Lookup(b.fields, others[0]), MembersEnd(a, keys, x), MembersEnd(b, others, y));
      EndsAgree(a, b, keys, others, x, y);
      if |keys| > 1 {
        MembersReadable(a, b, keys[1..], others[1..], x, y);
      }
      MembersAgree(a, b, keys, others);
    } else {
      NoMembers(a, keys, x);
      NoMembers(b, others, y);
    }
  }

  lemma MembersAgree(a: Json, b: Json, keys: seq<Text>, others: seq<Text>)
    requires a.Obj? && b.Obj? && keys != [] && others != []
    requires (forall key <- keys :: key in Keys(a.fields)) && forall key <- others :: key in Keys(b.fields)
    requires keys[0] == others[0] && keys[1..] == others[1..]
    requires Equiv(Lookup(a.fields, keys[0]), Lookup(b.fields, others[0]))
    requires forall key <- keys[1..] :: key in Keys(a.fields) && key in Keys(b.fields) && Equiv(Lookup(a.fields, key), Lookup(b.fields, key))
    ensures keys == others && forall key <- keys :: Equiv(Lookup(a.fields, key), Lookup(b.fields, key))
  {
    assert keys == [keys[0]] + keys[1..] && others == [others[0]] + others[1..];
  }

  lemma NoMembers(a: Json, keys: seq<Text>, x: Text)
    requires a.Obj? && keys == []
    ensures (StableMembers(a, keys) + [RIGHT_BRACE] + x)[1..] == x
  {
    assert StableMembers(a, keys) == [];
    Regroup([RIGHT_BRACE], [], [], x);
    assert [] + [RIGHT_BRACE] + x == [RIGHT_BRACE] + x;
  }

  // ---- Equal values print the same ----

  lemma {:induction false} EquivPrintsSame(a: Json, b: Json)
    requires WellFormed(a) && WellFormed(b) && Equiv(a, b)
    ensures Stable(a) == Stable(b)
    decreases a
  {
    match a
    case Arr(items) => ItemsPrintSame(items, b.items);
    case Obj(fields) =>
      SortedKeysAreKeys(fields);
      SortedKeysAreKeys(b.fields);
      SortedKeysSorted(fields);
      SortedKeysSorted(b.fields);
      SortedIsUnique(SortedKeys(fields), SortedKeys(b.fields));
      MembersPrintSame(a, b, SortedKeys(fields));
    case Unprintable =>
    case Null =>
    case Bool(_) =>
    case Int(_) =>
    case Str(_) =>
  }

  lemma {:induction false} ItemsPrintSame(items: seq<Json>, others: seq<Json>)
    requires |items| == |others|
    requires forall i | 0 <= i < |items| :: WellFormed(items[i]) && WellFormed(others[i]) && Equiv(items[i], others[i])
    ensures StableItems(items) == StableItems(others)
    decreases items
  {
    if items == [] {
    } else {
      EquivPrintsSame(items[0], others[0]);
      ItemsPrintSame(items[1..], others[1..]);
    }
  }

  lemma {:induction false} MembersPrintSame(a: Json, b: Json, keys: seq<Text>)
    requires a.Obj? && WellFormed(a) && b.Obj? && WellFormed(b) && Equiv(a, b)
    requires forall key <- keys :: key in Keys(a.fields)
    ensures StableMembers(a, keys) == StableMembers(b, keys)
    decreases a, |keys|
  {
    if keys == [] {
    } else {
      EquivPrintsSame(Lookup(a.fields, keys[0]), Lookup(b.fields, keys[0]));
      MembersPrintSame(a, b, keys[1..]);
    }
  }

  /** The text is a canonical form: it is the same exactly for values that are equal up to key order,
      with unprintable values read as null. */
  lemma TextIsCanonical(a: Json, b: Json)
    requires WellFormed(a) && WellFormed(b)
    ensures Stable(a) == Stable(b) <==> Equiv(a, b)
  {
    if Stable(a) == Stable(b) {
      Readable(a, b, [], []);
    } else if Equiv(a, b) {
      EquivPrintsSame(a, b);
    }
  }

  /** The reading of unprintable values is needed: a missing property and a null one cannot be told apart. */
  lemma MissingReadsAsNull(key: Text)
    ensures Stable(Obj([Field(key, Unprintable)])) == Stable(Obj([Field(key, Null)]))
    ensures Obj([Field(key, Unprintable)]) != Obj([Field(key, Null)])
  {
    var missing, present := Obj([Field(key, Unprintable)]), Obj([Field(key, Null)]);
    assert Keys(missing.fields) == {key} && Keys(present.fields) == {key};
    EquivPrintsSame(missing, present);
  }
}
