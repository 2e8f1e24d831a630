/** The text of a value, character by character (src/sharing/crypto.ts, stableStringify; section 7 of RFC 8259 for strings,
    section 6 for numbers). */
module StableJsonText {
  import opened StableJson
  import opened Wrappers

  /** The code units of a text written in ASCII. */
  function Codes(s: string): seq<int> {
    seq(|s|, i requires 0 <= i < |s| => s[i] as int)
  }

  function Joined(texts: seq<Text>, separator: seq<int>): seq<int> {
    if texts == [] then []
    else if |texts| == 1 then texts[0]
    else texts[0] + separator + Joined(texts[1..], separator)
  }

  lemma LiteralTexts()
    ensures Stable(Null) == Stable(Unprintable) == Codes("null")
    ensures Stable(Bool(true)) == Codes("true") && Stable(Bool(false)) == Codes("false")
    ensures Stable(Arr([])) == Codes("[]") && Stable(Obj([])) == Codes("{}")
  {
    assert Stable(Arr([])) == [LEFT_BRACKET] + [] + [RIGHT_BRACKET];
    assert SortedKeys([]) == [] && Stable(Obj([])) == [LEFT_BRACE] + [] + [RIGHT_BRACE];
  }

  function TextsOf(items: seq<Json>): seq<Text> {
    seq(|items|, i requires 0 <= i < |items| => Stable(items[i]))
  }

  lemma {:induction false} ItemsAreJoined(items: seq<Json>)
    ensures StableItems(items) == Joined(TextsOf(items), Codes(","))
  {
    if items == [] {
    } else if |items| == 1 {
      assert TextsOf(items)[0] == Stable(items[0]);
    } else {
      ItemsAreJoined(items[1..]);
      assert TextsOf(items)[1..] == TextsOf(items[1..]);
      assert Codes(",") == [COMMA];
    }
  }

  /** An array is its items in their order, separated by commas, in square brackets. */
  lemma ArrayText(items: seq<Json>)
    ensures Stable(Arr(items)) == Codes("[") + Joined(TextsOf(items), Codes(",")) + Codes("]")
  {
    ItemsAreJoined(items);
    assert Codes("[") == [LEFT_BRACKET] && Codes("]") == [RIGHT_BRACKET];
  }

  /** One text per key: the quoted key, a colon and the text of its value. */
  predicate AreMembers(fields: seq<Field>, keys: seq<Text>, members: seq<Text>) {
    && |members| == |keys|
    && forall i :: 0 <= i < |keys| ==>
         keys[i] in Keys(fields) && members[i] == Quote(keys[i]) + Codes(":") + Stable(Lookup(fields, keys[i]))
  }

  lemma {:induction false} MembersAreJoined(whole: Json, keys: seq<Text>) returns (members: seq<Text>)
    requires whole.Obj? && forall key <- keys :: key in Keys(whole.fields)
    ensures AreMembers(whole.fields, keys, members) && StableMembers(whole, keys) == Joined(members, Codes(","))
    decreases |keys|
  {
    if keys == [] {
      members := [];
    } else {
      var first := Quote(keys[0]) + [COLON] + Stable(Lookup(whole.fields, keys[0]));
      assert Codes(":") == [COLON] && Codes(",") == [COMMA];
      var rest := MembersAreJoined(whole, keys[1..]);
      members := [first] + rest;
      assert members[1..] == rest;
    }
  }

  /** `a` comes first: it is the beginning of `b`, or has the smaller code unit where they first differ. */
  predicate Precedes(a: Text, b: Text) {
    exists k :: 0 <= k <= |a| && k < |b| && a[..k] == b[..k] && (k == |a| || a[k] < b[k])
  }

  lemma {:induction false} LessExactlyWhen(a: Text, b: Text)
    ensures Less(a, b) <==> Precedes(a, b)
  {
    if a == [] || b == [] {
      assert b != [] ==> a[..0] == b[..0];
    } else {
      LessExactlyWhen(a[1..], b[1..]);
      if a[0] < b[0] {
        assert a[..0] == b[..0] && Precedes(a, b);
      } else if a[0] == b[0] && Precedes(a[1..], b[1..]) {
        var k :| 0 <= k <= |a[1..]| && k < |b[1..]| && a[1..][..k] == b[1..][..k] && (k == |a[1..]| || a[1..][k] < b[1..][k]);
        assert a[..k + 1] == [a[0]] + a[1..][..k] && b[..k + 1] == [b[0]] + b[1..][..k];
        assert k + 1 == |a| || a[k + 1] < b[k + 1];
      }
      if Precedes(a, b) {
        var k :| 0 <= k <= |a| && k < |b| && a[..k] == b[..k] && (k == |a| || a[k] < b[k]);
        if k > 0 {
          assert a[0] == a[..k][0] && b[0] == b[..k][0];
          assert a[1..][..k - 1] == a[..k][1..] && b[1..][..k - 1] == b[..k][1..];
          assert k - 1 == |a[1..]| || a[1..][k - 1] < b[1..][k - 1];
        }
      }
    }
  }

  /** A record is its members in braces, separated by commas, by ascending code units of their keys, each key once. */
  lemma ObjectText(fields: seq<Field>) returns (keys: seq<Text>, members: seq<Text>)
    requires DistinctKeys(fields)
    ensures forall key :: key in keys <==> key in Keys(fields)
    ensures forall i, j :: 0 <= i < j < |keys| ==> Precedes(keys[i], keys[j])
    ensures AreMembers(fields, keys, members)
    ensures Stable(Obj(fields)) == Codes("{") + Joined(members, Codes(",")) + Codes("}")
  {
    keys := SortedKeys(fields);
    SortedKeysAreKeys(fields);
    SortedKeysSorted(fields);
    members := MembersAreJoined(Obj(fields), keys);
    forall i, j | 0 <= i < j < |keys|
      ensures Precedes(keys[i], keys[j])
    {
      LessExactlyWhen(keys[i], keys[j]);
    }
    assert Codes("{") == [LEFT_BRACE] && Codes("}") == [RIGHT_BRACE];
  }

  // ---- Numbers ----

  function NumberOf(digits: Text): int {
    if digits == [] then 0 else 10 * NumberOf(digits[..|digits| - 1]) + (digits[|digits| - 1] as int - 48)
  }

  predicate AllDigits(t: Text) {
    t != [] && forall i :: 0 <= i < |t| ==> 48 <= t[i] < 58
  }

  lemma {:induction false} DecimalSpells(n: nat)
    ensures AllDigits(Decimal(n)) && NumberOf(Decimal(n)) == n
    ensures Decimal(n)[0] == 48 ==> n == 0 && |Decimal(n)| == 1
  {
    if n < 10 {
      assert Decimal(n)[..0] == [];
    } else {
      DecimalSpells(n / 10);
      assert Decimal(n)[..|Decimal(n)| - 1] == Decimal(n / 10);
    }
  }

  /** An integer is written in decimal without leading zeros, with a minus sign before a negative one. */
  lemma NumberText(n: SafeInt)
    ensures n >= 0 ==> AllDigits(Stable(Int(n))) && NumberOf(Stable(Int(n))) == n
    ensures n >= 0 && Stable(Int(n))[0] == 48 ==> n == 0 && |Stable(Int(n))| == 1
    ensures n < 0 ==> |Stable(Int(n))| > 1 && Stable(Int(n))[0] == '-' as int && Stable(Int(n))[1] != 48
                      && AllDigits(Stable(Int(n))[1..]) && NumberOf(Stable(Int(n))[1..]) == -n
  {
    DecimalSpells(if n >= 0 then n else -n);
    assert n < 0 ==> Number(n)[1..] == Decimal(-n);
  }

  // ---- Strings ----

  /** The value of a hexadecimal digit, letters in lower case. */
  predicate IsHex(c: int, d: int) {
    if d < 10 then c == '0' as int + d else c == 'a' as int + d - 10
  }

  /** A code unit in a string: quotes, backslashes and the five control characters with a letter of their own are escaped
      by it, other control characters and lone surrogates by their number in hexadecimal, and anything else stands for
      itself. */
  lemma UnitText(c: Code)
    ensures c == '\"' as int ==> QuoteUnit(c) == Codes("\\\"")
    ensures c == '\\' as int ==> QuoteUnit(c) == Codes("\\\\")
    ensures c == 8 ==> QuoteUnit(c) == Codes("\\b")
    ensures c == 9 ==> QuoteUnit(c) == Codes("\\t")
    ensures c == 10 ==> QuoteUnit(c) == Codes("\\n")
    ensures c == 12 ==> QuoteUnit(c) == Codes("\\f")
    ensures c == 13 ==> QuoteUnit(c) == Codes("\\r")
    ensures (c < 32 && c !in {8, 9, 10, 12, 13}) || 0xD800 <= c < 0xE000 ==>
              && |QuoteUnit(c)| == 6 && QuoteUnit(c)[..2] == Codes("\\u")
              && IsHex(QuoteUnit(c)[2], c / 4096) && IsHex(QuoteUnit(c)[3], c / 256 % 16)
              && IsHex(QuoteUnit(c)[4], c / 16 % 16) && IsHex(QuoteUnit(c)[5], c % 16)
    ensures 32 <= c && c != '\"' as int && c != '\\' as int && !(0xD800 <= c < 0xE000) ==> QuoteUnit(c) == [c]
  {
  }

  /** A string stands in quotes; a pair of surrogates stays as it is. */
  lemma StringText(s: Text, t: Text, high: Code, low: Code)
    requires 0xD800 <= high < 0xDC00 <= low < 0xE000
    ensures Stable(Str(s)) == Codes("\"") + QuoteBody(s) + Codes("\"")
    ensures QuoteBody([high, low] + t) == [high, low] + QuoteBody(t)
    ensures s != [] && !(0xD800 <= s[0] < 0xDC00) ==> QuoteBody(s) == QuoteUnit(s[0]) + QuoteBody(s[1..])
    ensures s != [] && |s| > 1 && !(0xDC00 <= s[1] < 0xE000) ==> QuoteBody(s) == QuoteUnit(s[0]) + QuoteBody(s[1..])
  {
    assert Codes("\"") == [QUOTE];
    assert ([high, low] + t)[2..] == t;
  }
}
