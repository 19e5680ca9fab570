/**
 * The compact JSON text that Jackson's `ObjectMapper.writeValueAsString`
 * produces for the values the relay client serialises (strings, integers,
 * arrays of strings, arrays of arrays of strings), and a reader for that
 * text. The reader exists to state that the writer loses no information:
 * reading back what was written yields the written values.
 */
module JsonText {
  import opened Wrappers
  import Hex

  const UpperHexDigits: string := "0123456789ABCDEF"

  const Backspace: char := 8 as char
  const FormFeed: char := 12 as char

  /**
   * Jackson's default escaping of one character inside a string literal:
   * quote and backslash are backslash-escaped, the control characters with a
   * short form use it, the other control characters become `\u00XX` with
   * upper-case digits, and everything else is written as is.
   */
  function EscapeChar(c: char): (e: string)
    ensures 1 <= |e|
    ensures e[0] != '"'
    ensures |e| == 1 <==> e[0] != '\\'
    ensures |e| == 1 <==> c != '"' && c != '\\' && (c as int) >= 0x20
    ensures |e| == 1 ==> e == [c]
  {
    if c == '"' then "\\\""
    else if c == '\\' then "\\\\"
    else if c == Backspace then "\\b"
    else if c == '\t' then "\\t"
    else if c == '\n' then "\\n"
    else if c == FormFeed then "\\f"
    else if c == '\r' then "\\r"
    else if (c as int) < 0x20 then "\\u00" + [UpperHexDigits[c as int / 16], UpperHexDigits[c as int % 16]]
    else [c]
  }

  function Escape(s: string): string {
    if |s| == 0 then "" else EscapeChar(s[0]) + Escape(s[1..])
  }

  /** A JSON string literal. */
  function Quote(s: string): string {
    "\"" + Escape(s) + "\""
  }

  const DecimalDigits: string := "0123456789"

  predicate IsDigit(c: char) {
    '0' <= c <= '9'
  }

  function DigitChar(d: nat): char
    requires d < 10
  {
    DecimalDigits[d]
  }

  /** Decimal digits of a natural number, without leading zeros. */
  function NatToDec(n: nat): (s: string)
    ensures 1 <= |s|
    ensures forall i :: 0 <= i < |s| ==> IsDigit(s[i])
  {
    if n < 10 then [DigitChar(n)] else NatToDec(n / 10) + [DigitChar(n % 10)]
  }

  /** How Jackson writes an `int` or `long`: optional minus sign, then decimal digits. */
  function IntToDec(n: int): (s: string)
    ensures 1 <= |s|
  {
    if n < 0 then "-" + NatToDec(-n) else NatToDec(n)
  }

  /** A JSON array of strings, with no whitespace. */
  function StringArray(xs: seq<string>): string {
    "[" + StringItems(xs) + "]"
  }

  function StringItems(xs: seq<string>): string {
    if |xs| == 0 then ""
    else if |xs| == 1 then Quote(xs[0])
    else Quote(xs[0]) + "," + StringItems(xs[1..])
  }

  /** A JSON array of arrays of strings, the shape of an event's `tags`. */
  function TagArray(tags: seq<seq<string>>): string {
    "[" + TagItems(tags) + "]"
  }

  function TagItems(tags: seq<seq<string>>): string {
    if |tags| == 0 then ""
    else if |tags| == 1 then StringArray(tags[0])
    else StringArray(tags[0]) + "," + TagItems(tags[1..])
  }

  // ---------------------------------------------------------------------------
  // Reader

  /** Consumes the literal `lit` at the front of `s`. */
  function Expect(lit: string, s: string): (r: Option<string>)
    ensures r.Some? ==> |r.value| <= |s| - |lit|
  {
    if |lit| <= |s| && s[..|lit|] == lit then Some(s[|lit|..]) else None
  }

  /** The value of four hex digits (either case), as a `\uXXXX` escape carries them. */
  function Hex4(s: string): Option<int>
    requires |s| == 4
  {
    var d := [Hex.DigitValue(s[0]), Hex.DigitValue(s[1]), Hex.DigitValue(s[2]), Hex.DigitValue(s[3])];
    if d[0] < 0 || d[1] < 0 || d[2] < 0 || d[3] < 0 then None
    else Some(((d[0] * 16 + d[1]) * 16 + d[2]) * 16 + d[3])
  }

  /** Reads the escape sequence after a backslash; returns the character and the text after it. */
  function ReadEscape(s: string): (r: Option<(char, string)>)
    ensures r.Some? ==> |r.value.1| < |s|
  {
    if |s| == 0 then None
    else if s[0] == '"' || s[0] == '\\' || s[0] == '/' then Some((s[0], s[1..]))
    else if s[0] == 'b' then Some((Backspace, s[1..]))
    else if s[0] == 't' then Some(('\t', s[1..]))
    else if s[0] == 'n' then Some(('\n', s[1..]))
    else if s[0] == 'f' then Some((FormFeed, s[1..]))
    else if s[0] == 'r' then Some(('\r', s[1..]))
    else if s[0] == 'u' && 5 <= |s| then
      match Hex4(s[1..5])
      case Some(v) =>
        if 0 <= v < 0xD800 || 0xE000 <= v < 0x11_0000 then Some((v as char, s[5..])) else None
      case None => None
    else None
  }

  /** Reads the rest of a string literal after its opening quote: the string and the text after the closing quote. */
  function ReadStringBody(s: string): (r: Option<(string, string)>)
    ensures r.Some? ==> |r.value.1| < |s|
    decreases |s|
  {
    if |s| == 0 then None
    else if s[0] == '"' then Some(("", s[1..]))
    else if s[0] == '\\' then
      match ReadEscape(s[1..])
      case None => None
      case Some((c, after)) =>
        match ReadStringBody(after)
        case None => None
        case Some((t, rest)) => Some(([c] + t, rest))
    else if (s[0] as int) < 0x20 then None
    else
      match ReadStringBody(s[1..])
      case None => None
      case Some((t, rest)) => Some(([s[0]] + t, rest))
  }

  function ReadString(s: string): (r: Option<(string, string)>)
    ensures r.Some? ==> |r.value.1| < |s|
  {
    if 0 < |s| && s[0] == '"' then ReadStringBody(s[1..]) else None
  }

  /** Number of leading decimal digits. */
  function DigitSpan(s: string): (k: nat)
    ensures k <= |s|
    ensures forall i :: 0 <= i < k ==> IsDigit(s[i])
    ensures k < |s| ==> !IsDigit(s[k])
  {
    if 0 < |s| && IsDigit(s[0]) then 1 + DigitSpan(s[1..]) else 0
  }

  /** The value of a string of decimal digits. */
  function DecValue(ds: string): nat
    requires forall i :: 0 <= i < |ds| ==> IsDigit(ds[i])
  {
    if |ds| == 0 then 0
    else
      assert IsDigit(ds[|ds| - 1]);
      DecValue(ds[..|ds| - 1]) * 10 + (ds[|ds| - 1] as int - '0' as int)
  }

  function ReadNat(s: string): (r: Option<(nat, string)>)
    ensures r.Some? ==> |r.value.1| < |s|
  {
    var k := DigitSpan(s);
    if k == 0 then None else Some((DecValue(s[..k]), s[k..]))
  }

  function ReadInt(s: string): (r: Option<(int, string)>)
    ensures r.Some? ==> |r.value.1| < |s|
  {
    if 0 < |s| && s[0] == '-' then
      match ReadNat(s[1..])
      case None => None
      case Some((n, rest)) => Some((0 - n as int, rest))
    else
      match ReadNat(s)
      case None => None
      case Some((n, rest)) => Some((n as int, rest))
  }

  /** Reads the items of a non-empty string array and its closing bracket. */
  function ReadStringItems(s: string): (r: Option<(seq<string>, string)>)
    ensures r.Some? ==> |r.value.1| < |s|
    decreases |s|
  {
    match ReadString(s)
    case None => None
    case Some((x, after)) =>
      if 0 < |after| && after[0] == ']' then Some(([x], after[1..]))
      else if 0 < |after| && after[0] == ',' then
        match ReadStringItems(after[1..])
        case None => None
        case Some((xs, rest)) => Some(([x] + xs, rest))
      else None
  }

  function ReadStringArray(s: string): (r: Option<(seq<string>, string)>)
    ensures r.Some? ==> |r.value.1| < |s|
  {
    if 2 <= |s| && s[0] == '[' && s[1] == ']' then Some(([], s[2..]))
    else if 0 < |s| && s[0] == '[' then ReadStringItems(s[1..])
    else None
  }

  function ReadTagItems(s: string): (r: Option<(seq<seq<string>>, string)>)
    ensures r.Some? ==> |r.value.1| < |s|
    decreases |s|
  {
    match ReadStringArray(s)
    case None => None
    case Some((x, after)) =>
      if 0 < |after| && after[0] == ']' then Some(([x], after[1..]))
      else if 0 < |after| && after[0] == ',' then
        match ReadTagItems(after[1..])
        case None => None
        case Some((xs, rest)) => Some(([x] + xs, rest))
      else None
  }

  function ReadTagArray(s: string): (r: Option<(seq<seq<string>>, string)>)
    ensures r.Some? ==> |r.value.1| < |s|
  {
    if 2 <= |s| && s[0] == '[' && s[1] == ']' then Some(([], s[2..]))
    else if 0 < |s| && s[0] == '[' then ReadTagItems(s[1..])
    else None
  }

  // ---------------------------------------------------------------------------
  // Reading back what was written

  lemma UpperHexDigitValue(n: nat)
    requires n < 16
    ensures Hex.DigitValue(UpperHexDigits[n]) == n
  {
  }

  /** The escape sequence written for `c` reads back as `c`. */
  lemma ReadEscapeOfEscapeChar(c: char, tail: string)
    requires 1 < |EscapeChar(c)|
    ensures ReadEscape(EscapeChar(c)[1..] + tail) == Some((c, tail))
  {
    var e := EscapeChar(c);
    var s := e[1..] + tail;
    if c != '"' && c != '\\' && c != Backspace && c != '\t' && c != '\n' && c != FormFeed && c != '\r' {
      var hi, lo := c as int / 16, c as int % 16;
      assert e == "\\u00" + [UpperHexDigits[hi], UpperHexDigits[lo]];
      assert s[0] == 'u' && s[1..5] == ['0', '0', UpperHexDigits[hi], UpperHexDigits[lo]];
      UpperHexDigitValue(hi);
      UpperHexDigitValue(lo);
      assert Hex4(s[1..5]) == Some(hi * 16 + lo);
      assert s[5..] == tail;
    }
  }

  /** One written character in front of a readable body reads back in front of what the body reads as. */
  lemma ReadStringBodyStep(c: char, more: string, t: string, tail: string)
    requires ReadStringBody(more) == Some((t, tail))
    ensures ReadStringBody(EscapeChar(c) + more) == Some(([c] + t, tail))
  {
    var e := EscapeChar(c);
    if |e| == 1 {
      assert (e + more)[0] == c;
      assert (e + more)[1..] == more;
    } else {
      ReadEscapeOfEscapeChar(c, more);
      assert (e + more)[0] == '\\';
      assert (e + more)[1..] == e[1..] + more;
    }
  }

  /** The escaped body of a string followed by the closing quote reads back as that string. */
  lemma {:induction false} ReadStringBodyOfEscape(x: string, tail: string)
    ensures ReadStringBody(Escape(x) + "\"" + tail) == Some((x, tail))
  {
    if |x| > 0 {
      var more := Escape(x[1..]) + "\"" + tail;
      assert Escape(x) + "\"" + tail == EscapeChar(x[0]) + more;
      ReadStringBodyOfEscape(x[1..], tail);
      ReadStringBodyStep(x[0], more, x[1..], tail);
      assert [x[0]] + x[1..] == x;
    } else {
      assert Escape(x) + "\"" + tail == "\"" + tail;
    }
  }

  /** A string literal reads back as the string it was written from. */
  lemma ReadStringOfQuote(x: string, tail: string)
    ensures ReadString(Quote(x) + tail) == Some((x, tail))
  {
    assert (Quote(x) + tail)[1..] == Escape(x) + "\"" + tail;
    ReadStringBodyOfEscape(x, tail);
  }

  lemma {:induction false} DecValueOfNatToDec(n: nat)
    ensures DecValue(NatToDec(n)) == n
  {
    var s := NatToDec(n);
    if n >= 10 {
      DecValueOfNatToDec(n / 10);
      assert s[..|s| - 1] == NatToDec(n / 10);
      assert s[|s| - 1] == DigitChar(n % 10);
    }
  }

  lemma {:induction false} DigitSpanOfDigits(ds: string, tail: string)
    requires forall i :: 0 <= i < |ds| ==> IsDigit(ds[i])
    requires |tail| == 0 || !IsDigit(tail[0])
    ensures DigitSpan(ds + tail) == |ds|
  {
    if |ds| > 0 {
      assert (ds + tail)[1..] == ds[1..] + tail;
      DigitSpanOfDigits(ds[1..], tail);
    }
  }

  /** A written integer reads back when followed by a non-digit. */
  lemma ReadIntOfIntToDec(n: int, tail: string)
    requires |tail| == 0 || !IsDigit(tail[0])
    ensures ReadInt(IntToDec(n) + tail) == Some((n, tail))
  {
    var m: nat := if n < 0 then -n else n;
    var ds := NatToDec(m);
    DigitSpanOfDigits(ds, tail);
    DecValueOfNatToDec(m);
    assert (ds + tail)[..|ds|] == ds && (ds + tail)[|ds|..] == tail;
    if n < 0 {
      assert (IntToDec(n) + tail)[1..] == ds + tail;
    }
  }

  lemma ReadStringItemsLast(s: string, x: string, tail: string)
    requires ReadString(s) == Some((x, "]" + tail))
    ensures ReadStringItems(s) == Some(([x], tail))
  {
    assert ("]" + tail)[1..] == tail;
  }

  lemma ReadStringItemsNext(s: string, x: string, more: string, xs: seq<string>, tail: string)
    requires ReadString(s) == Some((x, "," + more))
    requires ReadStringItems(more) == Some((xs, tail))
    ensures ReadStringItems(s) == Some(([x] + xs, tail))
  {
    assert ("," + more)[1..] == more;
  }

  /** The items of a non-empty string array, with the closing bracket, read back. */
  lemma {:induction false} ReadStringItemsOf(xs: seq<string>, tail: string)
    requires |xs| > 0
    ensures ReadStringItems(StringItems(xs) + "]" + tail) == Some((xs, tail))
  {
    if |xs| == 1 {
      ReadStringOfQuote(xs[0], "]" + tail);
      assert StringItems(xs) + "]" + tail == Quote(xs[0]) + ("]" + tail);
      ReadStringItemsLast(Quote(xs[0]) + ("]" + tail), xs[0], tail);
      assert [xs[0]] == xs;
    } else {
      var more := StringItems(xs[1..]) + "]" + tail;
      assert StringItems(xs) + "]" + tail == Quote(xs[0]) + ("," + more);
      ReadStringOfQuote(xs[0], "," + more);
      ReadStringItemsOf(xs[1..], tail);
      ReadStringItemsNext(Quote(xs[0]) + ("," + more), xs[0], more, xs[1..], tail);
      assert [xs[0]] + xs[1..] == xs;
    }
  }

  /** The items of a non-empty string array start with a string literal. */
  lemma {:induction false} StringItemsStart(xs: seq<string>)
    requires |xs| > 0
    ensures 0 < |StringItems(xs)| && StringItems(xs)[0] == '"'
  {
    var q := Quote(xs[0]);
    assert q[0] == '"';
    if |xs| > 1 {
      var rest := StringItems(xs[1..]);
      assert StringItems(xs) == q + "," + rest;
      assert (q + "," + rest)[0] == q[0];
    }
  }

  /** A written string array reads back. */
  lemma {:induction false} ReadStringArrayOf(xs: seq<string>, tail: string)
    ensures ReadStringArray(StringArray(xs) + tail) == Some((xs, tail))
  {
    var s := StringArray(xs) + tail;
    if |xs| == 0 {
      assert s == "[]" + tail;
      assert s[2..] == tail;
    } else {
      var items := StringItems(xs) + "]" + tail;
      assert s == "[" + items;
      StringItemsStart(xs);
      assert items[0] == '"';
      assert s[0] == '[' && s[1] == '"' && s[1..] == items;
      ReadStringItemsOf(xs, tail);
    }
  }

  lemma ReadTagItemsLast(s: string, x: seq<string>, tail: string)
    requires ReadStringArray(s) == Some((x, "]" + tail))
    ensures ReadTagItems(s) == Some(([x], tail))
  {
    assert ("]" + tail)[1..] == tail;
  }

  lemma ReadTagItemsNext(s: string, x: seq<string>, more: string, xs: seq<seq<string>>, tail: string)
    requires ReadStringArray(s) == Some((x, "," + more))
    requires ReadTagItems(more) == Some((xs, tail))
    ensures ReadTagItems(s) == Some(([x] + xs, tail))
  {
    assert ("," + more)[1..] == more;
  }

  /** The items of a non-empty tag array, with the closing bracket, read back. */
  lemma {:induction false} ReadTagItemsOf(tags: seq<seq<string>>, tail: string)
    requires |tags| > 0
    ensures ReadTagItems(TagItems(tags) + "]" + tail) == Some((tags, tail))
  {
    if |tags| == 1 {
      ReadStringArrayOf(tags[0], "]" + tail);
      assert TagItems(tags) + "]" + tail == StringArray(tags[0]) + ("]" + tail);
      ReadTagItemsLast(StringArray(tags[0]) + ("]" + tail), tags[0], tail);
      assert [tags[0]] == tags;
    } else {
      var more := TagItems(tags[1..]) + "]" + tail;
      assert TagItems(tags) + "]" + tail == StringArray(tags[0]) + ("," + more);
      ReadStringArrayOf(tags[0], "," + more);
      ReadTagItemsOf(tags[1..], tail);
      ReadTagItemsNext(StringArray(tags[0]) + ("," + more), tags[0], more, tags[1..], tail);
      assert [tags[0]] + tags[1..] == tags;
    }
  }

  /** The items of a non-empty tag array start with an array. */
  lemma {:induction false} TagItemsStart(tags: seq<seq<string>>)
    requires |tags| > 0
    ensures 0 < |TagItems(tags)| && TagItems(tags)[0] == '['
  {
    var a := StringArray(tags[0]);
    assert a[0] == '[';
    if |tags| > 1 {
      var rest := TagItems(tags[1..]);
      assert TagItems(tags) == a + "," + rest;
      assert (a + "," + rest)[0] == a[0];
    }
  }

  /** A written tag array reads back. */
  lemma {:induction false} ReadTagArrayOf(tags: seq<seq<string>>, tail: string)
    ensures ReadTagArray(TagArray(tags) + tail) == Some((tags, tail))
  {
    var s := TagArray(tags) + tail;
    if |tags| == 0 {
      assert s == "[]" + tail;
      assert s[2..] == tail;
    } else {
      var items := TagItems(tags) + "]" + tail;
      assert s == "[" + items;
      TagItemsStart(tags);
      assert items[0] == '[';
      assert s[0] == '[' && s[1] == '[' && s[1..] == items;
      ReadTagItemsOf(tags, tail);
    }
  }
}
