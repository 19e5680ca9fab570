/**
 * The relay client's hex helpers: `byteArrayToHexString`,
 * `hexStringToByteArray` and `generateRandomHex`.
 */
module Hex {
  import opened Wrappers
  import opened Bytes

  /** A value of one hexadecimal digit, as `Random.nextInt(16)` returns. */
  type Nibble = n: int | 0 <= n < 16

  const LowerHexDigits: string := "0123456789abcdef"

  function HexChar(n: Nibble): char {
    LowerHexDigits[n]
  }

  predicate IsLowerHexChar(c: char) {
    '0' <= c <= '9' || 'a' <= c <= 'f'
  }

  predicate IsLowerHex(s: string) {
    forall i :: 0 <= i < |s| ==> IsLowerHexChar(s[i])
  }

  /** `Character.digit(c, 16)` on ASCII: the digit's value, or -1 for any other character. */
  function DigitValue(c: char): (d: int)
    ensures -1 <= d < 16
    ensures '0' <= c <= '9' ==> d == c as int - '0' as int
    ensures 'a' <= c <= 'f' ==> d == c as int - 'a' as int + 10
    ensures 'A' <= c <= 'F' ==> d == c as int - 'A' as int + 10
    ensures d == -1 <==> !('0' <= c <= '9' || 'a' <= c <= 'f' || 'A' <= c <= 'F')
  {
    if '0' <= c <= '9' then c as int - '0' as int
    else if 'a' <= c <= 'f' then c as int - 'a' as int + 10
    else if 'A' <= c <= 'F' then c as int - 'A' as int + 10
    else -1
  }

  lemma DigitValueOfHexChar(n: Nibble)
    ensures DigitValue(HexChar(n)) == n
    ensures IsLowerHexChar(HexChar(n))
  {
  }

  lemma HexCharOfDigitValue(c: char)
    requires IsLowerHexChar(c)
    ensures HexChar(DigitValue(c)) == c
  {
  }

  /** `Integer.toHexString(v)` for a non-negative `v`: lowercase digits without leading zeros. */
  function ToHexString(v: nat): (s: string)
    ensures 1 <= |s|
    ensures IsLowerHex(s)
    ensures |s| == 1 <==> v < 16
    decreases v
  {
    if v < 16 then [HexChar(v)] else ToHexString(v / 16) + [HexChar(v % 16)]
  }

  /**
   * One step of `byteArrayToHexString`: `Integer.toHexString(0xff & b)`,
   * padded with one '0' when it has a single digit. The result is always the
   * two-digit big-endian rendering of the unsigned byte.
   */
  function ByteToHex(b: JByte): (r: string)
    ensures r == [HexChar((Unsigned(b) as int) / 16), HexChar((Unsigned(b) as int) % 16)]
  {
    var hex := ToHexString((Unsigned(b) as int));
    assert (Unsigned(b) as int) >= 16 ==> hex == ToHexString((Unsigned(b) as int) / 16) + [HexChar((Unsigned(b) as int) % 16)];
    if |hex| == 1 then "0" + hex else hex
  }

  /** `byteArrayToHexString`: two lowercase, zero-padded hex digits per byte, in order. */
  function ToHex(bytes: seq<JByte>): (s: string)
    ensures |s| == 2 * |bytes|
    ensures IsLowerHex(s)
  {
    if |bytes| == 0 then "" else ByteToHex(bytes[0]) + ToHex(bytes[1..])
  }

  /** Rendering a concatenation renders the parts one after the other. */
  lemma {:induction false} ToHexAppend(a: seq<JByte>, b: seq<JByte>)
    ensures ToHex(a + b) == ToHex(a) + ToHex(b)
  {
    if |a| == 0 {
      assert a + b == b;
    } else {
      assert (a + b)[0] == a[0] && (a + b)[1..] == a[1..] + b;
      ToHexAppend(a[1..], b);
      calc {
        ToHex(a + b);
        ByteToHex(a[0]) + ToHex(a[1..] + b);
        ByteToHex(a[0]) + (ToHex(a[1..]) + ToHex(b));
        (ByteToHex(a[0]) + ToHex(a[1..])) + ToHex(b);
        ToHex(a) + ToHex(b);
      }
    }
  }

  /**
   * Byte `i` is rendered in place: its two digits follow the `2i` digits of
   * the bytes before it.
   */
  lemma ToHexAt(bytes: seq<JByte>, i: nat)
    requires i < |bytes|
    ensures ToHex(bytes) == ToHex(bytes[..i]) + ByteToHex(bytes[i]) + ToHex(bytes[i + 1..])
    ensures |ToHex(bytes[..i])| == 2 * i
  {
    assert bytes == bytes[..i] + ([bytes[i]] + bytes[i + 1..]);
    ToHexAppend(bytes[..i], [bytes[i]] + bytes[i + 1..]);
    ToHexAppend([bytes[i]], bytes[i + 1..]);
    assert ToHex([bytes[i]]) == ByteToHex(bytes[i]) + ToHex([]);
  }

  /** The byte `hexStringToByteArray` stores for the digit pair `hi`, `lo`: `(byte) ((digit(hi) << 4) + digit(lo))`. */
  function PairToByte(hi: char, lo: char): JByte {
    Cast(DigitValue(hi) * 16 + DigitValue(lo))
  }

  /** The loop of `hexStringToByteArray`: one byte per digit pair, left to right. */
  function DecodePairs(s: string): (r: seq<JByte>)
    ensures |r| == |s| / 2
  {
    if |s| < 2 then [] else [PairToByte(s[0], s[1])] + DecodePairs(s[2..])
  }

  /**
   * `hexStringToByteArray`. An odd-length string makes the loop read one
   * character past the end, which throws; that is `None` here. Characters
   * that are not hex digits are not rejected: they count as digit -1.
   */
  function FromHex(s: string): (r: Option<seq<JByte>>)
    ensures r.Some? <==> |s| % 2 == 0
    ensures r.Some? ==> |r.value| == |s| / 2
  {
    if |s| % 2 == 1 then None else Some(DecodePairs(s))
  }

  /** A lowercase digit pair read back from a byte's rendering is that byte. */
  lemma PairOfByteToHex(b: JByte)
    ensures PairToByte(ByteToHex(b)[0], ByteToHex(b)[1]) == b
  {
    var u := (Unsigned(b) as int);
    DigitValueOfHexChar(u / 16);
    DigitValueOfHexChar(u % 16);
    assert DigitValue(ByteToHex(b)[0]) * 16 + DigitValue(ByteToHex(b)[1]) == u;
  }

  /** The rendering of the byte read from a lowercase digit pair is that pair. */
  lemma ByteToHexOfPair(hi: char, lo: char)
    requires IsLowerHexChar(hi) && IsLowerHexChar(lo)
    ensures ByteToHex(PairToByte(hi, lo)) == [hi, lo]
  {
    var dh, dl := DigitValue(hi), DigitValue(lo);
    var b := PairToByte(hi, lo);
    UnsignedOfCast(dh * 16 + dl);
    var u := (Unsigned(b) as int);
    assert u == dh * 16 + dl;
    assert u / 16 == dh && u % 16 == dl;
    HexCharOfDigitValue(hi);
    HexCharOfDigitValue(lo);
    calc {
      ByteToHex(b);
      [HexChar(u / 16), HexChar(u % 16)];
      [HexChar(dh), HexChar(dl)];
      [hi, lo];
    }
  }

  /** Decoding the hex rendering of any byte array gives the array back. */
  lemma {:induction false} FromHexToHex(bytes: seq<JByte>)
    ensures FromHex(ToHex(bytes)) == Some(bytes)
  {
    if |bytes| > 0 {
      var head, rest := ByteToHex(bytes[0]), ToHex(bytes[1..]);
      var s := head + rest;
      assert ToHex(bytes) == s;
      assert |head| == 2;
      assert s[0] == head[0] && s[1] == head[1] && s[2..] == rest;
      PairOfByteToHex(bytes[0]);
      FromHexToHex(bytes[1..]);
      assert DecodePairs(rest) == bytes[1..];
      assert DecodePairs(s) == [PairToByte(s[0], s[1])] + DecodePairs(s[2..]);
      assert DecodePairs(s) == [bytes[0]] + bytes[1..];
      assert [bytes[0]] + bytes[1..] == bytes;
    }
  }

  /** Encoding the bytes decoded from an even-length lowercase hex string gives the string back. */
  lemma {:induction false} ToHexFromHex(s: string)
    requires |s| % 2 == 0
    requires IsLowerHex(s)
    ensures ToHex(FromHex(s).value) == s
  {
    if |s| > 0 {
      var bytes := DecodePairs(s);
      assert bytes[0] == PairToByte(s[0], s[1]) && bytes[1..] == DecodePairs(s[2..]);
      ByteToHexOfPair(s[0], s[1]);
      assert IsLowerHex(s[2..]);
      ToHexFromHex(s[2..]);
      assert ToHex(bytes) == [s[0], s[1]] + s[2..];
    }
  }

  /** `generateRandomHex(length)`: character `i` is the digit drawn by the `i`-th `nextInt(16)`. */
  function RandomHex(length: nat, draws: nat -> Nibble): (s: string)
    ensures |s| == length
    ensures IsLowerHex(s)
    ensures forall i :: 0 <= i < length ==> DigitValue(s[i]) == draws(i)
  {
    var s := seq(length, i requires 0 <= i => HexChar(draws(i)));
    assert forall i :: 0 <= i < length ==> s[i] == HexChar(draws(i)) && DigitValue(s[i]) == draws(i) by {
      forall i | 0 <= i < length ensures DigitValue(HexChar(draws(i))) == draws(i) {
        DigitValueOfHexChar(draws(i));
      }
    }
    s
  }

  /** Every lowercase hex string of the requested length is an identifier some draws produce. */
  lemma RandomHexCoversAll(s: string)
    requires IsLowerHex(s)
    ensures exists draws: nat -> Nibble :: RandomHex(|s|, draws) == s
  {
    var draws: nat -> Nibble := (i: nat) => if i < |s| then DigitValue(s[i]) as Nibble else 0;
    var t := RandomHex(|s|, draws);
    forall i | 0 <= i < |s| ensures t[i] == s[i] {
      assert DigitValue(t[i]) == DigitValue(s[i]);
    }
    assert t == s;
  }
}
