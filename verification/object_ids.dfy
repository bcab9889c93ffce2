/** BSON ObjectIds as the API and the workers see them: twelve bytes, written
    out by `str()` as 24 lower-case hexadecimal digits, and read back by the
    `ObjectId(text)` constructor, which accepts exactly 24 hexadecimal digits
    of either case. */
module ObjectIds {
  import opened Options

  type Byte = b: int | 0 <= b < 256

  type ObjectId = s: seq<Byte> | |s| == 12 witness [0, 0, 0, 0, 0, 0, 0, 0, 0, 0, 0, 0]

  predicate IsHexDigit(c: char) {
    ('0' <= c <= '9') || ('a' <= c <= 'f') || ('A' <= c <= 'F')
  }

  predicate IsLowerHexDigit(c: char) {
    ('0' <= c <= '9') || ('a' <= c <= 'f')
  }

  /** The lower-case digit for a nibble. */
  function Digit(n: int): (c: char)
    requires 0 <= n < 16
    ensures IsLowerHexDigit(c)
  {
    if n < 10 then (48 + n) as char else (87 + n) as char
  }

  /** The value of a hexadecimal digit of either case. */
  function DigitValue(c: char): (v: Option<int>)
    ensures v.Some? <==> IsHexDigit(c)
    ensures v.Some? ==> 0 <= v.value < 16
  {
    if '0' <= c <= '9' then Some(c as int - 48)
    else if 'a' <= c <= 'f' then Some(c as int - 87)
    else if 'A' <= c <= 'F' then Some(c as int - 55)
    else None
  }

  /** An upper-case hexadecimal letter folded to lower case; anything else kept. */
  function LowerChar(c: char): char {
    if 'A' <= c <= 'F' then (c as int + 32) as char else c
  }

  /** `LowerChar` on every character. */
  function LowerHex(s: string): (r: string)
    ensures |r| == |s|
  {
    if |s| == 0 then "" else [LowerChar(s[0])] + LowerHex(s[1..])
  }

  /** Two lower-case digits per byte, high nibble first. */
  function Hex(bs: seq<Byte>): (s: string)
    ensures |s| == 2 * |bs|
    ensures forall k :: 0 <= k < |s| ==> IsLowerHexDigit(s[k])
  {
    if |bs| == 0 then ""
    else [Digit(bs[0] / 16), Digit(bs[0] % 16)] + Hex(bs[1..])
  }

  /** `bytes.fromhex` restricted to inputs without whitespace: pairs of
      digits of either case; an odd length or a non-digit fails. */
  function ParseHex(s: string): Option<seq<Byte>>
    decreases |s|
  {
    if |s| == 0 then Some([])
    else if |s| == 1 then None
    else
      match (DigitValue(s[0]), DigitValue(s[1]), ParseHex(s[2..]))
      case (Some(h), Some(l), Some(rest)) => Some([h * 16 + l] + rest)
      case _ => None
  }

  /** `str(oid)`. */
  function Str(id: ObjectId): (s: string)
    ensures |s| == 24
    ensures forall k :: 0 <= k < |s| ==> IsLowerHexDigit(s[k])
  {
    Hex(id)
  }

  /** `ObjectId(text)`: `None` stands for the `InvalidId` exception. */
  function Parse(s: string): (r: Option<ObjectId>)
    ensures r.Some? <==> |s| == 24 && forall k :: 0 <= k < |s| ==> IsHexDigit(s[k])
    ensures r.Some? ==> Str(r.value) == LowerHex(s)
  {
    ParseHexAccepts(s);
    if |s| != 24 then None
    else
      match ParseHex(s)
      case Some(bs) =>
        ParseHexLength(s);
        ParseHexCanonical(s);
        Some(bs)
      case None => None
  }

  lemma DigitRoundTrip(n: int)
    requires 0 <= n < 16
    ensures DigitValue(Digit(n)) == Some(n)
  {
  }

  /** Reading back what `Hex` wrote gives the same bytes. */
  lemma {:induction false} HexRoundTrip(bs: seq<Byte>)
    ensures ParseHex(Hex(bs)) == Some(bs)
  {
    if |bs| > 0 {
      var s := Hex(bs);
      assert s[2..] == Hex(bs[1..]);
      HexRoundTrip(bs[1..]);
      DigitRoundTrip(bs[0] / 16);
      DigitRoundTrip(bs[0] % 16);
      assert bs == [bs[0] / 16 * 16 + bs[0] % 16] + bs[1..];
    }
  }

  /** `ParseHex` succeeds exactly on even-length all-digit text. */
  lemma {:induction false} ParseHexAccepts(s: string)
    ensures ParseHex(s).Some? <==> |s| % 2 == 0 && forall k :: 0 <= k < |s| ==> IsHexDigit(s[k])
    decreases |s|
  {
    if |s| >= 2 {
      ParseHexAccepts(s[2..]);
      assert forall k :: 2 <= k < |s| ==> s[k] == s[2..][k - 2];
    }
  }

  lemma {:induction false} ParseHexLength(s: string)
    requires ParseHex(s).Some?
    ensures 2 * |ParseHex(s).value| == |s|
    decreases |s|
  {
    if |s| >= 2 {
      ParseHexLength(s[2..]);
    }
  }

  /** The digit written for a parsed digit is the parsed digit in lower case. */
  lemma DigitOfValue(c: char)
    requires IsHexDigit(c)
    ensures Digit(DigitValue(c).value) == LowerChar(c)
  {
  }

  lemma NibblePair(h: int, l: int)
    requires 0 <= h < 16 && 0 <= l < 16
    ensures (h * 16 + l) / 16 == h && (h * 16 + l) % 16 == l
  {
  }

  /** Writing out parsed bytes gives the input with its case normalised. */
  lemma {:induction false} ParseHexCanonical(s: string)
    requires ParseHex(s).Some?
    ensures Hex(ParseHex(s).value) == LowerHex(s)
    decreases |s|
  {
    if |s| >= 2 {
      var bs := ParseHex(s).value;
      var h := DigitValue(s[0]).value;
      var l := DigitValue(s[1]).value;
      var rest := ParseHex(s[2..]).value;
      assert bs == [h * 16 + l] + rest;
      ParseHexCanonical(s[2..]);
      NibblePair(h, l);
      DigitOfValue(s[0]);
      DigitOfValue(s[1]);
      assert bs[1..] == rest;
      assert Hex(bs) == [LowerChar(s[0]), LowerChar(s[1])] + Hex(rest);
      assert s[1..][1..] == s[2..];
      assert LowerHex(s) == [LowerChar(s[0])] + ([LowerChar(s[1])] + LowerHex(s[2..]));
    }
  }

  /** The text of an ObjectId parses back to it. */
  lemma StrRoundTrip(id: ObjectId)
    ensures Parse(Str(id)) == Some(id)
  {
    HexRoundTrip(id);
  }

  /** Distinct ObjectIds have distinct texts. */
  lemma StrInjective(a: ObjectId, b: ObjectId)
    requires Str(a) == Str(b)
    ensures a == b
  {
    StrRoundTrip(a);
    StrRoundTrip(b);
  }
}
