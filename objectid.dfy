/**
 * The id-format check that the controllers apply to a path or token id before
 * they query by id: the regular expression /^[0-9a-fA-F]{24}$/.
 *
 * An ObjectId is twelve bytes, rendered as 24 lower-case hexadecimal digits.
 * Beside the check sit a hex rendering of byte strings and its inverse, and
 * the lemmas that tie them to the check: every rendered ObjectId passes, and
 * every string that passes is the rendering of exactly one twelve-byte id,
 * up to the letter case of its digits. `SameId` is how a lookup by id
 * compares two id strings: by the bytes they decode to, so letter case
 * does not matter.
 */
module ObjectIds {

  type Byte = x: int | 0 <= x < 256

  /** Number of bytes in an ObjectId. */
  const IdBytes: nat := 12

  /** The character class [0-9a-fA-F]. */
  predicate IsHexDigit(c: char)
  {
    ('0' <= c <= '9') || ('a' <= c <= 'f') || ('A' <= c <= 'F')
  }

  predicate AllHex(s: string)
  {
    forall i :: 0 <= i < |s| ==> IsHexDigit(s[i])
  }

  /** The characters of the class [0-9a-fA-F], listed. */
  const HexDigits: string := "0123456789abcdefABCDEF"

  /** /^[0-9a-fA-F]{24}$/ : exactly 24 characters, each a hex digit. */
  predicate IsObjectId(s: string)
  {
    |s| == 2 * IdBytes && AllHex(s)
  }

  /** The id check is the regular expression's character class, written out as a list, taken 24 times. */
  lemma IsObjectIdMatchesRegex(s: string)
    ensures IsObjectId(s) <==> |s| == 24 && forall i :: 0 <= i < |s| ==> s[i] in HexDigits
  {
  }

  function HexValue(c: char): (n: int)
    requires IsHexDigit(c)
    ensures 0 <= n < 16
  {
    if '0' <= c <= '9' then c as int - '0' as int
    else if 'a' <= c <= 'f' then c as int - 'a' as int + 10
    else c as int - 'A' as int + 10
  }

  /** The lower-case digit for a value below 16. */
  function HexChar(n: int): (c: char)
    requires 0 <= n < 16
    ensures IsHexDigit(c) && HexValue(c) == n
    ensures !('A' <= c <= 'F')
  {
    if n < 10 then ('0' as int + n) as char else ('a' as int + n - 10) as char
  }

  /** A hex digit with its letter, if any, in lower case. */
  function LowerHex(c: char): (d: char)
    requires IsHexDigit(c)
    ensures IsHexDigit(d) && HexValue(d) == HexValue(c)
  {
    if 'A' <= c <= 'F' then (c as int - 'A' as int + 'a' as int) as char else c
  }

  function LowerAll(s: string): (t: string)
    requires AllHex(s)
    ensures |t| == |s|
    ensures forall i :: 0 <= i < |s| ==> t[i] == LowerHex(s[i])
  {
    if s == [] then [] else [LowerHex(s[0])] + LowerAll(s[1..])
  }

  /** Two lower-case digits per byte, most significant first. */
  function Encode(b: seq<Byte>): (s: string)
    ensures |s| == 2 * |b| && AllHex(s)
  {
    if b == [] then [] else [HexChar(b[0] / 16), HexChar(b[0] % 16)] + Encode(b[1..])
  }

  function Decode(s: string): (b: seq<Byte>)
    requires AllHex(s) && |s| % 2 == 0
    ensures 2 * |b| == |s|
  {
    if s == [] then []
    else [16 * HexValue(s[0]) + HexValue(s[1])] + Decode(s[2..])
  }

  /** Every id the database renders (twelve bytes as hex) passes the id check. */
  lemma RenderedIdPasses(b: seq<Byte>)
    requires |b| == IdBytes
    ensures IsObjectId(Encode(b))
  {
  }

  /** Decoding a rendering gives back the bytes. */
  lemma {:induction false} DecodeEncode(b: seq<Byte>)
    ensures Decode(Encode(b)) == b
  {
    if b != [] {
      var s := Encode(b);
      assert s[2..] == Encode(b[1..]);
      DecodeEncode(b[1..]);
      assert 16 * HexValue(s[0]) + HexValue(s[1]) == b[0];
    }
  }

  /** Rendering a decoded string gives back the string with its letters in lower case. */
  lemma {:induction false} EncodeDecode(s: string)
    requires AllHex(s) && |s| % 2 == 0
    ensures Encode(Decode(s)) == LowerAll(s)
  {
    if s != [] {
      EncodeDecode(s[2..]);
      var v := 16 * HexValue(s[0]) + HexValue(s[1]);
      assert v / 16 == HexValue(s[0]) && v % 16 == HexValue(s[1]);
      assert LowerAll(s) == [LowerHex(s[0]), LowerHex(s[1])] + LowerAll(s[2..]);
      HexCharOfLower(s[0]);
      HexCharOfLower(s[1]);
    }
  }

  lemma HexCharOfLower(c: char)
    requires IsHexDigit(c)
    ensures HexChar(HexValue(c)) == LowerHex(c)
  {
  }

  /**
   * A string that passes the id check is the rendering of a twelve-byte id,
   * possibly with some of its letters in upper case (the converse is
   * RenderedIdPasses).
   */
  lemma PassingIdIsRendering(s: string)
    requires IsObjectId(s)
    ensures |Decode(s)| == IdBytes && Encode(Decode(s)) == LowerAll(s)
  {
    EncodeDecode(s);
  }

  /**
   * The form in which the database compares an id given as a string: a
   * string that passes the id check names the twelve bytes it decodes to,
   * so it stands for their lower-case rendering; any other string is kept
   * as it is.
   */
  function CanonicalId(s: string): (t: string)
    ensures IsObjectId(s) ==> IsObjectId(t) && t == Encode(Decode(s))
    ensures !IsObjectId(s) ==> t == s
  {
    if IsObjectId(s) then EncodeDecode(s); LowerAll(s) else s
  }

  /** Two id strings that name the same document (`findById`, `$eq` on an ObjectId field). */
  predicate SameId(a: string, b: string)
  {
    CanonicalId(a) == CanonicalId(b)
  }

  /** Two well-formed ids name the same document exactly when they decode to the same bytes. */
  lemma SameIdIsSameBytes(a: string, b: string)
    requires IsObjectId(a) && IsObjectId(b)
    ensures SameId(a, b) <==> Decode(a) == Decode(b)
  {
    if SameId(a, b) {
      DecodeEncode(Decode(a));
      DecodeEncode(Decode(b));
    }
  }

  /** Letter case does not matter: a well-formed id and its lower-case form name the same document. */
  lemma SameIdIgnoresCase(s: string)
    requires IsObjectId(s)
    ensures IsObjectId(LowerAll(s)) && SameId(s, LowerAll(s))
  {
    var t := LowerAll(s);
    assert LowerAll(t) == t by {
      forall i | 0 <= i < |t|
        ensures LowerAll(t)[i] == t[i]
      {
        assert t[i] == LowerHex(s[i]);
      }
    }
  }
}
