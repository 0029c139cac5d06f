/** Keys and signatures as text: how bytes are written, and every text that reads back as them. */
module HexText {
  import opened Common

  type Byte = b: int | 0 <= b < 256

  type Bytes = seq<Byte>

  /** The whitespace that reading skips between two bytes. */
  predicate Skipped(c: char) {
    c == ' ' || 9 <= c as int <= 13
  }

  function Digit(n: int): (c: char)
    requires 0 <= n < 16
    ensures !Skipped(c) && c != ':' && DigitValue(c) == n
  {
    if n < 10 then (48 + n) as char else (87 + n) as char
  }

  /** The value of a hex digit of either case, or -1. */
  function DigitValue(c: char): (n: int)
    ensures -1 <= n < 16
  {
    var k := c as int;
    if 48 <= k <= 57 then k - 48
    else if 97 <= k <= 102 then k - 87
    else if 65 <= k <= 70 then k - 55
    else -1
  }

  function ByteText(b: Byte): string {
    [Digit(b / 16), Digit(b % 16)]
  }

  /** The text a key is recorded under: two lower-case digits a byte. */
  function Hex(bytes: Bytes): (s: string)
    ensures |s| == 2 * |bytes|
    ensures ':' !in s
  {
    if bytes == [] then "" else ByteText(bytes[0]) + Hex(bytes[1..])
  }

  /** Read a text back: digits of either case, whitespace allowed between bytes. */
  function FromHex(s: string): Option<Bytes> {
    if s == "" then Some([])
    else if Skipped(s[0]) then FromHex(s[1..])
    else if |s| == 1 || DigitValue(s[0]) < 0 || DigitValue(s[1]) < 0 then None
    else
      var rest := FromHex(s[2..]);
      if rest.None? then None else Some([16 * DigitValue(s[0]) + DigitValue(s[1])] + rest.value)
  }

  /** One pair of digits is one byte. */
  lemma ReadPair(pair: string, b: Byte, rest: string)
    requires |pair| == 2 && !Skipped(pair[0]) && DigitValue(pair[0]) == b / 16 && DigitValue(pair[1]) == b % 16
    requires FromHex(rest).Some?
    ensures FromHex(pair + rest) == Some([b] + FromHex(rest).value)
  {
    var s := pair + rest;
    assert s[0] == pair[0] && s[1] == pair[1] && s[2..] == rest;
  }

  /** What is written reads back. */
  lemma {:induction false} RoundTrip(bytes: Bytes)
    ensures FromHex(Hex(bytes)) == Some(bytes)
  {
    if bytes != [] {
      RoundTrip(bytes[1..]);
      ReadPair(ByteText(bytes[0]), bytes[0], Hex(bytes[1..]));
      assert bytes == [bytes[0]] + bytes[1..];
    }
  }

  /** Only lower-case digits, nothing else. */
  predicate Plain(s: string) {
    forall i :: 0 <= i < |s| ==> 48 <= s[i] as int <= 57 || 97 <= s[i] as int <= 102
  }

  lemma {:induction false} HexIsPlain(bytes: Bytes)
    ensures Plain(Hex(bytes))
  {
    if bytes != [] {
      HexIsPlain(bytes[1..]);
    }
  }

  lemma PlainDigit(c: char, n: int)
    requires Plain([c]) && DigitValue(c) == n && 0 <= n
    ensures c == Digit(n)
  {
    assert [c][0] == c;
  }

  lemma {:induction false} PlainIsHex(s: string)
    requires Plain(s) && FromHex(s).Some?
    ensures s == Hex(FromHex(s).value)
    decreases |s|
  {
    if s != "" {
      var bytes := FromHex(s).value;
      PlainIsHex(s[2..]);
      PlainDigit(s[0], bytes[0] / 16);
      PlainDigit(s[1], bytes[0] % 16);
      assert bytes[1..] == FromHex(s[2..]).value;
      assert s == [s[0], s[1]] + s[2..];
    }
  }

  /** A text is the recorded spelling of the bytes it reads as exactly when it is plain. */
  lemma CanonicalIffPlain(s: string)
    requires FromHex(s).Some?
    ensures s == Hex(FromHex(s).value) <==> Plain(s)
  {
    HexIsPlain(FromHex(s).value);
    if Plain(s) { PlainIsHex(s); }
  }

  /** Every key has other spellings: leading whitespace of any kind reads as nothing. */
  lemma LeadingSpaceReads(bytes: Bytes, c: char)
    requires c == ' ' || 9 <= c as int <= 13
    ensures FromHex([c] + Hex(bytes)) == Some(bytes) && [c] + Hex(bytes) != Hex(bytes)
  {
    RoundTrip(bytes);
    assert ([c] + Hex(bytes))[1..] == Hex(bytes);
  }

  /** A character that is neither a hex digit nor whitespace spoils the text. */
  lemma {:induction false} OthersSpoil(s: string, i: nat)
    requires i < |s| && DigitValue(s[i]) < 0 && !Skipped(s[i])
    ensures FromHex(s).None?
    decreases |s|
  {
    if Skipped(s[0]) {
      OthersSpoil(s[1..], i - 1);
    } else if i >= 2 {
      OthersSpoil(s[2..], i - 2);
    }
  }

  /** Repeated text. */
  function Times(s: string, n: nat): (r: string)
    ensures |r| == |s| * n
  {
    if n == 0 then "" else s + Times(s, n - 1)
  }

  function Repeat(b: Byte, n: nat): Bytes {
    seq(n, _ => b)
  }

  lemma {:induction false} RepeatReads(s: string, b: Byte, n: nat)
    requires |s| == 2 && !Skipped(s[0]) && DigitValue(s[0]) == b / 16 && DigitValue(s[1]) == b % 16
    ensures FromHex(Times(s, n)) == Some(Repeat(b, n))
  {
    if n > 0 {
      RepeatReads(s, b, n - 1);
      ReadPair(s, b, Times(s, n - 1));
      assert Repeat(b, n) == [b] + Repeat(b, n - 1);
    } else {
      assert Repeat(b, n) == [];
    }
  }
}
