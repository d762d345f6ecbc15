/** Unpadded base64url, as in section 5 of RFC 4648. */
module Base64Url {
  import opened Options

  type Byte = b: nat | b < 256

  function Digit(n: nat): (c: char)
    requires n < 64
  {
    if n < 26 then ('A' as int + n) as char
    else if n < 52 then ('a' as int + n - 26) as char
    else if n < 62 then ('0' as int + n - 52) as char
    else if n == 62 then '-' else '_'
  }

  /** Six bits of an alphabet character; 64 for any other character. */
  function ValueOf(c: char): (n: nat)
    ensures n <= 64
  {
    if 'A' <= c <= 'Z' then c as int - 'A' as int
    else if 'a' <= c <= 'z' then c as int - 'a' as int + 26
    else if '0' <= c <= '9' then c as int - '0' as int + 52
    else if c == '-' then 62 else if c == '_' then 63 else 64
  }

  predicate InAlphabet(s: string) { forall i | 0 <= i < |s| :: ValueOf(s[i]) < 64 }

  lemma DigitValue(n: nat)
    requires n < 64
    ensures ValueOf(Digit(n)) == n
  {
  }

  function Group(x: Byte, y: Byte, z: Byte): (s: string)
    ensures |s| == 4
  {
    [Digit(x / 4), Digit(x % 4 * 16 + y / 16), Digit(y % 16 * 4 + z / 64), Digit(z % 64)]
  }

  function Two(x: Byte, y: Byte): string { [Digit(x / 4), Digit(x % 4 * 16 + y / 16), Digit(y % 16 * 4)] }

  function One(x: Byte): string { [Digit(x / 4), Digit(x % 4 * 16)] }

  /** Three bytes become four characters; one or two bytes left over become two or three. */
  function Encode(b: seq<Byte>): string {
    if |b| == 0 then ""
    else if |b| == 1 then One(b[0])
    else if |b| == 2 then Two(b[0], b[1])
    else
      Group(b[0], b[1], b[2]) + Encode(b[3..])
  }

  /** Bytes of a text over the alphabet; a single character left over holds no byte. */
  function Bytes(s: string): seq<Byte>
    requires InAlphabet(s)
  {
    if |s| < 2 then []
    else
      var (x, y) := (ValueOf(s[0]), ValueOf(s[1]));
      var first := x * 4 + y / 16;
      if |s| == 2 then [first]
      else
        var z := ValueOf(s[2]);
        var second := y % 16 * 16 + z / 4;
        if |s| == 3 then [first, second]
        else [first, second, z % 4 * 64 + ValueOf(s[3])] + Bytes(s[4..])
  }

  function Decode(s: string): Option<seq<Byte>> { if InAlphabet(s) then Some(Bytes(s)) else None }

  lemma {:induction false} EncodedIsInAlphabet(b: seq<Byte>)
    ensures InAlphabet(Encode(b))
  {
    hide Digit, ValueOf;
    forall n: nat | n < 64 ensures ValueOf(Digit(n)) == n { DigitValue(n); }
    if |b| >= 3 { EncodedIsInAlphabet(b[3..]); }
  }

  lemma SixBits(x: Byte, y: Byte)
    ensures (x % 4 * 16 + y / 16) / 16 == x % 4 && (x % 4 * 16 + y / 16) % 16 == y / 16
  {
  }

  lemma LowBits(y: Byte, z: Byte)
    ensures (y % 16 * 4 + z / 64) / 4 == y % 16 && (y % 16 * 4 + z / 64) % 4 == z / 64
  {
  }

  lemma BytesOfGroup(x: Byte, y: Byte, z: Byte, rest: string)
    requires InAlphabet(Group(x, y, z) + rest) && InAlphabet(rest)
    ensures Bytes(Group(x, y, z) + rest) == [x, y, z] + Bytes(rest)
  {
    DigitValue(x / 4);
    DigitValue(x % 4 * 16 + y / 16);
    DigitValue(y % 16 * 4 + z / 64);
    DigitValue(z % 64);
    hide Digit, ValueOf;
    var s := Group(x, y, z) + rest;
    assert s[4..] == rest;
    SixBits(x, y);
    LowBits(y, z);
  }

  lemma EncodeGroup(b: seq<Byte>)
    requires |b| >= 3
    ensures Encode(b) == Group(b[0], b[1], b[2]) + Encode(b[3..])
  {
    hide Group, One, Two;
  }

  lemma SplitThree(b: seq<Byte>)
    requires |b| >= 3
    ensures b == [b[0], b[1], b[2]] + b[3..]
  {
  }

  lemma {:induction false} BytesOfEncoded(b: seq<Byte>)
    requires InAlphabet(Encode(b))
    ensures Bytes(Encode(b)) == b
  {
    if |b| >= 3 {
      hide Encode, Bytes, Group, InAlphabet;
      EncodedIsInAlphabet(b[3..]);
      BytesOfEncoded(b[3..]);
      EncodeGroup(b);
      SplitThree(b);
      BytesOfGroup(b[0], b[1], b[2], Encode(b[3..]));
    } else if |b| == 2 {
      hide Two, InAlphabet;
      BytesOfTwo(b[0], b[1]);
    } else if |b| == 1 {
      hide One, InAlphabet;
      BytesOfOne(b[0]);
    }
  }

  lemma BytesOfOne(x: Byte)
    requires InAlphabet(One(x))
    ensures Bytes(One(x)) == [x]
  {
    DigitValue(x / 4);
    DigitValue(x % 4 * 16);
    hide Digit, ValueOf;
    SixBits(x, 0);
  }

  lemma BytesOfTwo(x: Byte, y: Byte)
    requires InAlphabet(Two(x, y))
    ensures Bytes(Two(x, y)) == [x, y]
  {
    DigitValue(x / 4);
    DigitValue(x % 4 * 16 + y / 16);
    DigitValue(y % 16 * 4);
    hide Digit, ValueOf;
    SixBits(x, y);
    LowBits(y, 0);
  }

  /** Decoding undoes encoding, for any number of bytes. */
  lemma RoundTrip(b: seq<Byte>)
    ensures Decode(Encode(b)) == Some(b)
  {
    EncodedIsInAlphabet(b);
    BytesOfEncoded(b);
  }
}
