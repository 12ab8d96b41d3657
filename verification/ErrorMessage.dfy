/**
 How a server message is cut down before it is shown: its first line, at most 512 bytes of it, never
 in the middle of a character. UTF-8 as in sections 3 and 4 of RFC 3629.
 */
module ErrorMessage {
  import opened RowKey

  const MAX_EXPOSED_BYTES := 512

  predicate Tail(b: byte) {
    0x80 <= b <= 0xBF
  }

  /** Bytes of the well-formed character that s starts with (section 4 of RFC 3629), 0 if it starts with none. */
  function UnitLength(s: Bytes): (n: nat)
    ensures n <= |s| && n <= 4
    ensures n > 1 ==> s[0] >= 0x80
  {
    if |s| >= 1 && s[0] <= 0x7F then 1
    else if |s| >= 2 && 0xC2 <= s[0] <= 0xDF && Tail(s[1]) then 2
    else if |s| >= 3 && Tail(s[2]) && ((s[0] == 0xE0 && 0xA0 <= s[1] <= 0xBF) || (s[0] == 0xED && 0x80 <= s[1] <= 0x9F)
                                       || ((0xE1 <= s[0] <= 0xEC || 0xEE <= s[0] <= 0xEF) && Tail(s[1]))) then 3
    else if |s| >= 4 && Tail(s[2]) && Tail(s[3])
        && ((s[0] == 0xF0 && 0x90 <= s[1] <= 0xBF) || (s[0] == 0xF4 && 0x80 <= s[1] <= 0x8F)
                                                     || (0xF1 <= s[0] <= 0xF3 && Tail(s[1]))) then 4
    else 0
  }

  predicate ValidUtf8(s: Bytes) {
    s == [] || (UnitLength(s) > 0 && ValidUtf8(s[UnitLength(s)..]))
  }

  function EncodeChar(c: char): (s: Bytes)
    ensures 1 <= |s| <= 4
  {
    var n := c as int;
    if n < 0x80 then [n as byte]
    else if n < 0x800 then [(0xC0 + n / 64) as byte, (0x80 + n % 64) as byte]
    else if n < 0x10000 then [(0xE0 + n / 4096) as byte, (0x80 + n / 64 % 64) as byte, (0x80 + n % 64) as byte]
    else
      [(0xF0 + n / 262144) as byte, (0x80 + n / 4096 % 64) as byte,
       (0x80 + n / 64 % 64) as byte, (0x80 + n % 64) as byte]
  }

  function EncodeText(text: string): Bytes {
    if text == "" then [] else EncodeChar(text[0]) + EncodeText(text[1..])
  }

  lemma UnitOfEncoded(c: char, rest: Bytes)
    ensures UnitLength(EncodeChar(c) + rest) == |EncodeChar(c)|
  {
  }

  /** Putting six more bits below a number and reading them off again. */
  lemma SixBits(high: nat, low: nat)
    requires low < 64
    ensures (high * 64 + low) / 64 == high && (high * 64 + low) % 64 == low
  {
  }

  lemma UnitDecodes3(s: Bytes) returns (c: char)
    requires UnitLength(s) == 3
    ensures EncodeChar(c) == s[..3]
  {
    var a, b, d := s[0] as int - 0xE0, s[1] as int - 0x80, s[2] as int - 0x80;
    var n := (a * 64 + b) * 64 + d;
    SixBits(a * 64 + b, d);
    SixBits(a, b);
    assert n / 4096 == a;
    assert 0x800 <= n < 0x10000 && !(0xD800 <= n <= 0xDFFF);
    c := n as char;
  }

  lemma UnitDecodes4(s: Bytes) returns (c: char)
    requires UnitLength(s) == 4
    ensures EncodeChar(c) == s[..4]
  {
    var a, b, d, e := s[0] as int - 0xF0, s[1] as int - 0x80, s[2] as int - 0x80, s[3] as int - 0x80;
    var n := ((a * 64 + b) * 64 + d) * 64 + e;
    SixBits((a * 64 + b) * 64 + d, e);
    SixBits(a * 64 + b, d);
    SixBits(a, b);
    assert n / 4096 == a * 64 + b && n / 262144 == a;
    assert 0x10000 <= n < 0x110000;
    c := n as char;
  }

  lemma UnitDecodes(s: Bytes) returns (c: char)
    requires UnitLength(s) > 0
    ensures EncodeChar(c) == s[..UnitLength(s)]
  {
    var n := UnitLength(s);
    if n == 1 {
      c := s[0] as char;
    } else if n == 2 {
      SixBits(s[0] as int - 0xC0, s[1] as int - 0x80);
      c := ((s[0] as int - 0xC0) * 64 + (s[1] as int - 0x80)) as char;
    } else if n == 3 {
      c := UnitDecodes3(s);
    } else {
      c := UnitDecodes4(s);
    }
  }

  lemma {:induction false} EncodedIsValid(text: string)
    ensures ValidUtf8(EncodeText(text))
  {
    if text != "" {
      UnitOfEncoded(text[0], EncodeText(text[1..]));
      EncodedIsValid(text[1..]);
      assert EncodeText(text)[|EncodeChar(text[0])|..] == EncodeText(text[1..]);
    }
  }

  lemma {:induction false} ValidIsEncoded(s: Bytes) returns (text: string)
    requires ValidUtf8(s)
    ensures s == EncodeText(text)
  {
    if s == [] {
      text := "";
    } else {
      var c := UnitDecodes(s);
      var rest := ValidIsEncoded(s[UnitLength(s)..]);
      text := [c] + rest;
      assert text[1..] == rest;
    }
  }

  /** The byte test accepts exactly the encodings of texts. */
  lemma ValidMeansEncoded(s: Bytes)
    ensures ValidUtf8(s) <==> exists text :: s == EncodeText(text)
  {
    if ValidUtf8(s) {
      var text := ValidIsEncoded(s);
    }
    if text :| s == EncodeText(text) {
      EncodedIsValid(text);
    }
  }

  lemma {:induction false} PrependUnit(s: Bytes, rest: Bytes)
    requires UnitLength(s) > 0 && ValidUtf8(rest)
    ensures ValidUtf8(s[..UnitLength(s)] + rest)
  {
    var t := s[..UnitLength(s)] + rest;
    assert UnitLength(t) == UnitLength(s);
    assert t[UnitLength(t)..] == rest;
  }

  /** Going back at most three bytes from any place in valid text reaches the end of a character. */
  lemma {:induction false} BoundaryWithinThree(s: Bytes, n: nat) returns (k: nat)
    requires ValidUtf8(s) && n <= |s|
    ensures k <= n <= k + 3 && ValidUtf8(s[..k])
  {
    var unit := UnitLength(s);
    if n == 0 || n < unit {
      k := 0;
    } else {
      k := BoundaryWithinThree(s[unit..], n - unit);
      PrependUnit(s, s[unit..][..k]);
      assert s[..unit + k] == s[..unit] + s[unit..][..k];
      k := unit + k;
    }
  }

  lemma PrefixInParts(s: Bytes, m: nat, n: nat)
    requires m <= n <= |s|
    ensures s[..n] == s[..m] + s[m..][..n - m]
  {
  }

  /** Behind its first byte a character has no ASCII bytes. */
  lemma UnitHasNoAscii(s: Bytes, i: nat)
    requires 0 < i < UnitLength(s) && i < |s|
    ensures s[i] >= 0x80
  {
  }

  /** Valid text may be cut in front of any ASCII byte, which a line break is. */
  lemma {:induction false} CutBeforeAscii(s: Bytes, i: nat)
    requires ValidUtf8(s) && i < |s| && s[i] < 0x80
    ensures ValidUtf8(s[..i])
  {
    if i > 0 {
      var unit := UnitLength(s);
      if i < unit {
        UnitHasNoAscii(s, i);
      } else {
        CutBeforeAscii(s[unit..], i - unit);
        PrependUnit(s, s[unit..][..i - unit]);
        PrefixInParts(s, unit, i);
      }
    }
  }

  const CR: byte := 13
  const LF: byte := 10
  const ELLIPSIS: Bytes := [46, 46, 46]

  /** What comes before the first line break. */
  function FirstLine(message: Bytes): (line: Bytes)
    ensures line <= message && CR !in line && LF !in line
    ensures |line| < |message| ==> message[|line|] == CR || message[|line|] == LF
  {
    if message == [] || message[0] == CR || message[0] == LF then [] else [message[0]] + FirstLine(message[1..])
  }

  /** kept is the longest prefix of line that fits and is still text. */
  ghost predicate LongestFitting(line: Bytes, kept: Bytes) {
    && kept <= line && |kept| <= MAX_EXPOSED_BYTES && ValidUtf8(kept)
    && forall n :: |kept| < n <= MAX_EXPOSED_BYTES && n <= |line| ==> !ValidUtf8(line[..n])
  }

  /**
   The tail of sanitizeServerMessage, from the point where the message is valid UTF-8: the first line,
   in full if it fits, and otherwise its longest fitting prefix, at most three bytes short, and "...".
   */
  method Shorten(message: Bytes) returns (shown: Bytes)
    requires ValidUtf8(message)
    ensures |FirstLine(message)| <= MAX_EXPOSED_BYTES ==> shown == FirstLine(message)
    ensures |FirstLine(message)| > MAX_EXPOSED_BYTES ==>
              && |shown| - 3 >= MAX_EXPOSED_BYTES - 3 && shown[|shown| - 3..] == ELLIPSIS
              && LongestFitting(FirstLine(message), shown[..|shown| - 3])
    ensures ValidUtf8(FirstLine(message))
  {
    ghost var line := FirstLine(message);
    var index := 0;
    while index < |message| && message[index] != CR && message[index] != LF
      invariant 0 <= index <= |line|
    {
      index := index + 1;
    }
    assert index == |line| && message[..index] == line;
    shown := message[..index];
    if index < |message| {
      CutBeforeAscii(message, index);
    } else {
      assert message[..index] == message;
    }
    if |shown| > MAX_EXPOSED_BYTES {
      ghost var k := BoundaryWithinThree(line, MAX_EXPOSED_BYTES);
      var limit := MAX_EXPOSED_BYTES;
      while limit > 0 && !ValidUtf8(shown[..limit])
        invariant k <= limit <= MAX_EXPOSED_BYTES
        invariant forall n :: limit < n <= MAX_EXPOSED_BYTES ==> !ValidUtf8(line[..n])
      {
        limit := limit - 1;
      }
      shown := shown[..limit] + ELLIPSIS;
      assert shown[..|shown| - 3] == line[..limit];
    }
  }
}
