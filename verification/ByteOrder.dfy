/**
 Sorting option keys compares bytes. On UTF-8 texts (section 3 of RFC 3629) that is the order of code points,
 in which `SetupCompile.Less` compares. And the length of names is limited in bytes.
 */
module ByteOrder {
  import opened ErrorMessage
  import opened RowKey
  import opened Text
  import SetupCompile

  /** Lexicographic order of bytes. */
  predicate BytesLess(a: Bytes, b: Bytes) {
    b != [] && (a == [] || a[0] < b[0] || (a[0] == b[0] && BytesLess(a[1..], b[1..])))
  }

  lemma {:induction false} NotBothLess(a: Bytes, b: Bytes)
    ensures !(BytesLess(a, b) && BytesLess(b, a))
  {
    if a != [] && b != [] {
      NotBothLess(a[1..], b[1..]);
    }
  }

  lemma {:induction false} SharedFront(front: Bytes, a: Bytes, b: Bytes)
    ensures BytesLess(front + a, front + b) <==> BytesLess(a, b)
  {
    if front == [] {
      assert front + a == a && front + b == b;
    } else {
      SharedFront(front[1..], a, b);
      assert (front + a)[1..] == front[1..] + a && (front + b)[1..] == front[1..] + b;
    }
  }

  lemma {:induction false} FirstDifference(a: Bytes, b: Bytes, k: nat)
    requires k < |a| && k < |b| && a[..k] == b[..k] && a[k] < b[k]
    ensures BytesLess(a, b)
  {
    if k > 0 {
      assert a[0] == a[..k][0] == b[..k][0] == b[0];
      assert a[1..][..k - 1] == a[..k][1..] && b[1..][..k - 1] == b[..k][1..];
      FirstDifference(a[1..], b[1..], k - 1);
    }
  }

  /** Of two numbers the smaller has the smaller upper part, or the same and the smaller six lowest bits. */
  lemma SixBitsOrder(n: nat, m: nat)
    requires n < m
    ensures n / 64 < m / 64 || (n / 64 == m / 64 && n % 64 < m % 64)
  {
  }

  lemma SixBitsTwice(n: nat)
    ensures n / 4096 == n / 64 / 64 && n / 262144 == n / 4096 / 64
  {
  }

  lemma LeadingByte(c: char, d: char)
    requires c < d && |EncodeChar(c)| != |EncodeChar(d)|
    ensures EncodeChar(c)[0] < EncodeChar(d)[0]
  {
  }

  predicate DifferAt(s: Bytes, t: Bytes, k: nat) {
    k < |s| && k < |t| && s[..k] == t[..k] && s[k] < t[k]
  }

  lemma TwoBytes(c: char, d: char) returns (k: nat)
    requires c < d && |EncodeChar(c)| == |EncodeChar(d)| == 2
    ensures DifferAt(EncodeChar(c), EncodeChar(d), k)
  {
    SixBitsOrder(c as int, d as int);
    k := if c as int / 64 < d as int / 64 then 0 else 1;
  }

  lemma ThreeBytes(c: char, d: char) returns (k: nat)
    requires c < d && |EncodeChar(c)| == |EncodeChar(d)| == 3
    ensures DifferAt(EncodeChar(c), EncodeChar(d), k)
  {
    var n, m := c as int, d as int;
    SixBitsOrder(n, m);
    SixBitsTwice(n);
    SixBitsTwice(m);
    if n / 64 < m / 64 {
      SixBitsOrder(n / 64, m / 64);
    }
    k := if n / 4096 < m / 4096 then 0 else if n / 64 < m / 64 then 1 else 2;
  }

  lemma FourBytes(c: char, d: char) returns (k: nat)
    requires c < d && |EncodeChar(c)| == |EncodeChar(d)| == 4
    ensures DifferAt(EncodeChar(c), EncodeChar(d), k)
  {
    var n, m := c as int, d as int;
    SixBitsOrder(n, m);
    SixBitsTwice(n);
    SixBitsTwice(m);
    if n / 64 < m / 64 {
      SixBitsOrder(n / 64, m / 64);
    }
    if n / 4096 < m / 4096 {
      SixBitsOrder(n / 4096, m / 4096);
    }
    k := if n / 262144 < m / 262144 then 0 else if n / 4096 < m / 4096 then 1 else if n / 64 < m / 64 then 2 else 3;
  }

  /** Where the encodings of two characters first differ, the smaller character has the smaller byte. */
  lemma CharsDiffer(c: char, d: char) returns (k: nat)
    requires c < d
    ensures DifferAt(EncodeChar(c), EncodeChar(d), k)
  {
    if |EncodeChar(c)| != |EncodeChar(d)| {
      LeadingByte(c, d);
      k := 0;
    } else if |EncodeChar(c)| == 1 {
      k := 0;
    } else if |EncodeChar(c)| == 2 {
      k := TwoBytes(c, d);
    } else if |EncodeChar(c)| == 3 {
      k := ThreeBytes(c, d);
    } else {
      k := FourBytes(c, d);
    }
  }

  lemma CharOrder(c: char, d: char, x: Bytes, y: Bytes)
    requires c < d
    ensures BytesLess(EncodeChar(c) + x, EncodeChar(d) + y)
  {
    var s, t := EncodeChar(c) + x, EncodeChar(d) + y;
    var k := CharsDiffer(c, d);
    assert s[..k] == EncodeChar(c)[..k] && t[..k] == EncodeChar(d)[..k];
    FirstDifference(s, t, k);
  }

  /** The order in which the compiler's keys are sorted is the order of their bytes. */
  lemma {:induction false} TextOrder(a: string, b: string)
    ensures BytesLess(EncodeText(a), EncodeText(b)) <==> SetupCompile.Less(a, b)
  {
    if a != "" && b != "" {
      if a[0] == b[0] {
        SharedFront(EncodeChar(a[0]), EncodeText(a[1..]), EncodeText(b[1..]));
        TextOrder(a[1..], b[1..]);
      } else if a[0] < b[0] {
        CharOrder(a[0], b[0], EncodeText(a[1..]), EncodeText(b[1..]));
      } else {
        CharOrder(b[0], a[0], EncodeText(b[1..]), EncodeText(a[1..]));
        NotBothLess(EncodeText(a), EncodeText(b));
      }
    }
  }

  // ---- lengths in bytes ----

  lemma {:induction false} BytesOfText(s: string)
    ensures TextBytes(s) == |EncodeText(s)|
  {
    if s != "" {
      BytesOfText(s[1..]);
    }
  }

  /**
   A name is valid exactly when it has a character that is not white space, takes at most 1024 bytes in UTF-8 and
   holds no control character.
   */
  lemma NamesInBytes(name: string)
    ensures SetupCompile.ValidIdentifier(name) <==>
            && (exists c :: c in name && !IsSpace(c)) && |EncodeText(name)| <= 1024
            && forall c :: c in name ==> !(c < ' ' || '\U{7F}' <= c < '\U{A0}')
  {
    BlankIsAllSpace(name);
    BytesOfText(name);
    if forall c :: c in name ==> !SetupCompile.IsControl(c) {
      forall i | 0 <= i < |name| ensures !SetupCompile.IsControl(name[i]) {
        assert name[i] in name;
      }
    }
  }
}
