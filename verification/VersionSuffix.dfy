/**
 Reading a Flink product version: the one-pass scanner for what follows the release core, and the
 release line in front of it. The suffix language is that of items 9 and 10 of Semantic Versioning
 2.0.0 over lower-case letters, leading zeros allowed.
 */
module VersionSuffix {
  import opened Text

  predicate IdentifierChar(c: char) {
    c == '-' || '0' <= c <= '9' || 'a' <= c <= 'z'
  }

  function JoinDots(parts: seq<string>): string {
    Join(parts, ".")
  }

  ghost predicate Identifiers(parts: seq<string>) {
    && parts != []
    && forall i :: 0 <= i < |parts| ==> parts[i] != "" && forall c :: c in parts[i] ==> IdentifierChar(c)
  }

  /** One or more non-empty identifiers with a dot between them. */
  ghost predicate Dotted(w: string) {
    exists parts :: Identifiers(parts) && w == JoinDots(parts)
  }

  /** Dotted identifiers, then optionally a plus sign and more of them. */
  ghost predicate WithBuild(w: string) {
    Dotted(w) || exists i :: 0 <= i < |w| && w[i] == '+' && Dotted(w[..i]) && Dotted(w[i + 1..])
  }

  /**
   The texts the scanner accepts. Callers only pass texts that start with a sign; without one it
   accepts the same identifiers as after '-', if they take at least two bytes.
   */
  ghost predicate SuffixLanguage(s: string) {
    && TextBytes(s) >= 2
    && if s[0] == '+' then Dotted(s[1..]) else if s[0] == '-' then WithBuild(s[1..]) else WithBuild(s)
  }

  /** A suffix without a sign that the scanner accepts on its own. */
  lemma SignIsNotRequired()
    ensures SuffixLanguage("1a")
  {
    assert JoinDots(["1a"]) == "1a" && Identifiers(["1a"]);
    assert Dotted("1a");
    assert TextBytes("a") == 1 && "1a"[1..] == "a";
  }

  method ValidateVersionSuffix(suffix: string) returns (ok: bool)
    ensures ok <==> SuffixLanguage(suffix)
  {
    if TextBytes(suffix) < 2 {
      return false;
    }
    SuffixScanned(suffix);
    var previousSeparator := true;
    var plusSeen := false;
    ghost var start := if suffix[0] == '-' || suffix[0] == '+' then 1 else 0;
    for index := 0 to |suffix|
      invariant index < start ==> previousSeparator && !plusSeen
      invariant index >= start ==>
          (SuffixLanguage(suffix) <==> Scan(suffix[index..], previousSeparator, plusSeen))
    {
      var c := suffix[index];
      assert suffix[index..][1..] == suffix[index + 1..];
      if index == 0 && (c == '-' || c == '+') {
        plusSeen := c == '+';
      } else if c == '+' {
        if plusSeen || previousSeparator {
          return false;
        }
        plusSeen, previousSeparator := true, true;
      } else if c == '.' {
        if previousSeparator {
          return false;
        }
        previousSeparator := true;
      } else if IdentifierChar(c) {
        previousSeparator := false;
      } else {
        return false;
      }
    }
    return !previousSeparator;
  }

  // ---- the loop as an automaton, and the language it accepts ----

  /** What the rest of the loop answers from a state between two characters. */
  predicate Scan(w: string, previousSeparator: bool, plusSeen: bool) {
    if w == "" then !previousSeparator
    else if w[0] == '+' then !plusSeen && !previousSeparator && Scan(w[1..], true, true)
    else if w[0] == '.' then !previousSeparator && Scan(w[1..], true, plusSeen)
    else IdentifierChar(w[0]) && Scan(w[1..], false, plusSeen)
  }

  predicate ScanDotted(w: string, previousSeparator: bool) {
    if w == "" then !previousSeparator
    else if w[0] == '.' then !previousSeparator && ScanDotted(w[1..], true)
    else IdentifierChar(w[0]) && ScanDotted(w[1..], false)
  }

  lemma {:induction false} ScanByPlus(w: string, previousSeparator: bool, plusSeen: bool)
    ensures Scan(w, previousSeparator, plusSeen) <==>
            match IndexOf(w, '+')
            case None => ScanDotted(w, previousSeparator)
            case Some(i) => !plusSeen && ScanDotted(w[..i], previousSeparator) && ScanDotted(w[i + 1..], true)
  {
    if w != "" {
      match IndexOf(w, '+') {
        case None =>
          ScanByPlus(w[1..], w[0] == '.', plusSeen);
        case Some(i) =>
          if i == 0 {
            if !plusSeen && !previousSeparator {
              ScanByPlus(w[1..], true, true);
              if '+' in w[1..] {
                PlusIsNotDotted(w[1..], true);
              }
            }
          } else {
            ScanByPlus(w[1..], w[0] == '.', plusSeen);
            assert w[..i][1..] == w[1..][..i - 1];
          }
      }
    }
  }

  lemma {:induction false} PlusIsNotDotted(w: string, previousSeparator: bool)
    requires '+' in w
    ensures !ScanDotted(w, previousSeparator)
  {
    if w[0] != '+' {
      PlusIsNotDotted(w[1..], w[0] == '.');
    }
  }

  /** Takes accepted text apart at its dots; only a part that continues an identifier may be empty. */
  lemma {:induction false} PartsOf(w: string, previousSeparator: bool) returns (parts: seq<string>)
    requires ScanDotted(w, previousSeparator)
    ensures parts != [] && JoinDots(parts) == w
    ensures forall i :: 0 <= i < |parts| ==> forall c :: c in parts[i] ==> IdentifierChar(c)
    ensures forall i :: 0 <= i < |parts| ==> parts[i] != "" || (i == 0 && !previousSeparator)
  {
    if w == "" {
      parts := [""];
    } else if w[0] == '.' {
      var rest := PartsOf(w[1..], true);
      parts := [""] + rest;
      assert parts[1..] == rest;
    } else {
      var rest := PartsOf(w[1..], false);
      parts := [[w[0]] + rest[0]] + rest[1..];
      assert parts[1..] == rest[1..];
      assert JoinDots(parts) == [w[0]] + JoinDots(rest);
    }
  }

  lemma {:induction false} JoinedScans(parts: seq<string>, previousSeparator: bool)
    requires parts != []
    requires forall i :: 0 <= i < |parts| ==> forall c :: c in parts[i] ==> IdentifierChar(c)
    requires forall i :: 0 <= i < |parts| ==> parts[i] != "" || (i == 0 && !previousSeparator)
    ensures ScanDotted(JoinDots(parts), previousSeparator)
    decreases |parts|, |parts[0]|
  {
    var w := JoinDots(parts);
    if parts[0] != "" {
      var shorter := [parts[0][1..]] + parts[1..];
      assert shorter[1..] == parts[1..];
      assert w[1..] == JoinDots(shorter);
      assert w[0] == parts[0][0] && parts[0][0] in parts[0];
      JoinedScans(shorter, false);
    } else if |parts| > 1 {
      assert w[1..] == JoinDots(parts[1..]);
      JoinedScans(parts[1..], true);
    }
  }

  lemma DottedScanned(w: string)
    ensures Dotted(w) <==> ScanDotted(w, true)
  {
    if parts :| Identifiers(parts) && w == JoinDots(parts) {
      JoinedScans(parts, true);
    }
    if ScanDotted(w, true) {
      var parts := PartsOf(w, true);
      assert Identifiers(parts);
    }
  }

  /** The language of the automaton is the one written with joined identifiers. */
  lemma ScanMeansLanguage(w: string)
    ensures Scan(w, true, true) <==> Dotted(w)
    ensures Scan(w, true, false) <==> WithBuild(w)
  {
    ScanByPlus(w, true, true);
    ScanByPlus(w, true, false);
    DottedScanned(w);
    match IndexOf(w, '+') {
      case None =>
      case Some(i) =>
        PlusIsNotDotted(w, true);
        DottedScanned(w[..i]);
        DottedScanned(w[i + 1..]);
        if j :| 0 <= j < |w| && w[j] == '+' && Dotted(w[..j]) && Dotted(w[j + 1..]) {
          OnlyOnePlus(w, i, j);
        }
    }
  }

  lemma OnlyOnePlus(w: string, i: int, j: int)
    requires 0 <= i < |w| && 0 <= j < |w| && w[i] == w[j] == '+'
    requires '+' !in w[..i] && Dotted(w[..j]) && Dotted(w[j + 1..])
    ensures i == j
  {
    DottedScanned(w[..j]);
    if i < j {
      assert w[..j][i] == '+';
      PlusIsNotDotted(w[..j], true);
    }
    assert forall k :: 0 <= k < i ==> w[k] in w[..i];
  }

  lemma SuffixScanned(s: string)
    requires TextBytes(s) >= 2
    ensures s[0] == '+' ==> (SuffixLanguage(s) <==> Scan(s[1..], true, true))
    ensures s[0] == '-' ==> (SuffixLanguage(s) <==> Scan(s[1..], true, false))
    ensures s[0] != '+' && s[0] != '-' ==> (SuffixLanguage(s) <==> Scan(s[0..], true, false))
  {
    ScanMeansLanguage(s[1..]);
    ScanMeansLanguage(s);
    assert s[0..] == s;
  }

  // ---- the release line ----

  const MAX_INT: int := 0x7FFF_FFFF_FFFF_FFFF

  datatype ReleaseLine = ReleaseLine(major: nat, minor: nat)

  predicate AllDigits(s: string) {
    forall i :: 0 <= i < |s| ==> '0' <= s[i] <= '9'
  }

  function Value(s: string): nat
    requires AllDigits(s)
  {
    if s == "" then 0 else Value(s[..|s| - 1]) * 10 + (s[|s| - 1] as int - '0' as int)
  }

  /** strconv.Atoi on digits only, which fails on what a 64-bit int cannot hold. */
  function VersionNumber(part: string): Option<nat> {
    if part == "" || !AllDigits(part) || Value(part) > MAX_INT then None else Some(Value(part))
  }

  function SplitDots(s: string): (parts: seq<string>)
    ensures parts != []
    decreases |s|
  {
    match IndexOf(s, '.')
    case None => [s]
    case Some(i) => [s[..i]] + SplitDots(s[i + 1..])
  }

  /** Position of the first '-' or '+'. */
  function SignIndex(s: string): (i: Option<nat>)
    ensures i.None? ==> '-' !in s && '+' !in s
    ensures i.Some? ==> i.value < |s| && (s[i.value] == '-' || s[i.value] == '+')
    ensures i.Some? ==> '-' !in s[..i.value] && '+' !in s[..i.value]
  {
    if s == "" then None
    else if s[0] == '-' || s[0] == '+' then Some(0)
    else
      match SignIndex(s[1..])
      case None => None
      case Some(k) => assert s[..k + 1] == [s[0]] + s[1..][..k]; Some(k + 1)
  }

  /** The version text that parsing looks at: trimmed, lower-cased by lower, one leading "v" dropped. */
  function Normalize(value: string, lower: char -> char): string {
    var text := TrimSpace(value);
    var low := seq(|text|, i requires 0 <= i < |text| => lower(text[i]));
    if low != "" && low[0] == 'v' then low[1..] else low
  }

  method ParseFlinkReleaseLine(value: string, lower: char -> char) returns (line: Option<ReleaseLine>)
    ensures forall r :: line == Some(r) <==> IsVersion(Normalize(value, lower), r)
  {
    var version := Normalize(value, lower);
    var core, hasSuffix := version, false;
    var suffixIndex := SignIndex(version);
    ghost var suffix := "";
    if suffixIndex.Some? {
      hasSuffix := true;
      core := version[..suffixIndex.value];
      suffix := version[suffixIndex.value..];
      var ok := ValidateVersionSuffix(version[suffixIndex.value..]);
      if !ok {
        VersionShape(version, core, suffix);
        return None;
      }
    }
    assert version == core + suffix;
    VersionShape(version, core, suffix);
    return CoreNumbers(SplitDots(core), hasSuffix);
  }

  /** The checks on the dot-separated parts, in the order parsing makes them. */
  function CoreNumbers(parts: seq<string>, hasSuffix: bool): Option<ReleaseLine> {
    if |parts| < 2 || |parts| > 3 then None
    else if hasSuffix && |parts| != 3 then None
    else if VersionNumber(parts[0]).None? || VersionNumber(parts[1]).None? then None
    else if |parts| >= 3 && VersionNumber(parts[2]).None? then None
    else Some(ReleaseLine(VersionNumber(parts[0]).value, VersionNumber(parts[1]).value))
  }

  ghost predicate Numbers(parts: seq<string>) {
    forall i :: 0 <= i < |parts| ==> VersionNumber(parts[i]).Some?
  }

  /** Two or three numbers with dots between them, and after three of them perhaps a suffix. */
  ghost predicate IsVersionOf(version: string, r: ReleaseLine, parts: seq<string>, suffix: string) {
    && version == JoinDots(parts) + suffix && (|parts| == 2 || |parts| == 3) && Numbers(parts)
    && r == ReleaseLine(VersionNumber(parts[0]).value, VersionNumber(parts[1]).value)
    && (suffix == "" || (|parts| == 3 && (suffix[0] == '-' || suffix[0] == '+') && SuffixLanguage(suffix)))
  }

  ghost predicate IsVersion(version: string, r: ReleaseLine) {
    exists parts, suffix :: IsVersionOf(version, r, parts, suffix)
  }

  lemma JoinedInFront(part: string, parts: seq<string>)
    requires parts != []
    ensures JoinDots([part] + parts) == part + "." + JoinDots(parts)
  {
    assert ([part] + parts)[1..] == parts;
  }

  lemma {:induction false} SplitJoins(s: string)
    ensures JoinDots(SplitDots(s)) == s
    decreases |s|
  {
    match IndexOf(s, '.') {
      case None =>
      case Some(i) =>
        SplitJoins(s[i + 1..]);
        JoinedInFront(s[..i], SplitDots(s[i + 1..]));
        assert s == s[..i] + "." + s[i + 1..];
    }
  }

  lemma SplitAtFirstDot(front: string, rest: string)
    requires '.' !in front
    ensures SplitDots(front + "." + rest) == [front] + SplitDots(rest)
  {
    var s := front + "." + rest;
    assert s[|front|] == '.' && s[..|front|] == front && s[|front| + 1..] == rest;
    assert IndexOf(s, '.') == Some(|front|) by {
      assert '.' !in s[..|front|];
    }
  }

  lemma {:induction false} SplitOfJoined(parts: seq<string>)
    requires parts != [] && forall i :: 0 <= i < |parts| ==> '.' !in parts[i]
    ensures SplitDots(JoinDots(parts)) == parts
  {
    if |parts| > 1 {
      SplitOfJoined(parts[1..]);
      SplitAtFirstDot(parts[0], JoinDots(parts[1..]));
      assert [parts[0]] + parts[1..] == parts;
    }
  }

  lemma {:induction false} JoinedHasNoSign(parts: seq<string>)
    requires Numbers(parts)
    ensures '-' !in JoinDots(parts) && '+' !in JoinDots(parts)
  {
    if |parts| > 0 {
      assert VersionNumber(parts[0]).Some?;
      if |parts| > 1 {
        JoinedHasNoSign(parts[1..]);
      }
    }
  }

  lemma OnlyThisCut(version: string, core: string, suffix: string, r: ReleaseLine, parts: seq<string>, tail: string)
    requires version == core + suffix && '-' !in core && '+' !in core
    requires suffix == "" || suffix[0] == '-' || suffix[0] == '+'
    requires IsVersionOf(version, r, parts, tail)
    ensures parts == SplitDots(core) && tail == suffix
  {
    JoinedHasNoSign(parts);
    SameCut(core, suffix, JoinDots(parts), tail);
    forall i | 0 <= i < |parts| ensures '.' !in parts[i] {
      assert VersionNumber(parts[i]).Some?;
    }
    SplitOfJoined(parts);
  }

  lemma CoreNumbersMeans(parts: seq<string>, hasSuffix: bool, r: ReleaseLine)
    ensures CoreNumbers(parts, hasSuffix) == Some(r) <==>
            && (|parts| == 2 || |parts| == 3) && (hasSuffix ==> |parts| == 3) && Numbers(parts)
            && r == ReleaseLine(VersionNumber(parts[0]).value, VersionNumber(parts[1]).value)
  {
    if |parts| == 2 {
      assert Numbers(parts) <==> VersionNumber(parts[0]).Some? && VersionNumber(parts[1]).Some?;
    } else if |parts| == 3 {
      assert Numbers(parts) <==>
          VersionNumber(parts[0]).Some? && VersionNumber(parts[1]).Some? && VersionNumber(parts[2]).Some?;
    }
  }

  lemma CutReads(core: string, suffix: string, r: ReleaseLine)
    requires suffix == "" || suffix[0] == '-' || suffix[0] == '+'
    ensures IsVersionOf(core + suffix, r, SplitDots(core), suffix) <==>
            CoreNumbers(SplitDots(core), suffix != "") == Some(r) && (suffix != "" ==> SuffixLanguage(suffix))
  {
    SplitJoins(core);
    CoreNumbersMeans(SplitDots(core), suffix != "", r);
  }

  /** Where the first sign stands, how a version divides is forced. */
  lemma VersionShape(version: string, core: string, suffix: string)
    requires version == core + suffix && '-' !in core && '+' !in core
    requires suffix == "" || suffix[0] == '-' || suffix[0] == '+'
    ensures forall r :: IsVersion(version, r) <==>
              CoreNumbers(SplitDots(core), suffix != "") == Some(r) && (suffix != "" ==> SuffixLanguage(suffix))
  {
    forall r
      ensures IsVersion(version, r) <==>
              CoreNumbers(SplitDots(core), suffix != "") == Some(r) && (suffix != "" ==> SuffixLanguage(suffix))
    {
      CutReads(core, suffix, r);
      if parts, tail :| IsVersionOf(version, r, parts, tail) {
        OnlyThisCut(version, core, suffix, r, parts, tail);
      }
    }
  }

  lemma SameCut(a: string, x: string, b: string, y: string)
    requires a + x == b + y
    requires '-' !in a && '+' !in a && '-' !in b && '+' !in b
    requires x == "" || x[0] == '-' || x[0] == '+'
    requires y == "" || y[0] == '-' || y[0] == '+'
    ensures a == b && x == y
  {
    var s := a + x;
    assert x != "" ==> s[|a|] == x[0];
    assert y != "" ==> s[|b|] == y[0];
    assert forall k :: 0 <= k < |a| ==> s[k] == a[k];
    assert forall k :: 0 <= k < |b| ==> s[k] == b[k];
    assert |a| == |b|;
    assert a == s[..|a|] && b == s[..|b|];
    assert x == s[|a|..] && y == s[|b|..];
  }

  // ---- reading what was printed ----

  /** strconv.Itoa. */
  function Decimal(n: nat): (s: string)
    ensures s != "" && AllDigits(s)
  {
    if n < 10 then [(n + '0' as int) as char] else Decimal(n / 10) + [(n % 10 + '0' as int) as char]
  }

  lemma {:induction false} DecimalReadsBack(n: nat)
    ensures Value(Decimal(n)) == n
  {
    var s := Decimal(n);
    if n < 10 {
      assert s[..0] == "";
    } else {
      DecimalReadsBack(n / 10);
      assert s[..|s| - 1] == Decimal(n / 10);
    }
  }

  function Decimals(numbers: seq<nat>): seq<string> {
    seq(|numbers|, i requires 0 <= i < |numbers| => Decimal(numbers[i]))
  }

  /** Numbers in decimal with dots between them, and a suffix. */
  function Printed(numbers: seq<nat>, suffix: string): string {
    JoinDots(Decimals(numbers)) + suffix
  }

  predicate AllFit(numbers: seq<nat>) {
    forall i :: 0 <= i < |numbers| ==> numbers[i] <= MAX_INT
  }

  lemma {:induction false} JoinedDigits(parts: seq<string>)
    requires forall i :: 0 <= i < |parts| ==> AllDigits(parts[i])
    ensures forall c :: c in JoinDots(parts) ==> c == '.' || '0' <= c <= '9'
  {
    if parts != [] {
      assert AllDigits(parts[0]);
      JoinedDigits(parts[1..]);
      forall c | c in JoinDots(parts) ensures c == '.' || '0' <= c <= '9' {
        if |parts| > 1 && c !in parts[0] && c != '.' {
          assert c in JoinDots(parts[1..]);
        }
      }
    }
  }

  /** Two or three printed numbers, after three perhaps a suffix: a version of the first two, if all fit in 64 bits. */
  lemma PrintedIsVersion(numbers: seq<nat>, suffix: string, r: ReleaseLine)
    requires |numbers| == 2 || |numbers| == 3
    requires suffix == "" || (|numbers| == 3 && (suffix[0] == '-' || suffix[0] == '+') && SuffixLanguage(suffix))
    ensures IsVersion(Printed(numbers, suffix), r) <==> AllFit(numbers) && r == ReleaseLine(numbers[0], numbers[1])
  {
    var parts := Decimals(numbers);
    JoinedDigits(parts);
    SplitOfJoined(parts);
    VersionShape(Printed(numbers, suffix), JoinDots(parts), suffix);
    CoreNumbersMeans(parts, suffix != "", r);
    forall i | 0 <= i < |parts|
      ensures VersionNumber(parts[i]) == if numbers[i] <= MAX_INT then Some(numbers[i]) else None
    {
      DecimalReadsBack(numbers[i]);
    }
  }

  predicate VersionChar(c: char) {
    IdentifierChar(c) || c == '.' || c == '+'
  }

  lemma {:induction false} ScannedChars(w: string, previousSeparator: bool, plusSeen: bool)
    requires Scan(w, previousSeparator, plusSeen)
    ensures forall c :: c in w ==> VersionChar(c)
    decreases |w|
  {
    if w != "" {
      ScannedChars(w[1..], w[0] == '+' || w[0] == '.', plusSeen || w[0] == '+');
    }
  }

  lemma SuffixChars(suffix: string)
    requires SuffixLanguage(suffix)
    ensures forall c :: c in suffix ==> VersionChar(c)
  {
    SuffixScanned(suffix);
    assert suffix[0..] == suffix;
    if suffix[0] == '+' {
      ScannedChars(suffix[1..], true, true);
    } else if suffix[0] == '-' {
      ScannedChars(suffix[1..], true, false);
    } else {
      ScannedChars(suffix, true, false);
    }
  }

  predicate AllSpace(s: string) {
    forall c :: c in s ==> IsSpace(c)
  }

  lemma {:induction false} TrimLeftPadded(pad: string, text: string)
    requires AllSpace(pad) && text != "" && !IsSpace(text[0])
    ensures TrimLeft(pad + text) == text
  {
    if pad == "" {
      assert pad + text == text;
    } else {
      assert pad[0] in pad && (pad + text)[1..] == pad[1..] + text;
      TrimLeftPadded(pad[1..], text);
    }
  }

  lemma {:induction false} TrimRightPadded(text: string, pad: string)
    requires AllSpace(pad) && text != "" && !IsSpace(text[|text| - 1])
    ensures TrimRight(text + pad) == text
  {
    if pad == "" {
      assert text + pad == text;
    } else {
      assert pad[|pad| - 1] in pad && (text + pad)[..|text + pad| - 1] == text + pad[..|pad| - 1];
      TrimRightPadded(text, pad[..|pad| - 1]);
    }
  }

  lemma Trimmed(before: string, text: string, after: string)
    requires AllSpace(before) && AllSpace(after)
    requires text != "" && !IsSpace(text[0]) && !IsSpace(text[|text| - 1])
    ensures TrimSpace(before + text + after) == text
  {
    assert before + text + after == before + (text + after);
    TrimLeftPadded(before, text + after);
    TrimRightPadded(text, after);
  }

  lemma Lowered(text: string, lower: char -> char)
    requires forall c :: c in text ==> lower(c) == c
    ensures seq(|text|, i requires 0 <= i < |text| => lower(text[i])) == text
  {
  }

  /** White space around a version and a "v" in front of it are dropped, and nothing else is. */
  lemma NormalizeDrops(before: string, v: bool, text: string, after: string, lower: char -> char)
    requires AllSpace(before) && AllSpace(after)
    requires text != "" && text[0] != 'v' && forall c :: c in text ==> VersionChar(c)
    requires forall c :: VersionChar(c) ==> lower(c) == c
    ensures Normalize(before + (if v then "v" + text else text) + after, lower) == text
  {
    var marked := if v then "v" + text else text;
    assert text[0] in text && text[|text| - 1] in text;
    Trimmed(before, marked, after);
    Lowered(marked, lower);
    assert v ==> marked[1..] == text;
  }

  /**
   Printing and parsing: the release line of a printed version, with or without a "v" and white space around it, is its
   first two numbers, if all its numbers fit in 64 bits.
   */
  method ParsePrinted(before: string, v: bool, numbers: seq<nat>, suffix: string, after: string, lower: char -> char)
    returns (line: Option<ReleaseLine>)
    requires AllSpace(before) && AllSpace(after) && (|numbers| == 2 || |numbers| == 3)
    requires suffix == "" || (|numbers| == 3 && (suffix[0] == '-' || suffix[0] == '+') && SuffixLanguage(suffix))
    requires forall c :: VersionChar(c) ==> lower(c) == c
    ensures line == if AllFit(numbers) then Some(ReleaseLine(numbers[0], numbers[1])) else None
  {
    var text := Printed(numbers, suffix);
    line := ParseFlinkReleaseLine(before + (if v then "v" + text else text) + after, lower);
    JoinedDigits(Decimals(numbers));
    if suffix != "" {
      SuffixChars(suffix);
    }
    assert text[0] == Decimals(numbers)[0][0];
    NormalizeDrops(before, v, text, after, lower);
    forall r ensures line == Some(r) <==> AllFit(numbers) && r == ReleaseLine(numbers[0], numbers[1]) {
      PrintedIsVersion(numbers, suffix, r);
    }
  }
}
