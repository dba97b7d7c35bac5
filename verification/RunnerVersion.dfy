/** Recognizing the version a runner reports about itself. */
module RunnerVersion {
  import opened Basics
  import Text

  type Bytes = seq<Byte>

  const VERSION_LIMIT: nat := 256

  predicate IsDigit(b: Byte) { 0x30 <= b <= 0x39 }

  predicate IsTailByte(b: Byte) {
    IsDigit(b) || 0x41 <= b <= 0x5A || 0x61 <= b <= 0x7A || b == DOT || b == DASH
  }

  const DOT: Byte := 0x2E
  const DASH: Byte := 0x2D

  predicate Digits(s: Bytes) { |s| > 0 && forall i :: 0 <= i < |s| ==> IsDigit(s[i]) }

  /** A suffix: empty, or a dot or dash and at least one more letter, digit, dot or dash. */
  predicate Suffix(s: Bytes) {
    s == [] || (|s| >= 2 && (s[0] == DOT || s[0] == DASH) && forall i :: 1 <= i < |s| ==> IsTailByte(s[i]))
  }

  /** A suffix is a dot or a dash and then characters from `0-9`, `A-Z`, `a-z`, dot and dash. */
  lemma SuffixesAreSpelled(s: Bytes, b: Byte)
    ensures Suffix(s) <==> s == [] || (|s| > 1 && (s[0] as int == '.' as int || s[0] as int == '-' as int) && Tail(s[1..]))
    ensures IsTailByte(b) <==>
      var c := b as int as char; '0' <= c <= '9' || 'A' <= c <= 'Z' || 'a' <= c <= 'z' || c == '.' || c == '-'
  {
    if s != [] && Tail(s[1..]) {
      assert forall i :: 1 <= i < |s| ==> s[i] == s[1..][i - 1];
    }
  }

  predicate Tail(s: Bytes) { forall i :: 0 <= i < |s| ==> IsTailByte(s[i]) }

  /** The pattern of a version: three numbers with dots between them, and a suffix. */
  ghost predicate Splits(v: Bytes, a: Bytes, b: Bytes, c: Bytes, rest: Bytes) {
    Digits(a) && Digits(b) && Digits(c) && Suffix(rest) && v == a + [DOT] + b + [DOT] + c + rest
  }

  ghost predicate IsVersion(v: Bytes) { exists a, b, c, rest :: Splits(v, a, b, c, rest) }

  /** How many digits a string begins with. */
  function DigitRun(s: Bytes): (n: nat)
    ensures n <= |s| && (forall i :: 0 <= i < n ==> IsDigit(s[i])) && (n < |s| ==> !IsDigit(s[n]))
  {
    if s == [] || !IsDigit(s[0]) then 0 else 1 + DigitRun(s[1..])
  }

  /** The digits before a byte that is none are the whole run. */
  lemma RunIsForced(a: Bytes, rest: Bytes)
    requires Digits(a) && (rest != [] ==> !IsDigit(rest[0]))
    ensures DigitRun(a + rest) == |a|
  {
    var s := a + rest;
    assert forall i :: 0 <= i < |a| ==> s[i] == a[i];
    assert rest != [] ==> s[|a|] == rest[0];
  }

  /** What follows a number and its dot, the number taken as long as it goes. */
  function PastNumber(v: Bytes): Option<Bytes> {
    var n := DigitRun(v);
    if n > 0 && n < |v| && v[n] == DOT then Some(v[n + 1..]) else None
  }

  lemma PastNumberIsForced(a: Bytes, rest: Bytes)
    requires Digits(a)
    ensures PastNumber(a + [DOT] + rest) == Some(rest)
  {
    assert a + [DOT] + rest == a + ([DOT] + rest);
    RunIsForced(a, [DOT] + rest);
    assert (a + [DOT] + rest)[|a| + 1..] == rest;
  }

  lemma PastNumberSplits(v: Bytes) returns (a: Bytes)
    requires PastNumber(v).Some?
    ensures Digits(a) && v == a + [DOT] + PastNumber(v).value
  {
    a := v[..DigitRun(v)];
  }

  /** Scans a version from left to right. */
  predicate Scan(v: Bytes) {
    PastNumber(v).Some? &&
    var second := PastNumber(v).value;
    PastNumber(second).Some? &&
    var third := PastNumber(second).value;
    DigitRun(third) > 0 && Suffix(third[DigitRun(third)..])
  }

  /** The scan accepts exactly the versions. */
  lemma ScanRecognizesVersions(v: Bytes)
    ensures Scan(v) <==> IsVersion(v)
  {
    if Scan(v) {
      ScanIsVersion(v);
    }
    if IsVersion(v) {
      var a, b, c, rest :| Splits(v, a, b, c, rest);
      VersionScans(v, a, b, c, rest);
    }
  }

  lemma ScanIsVersion(v: Bytes)
    requires Scan(v)
    ensures IsVersion(v)
  {
    hide PastNumber, Suffix;
    var second := PastNumber(v).value;
    var third := PastNumber(second).value;
    var a := PastNumberSplits(v);
    var b := PastNumberSplits(second);
    var c, rest := third[..DigitRun(third)], third[DigitRun(third)..];
    assert third == c + rest;
    assert v == a + [DOT] + b + [DOT] + c + rest;
    assert Splits(v, a, b, c, rest);
  }

  lemma VersionScans(v: Bytes, a: Bytes, b: Bytes, c: Bytes, rest: Bytes)
    requires Splits(v, a, b, c, rest)
    ensures Scan(v)
  {
    hide PastNumber, Digits;
    var third := c + rest;
    var second := b + [DOT] + third;
    assert v == a + [DOT] + second;
    PastNumberIsForced(a, second);
    PastNumberIsForced(b, third);
    RunIsForced(c, rest);
    assert third[|c|..] == rest;
    LongerThanNothing(c);
  }

  lemma LongerThanNothing(c: Bytes)
    requires Digits(c)
    ensures |c| > 0
  {
  }

  // ------------------------------------------------------------ white space

  /** How many bytes of white space, in its encoding of one, two or three bytes, stand here. */
  function SpaceBefore(s: Bytes): (n: nat)
    ensures n <= |s|
  {
    if |s| >= 1 && Space1(s[0]) then 1
    else if |s| >= 2 && Space2(s[0], s[1]) then 2
    else if |s| >= 3 && Space3(s[0], s[1], s[2]) then 3
    else 0
  }

  function SpaceAfter(s: Bytes): (n: nat)
    ensures n <= |s|
  {
    var k := |s|;
    if k >= 1 && Space1(s[k - 1]) then 1
    else if k >= 2 && Space2(s[k - 2], s[k - 1]) then 2
    else if k >= 3 && Space3(s[k - 3], s[k - 2], s[k - 1]) then 3
    else 0
  }

  /** White space and nothing else, read from the front. */
  predicate Spaces(s: Bytes)
    decreases |s|
  {
    s == [] || (SpaceBefore(s) > 0 && Spaces(s[SpaceBefore(s)..]))
  }

  /** The same, read from the back. */
  predicate SpacesBack(s: Bytes)
    decreases |s|
  {
    s == [] || (SpaceAfter(s) > 0 && SpacesBack(s[..|s| - SpaceAfter(s)]))
  }

  predicate Space1(a: Byte) { 0x09 <= a <= 0x0D || a == 0x20 }

  predicate Space2(a: Byte, b: Byte) { a == 0xC2 && (b == 0x85 || b == 0xA0) }

  predicate Space3(a: Byte, b: Byte, c: Byte) {
    || (a == 0xE1 && b == 0x9A && c == 0x80)
    || (a == 0xE2 && b == 0x80 && (0x80 <= c <= 0x8A || c == 0xA8 || c == 0xA9 || c == 0xAF))
    || (a == 0xE2 && b == 0x81 && c == 0x9F)
    || (a == 0xE3 && b == 0x80 && c == 0x80)
  }

  function TrimLeft(s: Bytes): (r: Bytes)
    ensures |r| <= |s| && SpaceBefore(r) == 0
    decreases |s|
  {
    var n := SpaceBefore(s);
    if n == 0 then s else TrimLeft(s[n..])
  }

  function TrimRight(s: Bytes): (r: Bytes)
    ensures |r| <= |s| && SpaceAfter(r) == 0
    decreases |s|
  {
    var n := SpaceAfter(s);
    if n == 0 then s else TrimRight(s[..|s| - n])
  }

  function TrimSpace(s: Bytes): (r: Bytes)
    ensures |r| <= |s|
  {
    TrimRight(TrimLeft(s))
  }

  lemma {:induction false} TrimLeftDrops(s: Bytes) returns (i: nat)
    ensures i <= |s| && TrimLeft(s) == s[i..] && Spaces(s[..i])
    decreases |s|
  {
    var n := SpaceBefore(s);
    i := 0;
    if n > 0 {
      var j := TrimLeftDrops(s[n..]);
      i := n + j;
      assert s[n..][j..] == s[i..];
      assert s[..i][n..] == s[n..][..j];
      assert SpaceBefore(s[..i]) == n;
    }
  }

  lemma {:induction false} TrimRightDrops(s: Bytes) returns (j: nat)
    ensures j <= |s| && TrimRight(s) == s[..j] && SpacesBack(s[j..])
    decreases |s|
  {
    var n := SpaceAfter(s);
    j := |s|;
    if n > 0 {
      j := TrimRightDrops(s[..|s| - n]);
      assert s[..|s| - n][..j] == s[..j];
      assert s[j..][..|s| - j - n] == s[..|s| - n][j..];
      assert SpaceAfter(s[j..]) == n;
    }
  }

  /** Trimming drops white space at both ends, and leaves a stretch that begins and ends without any. */
  lemma TrimSpaceIsInner(s: Bytes) returns (i: nat, j: nat)
    ensures i <= j <= |s| && TrimSpace(s) == s[i..j] && SpaceBefore(s[i..j]) == 0 && SpaceAfter(s[i..j]) == 0
    ensures Spaces(s[..i]) && SpacesBack(s[j..])
  {
    i := TrimLeftDrops(s);
    var k := TrimRightDrops(s[i..]);
    j := i + k;
    assert s[i..][..k] == s[i..j];
    assert s[i..][k..] == s[j..];
    PrefixAddsNoSpace(s[i..], k);
  }

  lemma PrefixAddsNoSpace(s: Bytes, k: nat)
    requires k <= |s| && SpaceBefore(s) == 0
    ensures SpaceBefore(s[..k]) == 0
  {
    assert forall i :: 0 <= i < k ==> s[..k][i] == s[i];
  }

  /** The bytes of white space are the encodings, as in section 3 of RFC 3629, of the characters that are white space. */
  lemma SpacesAreEncodedCharacters(a: Byte, b: Byte, c: Byte)
    ensures a < 0x80 ==> (Space1(a) <==> Text.IsSpace(a as int as char))
    ensures 0xC2 <= a < 0xE0 && 0x80 <= b < 0xC0 ==>
      (Space2(a, b) <==> Text.IsSpace(((a as int - 0xC0) * 0x40 + (b as int - 0x80)) as char))
    ensures 0xE1 <= a < 0xED && 0x80 <= b < 0xC0 && 0x80 <= c < 0xC0 ==>
      (Space3(a, b, c) <==> Text.IsSpace(((a as int - 0xE0) * 0x1000 + (b as int - 0x80) * 0x40 + (c as int - 0x80)) as char))
  {
  }

  /** The version a control line carries, or nothing. */
  function Parse(content: Bytes): (v: Bytes) {
    if |content| > VERSION_LIMIT then []
    else
      var value := TrimSpace(content);
      if value == [] || |value| > VERSION_LIMIT || CARRIAGE_RETURN in value || NEWLINE in value || !Scan(value) then []
      else value
  }

  const CARRIAGE_RETURN: Byte := 0x0D
  const NEWLINE: Byte := 0x0A

  /** A version holds no line break, so the separate check for one never decides. */
  lemma VersionByte(v: Bytes, a: Bytes, b: Bytes, c: Bytes, rest: Bytes, i: nat)
    requires Splits(v, a, b, c, rest) && i < |v|
    ensures IsTailByte(v[i])
  {
  }

  /** A line's content gives a version exactly when it is short enough and a version stands between white space. */
  lemma ParseFindsVersions(content: Bytes)
    ensures Parse(content) == if |content| <= VERSION_LIMIT && IsVersion(TrimSpace(content)) then TrimSpace(content) else []
  {
    hide Scan, IsTailByte, TrimSpace;
    var value := TrimSpace(content);
    ScanRecognizesVersions(value);
    if IsVersion(value) {
      var a, b, c, rest :| Splits(value, a, b, c, rest);
      forall i | 0 <= i < |value| ensures value[i] != CARRIAGE_RETURN && value[i] != NEWLINE {
        VersionByte(value, a, b, c, rest, i);
        LineBreaksAreNoTail();
      }
    }
  }

  lemma LineBreaksAreNoTail()
    ensures !IsTailByte(CARRIAGE_RETURN) && !IsTailByte(NEWLINE)
  {
  }
}
