/** The string helpers the server takes from its language's library. */
module Text {

  /** White space as the server's language defines it. */
  predicate IsSpace(c: char) {
    var n := c as int;
    || 0x09 <= n <= 0x0D || n == 0x20 || n == 0x85 || n == 0xA0 || n == 0x1680
    || 0x2000 <= n <= 0x200A || n == 0x2028 || n == 0x2029 || n == 0x202F || n == 0x205F || n == 0x3000
  }

  predicate IsSlash(c: char) { c == '/' }

  predicate Blank(s: string) { forall i :: 0 <= i < |s| ==> IsSpace(s[i]) }

  /** The first position from `i` on that is not cut. */
  function SkipLeft(s: string, cut: char -> bool, i: nat): (k: nat)
    requires i <= |s|
    ensures i <= k <= |s| && (forall j :: i <= j < k ==> cut(s[j])) && (k < |s| ==> !cut(s[k]))
    decreases |s| - i
  {
    if i < |s| && cut(s[i]) then SkipLeft(s, cut, i + 1) else i
  }

  /** The length up to `n` that is left when the end is cut. */
  function SkipRight(s: string, cut: char -> bool, n: nat): (k: nat)
    requires n <= |s|
    ensures k <= n && (forall j :: k <= j < n ==> cut(s[j])) && (k > 0 ==> !cut(s[k - 1]))
  {
    if n > 0 && cut(s[n - 1]) then SkipRight(s, cut, n - 1) else n
  }

  /** Where skipping stops is determined by what it skips and what it stops at. */
  lemma SkipLeftIs(s: string, cut: char -> bool, i: nat, k: nat)
    requires i <= k <= |s| && (forall j :: i <= j < k ==> cut(s[j])) && (k < |s| ==> !cut(s[k]))
    ensures SkipLeft(s, cut, i) == k
  {
    hide SkipLeft;
  }

  function TrimLeft(s: string, cut: char -> bool): string { s[SkipLeft(s, cut, 0)..] }

  function TrimRight(s: string, cut: char -> bool): string { s[..SkipRight(s, cut, |s|)] }

  function Trim(s: string, cut: char -> bool): (r: string)
    ensures |r| <= |s| && (r != "" ==> !cut(r[0]) && !cut(r[|r| - 1]))
  {
    TrimRight(TrimLeft(s, cut), cut)
  }

  function TrimSpace(s: string): string { Trim(s, IsSpace) }

  /** Exactly white space trims to nothing. */
  lemma BlankTrims(s: string)
    ensures TrimSpace(s) == "" <==> Blank(s)
  {
    var k := SkipLeft(s, IsSpace, 0);
    if k < |s| {
      assert s[k..][0] == s[k];
    }
  }

  function TrimPrefix(s: string, prefix: string): string { if prefix <= s then s[|prefix|..] else s }

  function TrimSuffix(s: string, suffix: string): string {
    if |suffix| <= |s| && s[|s| - |suffix|..] == suffix then s[..|s| - |suffix|] else s
  }

  /** A string with nothing to cut at either end stays as it is. */
  lemma TrimKeeps(s: string, cut: char -> bool)
    requires s != "" ==> !cut(s[0]) && !cut(s[|s| - 1])
    ensures Trim(s, cut) == s
  {
  }

  /** The parts of a string between separators; at least one. */
  function Split(s: string, sep: char): (parts: seq<string>)
    ensures |parts| >= 1
  {
    if s == "" then [""]
    else
      var rest := Split(s[1..], sep);
      if s[0] == sep then [""] + rest else [[s[0]] + rest[0]] + rest[1..]
  }

  /** A stretch without separators is one part. */
  lemma {:induction false} SplitWord(w: string, sep: char)
    requires sep !in w
    ensures Split(w, sep) == [w]
  {
    if w != "" {
      SplitWord(w[1..], sep);
      assert [w[0]] + w[1..] == w;
    }
  }

  lemma {:induction false} SplitFirst(w: string, rest: string, sep: char)
    requires sep !in w
    ensures Split(w + [sep] + rest, sep) == [w] + Split(rest, sep)
  {
    var s := w + [sep] + rest;
    if w == "" {
      assert s[1..] == rest;
    } else {
      SplitFirst(w[1..], rest, sep);
      assert s[1..] == w[1..] + [sep] + rest;
      assert [w[0]] + w[1..] == w;
    }
  }

  // ---------------------------------------------------------------- decimals

  function Decimal(n: nat): (s: string)
    ensures |s| > 0 && forall i :: 0 <= i < |s| ==> '0' <= s[i] <= '9'
  {
    if n < 10 then [Digit(n)] else Decimal(n / 10) + [Digit(n % 10)]
  }

  function Digit(d: nat): (c: char)
    requires d < 10
    ensures '0' <= c <= '9' && c as int == '0' as int + d
  {
    '0' + d as char
  }

  function Value(s: string): int {
    if s == "" then 0 else 10 * Value(s[..|s| - 1]) + (s[|s| - 1] as int - '0' as int)
  }

  /** Reading a decimal back gives the number. */
  lemma {:induction false} DecimalReadsBack(n: nat)
    ensures Value(Decimal(n)) == n
  {
    if n < 10 {
      assert Value("") == 0;
      assert Decimal(n)[..0] == "";
    } else {
      DecimalReadsBack(n / 10);
      var s := Decimal(n);
      assert s[..|s| - 1] == Decimal(n / 10);
    }
  }
}
