/** String helpers that stand for the Python `str` methods the modelled code calls. */
module Text {
  import opened Outcomes

  predicate StartsWith(s: string, prefix: string) {
    |prefix| <= |s| && s[..|prefix|] == prefix
  }

  /** `s.index(c)` / `s.find(c)`: the position of the first occurrence of `c`, if any. */
  function FirstIndex(s: string, c: char): (r: Option<nat>)
    ensures r.None? <==> c !in s
    ensures r.Some? ==> r.value < |s| && s[r.value] == c && c !in s[..r.value]
  {
    if s == [] then None
    else if s[0] == c then Some(0)
    else
      match FirstIndex(s[1..], c)
      case None => None
      case Some(i) =>
        assert s[..i + 1] == [s[0]] + s[1..][..i];
        Some(i + 1)
  }

  /** `sub in s` for strings. */
  predicate HasSubstring(s: string, sub: string)
    decreases |s|
  {
    StartsWith(s, sub) || (s != [] && HasSubstring(s[1..], sub))
  }

  /** `s.split(c)[0]`: everything before the first `c`, or all of `s`. */
  function BeforeFirst(s: string, c: char): (r: string)
    ensures c !in r && StartsWith(s, r)
    ensures c in s ==> s[|r|] == c
  {
    match FirstIndex(s, c)
    case None => s
    case Some(i) => s[..i]
  }

  /** `s.split(c, 1)[1]`: everything after the first `c`. */
  function AfterFirst(s: string, c: char): (r: string)
    requires c in s
    ensures s == BeforeFirst(s, c) + [c] + r
  {
    var i := FirstIndex(s, c).value;
    assert s == s[..i] + [c] + s[i + 1..];
    s[i + 1..]
  }

  predicate IsDigit(c: char) { '0' <= c <= '9' }

  function DigitChar(d: nat): (c: char)
    requires d < 10
    ensures IsDigit(c) && c as int - '0' as int == d
  {
    ('0' as int + d) as char
  }

  /** `str(n)` for a non-negative integer: decimal digits, no leading zero. */
  function NatString(n: nat): (r: string)
    ensures 1 <= |r|
    ensures forall i :: 0 <= i < |r| ==> IsDigit(r[i])
    ensures |r| > 1 ==> r[0] != '0'
  {
    if n < 10 then [DigitChar(n)] else NatString(n / 10) + [DigitChar(n % 10)]
  }

  /** `str(i)` for any integer. */
  function IntString(i: int): string {
    if i < 0 then "-" + NatString(-i) else NatString(i)
  }

  /** `int(s)` for a string of decimal digits. */
  function DecimalValue(s: string): nat
    requires forall i :: 0 <= i < |s| ==> IsDigit(s[i])
  {
    if s == [] then 0
    else
      assert IsDigit(s[|s| - 1]);
      10 * DecimalValue(s[..|s| - 1]) + (s[|s| - 1] as int - '0' as int)
  }

  /** `int(str(n)) == n`: the decimal rendering reads back as the same number. */
  lemma {:induction false} NatStringRoundTrip(n: nat)
    ensures DecimalValue(NatString(n)) == n
  {
    if n >= 10 {
      var s := NatString(n);
      assert s[..|s| - 1] == NatString(n / 10);
      NatStringRoundTrip(n / 10);
    }
  }

  /** `"".join(parts)`. */
  function Concat(parts: seq<string>): string {
    if parts == [] then "" else parts[0] + Concat(parts[1..])
  }

  /** `io.readlines()`: the text cut after every newline, each line keeping its newline. */
  function Lines(s: string): (r: seq<string>)
    ensures forall k :: 0 <= k < |r| ==> r[k] != ""
    decreases |s|
  {
    if s == [] then []
    else
      match FirstIndex(s, '\n')
      case None => [s]
      case Some(i) => [s[..i + 1]] + Lines(s[i + 1..])
  }

  /** `"".join(io.readlines())` gives the text back. */
  lemma {:induction false} LinesRoundTrip(s: string)
    ensures Concat(Lines(s)) == s
    decreases |s|
  {
    if s != [] {
      match FirstIndex(s, '\n')
      case None =>
      case Some(i) =>
        LinesStep(s, i);
        LinesRoundTrip(s[i + 1..]);
        assert s == s[..i + 1] + s[i + 1..];
    }
  }

  /** The text that follows the `k`-th newline (empty when there are fewer), read one character at a time. */
  function AfterNewlines(s: string, k: nat): string
    decreases |s|
  {
    if k == 0 then s
    else if s == [] then ""
    else AfterNewlines(s[1..], if s[0] == '\n' then k - 1 else k)
  }

  /** Skipping a whole first line uses up one newline. */
  lemma {:induction false} AfterNewlinesSkipLine(s: string, k: nat)
    requires k > 0
    ensures FirstIndex(s, '\n').None? ==> AfterNewlines(s, k) == ""
    ensures FirstIndex(s, '\n').Some? ==>
              AfterNewlines(s, k) == AfterNewlines(s[FirstIndex(s, '\n').value + 1..], k - 1)
    decreases |s|
  {
    if s != [] && s[0] != '\n' {
      AfterNewlinesSkipLine(s[1..], k);
      match FirstIndex(s[1..], '\n')
      case None =>
      case Some(i) =>
        assert s[1..][i + 1..] == s[i + 2..];
    }
  }

  /** Joining `readlines()[k:]` gives exactly the text after the `k`-th newline. */
  lemma {:induction false} DropLinesIsAfterNewlines(s: string, k: nat)
    ensures |Lines(s)| >= k ==> Concat(Lines(s)[k..]) == AfterNewlines(s, k)
    ensures |Lines(s)| < k ==> AfterNewlines(s, k) == ""
    decreases k
  {
    if k == 0 {
      LinesRoundTrip(s);
    } else if s != [] {
      match FirstIndex(s, '\n')
      case None =>
        DropLinesOfLastLine(s, k);
      case Some(i) =>
        DropLinesIsAfterNewlines(s[i + 1..], k - 1);
        DropLinesStep(s, k, i);
    }
  }

  lemma DropLinesOfLastLine(s: string, k: nat)
    requires s != [] && k > 0 && FirstIndex(s, '\n').None?
    ensures |Lines(s)| >= k ==> Concat(Lines(s)[k..]) == AfterNewlines(s, k)
    ensures |Lines(s)| < k ==> AfterNewlines(s, k) == ""
  {
    AfterNewlinesSkipLine(s, k);
    assert Lines(s) == [s];
  }

  /** One step of `DropLinesIsAfterNewlines`: the first line and one newline go together. */
  lemma DropLinesStep(s: string, k: nat, i: nat)
    requires k > 0 && FirstIndex(s, '\n') == Some(i)
    requires var rest := s[i + 1..];
             (|Lines(rest)| >= k - 1 ==> Concat(Lines(rest)[k - 1..]) == AfterNewlines(rest, k - 1)) &&
             (|Lines(rest)| < k - 1 ==> AfterNewlines(rest, k - 1) == "")
    ensures |Lines(s)| >= k ==> Concat(Lines(s)[k..]) == AfterNewlines(s, k)
    ensures |Lines(s)| < k ==> AfterNewlines(s, k) == ""
  {
    AfterNewlinesSkipLine(s, k);
    LinesStep(s, i);
    DropFirstLine(s[..i + 1], Lines(s[i + 1..]), k);
  }

  /** The number of newlines in `s`. */
  function NewlineCount(s: string): nat {
    if s == [] then 0 else (if s[0] == '\n' then 1 else 0) + NewlineCount(s[1..])
  }

  lemma SliceOfSlice(s: string, a: nat, b: nat)
    requires a + b <= |s|
    ensures s[a..][b..] == s[a + b..]
  {
  }

  /** The text after the `k`-th newline is a suffix of the text. */
  lemma {:induction false} AfterNewlinesIsSuffix(s: string, k: nat)
    ensures |AfterNewlines(s, k)| <= |s|
    ensures s[|s| - |AfterNewlines(s, k)|..] == AfterNewlines(s, k)
    decreases |s|
  {
    if k == 0 {
      assert s[0..] == s;
    } else if s != [] {
      var k' := if s[0] == '\n' then k - 1 else k;
      AfterNewlinesIsSuffix(s[1..], k');
      var r := AfterNewlines(s[1..], k');
      SliceOfSlice(s, 1, |s| - 1 - |r|);
    }
  }

  /** With fewer than `k` newlines nothing follows the `k`-th. */
  lemma {:induction false} AfterTooFewNewlines(s: string, k: nat)
    requires NewlineCount(s) < k
    ensures AfterNewlines(s, k) == ""
    decreases |s|
  {
    if s != [] {
      AfterTooFewNewlines(s[1..], if s[0] == '\n' then k - 1 else k);
    }
  }

  /**
   * With at least `k` newlines, the part cut off before the text after the `k`-th newline
   * holds exactly `k` newlines and, unless empty, ends with one.
   */
  lemma {:induction false} AfterNewlinesCut(s: string, k: nat)
    requires NewlineCount(s) >= k
    ensures |AfterNewlines(s, k)| <= |s|
    ensures NewlineCount(s[..|s| - |AfterNewlines(s, k)|]) == k
    ensures k > 0 ==> |AfterNewlines(s, k)| < |s| && s[|s| - |AfterNewlines(s, k)| - 1] == '\n'
    decreases |s|
  {
    AfterNewlinesIsSuffix(s, k);
    if k == 0 {
      assert s[..0] == [];
    } else {
      var k' := if s[0] == '\n' then k - 1 else k;
      var r := AfterNewlines(s[1..], k');
      AfterNewlinesCut(s[1..], k');
      var cut := |s| - 1 - |r|;
      assert s[..|s| - |r|] == [s[0]] + s[1..][..cut];
      assert NewlineCount(s[..|s| - |r|]) == (if s[0] == '\n' then 1 else 0) + NewlineCount(s[1..][..cut]);
      if k' > 0 {
        assert s[|s| - |r| - 1] == s[1..][cut - 1];
      }
    }
  }

  lemma LinesStep(s: string, i: nat)
    requires FirstIndex(s, '\n') == Some(i)
    ensures Lines(s) == [s[..i + 1]] + Lines(s[i + 1..])
  {
  }

  lemma DropFirstLine(line: string, rest: seq<string>, k: nat)
    requires k > 0
    ensures |[line] + rest| >= k ==> ([line] + rest)[k..] == rest[k - 1..]
  {
  }

  predicate IsUpperLetter(c: char) { 'A' <= c <= 'Z' }
  predicate IsLowerLetter(c: char) { 'a' <= c <= 'z' }

  /** `s.isupper()` over ASCII: some cased character, and no lower-case one. */
  predicate IsUpper(s: string) {
    (exists i :: 0 <= i < |s| && IsUpperLetter(s[i])) &&
    (forall i :: 0 <= i < |s| ==> !IsLowerLetter(s[i]))
  }
}
