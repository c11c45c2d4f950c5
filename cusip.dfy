/**
 * The CUSIP check digit (ANSI X9.6): every character of the 8-character base is
 * given its position in the CUSIP character set, doubled on odd positions, the
 * decimal digits of all these products are added up, and the check digit is what
 * brings that sum to a multiple of ten.
 */
module Cusip {
  import opened Outcomes
  import opened Text

  /** The CUSIP character set; a character's value is its position in it. */
  const Alphabet: string := "0123456789ABCDEFGHIJKLMNOPQRSTUVWXYZ*@#"

  /** The characters of the set: decimal digits, upper-case letters, '*', '@' and '#'. */
  predicate IsCusipChar(c: char) {
    '0' <= c <= '9' || 'A' <= c <= 'Z' || c == '*' || c == '@' || c == '#'
  }

  /** `_alphabet.index(c)`, which raises ValueError for a character outside the set. */
  function CharValue(c: char): (r: Result<nat>)
    ensures r.Ok? <==> IsCusipChar(c)
    ensures r.Ok? ==> r.value < |Alphabet|
  {
    if '0' <= c <= '9' then Ok(c as int - '0' as int)
    else if 'A' <= c <= 'Z' then Ok(c as int - 'A' as int + 10)
    else if c == '*' then Ok(36)
    else if c == '@' then Ok(37)
    else if c == '#' then Ok(38)
    else Err(ValueError("substring not found"))
  }

  /** The `k`-th character of the set, by ranges. */
  function AlphabetChar(k: nat): char
    requires k < 39
  {
    if k < 10 then ('0' as int + k) as char
    else if k < 36 then ('A' as int + k - 10) as char
    else if k == 36 then '*'
    else if k == 37 then '@'
    else '#'
  }

  lemma AlphabetByRanges()
    ensures |Alphabet| == 39
    ensures forall k :: 0 <= k < 39 ==> Alphabet[k] == AlphabetChar(k)
  {
    forall k | 0 <= k < 39
      ensures Alphabet[k] == AlphabetChar(k)
    {
      if k < 10 {} else if k < 20 {} else if k < 30 {} else {}
    }
  }

  lemma AlphabetCharValue(k: nat)
    requires k < 39
    ensures CharValue(AlphabetChar(k)) == Ok(k)
  {
  }

  lemma CharValueChar(c: char)
    requires IsCusipChar(c)
    ensures CharValue(c).value < 39 && AlphabetChar(CharValue(c).value) == c
  {
  }

  /** `CharValue` is the position of the character in `Alphabet`, and fails exactly for characters not in it. */
  lemma CharValueIsIndex(c: char)
    ensures CharValue(c).Ok? <==> c in Alphabet
    ensures CharValue(c).Ok? ==> Alphabet[CharValue(c).value] == c
  {
    AlphabetByRanges();
    if CharValue(c).Ok? {
      CharValueChar(c);
    }
    if c in Alphabet {
      var k :| 0 <= k < |Alphabet| && Alphabet[k] == c;
      AlphabetCharValue(k);
    }
  }

  /** `(1, 2)[i % 2] * v`: the value as is on even positions, doubled on odd ones. */
  function Weighted(i: nat, v: nat): nat {
    if i % 2 == 0 then v else v + v
  }

  predicate InAlphabet(s: string) {
    forall k :: 0 <= k < |s| ==> IsCusipChar(s[k])
  }

  /** The string `"".join(str(Weight(k) * value(s[k])) for k >= i)`. */
  function WeightedDigits(s: string, i: nat): Result<string>
    requires i <= |s|
    decreases |s| - i
  {
    if i == |s| then Ok("")
    else
      var v :- CharValue(s[i]);
      var rest :- WeightedDigits(s, i + 1);
      Ok(NatString(Weighted(i, v)) + rest)
  }

  /** `sum(int(ch) for ch in digits)`. */
  function DigitCharSum(digits: string): nat
    requires forall k :: 0 <= k < |digits| ==> IsDigit(digits[k])
  {
    if digits == [] then 0
    else
      assert IsDigit(digits[0]);
      (digits[0] as int - '0' as int) + DigitCharSum(digits[1..])
  }

  /** The digit sum of a number, computed arithmetically. */
  function DigitSum(n: nat): nat {
    if n < 10 then n else n % 10 + DigitSum(n / 10)
  }

  /** The weighted digit sum of the whole identifier, as the standard defines it. */
  function WeightedSum(s: string, i: nat): nat
    requires i <= |s| && InAlphabet(s)
    decreases |s| - i
  {
    if i == |s| then 0
    else DigitSum(Weighted(i, CharValue(s[i]).value)) + WeightedSum(s, i + 1)
  }

  lemma {:induction false} DigitCharSumAppend(a: string, b: string)
    requires forall k :: 0 <= k < |a| ==> IsDigit(a[k])
    requires forall k :: 0 <= k < |b| ==> IsDigit(b[k])
    ensures DigitCharSum(a + b) == DigitCharSum(a) + DigitCharSum(b)
  {
    if a == [] {
      assert a + b == b;
    } else {
      assert (a + b)[1..] == a[1..] + b;
      DigitCharSumAppend(a[1..], b);
    }
  }

  /** Adding up the characters of `str(n)` gives the digit sum of `n`. */
  lemma {:induction false} DigitCharSumOfNatString(n: nat)
    ensures DigitCharSum(NatString(n)) == DigitSum(n)
  {
    if n < 10 {
      assert NatString(n)[1..] == [];
    } else {
      var last := [DigitChar(n % 10)];
      DigitCharSumAppend(NatString(n / 10), last);
      assert last[1..] == [];
      DigitCharSumOfNatString(n / 10);
    }
  }

  /** The digit string is produced exactly when every character is in the set, and its digits add up to the weighted sum. */
  lemma {:induction false} WeightedDigitsSum(s: string, i: nat)
    requires i <= |s|
    ensures WeightedDigits(s, i).Ok? <==> forall k :: i <= k < |s| ==> IsCusipChar(s[k])
    ensures WeightedDigits(s, i).Ok? ==>
              (forall k :: 0 <= k < |WeightedDigits(s, i).value| ==> IsDigit(WeightedDigits(s, i).value[k])) &&
              (InAlphabet(s) ==> DigitCharSum(WeightedDigits(s, i).value) == WeightedSum(s, i))
    decreases |s| - i
  {
    if i < |s| {
      WeightedDigitsSum(s, i + 1);
      if IsCusipChar(s[i]) && WeightedDigits(s, i + 1).Ok? {
        var head := NatString(Weighted(i, CharValue(s[i]).value));
        var rest := WeightedDigits(s, i + 1).value;
        assert WeightedDigits(s, i).value == head + rest;
        DigitCharSumAppend(head, rest);
        DigitCharSumOfNatString(Weighted(i, CharValue(s[i]).value));
      }
    }
  }

  /** The numeric value of a decimal digit character. */
  function DigitValue(c: char): int {
    c as int - '0' as int
  }

  /**
   * `calc_check_digit`: one decimal digit `c` with `(weighted sum + c) % 10 == 0`;
   * ValueError exactly when some character is outside the CUSIP set.
   */
  function CheckDigit(s: string): (r: Result<string>)
    ensures r.Ok? <==> InAlphabet(s)
    ensures r.Ok? ==> |r.value| == 1 && IsDigit(r.value[0])
    ensures r.Ok? ==> (WeightedSum(s, 0) + DigitValue(r.value[0])) % 10 == 0
  {
    WeightedDigitsSum(s, 0);
    var digits :- WeightedDigits(s, 0);
    var d := (10 - DigitCharSum(digits)) % 10;
    assert NatString(d) == [DigitChar(d)];
    Ok(NatString(d))
  }

  /** The check digit is the only decimal digit that completes the weighted sum to a multiple of ten. */
  lemma CheckDigitUnique(s: string, c: char)
    requires InAlphabet(s) && IsDigit(c)
    ensures (WeightedSum(s, 0) + DigitValue(c)) % 10 == 0 <==> CheckDigit(s) == Ok([c])
  {
    var d := CheckDigit(s).value[0];
    if (WeightedSum(s, 0) + DigitValue(c)) % 10 == 0 {
      assert (DigitValue(c) - DigitValue(d)) % 10 == 0;
      assert c == d;
    }
  }

  /** `convert_cusips_from_8_to_9_digit` on one identifier: the input followed by its check digit. */
  function ConvertCusip(s: string): (r: Result<string>)
    ensures r.Ok? <==> InAlphabet(s)
    ensures r.Ok? ==> |r.value| == |s| + 1 && r.value[..|s|] == s
    ensures r.Ok? ==> IsDigit(r.value[|s|]) && (WeightedSum(s, 0) + DigitValue(r.value[|s|])) % 10 == 0
    ensures r.Ok? ==> r.value == s + CheckDigit(s).value
  {
    var d :- CheckDigit(s);
    Ok(s + d)
  }

  /**
   * `convert_cusips_from_8_to_9_digit` on a series: `np.vectorize` refuses an empty
   * input (ValueError), and a character outside the set raises ValueError.
   */
  function ConvertCusips(series: seq<string>): (r: Result<seq<string>>)
    ensures r.Ok? <==> series != [] && forall k :: 0 <= k < |series| ==> InAlphabet(series[k])
    ensures r.Ok? ==> |r.value| == |series|
    ensures r.Ok? ==> forall k :: 0 <= k < |series| ==> ConvertCusip(series[k]) == Ok(r.value[k])
  {
    if series == [] then Err(ValueError("cannot call `vectorize` on size 0 inputs unless `otypes` is set"))
    else ConvertEach(series)
  }

  function ConvertEach(series: seq<string>): (r: Result<seq<string>>)
    ensures r.Ok? <==> forall k :: 0 <= k < |series| ==> InAlphabet(series[k])
    ensures r.Ok? ==> |r.value| == |series|
    ensures r.Ok? ==> forall k :: 0 <= k < |series| ==> ConvertCusip(series[k]) == Ok(r.value[k])
  {
    if series == [] then Ok([])
    else
      var first :- ConvertCusip(series[0]);
      var rest :- ConvertEach(series[1..]);
      assert forall k :: 1 <= k < |series| ==> series[k] == series[1..][k - 1];
      Ok([first] + rest)
  }

  /** The weighted digit sum of Apple's CUSIP base `03783310` is 30. */
  lemma AppleWeightedSum()
    ensures InAlphabet("03783310") && WeightedSum("03783310", 0) == 30
  {
    var s := "03783310";
    assert WeightedSum(s, 8) == 0;
    assert WeightedSum(s, 7) == 0;
    assert WeightedSum(s, 6) == 1;
    assert WeightedSum(s, 5) == 7;
    assert WeightedSum(s, 4) == 10;
    assert WeightedSum(s, 3) == 17;
    assert WeightedSum(s, 2) == 24;
    assert WeightedSum(s, 1) == 30;
  }

  /** Any digit that completes the weighted sum to a multiple of ten is the one appended. */
  lemma ConvertCusipWith(s: string, c: char)
    requires InAlphabet(s) && IsDigit(c) && (WeightedSum(s, 0) + DigitValue(c)) % 10 == 0
    ensures ConvertCusip(s) == Ok(s + [c])
  {
    CheckDigitUnique(s, c);
  }

  /** Apple's CUSIP base `03783310` gets the check digit 0. */
  lemma ConvertCusipExample()
    ensures ConvertCusip("03783310") == Ok("037833100")
  {
    AppleWeightedSum();
    ConvertCusipWith("03783310", '0');
    assert "03783310" + ['0'] == "037833100";
  }
}
