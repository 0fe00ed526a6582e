/** The few string operations of the source that decide a branch: `strip`, and decimal numerals. */
module Texts {

  /** The ASCII characters that `str.strip` removes. */
  predicate IsSpace(c: char) {
    c == ' ' || ('\t' <= c <= '\r') || (28 as char <= c <= 31 as char)
  }

  function StripLeft(s: string): (r: string)
    ensures r != "" ==> !IsSpace(r[0])
    ensures |r| <= |s|
  {
    if s == "" then "" else if IsSpace(s[0]) then StripLeft(s[1..]) else s
  }

  function StripRight(s: string): (r: string)
    ensures r != "" ==> !IsSpace(r[|r| - 1])
    ensures r <= s
  {
    if s == "" then "" else if IsSpace(s[|s| - 1]) then StripRight(s[..|s| - 1]) else s
  }

  function Strip(s: string): (r: string)
    ensures r != "" ==> !IsSpace(r[0]) && !IsSpace(r[|r| - 1])
  {
    StripRight(StripLeft(s))
  }

  lemma {:induction false} LeftSplits(s: string) returns (before: string)
    ensures s == before + StripLeft(s) && forall i :: 0 <= i < |before| ==> IsSpace(before[i])
  {
    if s == "" || !IsSpace(s[0]) {
      before := "";
    } else {
      var rest := LeftSplits(s[1..]);
      before := [s[0]] + rest;
    }
  }

  lemma {:induction false} RightSplits(s: string) returns (after: string)
    ensures s == StripRight(s) + after && forall i :: 0 <= i < |after| ==> IsSpace(after[i])
  {
    if s == "" || !IsSpace(s[|s| - 1]) {
      after := "";
    } else {
      var rest := RightSplits(s[..|s| - 1]);
      after := rest + [s[|s| - 1]];
    }
  }

  /** Stripping takes white space off both ends, all of it and nothing else. */
  lemma StripSplits(s: string) returns (before: string, after: string)
    ensures s == before + Strip(s) + after
    ensures forall i :: 0 <= i < |before| ==> IsSpace(before[i])
    ensures forall i :: 0 <= i < |after| ==> IsSpace(after[i])
    ensures Strip(s) != "" ==> !IsSpace(Strip(s)[0]) && !IsSpace(Strip(s)[|Strip(s)| - 1])
  {
    before := LeftSplits(s);
    after := RightSplits(StripLeft(s));
  }

  predicate Blank(s: string) { Strip(s) == "" }

  lemma StripAgain(s: string)
    ensures Strip(Strip(s)) == Strip(s)
  {
  }

  function Decimal(n: nat): string {
    if n < 10 then [('0' as int + n) as char] else Decimal(n / 10) + [('0' as int + n % 10) as char]
  }

  predicate IsDigits(s: string) {
    s != "" && forall i :: 0 <= i < |s| ==> '0' <= s[i] <= '9'
  }

  function Numeral(s: string): nat
    requires forall i :: 0 <= i < |s| ==> '0' <= s[i] <= '9'
  {
    if s == "" then 0 else 10 * Numeral(s[..|s| - 1]) + (s[|s| - 1] as int - '0' as int)
  }

  lemma {:induction false} NumeralOfDecimal(n: nat)
    ensures IsDigits(Decimal(n)) && Numeral(Decimal(n)) == n
  {
    if n < 10 {
    } else {
      NumeralOfDecimal(n / 10);
      assert Decimal(n)[..|Decimal(n)| - 1] == Decimal(n / 10);
    }
  }

  lemma {:induction false} LeftPadding(before: string, s: string)
    requires forall i :: 0 <= i < |before| ==> IsSpace(before[i])
    requires s != "" && !IsSpace(s[0])
    ensures StripLeft(before + s) == s
  {
    if before == "" {
      assert before + s == s;
    } else {
      LeftPadding(before[1..], s);
      assert (before + s)[1..] == before[1..] + s;
    }
  }

  lemma {:induction false} RightPadding(s: string, after: string)
    requires forall i :: 0 <= i < |after| ==> IsSpace(after[i])
    requires s != "" && !IsSpace(s[|s| - 1])
    ensures StripRight(s + after) == s
    decreases |after|
  {
    if after == "" {
      assert s + after == s;
    } else {
      var init := after[..|after| - 1];
      RightPadding(s, init);
      assert (s + after)[..|s + after| - 1] == s + init;
    }
  }

  /** Padding with white space is all that stripping removes. */
  lemma StripPadded(before: string, s: string, after: string)
    requires forall i :: 0 <= i < |before| ==> IsSpace(before[i])
    requires forall i :: 0 <= i < |after| ==> IsSpace(after[i])
    requires s != "" && !IsSpace(s[0]) && !IsSpace(s[|s| - 1])
    ensures Strip(before + s + after) == s
  {
    assert before + s + after == before + (s + after);
    LeftPadding(before, s + after);
    RightPadding(s, after);
  }
}
