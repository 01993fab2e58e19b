/** The string operations the portal uses on identifiers and labels, over ASCII whitespace and letters. */
module Text {
  predicate IsSpace(c: char) {
    c == ' ' || '\t' <= c <= '\r' || '\U{001C}' <= c <= '\U{001F}'
  }

  /** The characters a strip removes: whitespace, or one given character. */
  datatype Margin = Blank | Only(c: char) {
    predicate Has(x: char) {
      match this case Blank => IsSpace(x) case Only(c) => x == c
    }
  }

  function MarginLeft(s: string, m: Margin, i: nat): (k: nat)
    requires i <= |s|
    ensures i <= k <= |s| && (k < |s| ==> !m.Has(s[k]))
    ensures i < |s| && !m.Has(s[i]) ==> k == i
    decreases |s| - i
  {
    if i < |s| && m.Has(s[i]) then MarginLeft(s, m, i + 1) else i
  }

  function MarginRight(s: string, m: Margin, lo: nat, j: nat): (k: nat)
    requires lo <= j <= |s|
    ensures lo <= k <= j && (k > lo ==> !m.Has(s[k - 1]))
    ensures j > lo && !m.Has(s[j - 1]) ==> k == j
  {
    if j > lo && m.Has(s[j - 1]) then MarginRight(s, m, lo, j - 1) else j
  }

  /** s.strip(), or s.strip(c). */
  function StripOf(s: string, m: Margin): (r: string)
    ensures |r| <= |s|
    ensures r == "" || (!m.Has(r[0]) && !m.Has(r[|r| - 1]))
  {
    var lo := MarginLeft(s, m, 0);
    s[lo..MarginRight(s, m, lo, |s|)]
  }

  function Strip(s: string): string { StripOf(s, Blank) }

  /** A string with nothing to remove at either end is left alone. */
  lemma StripKeeps(s: string, m: Margin)
    requires s == "" || (!m.Has(s[0]) && !m.Has(s[|s| - 1]))
    ensures StripOf(s, m) == s
  {
  }

  function LowerChar(c: char): char {
    if 'A' <= c <= 'Z' then c - 'A' + 'a' else c
  }

  /** The ASCII characters a strip removes: U+0009 to U+000D, U+001C to U+001F and the space. */
  lemma SpacesExactly(c: char)
    ensures IsSpace(c) <==> c as int in {9, 10, 11, 12, 13, 28, 29, 30, 31, 32}
  {
  }

  lemma {:induction false} LeftIsBlank(s: string, i: nat)
    requires i <= |s|
    ensures forall j :: i <= j < MarginLeft(s, Blank, i) ==> IsSpace(s[j])
    decreases |s| - i
  {
    if i < |s| && IsSpace(s[i]) { LeftIsBlank(s, i + 1); }
  }

  lemma {:induction false} RightIsBlank(s: string, lo: nat, j: nat)
    requires lo <= j <= |s|
    ensures forall k :: MarginRight(s, Blank, lo, j) <= k < j ==> IsSpace(s[k])
  {
    if j > lo && IsSpace(s[j - 1]) { RightIsBlank(s, lo, j - 1); }
  }

  ghost predicate AllSpaces(s: string) {
    forall i :: 0 <= i < |s| ==> IsSpace(s[i])
  }

  lemma InThree(s: string, lo: nat, hi: nat)
    requires lo <= hi <= |s|
    ensures s == s[..lo] + s[lo..hi] + s[hi..]
  {
  }

  lemma StripIsSlice(s: string)
    ensures var lo := MarginLeft(s, Blank, 0); Strip(s) == s[lo..MarginRight(s, Blank, lo, |s|)]
    ensures Strip(s) != "" ==> !IsSpace(Strip(s)[0]) && !IsSpace(Strip(s)[|Strip(s)| - 1])
  {
    hide MarginLeft, MarginRight, IsSpace;
  }

  /** What is left is the string without the spaces before and after it. */
  lemma StripExactly(s: string) returns (before: string, after: string)
    ensures s == before + Strip(s) + after && AllSpaces(before) && AllSpaces(after)
    ensures Strip(s) != "" ==> !IsSpace(Strip(s)[0]) && !IsSpace(Strip(s)[|Strip(s)| - 1])
  {
    var lo := MarginLeft(s, Blank, 0);
    var hi := MarginRight(s, Blank, lo, |s|);
    LeftIsBlank(s, 0);
    RightIsBlank(s, lo, |s|);
    StripIsSlice(s);
    before, after := s[..lo], s[hi..];
    hide Strip, MarginLeft, MarginRight, IsSpace;
    assert AllSpaces(before);
    assert AllSpaces(after) by {
      forall i | 0 <= i < |after| ensures IsSpace(after[i]) { assert after[i] == s[hi + i]; }
    }
    hide AllSpaces;
    InThree(s, lo, hi);
  }

  /** str.lower() on ASCII. */
  function Lower(s: string): (r: string)
    ensures |r| == |s|
    ensures forall i :: 0 <= i < |s| ==> r[i] == LowerChar(s[i])
  {
    seq(|s|, i requires 0 <= i < |s| => LowerChar(s[i]))
  }

  /** Exactly the capitals change, each to the letter 32 further on. */
  lemma LowerExactly(s: string, i: nat)
    requires i < |s|
    ensures Lower(s)[i] as int == if 65 <= s[i] as int <= 90 then s[i] as int + 32 else s[i] as int
  {
  }

  predicate Lacks(s: string, c: char) {
    forall i :: 0 <= i < |s| ==> s[i] != c
  }

  /** The position of the last `c` among the first n characters, or -1. */
  function LastBefore(s: string, c: char, n: nat): (k: int)
    requires n <= |s|
    ensures -1 <= k < n
    ensures k >= 0 ==> s[k] == c
    ensures forall i :: k < i < n ==> s[i] != c
  {
    if n == 0 then -1 else if s[n - 1] == c then n - 1 else LastBefore(s, c, n - 1)
  }

  function LastIndex(s: string, c: char): (k: int)
    ensures -1 <= k < |s|
    ensures k >= 0 ==> s[k] == c
    ensures forall i :: k < i < |s| ==> s[i] != c
  {
    LastBefore(s, c, |s|)
  }

  /** s.split(c). */
  function Split(s: string, c: char): (parts: seq<string>)
    ensures |parts| >= 1
  {
    var k := LastIndex(s, c);
    if k < 0 then [s] else Split(s[..k], c) + [s[k + 1..]]
  }

  lemma LastIndexAt(s: string, a: string, c: char, b: string)
    requires s == a + [c] + b && Lacks(b, c)
    ensures LastIndex(s, c) == |a| && s[..|a|] == a && s[|a| + 1..] == b
  {
    assert s[|a|] == c;
    assert forall i :: |a| < i < |s| ==> s[i] == b[i - |a| - 1];
  }

  lemma LastIndexNone(s: string, c: char)
    requires Lacks(s, c)
    ensures LastIndex(s, c) == -1
  {
  }

  // ---- Decimal numbers ----

  predicate IsDigit(c: char) { '0' <= c <= '9' }

  predicate Digits(s: string) {
    s != "" && forall i :: 0 <= i < |s| ==> IsDigit(s[i])
  }

  function DigitOf(c: char): (d: nat)
    requires IsDigit(c)
    ensures d < 10 && (d == 0 <==> c == '0') && DigitChar(d) == c
  {
    c as int - '0' as int
  }

  function DigitChar(d: nat): (c: char)
    requires d < 10
    ensures IsDigit(c)
  {
    ('0' as int + d) as char
  }

  /** int(s) on ASCII digits. */
  function ParseInt(s: string): nat
    requires forall i :: 0 <= i < |s| ==> IsDigit(s[i])
  {
    if s == "" then 0 else ParseInt(s[..|s| - 1]) * 10 + DigitOf(s[|s| - 1])
  }

  /** str(n). */
  function Show(n: nat): (s: string)
    ensures Digits(s)
    ensures s[0] == '0' ==> n == 0 && s == "0"
  {
    if n < 10 then [DigitChar(n)] else Show(n / 10) + [DigitChar(n % 10)]
  }

  lemma {:induction false} ParseShow(n: nat)
    ensures ParseInt(Show(n)) == n
  {
    var s := Show(n);
    if n >= 10 {
      ParseShow(n / 10);
      assert s[..|s| - 1] == Show(n / 10);
    } else {
      assert s[..0] == "";
    }
  }

  /** A leading zero changes the digits and not the number. */
  lemma {:induction false} LeadingZero(s: string)
    requires Digits(s)
    ensures Digits("0" + s) && ParseInt("0" + s) == ParseInt(s)
  {
    var z := "0" + s;
    assert z[..|z| - 1] == "0" + s[..|s| - 1] && z[|z| - 1] == s[|s| - 1];
    if |s| > 1 {
      LeadingZero(s[..|s| - 1]);
    } else {
      assert s[..0] == "" && "0"[..0] == "" && "0" + s[..0] == "0";
    }
  }

  /** Printing back a number that was read gives its digits again exactly if they have no leading zero. */
  lemma {:induction false} ShowParse(s: string)
    requires Digits(s)
    ensures Show(ParseInt(s)) == s <==> (s[0] != '0' || |s| == 1)
    ensures s[0] != '0' ==> ParseInt(s) > 0
  {
    var init, last := s[..|s| - 1], s[|s| - 1];
    if |s| > 1 {
      ShowParse(init);
      if s[0] != '0' {
        assert ParseInt(s) / 10 == ParseInt(init) && ParseInt(s) % 10 == DigitOf(last);
        assert s == init + [last];
      } else {
        assert Show(ParseInt(s))[0] == '0' ==> |Show(ParseInt(s))| == 1;
      }
    } else {
      assert ParseInt(s[..0]) == 0 && s == [last];
    }
  }
}
