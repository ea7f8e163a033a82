/** Strings as the programs clean them up: trimmed of whitespace and lowercased, ASCII letters only. */
module Text {

  predicate IsSpace(c: char) {
    var n := c as int;
    9 <= n <= 13 || 28 <= n <= 32 || n == 0x85 || n == 0xA0
  }

  function Lower(s: string): (r: string)
    ensures |r| == |s|
  {
    seq(|s|, i requires 0 <= i < |s| => LowerChar(s[i]))
  }

  function LowerChar(c: char): (r: char)
    ensures IsSpace(r) <==> IsSpace(c)
    ensures AsciiLower(r) == r
    ensures (r == '@' <==> c == '@') && (r == '+' <==> c == '+')
  {
    AsciiLower(c)
  }

  function AsciiLower(c: char): char {
    if 'A' <= c <= 'Z' then (c as int + 32) as char else c
  }

  function Strip(s: string): (r: string)
    ensures |r| <= |s|
    ensures r != "" ==> !IsSpace(r[0]) && !IsSpace(r[|r| - 1])
    decreases |s|
  {
    if s == "" then ""
    else if IsSpace(s[0]) then Strip(s[1..])
    else if IsSpace(s[|s| - 1]) then Strip(s[..|s| - 1])
    else s
  }

  predicate Trimmed(s: string) {
    s != "" ==> !IsSpace(s[0]) && !IsSpace(s[|s| - 1])
  }

  lemma {:induction false} StripTrimmed(s: string)
    requires Trimmed(s)
    ensures Strip(s) == s
  {
  }

  lemma {:induction false} StripShortens(s: string)
    requires !Trimmed(s)
    ensures |Strip(s)| < |s|
  {
  }

  predicate Lowered(s: string) {
    forall i :: 0 <= i < |s| ==> LowerChar(s[i]) == s[i]
  }

  lemma LowerFixes(s: string)
    requires Lowered(s)
    ensures Lower(s) == s
  {
  }

  lemma {:induction false} LowerOfStrip(email: string)
    ensures Lowered(Lower(Strip(email))) && Trimmed(Lower(Strip(email)))
  {
  }

  ghost predicate AllSpace(s: string) { forall c :: c in s ==> IsSpace(c) }

  lemma {:induction false} BackStripped(s: string, back: string)
    requires Trimmed(s) && s != "" && AllSpace(back)
    ensures Strip(s + back) == s
    decreases |back|
  {
    if back == "" {
      assert s + back == s;
      StripTrimmed(s);
    } else {
      assert (s + back)[..|s + back| - 1] == s + back[..|back| - 1];
      BackStripped(s, back[..|back| - 1]);
    }
  }

  /** Trimming takes exactly the whitespace around a text. */
  lemma {:induction false} StripTakesTheEnds(front: string, s: string, back: string)
    requires AllSpace(front) && AllSpace(back) && Trimmed(s) && s != ""
    ensures Strip(front + s + back) == s
    decreases |front|
  {
    if front == "" {
      assert front + s + back == s + back;
      BackStripped(s, back);
    } else {
      assert (front + s + back)[1..] == front[1..] + s + back;
      StripTakesTheEnds(front[1..], s, back);
    }
  }

  lemma {:induction false} SpaceStripsToNothing(s: string)
    requires AllSpace(s)
    ensures Strip(s) == ""
  {
    if s != "" {
      assert s[0] in s;
      SpaceStripsToNothing(s[1..]);
    }
  }

  /** Whitespace, up to the no-break space. */
  lemma WhitespaceIs(c: char)
    ensures IsSpace(c) <==>
      c in {'\t', '\n', '\U{000B}', '\U{000C}', '\r', '\U{001C}', '\U{001D}', '\U{001E}', '\U{001F}', ' ', '\U{0085}',
            '\U{00A0}'}
  {
  }

  const CAPITALS := "ABCDEFGHIJKLMNOPQRSTUVWXYZ"

  const SMALLS := "abcdefghijklmnopqrstuvwxyz"

  /** Lowercasing takes each capital letter to the small one in its place, and nothing else anywhere. */
  lemma LowerIs(s: string, i: nat)
    requires i < |s|
    ensures forall k :: 0 <= k < 26 && s[i] == CAPITALS[k] ==> Lower(s)[i] == SMALLS[k]
    ensures s[i] !in CAPITALS ==> Lower(s)[i] == s[i]
  {
    LetterIs(s[i]);
  }

  lemma LettersAre(k: nat)
    requires k < 26
    ensures CAPITALS[k] as int == 'A' as int + k && SMALLS[k] as int == 'a' as int + k
  {
  }

  lemma LetterIs(c: char)
    ensures forall k :: 0 <= k < 26 && c == CAPITALS[k] ==> LowerChar(c) == SMALLS[k]
    ensures c !in CAPITALS ==> LowerChar(c) == c
  {
    forall k | 0 <= k < 26 && c == CAPITALS[k] ensures LowerChar(c) == SMALLS[k] { LettersAre(k); }
    if 'A' <= c <= 'Z' {
      var k := c as int - 'A' as int;
      LettersAre(k);
      assert CAPITALS[k] == c;
    }
  }
}
