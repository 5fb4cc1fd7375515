/** The string operations the gateway normalises hosts and header names with, on ASCII text. */
module Text {

  function LowerChar(c: char): char {
    if 'A' <= c <= 'Z' then (c as int + 32) as char else c
  }

  function Lower(s: string): (l: string)
    ensures |l| == |s| && forall i :: 0 <= i < |s| ==> l[i] == LowerChar(s[i])
  {
    seq(|s|, i requires 0 <= i < |s| => LowerChar(s[i]))
  }

  /** The ASCII characters `str.strip` removes. */
  predicate Space(c: char) {
    c == ' ' || 9 as char <= c <= 13 as char || 28 as char <= c <= 31 as char
  }

  function StripLeft(s: string): string {
    if s != [] && Space(s[0]) then StripLeft(s[1..]) else s
  }

  function StripRight(s: string): string {
    if s != [] && Space(s[|s| - 1]) then StripRight(s[..|s| - 1]) else s
  }

  function Strip(s: string): string {
    StripRight(StripLeft(s))
  }

  /** Neither end is a space. */
  predicate Trimmed(s: string) {
    s == [] || (!Space(s[0]) && !Space(s[|s| - 1]))
  }

  function Count(s: string, c: char): nat {
    if s == [] then 0 else (if s[0] == c then 1 else 0) + Count(s[1..], c)
  }

  /** The text before the first occurrence of a character, or all of it. */
  function Before(s: string, c: char): string {
    if s == [] || s[0] == c then [] else [s[0]] + Before(s[1..], c)
  }

  /** The text spells a lower-case word, in any mix of cases. */
  ghost predicate Spells(s: string, word: string) {
    |s| == |word| &&
    forall i :: 0 <= i < |s| ==> s[i] == word[i] || ('A' <= s[i] <= 'Z' && word[i] as int == s[i] as int + 32)
  }

  ghost predicate LowerCase(s: string) {
    forall i :: 0 <= i < |s| ==> !('A' <= s[i] <= 'Z')
  }

  /** Nothing but blanks, tabs, line ends and separators. */
  ghost predicate Blank(s: string) {
    forall i :: 0 <= i < |s| ==> BlankChar(s[i])
  }

  ghost predicate BlankChar(c: char) {
    c == ' ' || c == '\t' || c == '\n' || c == '\r' || c as int in {11, 12, 28, 29, 30, 31}
  }

  /** It neither begins nor ends with a blank. */
  ghost predicate Solid(s: string) {
    s != [] && !BlankChar(s[0]) && !BlankChar(s[|s| - 1])
  }

  /** Lower-casing brings any spelling of a lower-case word to that word, and no other text. */
  lemma SpellingsAreLowered(s: string, word: string)
    requires LowerCase(word)
    ensures Lower(s) == word <==> Spells(s, word)
  {
  }

  lemma LoweredIsLowerCase(s: string)
    ensures LowerCase(Lower(s)) && Spells(s, Lower(s))
  {
  }

  lemma {:induction false} StripLeftPad(pad: string, s: string)
    requires Blank(pad) && (s == [] || !BlankChar(s[0]))
    ensures StripLeft(pad + s) == s
  {
    if pad == [] {
      assert pad + s == s;
    } else {
      StripLeftPad(pad[1..], s);
      assert (pad + s)[1..] == pad[1..] + s;
    }
  }

  lemma {:induction false} StripRightPad(s: string, pad: string)
    requires Blank(pad) && (s == [] || !BlankChar(s[|s| - 1]))
    ensures StripRight(s + pad) == s
  {
    if pad == [] {
      assert s + pad == s;
    } else {
      StripRightPad(s, pad[..|pad| - 1]);
      assert (s + pad)[..|s + pad| - 1] == s + pad[..|pad| - 1];
    }
  }

  /** Stripping takes the blanks around a text away and nothing of the text. */
  lemma StripPads(before: string, s: string, after: string)
    requires Blank(before) && Blank(after) && Solid(s)
    ensures Strip(before + s + after) == s
  {
    assert before + s + after == before + (s + after) && (s + after)[0] == s[0];
    StripLeftPad(before, s + after);
    StripRightPad(s, after);
  }

  lemma {:induction false} StripLeftSplits(s: string) returns (before: string)
    ensures s == before + StripLeft(s) && Blank(before) && (StripLeft(s) == [] || !BlankChar(StripLeft(s)[0]))
  {
    before := [];
    if s != [] && Space(s[0]) {
      var more := StripLeftSplits(s[1..]);
      before := [s[0]] + more;
    }
  }

  lemma {:induction false} StripRightSplits(s: string) returns (after: string)
    ensures s == StripRight(s) + after && Blank(after) && (StripRight(s) == [] || !BlankChar(StripRight(s)[|StripRight(s)| - 1]))
  {
    after := [];
    if s != [] && Space(s[|s| - 1]) {
      var more := StripRightSplits(s[..|s| - 1]);
      after := more + [s[|s| - 1]];
    }
  }

  /** What stripping leaves neither begins nor ends with a blank, and all it takes away are blanks. */
  lemma {:induction false} StripSplits(s: string) returns (before: string, after: string)
    ensures s == before + Strip(s) + after && Blank(before) && Blank(after) && (Strip(s) == [] || Solid(Strip(s)))
  {
    before := StripLeftSplits(s);
    after := StripRightSplits(StripLeft(s));
  }

  lemma {:induction false} NotIn(s: string, c: char)
    requires c !in s
    ensures Count(s, c) == 0
  {
    if s != [] {
      assert forall x :: x in s[1..] ==> x in s;
      NotIn(s[1..], c);
    }
  }

  lemma LowerTwice(s: string)
    ensures Lower(Lower(s)) == Lower(s)
  {
  }

  lemma {:induction false} LowerStripLeft(s: string)
    ensures StripLeft(Lower(s)) == Lower(StripLeft(s))
  {
    if s != [] && Space(s[0]) {
      LowerStripLeft(s[1..]);
      assert Lower(s)[1..] == Lower(s[1..]);
    }
  }

  lemma {:induction false} LowerStripRight(s: string)
    ensures StripRight(Lower(s)) == Lower(StripRight(s))
  {
    if s != [] && Space(s[|s| - 1]) {
      LowerStripRight(s[..|s| - 1]);
      assert Lower(s)[..|s| - 1] == Lower(s[..|s| - 1]);
    }
  }

  /** Stripping and lower-casing commute. */
  lemma LowerStrip(s: string)
    ensures Strip(Lower(s)) == Lower(Strip(s))
  {
    LowerStripLeft(s);
    LowerStripRight(StripLeft(s));
  }

  lemma {:induction false} StripRightTrims(s: string)
    requires s == [] || !Space(s[0])
    ensures Trimmed(StripRight(s))
    ensures StripRight(s) <= s
  {
    if s != [] && Space(s[|s| - 1]) {
      StripRightTrims(s[..|s| - 1]);
    }
  }

  lemma {:induction false} StripLeftTrims(s: string)
    ensures StripLeft(s) == [] || !Space(StripLeft(s)[0])
  {
    if s != [] && Space(s[0]) {
      StripLeftTrims(s[1..]);
    }
  }

  lemma StripTrims(s: string)
    ensures Trimmed(Strip(s))
    ensures Trimmed(s) ==> Strip(s) == s
  {
    StripLeftTrims(s);
    StripRightTrims(StripLeft(s));
  }

  lemma {:induction false} CountConcat(a: string, b: string, c: char)
    ensures Count(a + b, c) == Count(a, c) + Count(b, c)
  {
    if a == [] {
      assert a + b == b;
    } else {
      CountConcat(a[1..], b, c);
      assert (a + b)[1..] == a[1..] + b;
    }
  }

  lemma {:induction false} NoneBefore(s: string, c: char)
    ensures Count(Before(s, c), c) == 0
  {
    if s != [] && s[0] != c {
      NoneBefore(s[1..], c);
    }
  }

  lemma {:induction false} BeforeSuffix(s: string, c: char, rest: string)
    requires Count(s, c) == 0
    ensures Before(s + [c] + rest, c) == s
  {
    if s != [] {
      BeforeSuffix(s[1..], c, rest);
      assert (s + [c] + rest)[1..] == s[1..] + [c] + rest;
    }
  }
}
