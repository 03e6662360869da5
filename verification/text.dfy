/**
 The string primitives the negotiation script leans on: case folding with
 `lower()` and the substring test `keyword in text`. Case folding is modelled
 for ASCII letters only; Python's full Unicode `str.lower()` is not.
 */
module Text {

  /** True iff `c` is an ASCII capital letter. */
  predicate IsUpper(c: char) {
    'A' <= c <= 'Z'
  }

  /** ASCII case folding of one character. */
  function LowerChar(c: char): (d: char)
    ensures !IsUpper(d)
    ensures IsUpper(c) ==> 'a' <= d <= 'z' && d as int - 'a' as int == c as int - 'A' as int
    ensures !IsUpper(c) ==> d == c
  {
    if IsUpper(c) then (c as int - 'A' as int + 'a' as int) as char else c
  }

  /** Case folding of a whole string, character by character. */
  function Lower(s: string): (r: string)
    ensures |r| == |s|
    ensures forall i :: 0 <= i < |s| ==> r[i] == LowerChar(s[i])
  {
    if |s| == 0 then [] else [LowerChar(s[0])] + Lower(s[1..])
  }

  /** Folding leaves no capital letter behind. */
  lemma LowerHasNoUpper(s: string)
    ensures forall i :: 0 <= i < |Lower(s)| ==> !IsUpper(Lower(s)[i])
  {
  }

  /** Folding twice is folding once. */
  lemma LowerIdempotent(s: string)
    ensures Lower(Lower(s)) == Lower(s)
  {
  }

  /** `sub` sits in `s` starting at index `i`. */
  predicate OccursAt(s: string, sub: string, i: int) {
    0 <= i && i + |sub| <= |s| && s[i..i + |sub|] == sub
  }

  /** Reference meaning of Python's `sub in s`: some index where `sub` starts. */
  ghost predicate Occurs(s: string, sub: string) {
    exists i :: OccursAt(s, sub, i)
  }

  /** An occurrence in `s` is one at the front or one in the tail `s[1..]`. */
  lemma OccursSplit(s: string, sub: string)
    requires |s| > 0
    ensures Occurs(s, sub) <==> OccursAt(s, sub, 0) || Occurs(s[1..], sub)
  {
    if Occurs(s, sub) && !OccursAt(s, sub, 0) {
      var i :| OccursAt(s, sub, i);
      assert s[1..][i - 1..i - 1 + |sub|] == s[i..i + |sub|];
      assert OccursAt(s[1..], sub, i - 1);
    }
    if Occurs(s[1..], sub) {
      var j :| OccursAt(s[1..], sub, j);
      assert s[j + 1..j + 1 + |sub|] == s[1..][j..j + |sub|];
      assert OccursAt(s, sub, j + 1);
    }
  }

  /** The substring test, scanning `s` from the front. */
  function Contains(s: string, sub: string): (b: bool)
    ensures b <==> Occurs(s, sub)
    decreases |s|
  {
    if |sub| <= |s| && s[..|sub|] == sub then
      assert OccursAt(s, sub, 0);
      true
    else if |s| == 0 then
      assert !OccursAt(s, sub, 0);
      assert forall i :: !OccursAt(s, sub, i);
      false
    else
      OccursSplit(s, sub);
      Contains(s[1..], sub)
  }

  /** `keyword in text.lower()`, the test every rule of the script uses. */
  predicate Mentions(text: string, keyword: string): (b: bool)
    ensures b <==> Occurs(Lower(text), keyword)
  {
    Contains(Lower(text), keyword)
  }

  /** A keyword that sits in the text at a given place, in any case, is mentioned. */
  lemma MentionsAt(text: string, keyword: string, i: nat)
    requires i + |keyword| <= |text|
    requires forall j :: 0 <= j < |keyword| ==> LowerChar(text[i + j]) == keyword[j]
    ensures Mentions(text, keyword)
  {
    var low := Lower(text);
    assert low[i..i + |keyword|] == keyword;
    assert OccursAt(low, keyword, i);
  }

  /**
   A keyword with a character that is not a lower-case letter is not
   mentioned by a text lacking that character.
   */
  lemma NotMentionedWithout(text: string, keyword: string, k: nat)
    requires k < |keyword|
    requires !('a' <= keyword[k] <= 'z') && keyword[k] !in text
    ensures !Mentions(text, keyword)
  {
  }

  /** Matching is insensitive to case: folding the text first changes nothing. */
  lemma MentionsIgnoresCase(text: string, keyword: string)
    ensures Mentions(Lower(text), keyword) == Mentions(text, keyword)
  {
  }
}
