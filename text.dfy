/** Lower-casing and substring search on strings, as the relevance filter uses them. */
module Text {

  /** `str.lower()` on one character; only ASCII letters are folded. */
  function LowerChar(c: char): char {
    if 'A' <= c <= 'Z' then (c as int + 32) as char else c
  }

  /** `str.lower()`: each upper-case ASCII letter becomes its lower-case
      letter, and every other character is kept in place. */
  function Lower(s: string): (r: string)
    ensures |r| == |s|
    ensures forall i :: 0 <= i < |r| ==> !('A' <= r[i] <= 'Z')
    ensures forall i :: 0 <= i < |s| && 'A' <= s[i] <= 'Z' ==> r[i] as int == s[i] as int + 32
    ensures forall i :: 0 <= i < |s| && !('A' <= s[i] <= 'Z') ==> r[i] == s[i]
  {
    seq(|s|, i requires 0 <= i < |s| => LowerChar(s[i]))
  }

  /** `sub` occurs in `s` starting at index `i`. */
  ghost predicate OccursAt(sub: string, s: string, i: int) {
    0 <= i && i + |sub| <= |s| && s[i..i + |sub|] == sub
  }

  /** Python's `sub in s` on strings: a contiguous occurrence somewhere. */
  ghost predicate Occurs(sub: string, s: string) {
    exists i :: OccursAt(sub, s, i)
  }

  /** Substring test by scanning the start positions of `s` from the left. */
  function IsSubstring(sub: string, s: string): (r: bool)
    ensures r <==> Occurs(sub, s)
    decreases |s|
  {
    if sub <= s then
      assert OccursAt(sub, s, 0);
      true
    else if s == [] then
      false
    else
      var r := IsSubstring(sub, s[1..]);
      if r then
        assert Occurs(sub, s) by {
          var i :| OccursAt(sub, s[1..], i);
          assert OccursAt(sub, s, i + 1);
        }
        true
      else
        assert forall i :: OccursAt(sub, s, i) ==> i > 0 && OccursAt(sub, s[1..], i - 1);
        false
  }

  /** Some term of `terms` occurs in `text`. */
  ghost predicate MentionsAny(terms: seq<string>, text: string) {
    exists k :: 0 <= k < |terms| && Occurs(terms[k], text)
  }

  /** Python's `any(t in text for t in terms)`. */
  function AnyTermIn(terms: seq<string>, text: string): (r: bool)
    ensures r <==> MentionsAny(terms, text)
  {
    if terms == [] then
      false
    else if IsSubstring(terms[0], text) then
      true
    else
      var r := AnyTermIn(terms[1..], text);
      assert forall k :: 1 <= k < |terms| ==> terms[k] == terms[1..][k - 1];
      r
  }

  /** Every character of a substring appears in the string it occurs in. */
  lemma OccurrenceHasEveryChar(sub: string, s: string, c: char)
    requires Occurs(sub, s) && c in sub
    ensures c in s
  {
    var i :| OccursAt(sub, s, i);
    var j :| 0 <= j < |sub| && sub[j] == c;
    assert s[i + j] == s[i..i + |sub|][j];
  }
}
