/** Character-level helpers: ASCII case folding, substring search and the
    whitespace test behind JavaScript's `String.prototype.trim`. */
module Text {

  /** ASCII lower-casing of one character; every other character is left alone. */
  function LowerChar(c: char): char {
    if 'A' <= c <= 'Z' then (c as int + 32) as char else c
  }

  /** `String.prototype.toLowerCase` restricted to ASCII letters. */
  function Lower(s: string): string {
    seq(|s|, i requires 0 <= i < |s| => LowerChar(s[i]))
  }

  /** Lower-casing works character by character, so it distributes over concatenation. */
  lemma LowerConcat(a: string, b: string)
    ensures Lower(a + b) == Lower(a) + Lower(b)
  {
    assert forall i | 0 <= i < |a + b| :: Lower(a + b)[i] == (Lower(a) + Lower(b))[i];
  }

  /** Lower-casing twice is lower-casing once: a folded name or pattern has no
      ASCII capital left. */
  lemma LowerIdempotent(s: string)
    ensures Lower(Lower(s)) == Lower(s)
    ensures forall i | 0 <= i < |s| :: !('A' <= Lower(s)[i] <= 'Z')
  {
  }

  predicate OccursAt(t: string, s: string, i: nat) {
    i + |t| <= |s| && s[i..i + |t|] == t
  }

  /** `t` occurs in `s` at some position. */
  predicate IsSubstring(t: string, s: string) {
    exists i: nat | i <= |s| :: OccursAt(t, s, i)
  }

  /** The listing's name filter: a case-insensitive `$regex` whose pattern is taken
      as literal text, i.e. an ASCII case-insensitive substring test. */
  predicate ContainsIgnoreCase(haystack: string, needle: string) {
    IsSubstring(Lower(needle), Lower(haystack))
  }

  lemma LowerSlice(s: string, i: nat, j: nat)
    requires i <= j <= |s|
    ensures Lower(s)[i..j] == Lower(s[i..j])
  {
  }

  /** A literal occurrence of the search text, in any letter case, is a match. */
  lemma {:induction false} OccurrenceMatches(haystack: string, needle: string, i: nat)
    requires i + |needle| <= |haystack|
    requires Lower(haystack[i..i + |needle|]) == Lower(needle)
    ensures ContainsIgnoreCase(haystack, needle)
  {
    LowerSlice(haystack, i, i + |needle|);
    assert OccursAt(Lower(needle), Lower(haystack), i);
  }

  /** Characters removed by JavaScript's `trim`: WhiteSpace and LineTerminator
      code points of ECMAScript. */
  predicate IsTrimmable(c: char) {
    var n := c as int;
    (9 <= n <= 13) || n == 0x20 || n == 0xA0 || n == 0x1680 ||
    (0x2000 <= n <= 0x200A) || n == 0x2028 || n == 0x2029 ||
    n == 0x202F || n == 0x205F || n == 0x3000 || n == 0xFEFF
  }

  /** `s.trim() === ""`: every character is trimmable. */
  predicate IsBlank(s: string) {
    forall i | 0 <= i < |s| :: IsTrimmable(s[i])
  }
}
