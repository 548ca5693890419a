/** The string operations the search and the history filter use:
    `toLowerCase`, `startsWith` and `includes`. */
module Text {

  /** `toLowerCase` on one character; only the ASCII letters A-Z are folded. */
  function LowerChar(c: char): (d: char)
    ensures !('A' <= d <= 'Z')
    ensures if 'A' <= c <= 'Z' then d as int == c as int + 32 else d == c
  {
    if 'A' <= c <= 'Z' then (c as int + ('a' as int - 'A' as int)) as char else c
  }

  /** `toLowerCase` on a string: each A-Z becomes its a-z, every other character stays. */
  function Lower(s: string): (r: string)
    ensures |r| == |s|
    ensures forall i :: 0 <= i < |s| ==> !('A' <= r[i] <= 'Z')
    ensures forall i :: 0 <= i < |s| ==> if 'A' <= s[i] <= 'Z' then r[i] as int == s[i] as int + 32 else r[i] == s[i]
  {
    seq(|s|, i requires 0 <= i < |s| => LowerChar(s[i]))
  }

  /** Two characters that are equal, or the upper- and lower-case forms of one ASCII letter. */
  predicate CaseVariant(c: char, d: char) {
    || c == d
    || ('A' <= c <= 'Z' && d as int == c as int + 32)
    || ('A' <= d <= 'Z' && c as int == d as int + 32)
  }

  /** Strings that differ only in the case of ASCII letters lower-case alike. */
  lemma LowerIgnoresCase(a: string, b: string)
    requires |a| == |b|
    requires forall i :: 0 <= i < |a| ==> CaseVariant(a[i], b[i])
    ensures Lower(a) == Lower(b)
  {
  }

  /** `s.startsWith(prefix)`: the first characters of `s` are those of `prefix`. */
  function StartsWith(s: string, prefix: string): (b: bool)
    ensures b <==> |prefix| <= |s| && forall i :: 0 <= i < |prefix| ==> s[i] == prefix[i]
  {
    |prefix| <= |s| && s[..|prefix|] == prefix
  }

  /** `hay.includes(needle)`, by trying each start position in turn. The empty
      needle is in every text, and a needle is never found in a shorter text. */
  function Contains(hay: string, needle: string): (b: bool)
    ensures needle == [] ==> b
    ensures b ==> |needle| <= |hay|
    decreases |hay|
  {
    StartsWith(hay, needle) || (hay != [] && Contains(hay[1..], needle))
  }

  /** The window of `hay` starting at `i` exists and spells `needle`. */
  predicate OccursAt(hay: string, needle: string, i: int) {
    0 <= i && i + |needle| <= |hay| && hay[i..i + |needle|] == needle
  }

  /** `Contains` agrees with the reference definition: some window of `hay` equals `needle`. */
  lemma {:induction false} ContainsAt(hay: string, needle: string)
    ensures Contains(hay, needle) <==> exists i :: OccursAt(hay, needle, i)
  {
    var n := |needle|;
    if StartsWith(hay, needle) {
      assert OccursAt(hay, needle, 0);
    } else {
      forall i | OccursAt(hay, needle, i)
        ensures 0 < i && OccursAt(hay[1..], needle, i - 1)
      {
        assert hay[1..][i - 1..i - 1 + n] == hay[i..i + n];
      }
      if hay != [] {
        ContainsAt(hay[1..], needle);
        if Contains(hay[1..], needle) {
          var j :| OccursAt(hay[1..], needle, j);
          assert hay[j + 1..j + 1 + n] == hay[1..][j..j + n];
          assert OccursAt(hay, needle, j + 1);
        }
      }
    }
  }
}
