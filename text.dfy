/** The two string operations every search in the marketplace is built
    from: `toLowerCase` (restricted to ASCII letters) and `includes`. */
module Text {

  /** `c.toLowerCase()` for one character: only `A`..`Z` change. */
  function LowerChar(c: char): (d: char)
    ensures 'A' <= c <= 'Z' ==> 'a' <= d <= 'z' && d as int - c as int == 32
    ensures !('A' <= c <= 'Z') ==> d == c
  {
    if 'A' <= c <= 'Z' then (c as int + 32) as char else c
  }

  /** `s.toLowerCase()`, character by character. */
  function Lower(s: string): (t: string)
    ensures |t| == |s|
    ensures forall k :: 0 <= k < |s| ==> t[k] == LowerChar(s[k])
  {
    seq(|s|, k requires 0 <= k < |s| => LowerChar(s[k]))
  }

  /** `hay.startsWith(needle)`. */
  predicate IsPrefix(needle: string, hay: string) {
    |needle| <= |hay| && hay[..|needle|] == needle
  }

  /** `hay.includes(needle)`: `needle` occurs at some position of `hay`. */
  predicate Contains(hay: string, needle: string)
    decreases |hay|
  {
    IsPrefix(needle, hay) || (hay != [] && Contains(hay[1..], needle))
  }

  /** `Contains` agrees with the positional definition of a substring. */
  lemma {:induction false} ContainsAt(hay: string, needle: string)
    ensures Contains(hay, needle) <==> exists i :: 0 <= i <= |hay| && IsPrefix(needle, hay[i..])
  {
    if hay == [] {
      if IsPrefix(needle, hay[0..]) {
        assert hay[0..] == hay;
      }
    } else {
      ContainsAt(hay[1..], needle);
      if IsPrefix(needle, hay) {
        assert hay[0..] == hay;
      }
      if Contains(hay, needle) && !IsPrefix(needle, hay) {
        var i :| 0 <= i <= |hay[1..]| && IsPrefix(needle, hay[1..][i..]);
        assert hay[1..][i..] == hay[i + 1..];
      }
      if exists i :: 0 <= i <= |hay| && IsPrefix(needle, hay[i..]) {
        var i :| 0 <= i <= |hay| && IsPrefix(needle, hay[i..]);
        if i == 0 {
          assert hay[i..] == hay;
        } else {
          assert hay[1..][i - 1..] == hay[i..];
        }
      }
    }
  }

  /** The empty string is found in every string, so an empty query matches. */
  lemma ContainsEmpty(hay: string)
    ensures Contains(hay, "")
  {
  }
}
