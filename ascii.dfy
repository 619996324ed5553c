/** The PAC script must be pure ASCII; before it is applied every code
    point above 0x7F is removed (background.js:627-632). */
module Ascii {

  predicate IsAsciiChar(c: char) {
    c as int <= 0x7F
  }

  predicate IsAscii(s: string) {
    forall i :: 0 <= i < |s| ==> IsAsciiChar(s[i])
  }

  /** `s.replace(/[^\x00-\x7F]/g, "")`. */
  function StripNonAscii(s: string): (r: string)
    ensures IsAscii(r)
    ensures |r| <= |s|
    ensures IsAscii(s) ==> r == s
  {
    if s == [] then []
    else (if IsAsciiChar(s[0]) then [s[0]] else []) + StripNonAscii(s[1..])
  }

  /** Stripping works character by character, so stripping a concatenation
      strips each part: removing non-ASCII characters from the assembled
      script is the same as removing them from every piece of text spliced
      into it (the template text itself is ASCII). */
  lemma {:induction false} StripDistributes(a: string, b: string)
    ensures StripNonAscii(a + b) == StripNonAscii(a) + StripNonAscii(b)
  {
    if a != [] {
      assert (a + b)[1..] == a[1..] + b;
      StripDistributes(a[1..], b);
    } else {
      assert a + b == b;
    }
  }

  /** Stripping twice is stripping once. */
  lemma StripIdempotent(s: string)
    ensures StripNonAscii(StripNonAscii(s)) == StripNonAscii(s)
  {
  }

  /** A character survives exactly when it is ASCII. */
  lemma StripKeepsExactlyAscii(c: char)
    ensures StripNonAscii([c]) == if IsAsciiChar(c) then [c] else []
  {
    assert [c][1..] == [];
  }
}
