/** Java's String.trim, which the client applies to every line it reads and
    the game service applies to a new game's name: it strips every leading
    and trailing character whose code is at most U+0020 (space and the
    control characters), and nothing else. */
module JavaText {

  /** A character String.trim strips. */
  predicate Blank(c: char) {
    c <= ' '
  }

  /** The first index at or after i that holds a character trim keeps, or
      |s| when there is none. */
  function FirstKept(s: string, i: nat): (r: nat)
    requires i <= |s|
    ensures i <= r <= |s|
    ensures forall k | i <= k < r :: Blank(s[k])
    ensures r < |s| ==> !Blank(s[r])
    decreases |s| - i
  {
    if i == |s| || !Blank(s[i]) then i else FirstKept(s, i + 1)
  }

  /** One past the last index before j that holds a character trim keeps,
      or 0 when there is none. */
  function EndKept(s: string, j: nat): (r: nat)
    requires j <= |s|
    ensures r <= j
    ensures forall k | r <= k < j :: Blank(s[k])
    ensures r > 0 ==> !Blank(s[r - 1])
  {
    if j == 0 || !Blank(s[j - 1]) then j else EndKept(s, j - 1)
  }

  /** r is the slice of s starting at i, and everything in s before or
      after that slice is blank. */
  predicate BlankMargins(s: string, r: string, i: int) {
    && 0 <= i <= i + |r| <= |s|
    && r == s[i..i + |r|]
    && (forall k | 0 <= k < i :: Blank(s[k]))
    && (forall k | i + |r| <= k < |s| :: Blank(s[k]))
  }

  /** String.trim: a slice of s that neither starts nor ends with a blank
      character, everything cut off on either side being blank. */
  function Trim(s: string): (r: string)
    ensures BlankMargins(s, r, FirstKept(s, 0))
    ensures r == [] || (!Blank(r[0]) && !Blank(r[|r| - 1]))
  {
    var i, j := FirstKept(s, 0), EndKept(s, |s|);
    if i < j then s[i..j]
    else
      assert i == |s|;
      []
  }

  /** Trimming a trimmed string changes nothing. */
  lemma TrimIdempotent(s: string)
    ensures Trim(Trim(s)) == Trim(s)
  {
    var r := Trim(s);
    if r != [] {
      assert FirstKept(r, 0) == 0;
      assert EndKept(r, |r|) == |r|;
    }
  }

  /** A string trims to nothing exactly when all its characters are blank:
      the name "    " is blank, the name " a " is not. */
  lemma TrimEmptyIffBlank(s: string)
    ensures Trim(s) == [] <==> forall k | 0 <= k < |s| :: Blank(s[k])
  {
    if Trim(s) != [] {
      assert s[FirstKept(s, 0)] == Trim(s)[0];
    }
  }
}
