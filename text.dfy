/** Whitespace and trimming, as Python's `str.isspace` and `str.strip()`
    (with no argument) define them. Strings are sequences of characters. */
module Text {

  /** The characters Python's `str.isspace` accepts: the ASCII controls
      tab, line feed, vertical tab, form feed and carriage return, the four
      ASCII separators 0x1C-0x1F, space, and the Unicode space and
      line/paragraph separators. */
  const Whitespace: string :=
    "\t\n\U{0B}\U{0C}\r\U{1C}\U{1D}\U{1E}\U{1F} \U{85}\U{A0}\U{1680}"
    + "\U{2000}\U{2001}\U{2002}\U{2003}\U{2004}\U{2005}\U{2006}\U{2007}"
    + "\U{2008}\U{2009}\U{200A}\U{2028}\U{2029}\U{202F}\U{205F}\U{3000}"

  /** `c` occurs in `table`. */
  predicate Listed(c: char, table: string)
  {
    table != [] && (c == table[0] || Listed(c, table[1..]))
  }

  /** `Listed` is membership in the table. */
  lemma {:induction false} ListedIsMembership(c: char, table: string)
    ensures Listed(c, table) <==> c in table
  {
    if table != [] {
      ListedIsMembership(c, table[1..]);
      assert table == [table[0]] + table[1..];
    }
  }

  /** `c.isspace()` for a single character: `c` is one of the characters
      of `Whitespace` (`ListedIsMembership`). */
  predicate IsSpace(c: char)
  {
    Listed(c, Whitespace)
  }

  /** Every character of `s` is whitespace. */
  predicate AllSpace(s: string)
  {
    forall i :: 0 <= i < |s| ==> IsSpace(s[i])
  }

  /** `s` neither begins nor ends with whitespace. */
  predicate Trimmed(s: string)
  {
    s == [] || (!IsSpace(s[0]) && !IsSpace(s[|s| - 1]))
  }

  /** The number of whitespace characters `s` begins with: the index of
      its first non-space character, or `|s|` when it has none. */
  function LeadingSpace(s: string): (n: nat)
    ensures n <= |s| && AllSpace(s[..n])
    ensures n == |s| || !IsSpace(s[n])
  {
    if s == [] || !IsSpace(s[0]) then 0
    else
      var n := 1 + LeadingSpace(s[1..]);
      assert s[..n] == [s[0]] + s[1..][..n - 1];
      n
  }

  /** The length `s` has once its trailing whitespace is cut off: the
      index just past its last non-space character, or 0 when it has none. */
  function TrailingCut(s: string): (n: nat)
    ensures n <= |s| && AllSpace(s[n..])
    ensures n == 0 || !IsSpace(s[n - 1])
  {
    if s == [] || !IsSpace(s[|s| - 1]) then |s|
    else
      var n := TrailingCut(s[..|s| - 1]);
      assert s[n..] == s[..|s| - 1][n..] + [s[|s| - 1]];
      n
  }

  /** Python's `s.strip()`: scan past the leading whitespace, then cut the
      trailing whitespace off the rest. The result has no whitespace at
      either end; `StripIsSlice` says where it sits in `s`. */
  function Strip(s: string): (r: string)
    ensures |r| <= |s| && Trimmed(r)
  {
    var t := s[LeadingSpace(s)..];
    t[..TrailingCut(t)]
  }

  /** The stripped form is the slice of `s` that starts at its first
      non-space character, and everything after it is whitespace. */
  lemma StripIsSlice(s: string)
    ensures var i, r := LeadingSpace(s), Strip(s);
            i + |r| <= |s| && r == s[i..i + |r|] && AllSpace(s[i + |r|..])
  {
    var i := LeadingSpace(s);
    var t := s[i..];
    var j := TrailingCut(t);
    assert Strip(s) == t[..j] == s[i..i + j];
    assert s[i + j..] == t[j..];
  }

  /** A line is blank exactly when it strips to the empty string. */
  lemma StripEmptyIffAllSpace(s: string)
    ensures Strip(s) == [] <==> AllSpace(s)
  {
    var i := LeadingSpace(s);
    StripIsSlice(s);
    if Strip(s) == [] {
      assert i == |s|;
      assert s[..i] == s;
    } else {
      assert s[i] == Strip(s)[0];
    }
  }

  /** At most one position starts a non-space character after a run of
      whitespace from the beginning of `s`. */
  lemma FirstNonSpaceUnique(s: string, a: nat, b: nat)
    requires a < |s| && b < |s|
    requires AllSpace(s[..a]) && !IsSpace(s[a])
    requires AllSpace(s[..b]) && !IsSpace(s[b])
    ensures a == b
  {
  }

  /** At most one position ends a non-space character before a run of
      whitespace up to the end of `s`. */
  lemma LastNonSpaceUnique(s: string, a: nat, b: nat)
    requires 0 < a <= |s| && 0 < b <= |s|
    requires AllSpace(s[a..]) && !IsSpace(s[a - 1])
    requires AllSpace(s[b..]) && !IsSpace(s[b - 1])
    ensures a == b
  {
  }

  /** The stripped form is determined by its characterisation: any slice
      of `s` that is trimmed and has only whitespace around it is `Strip(s)`. */
  lemma StripUnique(s: string, i: nat, j: nat)
    requires i <= j <= |s|
    requires AllSpace(s[..i]) && AllSpace(s[j..]) && Trimmed(s[i..j])
    ensures Strip(s) == s[i..j]
  {
    var r := Strip(s);
    var i' := LeadingSpace(s);
    StripIsSlice(s);
    StripEmptyIffAllSpace(s);
    if i == j {
      forall k | 0 <= k < |s| ensures IsSpace(s[k]) {
        if k < i { assert s[k] == s[..i][k]; } else { assert s[k] == s[j..][k - j]; }
      }
    } else {
      assert s[i..j][0] == s[i] && s[i..j][j - i - 1] == s[j - 1];
      if r == [] {
        assert false;
      }
      assert r[0] == s[i'] && r[|r| - 1] == s[i' + |r| - 1];
      FirstNonSpaceUnique(s, i, i');
      LastNonSpaceUnique(s, j, i' + |r|);
    }
  }

  /** Stripping twice is stripping once. */
  lemma StripIdempotent(s: string)
    ensures Strip(Strip(s)) == Strip(s)
  {
    var r := Strip(s);
    assert r[0..|r|] == r;
    assert AllSpace(r[..0]) && AllSpace(r[|r|..]);
    StripUnique(r, 0, |r|);
  }
}
