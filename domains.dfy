/** The domain-list reader: the lines of the domains file become the list
    of domains, each line stripped of surrounding whitespace and blank
    lines dropped, in file order. Opening and reading the file is not part
    of this model; the reader starts from the file's lines. */
module Domains {
  import opened Text

  /** A line is blank when nothing is left of it once stripped. */
  predicate Blank(line: string)
  {
    Strip(line) == []
  }

  /** What one line contributes: its stripped form, unless it is blank. */
  function Kept(line: string): seq<string>
  {
    if Strip(line) != [] then [Strip(line)] else []
  }

  /** `read_domains`: every line stripped, the blank ones left out.
      There are never more domains than lines; `ReadDomainsClean` says
      that no domain is empty or carries whitespace at either end. */
  function ReadDomains(lines: seq<string>): (r: seq<string>)
    ensures |r| <= |lines|
  {
    if lines == [] then [] else Kept(lines[0]) + ReadDomains(lines[1..])
  }

  /** No domain is empty or begins or ends with whitespace: each is
      already stripped. */
  lemma {:induction false} ReadDomainsClean(lines: seq<string>)
    ensures forall d :: d in ReadDomains(lines) ==> d != [] && Trimmed(d) && Strip(d) == d
  {
    if lines != [] {
      ReadDomainsClean(lines[1..]);
      var r, rest := ReadDomains(lines), ReadDomains(lines[1..]);
      forall k | 0 <= k < |r| ensures r[k] != [] && Trimmed(r[k]) && Strip(r[k]) == r[k] {
        assert r == Kept(lines[0]) + rest;
        if k < |Kept(lines[0])| {
          assert r[k] == Strip(lines[0]);
          StripIdempotent(lines[0]);
        } else {
          assert r[k] == rest[k - |Kept(lines[0])|] && r[k] in rest;
        }
      }
    }
  }

  /** The reader works line by line: reading two runs of lines one after
      the other gives the two lists of domains one after the other, so the
      file order is kept. */
  lemma {:induction false} ReadDomainsAppend(a: seq<string>, b: seq<string>)
    ensures ReadDomains(a + b) == ReadDomains(a) + ReadDomains(b)
  {
    if a == [] {
      assert a + b == b;
    } else {
      assert (a + b)[0] == a[0] && (a + b)[1..] == a[1..] + b;
      ReadDomainsAppend(a[1..], b);
    }
  }

  /** A string is among the domains exactly when it is the non-empty
      stripped form of some line. */
  lemma {:induction false} ReadDomainsMembership(lines: seq<string>, d: string)
    ensures d in ReadDomains(lines) <==>
            d != [] && exists i :: 0 <= i < |lines| && Strip(lines[i]) == d
  {
    if lines != [] {
      ReadDomainsMembership(lines[1..], d);
      if d in ReadDomains(lines[1..]) {
        var i :| 0 <= i < |lines[1..]| && Strip(lines[1..][i]) == d;
        assert Strip(lines[i + 1]) == d;
      }
      if d != [] && exists i :: 0 <= i < |lines| && Strip(lines[i]) == d {
        var i :| 0 <= i < |lines| && Strip(lines[i]) == d;
        if i > 0 {
          assert Strip(lines[1..][i - 1]) == d;
        }
      }
    }
  }

  /** The positions, from `from` on, of the lines that are not blank, in
      increasing order: an independent description of which lines the
      reader keeps. */
  function NonBlankFrom(lines: seq<string>, from: nat): (idx: seq<nat>)
    requires from <= |lines|
    ensures forall k :: 0 <= k < |idx| ==> from <= idx[k] < |lines|
    ensures forall k, l :: 0 <= k < l < |idx| ==> idx[k] < idx[l]
    decreases |lines| - from
  {
    if from == |lines| then []
    else if Blank(lines[from]) then NonBlankFrom(lines, from + 1)
    else [from] + NonBlankFrom(lines, from + 1)
  }

  /** `NonBlankFrom` lists every non-blank line from `from` on and no
      blank one. */
  lemma {:induction false} NonBlankFromComplete(lines: seq<string>, from: nat)
    requires from <= |lines|
    ensures forall i :: from <= i < |lines| ==> (i in NonBlankFrom(lines, from) <==> !Blank(lines[i]))
    decreases |lines| - from
  {
    if from < |lines| {
      NonBlankFromComplete(lines, from + 1);
      var rest := NonBlankFrom(lines, from + 1);
      assert from !in rest;
      if Blank(lines[from]) {
        assert NonBlankFrom(lines, from) == rest;
      } else {
        assert NonBlankFrom(lines, from) == [from] + rest;
      }
    }
  }

  /** Reading from line `from` on is reading line `from`, then the rest. */
  lemma ReadDomainsFrom(lines: seq<string>, from: nat)
    requires from < |lines|
    ensures ReadDomains(lines[from..]) == Kept(lines[from]) + ReadDomains(lines[from + 1..])
  {
    assert lines[from..][0] == lines[from] && lines[from..][1..] == lines[from + 1..];
  }

  /** There are exactly as many domains as non-blank lines. */
  lemma {:induction false} ReadDomainsCount(lines: seq<string>, from: nat)
    requires from <= |lines|
    ensures |ReadDomains(lines[from..])| == |NonBlankFrom(lines, from)|
    decreases |lines| - from
  {
    if from == |lines| {
      assert lines[from..] == [];
    } else {
      ReadDomainsCount(lines, from + 1);
      ReadDomainsFrom(lines, from);
    }
  }

  /** The `k`-th domain is the stripped form of the `k`-th non-blank line. */
  lemma {:induction false} ReadDomainsAt(lines: seq<string>, from: nat, k: nat)
    requires from <= |lines| && k < |NonBlankFrom(lines, from)|
    ensures k < |ReadDomains(lines[from..])|
    ensures ReadDomains(lines[from..])[k] == Strip(lines[NonBlankFrom(lines, from)[k]])
    decreases |lines| - from
  {
    ReadDomainsCount(lines, from);
    ReadDomainsFrom(lines, from);
    var r, rest := ReadDomains(lines[from..]), ReadDomains(lines[from + 1..]);
    var idx := NonBlankFrom(lines, from + 1);
    if Blank(lines[from]) {
      assert r == rest && NonBlankFrom(lines, from) == idx;
      ReadDomainsAt(lines, from + 1, k);
      assert r[k] == Strip(lines[idx[k]]);
    } else {
      assert r == [Strip(lines[from])] + rest && NonBlankFrom(lines, from) == [from] + idx;
      if k > 0 {
        ReadDomainsAt(lines, from + 1, k - 1);
        assert r[k] == rest[k - 1] && NonBlankFrom(lines, from)[k] == idx[k - 1];
        assert r[k] == Strip(lines[idx[k - 1]]);
      } else {
        assert r[0] == Strip(lines[from]);
      }
    }
  }
}
