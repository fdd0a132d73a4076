/** Where a fetched icon is stored: the file name derived from the domain,
    the object key it is uploaded under, and the local path it is written to. */
module Naming {

  /** What every icon file name ends with. */
  const IconSuffix: string := "-icon.ico"

  /** The folder of the bucket that icons are uploaded into. */
  const KeyPrefix: string := "public/favicons/"

  /** The directory icons are written into when they are kept locally. */
  const LocalDirectory: string := "local-test-icons-dir"

  /** `domain.split('.')[0]`: the part of the domain before its first dot,
      or the whole domain when it has none. */
  function FirstLabel(domain: string): (first: string)
    ensures |first| <= |domain| && first == domain[..|first|]
    ensures '.' !in first
    ensures |first| == |domain| || domain[|first|] == '.'
  {
    if domain == [] || domain[0] == '.' then []
    else [domain[0]] + FirstLabel(domain[1..])
  }

  /** The three facts `FirstLabel` ensures determine it: a dot-free prefix
      of the domain that ends at a dot or at the end is its first label. */
  lemma FirstLabelUnique(domain: string, first: string)
    requires |first| <= |domain| && first == domain[..|first|]
    requires '.' !in first
    requires |first| == |domain| || domain[|first|] == '.'
    ensures first == FirstLabel(domain)
  {
  }

  /** The icon's file name: the domain's first label and the `-icon.ico`
      suffix. What comes before the suffix is a dot-free prefix of the
      domain that stops at a dot or at the end of the domain. */
  function FileName(domain: string): (name: string)
    ensures |name| >= |IconSuffix| && name[|name| - |IconSuffix|..] == IconSuffix
    ensures var first := name[..|name| - |IconSuffix|];
            |first| <= |domain| && first == domain[..|first|] && '.' !in first
            && (|first| == |domain| || domain[|first|] == '.')
  {
    FirstLabel(domain) + IconSuffix
  }

  /** `public/favicons/<file name>`: the key an icon is uploaded under. It
      lies in the icon folder and the file name can be read back from it. */
  function ObjectKey(fileName: string): (key: string)
    ensures |key| == |KeyPrefix| + |fileName|
    ensures key[..|KeyPrefix|] == KeyPrefix && key[|KeyPrefix|..] == fileName
  {
    KeyPrefix + fileName
  }

  /** `os.path.join(directory, name)` on a POSIX system: a name that starts
      with a slash replaces the directory; otherwise the two are joined by
      one slash, unless the directory is empty or already ends with one.
      The joined path always ends with the name and is the name itself when
      the name is absolute; otherwise it starts with the directory, and one
      slash is inserted only when the directory is non-empty and does not
      already end with one. */
  function JoinPath(directory: string, name: string): (path: string)
    ensures |name| <= |path| && path[|path| - |name|..] == name
    ensures |name| > 0 && name[0] == '/' ==> path == name
    ensures (|name| == 0 || name[0] != '/') && (directory == [] || directory[|directory| - 1] == '/') ==>
              |path| == |directory| + |name|
    ensures (|name| == 0 || name[0] != '/') ==>
              |directory| <= |path| && path[..|directory|] == directory
    ensures (|name| == 0 || name[0] != '/') && directory != [] && directory[|directory| - 1] != '/' ==>
              |path| == |directory| + 1 + |name| && path[|directory|] == '/'
  {
    if |name| > 0 && name[0] == '/' then name
    else if directory == [] || directory[|directory| - 1] == '/' then directory + name
    else directory + "/" + name
  }

  /** `"example.com"` is stored as `"example-icon.ico"`. */
  lemma FileNameExample(domain: string)
    requires domain == "example.com"
    ensures FileName(domain) == "example-icon.ico"
  {
    assert domain[..7] == "example";
    FirstLabelUnique(domain, "example");
  }

  /** Two domains get the same file name exactly when their first labels
      agree. */
  lemma {:induction false} FileNameCollision(a: string, b: string)
    ensures FileName(a) == FileName(b) <==> FirstLabel(a) == FirstLabel(b)
  {
    var la, lb := FirstLabel(a), FirstLabel(b);
    if la + IconSuffix == lb + IconSuffix {
      assert |la| == |lb|;
      assert la == (la + IconSuffix)[..|la|];
      assert lb == (lb + IconSuffix)[..|lb|];
    }
  }

  /** Two domains are uploaded under the same key exactly when their first
      labels agree, so the later upload replaces the earlier one. */
  lemma ObjectKeyCollision(a: string, b: string)
    ensures ObjectKey(FileName(a)) == ObjectKey(FileName(b)) <==> FirstLabel(a) == FirstLabel(b)
  {
    FileNameCollision(a, b);
    if ObjectKey(FileName(a)) == ObjectKey(FileName(b)) {
      assert FileName(a) == ObjectKey(FileName(a))[|KeyPrefix|..];
      assert FileName(b) == ObjectKey(FileName(b))[|KeyPrefix|..];
    }
  }

  /** Joining onto the local directory loses nothing: two non-empty names
      give the same path only if they are the same name. */
  lemma LocalJoinInjective(n1: string, n2: string)
    requires n1 != [] && n2 != []
    ensures JoinPath(LocalDirectory, n1) == JoinPath(LocalDirectory, n2) ==> n1 == n2
  {
    var p1, p2 := JoinPath(LocalDirectory, n1), JoinPath(LocalDirectory, n2);
    if p1 == p2 && n1[0] != '/' && n2[0] != '/' {
      assert n1 == p1[|LocalDirectory| + 1..];
      assert n2 == p2[|LocalDirectory| + 1..];
    }
  }

  /** Two domains get the same local path string exactly when their first
      labels agree. */
  lemma LocalPathCollision(a: string, b: string)
    ensures JoinPath(LocalDirectory, FileName(a)) == JoinPath(LocalDirectory, FileName(b))
            <==> FirstLabel(a) == FirstLabel(b)
  {
    FileNameCollision(a, b);
    LocalJoinInjective(FileName(a), FileName(b));
  }

  /** `"foo.com"` and `"foo.org"` share the name `"foo-icon.ico"`, hence
      one object key and one local file. */
  lemma SharedFirstLabelExample(a: string, b: string)
    requires a == "foo.com" && b == "foo.org"
    ensures FileName(a) == FileName(b) == "foo-icon.ico"
  {
    assert a[..3] == "foo" && b[..3] == "foo";
    FirstLabelUnique(a, "foo");
    FirstLabelUnique(b, "foo");
  }

  /** For a domain that does not begin with a slash, the local path is the
      string `local-test-icons-dir/` followed by the file name (which may
      itself contain slashes). */
  lemma LocalPathInDirectory(domain: string)
    requires |domain| == 0 || domain[0] != '/'
    ensures JoinPath(LocalDirectory, FileName(domain)) == LocalDirectory + "/" + FileName(domain)
  {
    assert FileName(domain)[0] != '/' by {
      if FirstLabel(domain) == [] {
        assert FileName(domain)[0] == '-';
      } else {
        assert FileName(domain)[0] == domain[0];
      }
    }
  }

  /** A domain that begins with a slash makes an absolute file name, and
      `os.path.join` then drops the local directory: the path is the file
      name itself, not under the relative `local-test-icons-dir/` prefix. */
  lemma LocalPathAbsolute(domain: string)
    requires |domain| > 0 && domain[0] == '/'
    ensures JoinPath(LocalDirectory, FileName(domain)) == FileName(domain)
    ensures var path := JoinPath(LocalDirectory, FileName(domain));
            |path| < |LocalDirectory| || path[..|LocalDirectory|] != LocalDirectory
  {
    assert FileName(domain)[0] == '/';
  }
}
