/** Fixture discovery: `getFiles` keeps the directory entries whose
    extension, as Node's `path.extname` computes it, is exactly ".ts". */
module Discovery {
  import opened Sequences
  import opened JsText

  /** The path without the '/' characters at its end. */
  function TrimTrailingSlashes(p: string): (r: string)
    ensures r <= p
    ensures r == [] || r[|r| - 1] != '/'
    ensures forall k :: |r| <= k < |p| ==> p[k] == '/'
    decreases |p|
  {
    if |p| > 0 && p[|p| - 1] == '/' then TrimTrailingSlashes(p[..|p| - 1]) else p
  }

  /** The last component of a '/'-separated path, trailing separators ignored. */
  function LastComponent(p: string): (r: string)
    ensures '/' !in r
  {
    var t := TrimTrailingSlashes(p);
    t[LastIndex(t, '/') + 1..]
  }

  /** The last component is the trimmed path's suffix after its last '/',
      or the whole trimmed path when it has none. */
  lemma LastComponentOfPath(p: string)
    ensures var t, r := TrimTrailingSlashes(p), LastComponent(p);
            && |r| <= |t| && t[|t| - |r|..] == r
            && (|r| == |t| || t[|t| - |r| - 1] == '/')
  {
    var t := TrimTrailingSlashes(p);
    var k := LastIndex(t, '/');
    assert LastComponent(p) == t[k + 1..];
    assert |t| - |t[k + 1..]| == k + 1;
  }

  /** Node's POSIX `path.extname`: the last component's suffix from its last
      '.', or "" when it has no '.', when its only '.' is its first
      character (a dot-file such as ".ts"), or when it is "..". */
  function Extname(p: string): (r: string)
    ensures r == [] || (r[0] == '.' && '.' !in r[1..] && '/' !in r)
  {
    var b := LastComponent(p);
    var d := LastIndex(b, '.');
    if d <= 0 || b == ".." then "" else b[d..]
  }

  /** The extension is the last component's suffix from its last '.' (the
      shape in `Extname`'s contract rules out any other '.'), and it is
      empty exactly when that component has no '.' after its first
      character or is "..". */
  lemma ExtnameOfLastComponent(p: string)
    ensures var b, r := LastComponent(p), Extname(p);
            && |r| <= |b| && b[|b| - |r|..] == r
            && (r != [] <==> b != ".." && exists k :: 0 < k < |b| && b[k] == '.')
  {
  }

  /** The filter of `getFiles`. */
  predicate IsTsFixture(file: string)
  {
    Extname(file) == ".ts"
  }

  /** What `getFiles` returns: the listing's entries that pass the filter,
      in listing order. */
  function Fixtures(listing: seq<string>): seq<string>
  {
    Filter(listing, IsTsFixture)
  }

  /** For a directory entry (a name without '/'), the filter keeps exactly
      the names that end in ".ts" and have something before that suffix. */
  lemma EntryFilter(file: string)
    requires '/' !in file
    ensures IsTsFixture(file) <==> |file| > 3 && file[|file| - 3..] == ".ts"
  {
    var t := TrimTrailingSlashes(file);
    assert t == file by {
      if |file| > 0 { assert file[|file| - 1] != '/'; }
    }
    assert LastIndex(file, '/') == -1;
    assert LastComponent(file) == file;
    var d := LastIndex(file, '.');
    if |file| > 3 && file[|file| - 3..] == ".ts" {
      assert file[|file| - 3] == '.' && file[|file| - 2] == 't' && file[|file| - 1] == 's';
      assert d == |file| - 3;
      assert file != "..";
    }
  }

  /** A fixture of the directory is kept. */
  lemma KeepsFixture()
    ensures IsTsFixture("loops.ts")
  {
    var f := "loops.ts";
    assert '/' !in f;
    assert f[|f| - 3..] == ".ts";
    EntryFilter(f);
  }

  /** A declaration file is kept too: only the last '.' counts. */
  lemma KeepsDeclarationFile()
    ensures IsTsFixture("a.d.ts")
  {
    var f := "a.d.ts";
    assert '/' !in f;
    assert f[|f| - 3..] == ".ts";
    EntryFilter(f);
  }

  /** A dot-file named ".ts" has no extension and is dropped. */
  lemma DropsDotFile()
    ensures Extname(".ts") == ""
    ensures !IsTsFixture(".ts")
  {
    var f := ".ts";
    assert f[2] != '/';
    assert TrimTrailingSlashes(f) == f;
    assert '/' !in f;
    assert LastComponent(f) == f;
    assert f[..2] == ".t" && ".t"[..1] == ".";
    assert LastIndex(".", '.') == 0;
    assert LastIndex(".t", '.') == 0;
    assert LastIndex(f, '.') == 0;
  }

  /** Other extensions are dropped. */
  lemma DropsOtherExtension()
    ensures !IsTsFixture("runner.js")
  {
    var f := "runner.js";
    assert '/' !in f;
    assert f[|f| - 3..][1] == 'j';
    EntryFilter(f);
  }

  /** The parent-directory name ".." has no extension. */
  lemma ParentHasNoExtension()
    ensures Extname("..") == ""
  {
    assert LastComponent("..") == "..";
  }

  /** Only the last '.' starts the extension, even right after another. */
  lemma DoubleDotExtension()
    ensures Extname("..ts") == ".ts"
  {
    var f := "..ts";
    assert '/' !in f;
    assert f[|f| - 3..] == ".ts";
    EntryFilter(f);
  }

  /** A dot-file inside a directory has no extension either: only the last
      component is looked at. */
  lemma DotFileInDirectoryHasNoExtension()
    ensures Extname("a/.ts") == ""
  {
    var b := LastComponent("a/.ts");
    assert b == ".ts" by {
      assert TrimTrailingSlashes("a/.ts") == "a/.ts";
      assert LastIndex("a/.ts", '/') == 1;
    }
    assert b[0] == '.' && b[1] != '.' && b[2] != '.';
  }

  /** What `getFiles` keeps: every entry with extension ".ts", as often as
      the listing has it, and nothing else. */
  lemma FixturesOfListing(listing: seq<string>, f: string)
    ensures f in Fixtures(listing) <==> f in listing && Extname(f) == ".ts"
    ensures multiset(Fixtures(listing))[f] ==
              if Extname(f) == ".ts" then multiset(listing)[f] else 0
  {
    FilterMembership(listing, IsTsFixture, f);
    FilterMultiplicity(listing, IsTsFixture, f);
  }

  /** `getFiles` over the listing `fs.readdirSync` returned: the entries
      with extension ".ts", in listing order. */
  method GetFiles(listing: seq<string>) returns (result: seq<string>)
    ensures result == Fixtures(listing)
  {
    result := [];
    var i := 0;
    while i < |listing|
      invariant 0 <= i <= |listing|
      invariant result == Filter(listing[..i], IsTsFixture)
    {
      FilterStep(listing, i, IsTsFixture);
      if Extname(listing[i]) == ".ts" {
        result := result + [listing[i]];
      }
      i := i + 1;
    }
    assert listing[..i] == listing;
  }
}
