/** Path helpers of FileSystem. */
module FileSystem {
  import opened Wrappers

  /** FileSystem::join: always inserts one '/', whatever the operands look like. */
  function Join(lhs: string, rhs: string): (r: string)
    ensures |r| == |lhs| + 1 + |rhs|
    ensures r[..|lhs|] == lhs && r[|lhs|] == '/' && r[|lhs| + 1..] == rhs
  {
    lhs + "/" + rhs
  }

  /** std::string::find_last_of for one character. */
  function FindLastOf(s: string, c: char): (r: Option<nat>)
    ensures r.None? <==> c !in s
    ensures r.Some? ==> r.value < |s| && s[r.value] == c && c !in s[r.value + 1..]
  {
    if |s| == 0 then None
    else if s[|s| - 1] == c then Some(|s| - 1)
    else
      var r := FindLastOf(s[..|s| - 1], c);
      assert s == s[..|s| - 1] + [s[|s| - 1]];
      if r.Some? then
        assert s[r.value + 1..] == s[..|s| - 1][r.value + 1..] + [s[|s| - 1]];
        r
      else r
  }

  /** FileSystem::extension: the suffix from the last '.', or "" without a dot. */
  function Extension(filename: string): (r: string)
    ensures '.' !in filename ==> r == ""
    ensures '.' in filename ==>
      0 < |r| <= |filename| && r[0] == '.' && '.' !in r[1..] &&
      filename[..|filename| - |r|] + r == filename
  {
    match FindLastOf(filename, '.')
    case None => ""
    case Some(p) =>
      assert filename[p..][1..] == filename[p + 1..];
      filename[p..]
  }

  /** The dot may sit in a directory component: the whole path is searched. */
  lemma ExtensionOfDottedDirectory()
    ensures Extension("dir.d/file") == ".d/file"
  {
    var s := "dir.d/file";
    assert s[3] == '.';
    assert '.' !in s[4..];
  }

  lemma JoinKeepsSeparators()
    ensures Join("", "a") == "/a"
    ensures Join("a/", "b") == "a//b"
  {
  }
}
