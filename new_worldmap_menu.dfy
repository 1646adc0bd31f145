/** EditorNewWorldmapMenu: checks a new worldmap's name before creating it. */
module NewWorldmapMenu {
  import FileSystem

  /** What pressing an entry of the menu leads to. */
  datatype WorldmapVerdict =
    | Ignored                   // the entry has an ID of 0 or less
    | EmptyName
    | InvalidName               // a character outside [A-Za-z0-9_-]
    | AlreadyExists
    | CreateWorldmap(path: string)

  /** A character the name pattern accepts: ASCII letters of either case, digits, '-' and '_'. */
  predicate NameChar(c: char) {
    ('A' <= c <= 'Z') || ('a' <= c <= 'z') || ('0' <= c <= '9') || c == '-' || c == '_'
  }

  /** The whole name matches ^[A-Za-z0-9\-\_]+$. */
  predicate MatchesNamePattern(name: string) {
    |name| > 0 && forall i :: 0 <= i < |name| ==> NameChar(name[i])
  }

  /** The file a worldmap of this name is saved to. */
  function WorldmapPath(basedir: string, name: string): (r: string)
    ensures r == basedir + "/" + name + ".stwm"
  {
    FileSystem.Join(basedir, name + ".stwm")
  }

  /**
   * The checks in their order: ignored entry, empty name, pattern, existing
   * file; `existing` holds the paths that exist.
   */
  function MenuAction(itemId: int, name: string, basedir: string, existing: set<string>): (v: WorldmapVerdict)
    ensures v.CreateWorldmap? <==>
      itemId > 0 && MatchesNamePattern(name) && WorldmapPath(basedir, name) !in existing
    ensures v.CreateWorldmap? ==> v.path == WorldmapPath(basedir, name)
    ensures v == Ignored <==> itemId <= 0
    ensures v == EmptyName <==> itemId > 0 && name == ""
    ensures v == InvalidName <==> itemId > 0 && name != "" && !MatchesNamePattern(name)
    ensures v == AlreadyExists <==>
      itemId > 0 && MatchesNamePattern(name) && WorldmapPath(basedir, name) in existing
  {
    if itemId <= 0 then Ignored
    else if name == "" then EmptyName
    else if !MatchesNamePattern(name) then InvalidName
    else if WorldmapPath(basedir, name) in existing then AlreadyExists
    else CreateWorldmap(WorldmapPath(basedir, name))
  }

  /** A worldmap is only ever created at a path that did not exist, inside the world's directory. */
  lemma CreatedPathIsNewAndInside(itemId: int, name: string, basedir: string, existing: set<string>)
    requires MenuAction(itemId, name, basedir, existing).CreateWorldmap?
    ensures var p := MenuAction(itemId, name, basedir, existing).path;
      p !in existing && p[..|basedir| + 1] == basedir + "/" && p[|p| - 5..] == ".stwm"
  {
    var p := WorldmapPath(basedir, name);
    assert p == basedir + "/" + (name + ".stwm");
    assert p[|p| - 5..] == (name + ".stwm")[|name|..];
  }

  /** Upper-case letters pass, although the menu's help text asks for lower-case ones. */
  lemma UpperCaseIsAccepted()
    ensures MenuAction(1, "Island", "levels/world1", {}) == CreateWorldmap("levels/world1/Island.stwm")
  {
    assert NameChar('I') && NameChar('s') && NameChar('l') && NameChar('a') && NameChar('n') && NameChar('d');
  }

  /** A space or a path separator makes the name invalid. */
  lemma SeparatorIsRejected()
    ensures MenuAction(1, "a/b", "w", {}) == InvalidName
    ensures MenuAction(1, "a b", "w", {}) == InvalidName
  {
    assert !NameChar('/') && !NameChar(' ');
    assert "a/b"[1] == '/';
    assert "a b"[1] == ' ';
  }
}
