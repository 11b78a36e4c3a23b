/** Where `convert_measure` writes the converted measure: next to the old
    file, or in a destination folder, with `.ini` replaced by `.meas.ini`.
    Paths are POSIX paths. */
module ConvertPath {
  import opened Common

  const Suffix := ".meas.ini"

  /** `posixpath.basename`: what follows the last `/`. */
  function Basename(p: string): (r: string)
    ensures forall j :: 0 <= j < |r| ==> r[j] != '/'
    ensures |r| <= |p| && r == p[|p| - |r|..]
    ensures |r| < |p| ==> p[|p| - |r| - 1] == '/'
  {
    if p == [] then []
    else if p[|p| - 1] == '/' then []
    else Basename(p[..|p| - 1]) + [p[|p| - 1]]
  }

  /** `posixpath.join(dir, name)`: an absolute name replaces the folder; a
      `/` separates the two unless the folder is empty or ends in one. */
  function Join(dir: string, name: string): (r: string)
    ensures |name| > 0 && name[0] == '/' ==> r == name
    ensures (|name| == 0 || name[0] != '/') ==> IsPrefix(dir, r) && |r| >= |name| && r[|r| - |name|..] == name
  {
    if |name| > 0 && name[0] == '/' then name
    else if dir == [] || dir[|dir| - 1] == '/' then dir + name
    else dir + "/" + name
  }

  /** The path of the converted file; an empty destination folder stands
      for none, as both are false in Python. */
  function NewPath(measPath: string, destFolder: string): (r: string)
  {
    if destFolder != [] then Join(destFolder, DropLast(Basename(measPath), 4) + Suffix)
    else DropLast(measPath, 4) + Suffix
  }

  lemma {:induction false} BasenameAfterSlash(dir: string, name: string)
    requires forall j :: 0 <= j < |name| ==> name[j] != '/'
    requires |dir| > 0 && dir[|dir| - 1] == '/'
    ensures Basename(dir + name) == name
    decreases |name|
  {
    if name == [] {
      assert dir + name == dir;
    } else {
      var p := dir + name;
      assert p[..|p| - 1] == dir + name[..|name| - 1];
      BasenameAfterSlash(dir, name[..|name| - 1]);
      assert name == name[..|name| - 1] + [name[|name| - 1]];
    }
  }

  /** The name the converted file gets in a destination folder has no
      `/` in it when the old base name had none. */
  lemma NameSlashFree(b: string)
    requires forall j :: 0 <= j < |b| ==> b[j] != '/'
    ensures var name := DropLast(b, 4) + Suffix;
            forall j :: 0 <= j < |name| ==> name[j] != '/'
  {
    var e := DropLast(b, 4);
    var name := e + Suffix;
    forall j | 0 <= j < |name| ensures name[j] != '/' {
      if j < |e| {
        assert name[j] == e[j] == b[j];
      } else {
        assert name[j] == Suffix[j - |e|];
      }
    }
  }

  /** That name is relative, and ends in `.meas.ini`. */
  lemma NewName(b: string)
    requires forall j :: 0 <= j < |b| ==> b[j] != '/'
    ensures var name := DropLast(b, 4) + Suffix;
            name[0] != '/' && name[|name| - |Suffix|..] == Suffix
  {
    var name := DropLast(b, 4) + Suffix;
    NameSlashFree(b);
    assert name[0] != '/';
  }

  /** The converted file always ends in `.meas.ini`. */
  lemma NewPathSuffix(measPath: string, destFolder: string)
    ensures var r := NewPath(measPath, destFolder);
            |r| >= |Suffix| && r[|r| - |Suffix|..] == Suffix
  {
    if destFolder != [] {
      var name := DropLast(Basename(measPath), 4) + Suffix;
      NewName(Basename(measPath));
      var r := Join(destFolder, name);
      assert r[|r| - |Suffix|..] == r[|r| - |name|..][|name| - |Suffix|..];
    } else {
      var r := DropLast(measPath, 4) + Suffix;
      assert r[|r| - |Suffix|..] == Suffix;
    }
  }

  /** Without a destination folder, `x.ini` becomes `x.meas.ini`. */
  lemma NewPathInPlace(stem: string)
    ensures NewPath(stem + ".ini", "") == stem + Suffix
  {
    assert (stem + ".ini")[..|stem|] == stem;
  }

  /** With one, the file keeps its base name, `.ini` replaced by
      `.meas.ini`, in that folder. */
  lemma NewPathInFolder(measPath: string, destFolder: string)
    requires destFolder != []
    ensures IsPrefix(destFolder, NewPath(measPath, destFolder))
    ensures Basename(NewPath(measPath, destFolder)) == DropLast(Basename(measPath), 4) + Suffix
  {
    var b := Basename(measPath);
    var name := DropLast(b, 4) + Suffix;
    NameSlashFree(b);
    assert name[0] != '/';
    var r := NewPath(measPath, destFolder);
    assert r == Join(destFolder, name);
    if destFolder[|destFolder| - 1] == '/' {
      assert r == destFolder + name;
      BasenameAfterSlash(destFolder, name);
    } else {
      assert r == (destFolder + "/") + name;
      BasenameAfterSlash(destFolder + "/", name);
    }
  }
}
