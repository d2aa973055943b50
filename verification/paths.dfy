/**
 * PHP's `dirname` and `basename` on POSIX paths (separator `/`), which the
 * file sink uses to place the apart-level files and the rotated backups.
 */
module Paths {

  /** The path without its trailing run of `/`. */
  function StripSlashes(s: string): (r: string)
    ensures r <= s
    ensures r == [] || r[|r| - 1] != '/'
    ensures forall i :: |r| <= i < |s| ==> s[i] == '/'
    decreases |s|
  {
    if s != [] && s[|s| - 1] == '/' then StripSlashes(s[..|s| - 1]) else s
  }

  /** The path without its last component: everything up to and including the last `/`. */
  function StripName(s: string): (r: string)
    ensures r <= s
    ensures r == [] || r[|r| - 1] == '/'
    ensures forall i :: |r| <= i < |s| ==> s[i] != '/'
    decreases |s|
  {
    if s != [] && s[|s| - 1] != '/' then StripName(s[..|s| - 1]) else s
  }

  /**
   * `dirname($p)`: trailing slashes go, then the last component, then the
   * slashes before it; "/" when only slashes remain, "." when no slash was
   * found, and "" for "".
   */
  function Dirname(p: string): (r: string)
  {
    if p == [] then []
    else
      var a := StripSlashes(p);
      if a == [] then "/"
      else
        var b := StripName(a);
        if b == [] then "."
        else
          var c := StripSlashes(b);
          if c == [] then "/" else c
  }

  /** `basename($p)`: the last component, ignoring trailing slashes. */
  function Basename(p: string): (r: string)
  {
    var a := StripSlashes(p);
    a[|StripName(a)|..]
  }

  /** The directory part of a non-empty path is non-empty and ends in `/` only when it is the root. */
  lemma DirnameShape(p: string)
    requires p != []
    ensures Dirname(p) != []
    ensures Dirname(p) == "/" || Dirname(p)[|Dirname(p)| - 1] != '/'
  {
  }

  /** A directory written with a trailing `/`, as it reads without it; the root stays "/". */
  function DirOf(dir: string): (r: string)
  {
    var c := StripSlashes(dir);
    if c == [] then "/" else c
  }

  lemma {:induction false} StripNameChild(dir: string, name: string)
    requires dir != [] && dir[|dir| - 1] == '/'
    requires '/' !in name
    ensures StripName(dir + name) == dir
    decreases |name|
  {
    if name == [] {
      assert dir + name == dir;
    } else {
      var s := dir + name;
      assert s[|s| - 1] == name[|name| - 1];
      assert s[..|s| - 1] == dir + name[..|name| - 1];
      var pre := name[..|name| - 1];
      assert '/' !in pre by {
        forall i | 0 <= i < |pre| ensures pre[i] != '/' {
          assert pre[i] == name[i];
        }
      }
      StripNameChild(dir, pre);
    }
  }

  /**
   * A file `name` inside `dir/`: `dirname` gives the directory back (without
   * its trailing slashes) and `basename` gives the name back.
   */
  lemma ChildPath(dir: string, name: string)
    requires dir != [] && dir[|dir| - 1] == '/'
    requires name != [] && '/' !in name
    ensures Dirname(dir + name) == DirOf(dir)
    ensures Basename(dir + name) == name
  {
    var s := dir + name;
    assert s[|s| - 1] == name[|name| - 1];
    assert StripSlashes(s) == s;
    StripNameChild(dir, name);
    assert s[|dir|..] == name;
  }

  /** `dirname` of the directory form of a `/`-terminated directory is that form again. */
  lemma DirOfIsDirname(dir: string, name: string)
    requires dir != [] && dir[|dir| - 1] == '/'
    requires name != [] && '/' !in name
    ensures DirOf(dir) == Dirname(dir + name)
    ensures DirOf(dir) != [] && (DirOf(dir) == "/" || DirOf(dir)[|DirOf(dir)| - 1] != '/')
  {
    ChildPath(dir, name);
  }

  /**
   * A sibling built as `dirname($file) . '/' . $name` lives in the same
   * directory as `$file` and is called `$name`.
   */
  lemma SiblingPath(file: string, name: string)
    requires file != []
    requires name != [] && '/' !in name
    ensures Dirname(Dirname(file) + "/" + name) == Dirname(file)
    ensures Basename(Dirname(file) + "/" + name) == name
  {
    var d := Dirname(file);
    DirnameShape(file);
    var dir := d + "/";
    assert d + "/" + name == dir + name;
    ChildPath(dir, name);
    if d == "/" {
      assert StripSlashes(dir) == StripSlashes(dir[..|dir| - 1]);
      assert dir[..1] == "/";
      assert StripSlashes("/") == StripSlashes([]);
    } else {
      assert dir[..|dir| - 1] == d;
      assert StripSlashes(dir) == StripSlashes(d);
    }
  }
}
