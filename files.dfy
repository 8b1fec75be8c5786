/**
 * The workspace directory as the files it holds. A path is the list of names from the workspace
 * root; a directory exists exactly when some file lies inside it, so the tree is a map from file
 * path to content. The `fs.promises` calls the deployer makes are the operations on it.
 */
module Files {
  import opened Base

  type Name = string

  /** A path relative to the workspace root, one name per level. */
  type Path = seq<Name>

  /** The files below a directory, by relative path. */
  type Tree = map<Path, string>

  /** `p` lies strictly inside directory `d`. */
  predicate Under(p: Path, d: Path) {
    |d| < |p| && forall k :: 0 <= k < |d| ==> p[k] == d[k]
  }

  /** `p` names a directory: the root, or a path with some file inside it. */
  predicate IsDir(t: Tree, p: Path) {
    p == [] || exists q :: q in t && Under(q, p)
  }

  /** `p` names a file: it holds content and is not a directory. */
  predicate IsFile(t: Tree, p: Path) {
    p in t && !IsDir(t, p)
  }

  /** `fs.access`: something, a file or a directory, is at `p`. */
  predicate Exists(t: Tree, p: Path) {
    p in t || IsDir(t, p)
  }

  /** The names `readdir` reports for directory `d`. */
  function Children(t: Tree, d: Path): set<Name> {
    set p | p in t && Under(p, d) :: p[|d|]
  }

  /** The names at the workspace root. */
  function RootNames(t: Tree): set<Name> {
    Children(t, [])
  }

  /** A tree a real filesystem can hold: no file is also a directory, and the root is not a file. */
  ghost predicate Valid(t: Tree) {
    [] !in t && forall p, q :: p in t && q in t ==> !Under(q, p)
  }

  /** No name occurs twice in `ns`. */
  predicate Distinct(ns: seq<Name>) {
    forall i, j :: 0 <= i < j < |ns| ==> ns[i] != ns[j]
  }

  /** `ns` lists the names of `names` once each, in some order. */
  ghost predicate IsListing(ns: seq<Name>, names: set<Name>) {
    && Distinct(ns)
    && (forall i :: 0 <= i < |ns| ==> ns[i] in names)
    && (forall n :: n in names ==> n in ns)
  }

  /** Every finite set of names has a listing; whatever order `readdir` picks is one of them. */
  lemma {:induction false} SomeListing(names: set<Name>) returns (ns: seq<Name>)
    ensures IsListing(ns, names)
    decreases |names|
  {
    if names == {} {
      ns := [];
    } else {
      var n :| n in names;
      var rest := SomeListing(names - {n});
      ns := [n] + rest;
      assert forall i :: 1 <= i < |ns| ==> ns[i] == rest[i - 1];
    }
  }

  /** The content held at `p`, if any. */
  function Lookup(t: Tree, p: Path): Option<string> {
    if p in t then Some(t[p]) else None
  }

  /** `fs.readFile`: the content of a file; a directory or a missing path fails. */
  function ReadAt(t: Tree, p: Path): (r: Result<string>)
    ensures r.Ok? <==> IsFile(t, p)
    ensures r.Ok? ==> r.value == t[p]
  {
    if IsFile(t, p) then Ok(t[p]) else Err(IoFailure)
  }

  /** A file stands where one of the directories on the way to `p` should be. */
  predicate InsideFile(t: Tree, p: Path) {
    exists q :: q in t && Under(p, q)
  }

  /** `fs.writeFile`: create or replace a file; a directory at the path, or a file on the way to it, fails. */
  function WriteAt(t: Tree, p: Path, c: string): (r: Result<Tree>)
    ensures r.Ok? <==> !IsDir(t, p) && !InsideFile(t, p)
    ensures r.Ok? ==> r.value == t[p := c]
  {
    if IsDir(t, p) || InsideFile(t, p) then Err(IoFailure) else Ok(t[p := c])
  }

  /** `fs.unlink`: remove a file; a directory or a missing path fails. */
  function UnlinkAt(t: Tree, p: Path): (r: Result<Tree>)
    ensures r.Ok? <==> IsFile(t, p)
    ensures r.Ok? ==> r.value == t - {p}
  {
    if IsFile(t, p) then Ok(t - {p}) else Err(IoFailure)
  }

  /** `fs.copyFile`: read one path, write its content at another. */
  function CopyAt(t: Tree, src: Path, dst: Path): (r: Result<Tree>)
    ensures r.Ok? <==> IsFile(t, src) && !IsDir(t, dst) && !InsideFile(t, dst)
    ensures r.Ok? ==> r.value == t[dst := t[src]]
  {
    var c :- ReadAt(t, src);
    WriteAt(t, dst, c)
  }

  /** `fs.rm(p, {recursive: true, force: true})`: remove `p` and everything inside it; never fails. */
  function RemoveTreeAt(t: Tree, p: Path): (r: Tree)
    ensures forall q :: q in r <==> q in t && q != p && !Under(q, p)
    ensures forall q :: q in r ==> r[q] == t[q]
  {
    map q | q in t && q != p && !Under(q, p) :: t[q]
  }

  /** A successful write keeps a tree one a filesystem can hold. */
  lemma {:induction false} WriteKeepsValid(t: Tree, p: Path, c: string)
    requires Valid(t) && WriteAt(t, p, c).Ok?
    ensures Valid(WriteAt(t, p, c).value)
  {
    var r := t[p := c];
    forall a, b | a in r && b in r
      ensures !Under(b, a)
    {
      if a == p && b != p {
        assert b in t;
      } else if b == p && a != p {
        assert a in t;
      }
    }
  }

  /** Removing files keeps a tree one a filesystem can hold. */
  lemma {:induction false} SubtreeValid(t: Tree, r: Tree)
    requires Valid(t) && r.Keys <= t.Keys
    ensures Valid(r)
  {
  }

  /** `k` bounds the depth of every file inside `d`, counted from `d`. */
  predicate DepthBound(t: Tree, d: Path, k: nat) {
    forall p :: p in t && Under(p, d) ==> |p| <= |d| + k
  }

  /** Every tree has some bound on the length of its paths. */
  lemma {:induction false} SomeDepthBound(t: Tree) returns (k: nat)
    ensures DepthBound(t, [], k)
    decreases |t|
  {
    if |t| == 0 {
      return 0;
    }
    var p :| p in t;
    var rest := t - {p};
    assert |rest| < |t|;
    var k0 := SomeDepthBound(rest);
    k := if |p| > k0 then |p| else k0;
    forall q | q in t && Under(q, [])
      ensures |q| <= k
    {
      if q != p {
        assert q in rest;
      }
    }
  }

  /** A file inside a child directory of `d` lies inside `d`. */
  lemma {:induction false} UnderChild(p: Path, d: Path, c: Name)
    requires Under(p, d + [c])
    ensures Under(p, d) && p[|d|] == c
  {
    assert p[|d|] == (d + [c])[|d|];
    forall k | 0 <= k < |d|
      ensures p[k] == d[k]
    {
      assert p[k] == (d + [c])[k];
    }
  }

  /** A file inside `d` is the child it starts with, or lies inside that child. */
  lemma {:induction false} UnderSplit(p: Path, d: Path)
    requires Under(p, d)
    ensures p == d + [p[|d|]] || Under(p, d + [p[|d|]])
  {
    var e := d + [p[|d|]];
    forall k | 0 <= k < |e|
      ensures p[k] == e[k]
    {
    }
    if |p| == |e| {
      assert p == e;
    }
  }

  /** The depth bound of a directory, less one, bounds a child directory that holds a file. */
  lemma {:induction false} ChildBound(t: Tree, d: Path, c: Name, k: nat, q: Path)
    requires DepthBound(t, d, k)
    requires q in t && Under(q, d + [c])
    ensures k >= 1 && DepthBound(t, d + [c], k - 1)
  {
    UnderChild(q, d, c);
    forall r | r in t && Under(r, d + [c])
      ensures |r| <= |d + [c]| + (k - 1)
    {
      UnderChild(r, d, c);
    }
  }

  /** A child path lies inside its parent. */
  lemma {:induction false} ChildUnder(d: Path, c: Name)
    ensures Under(d + [c], d)
  {
    assert forall k :: 0 <= k < |d| ==> (d + [c])[k] == d[k];
  }

  /** The files that start with child `c` of `d` are the child itself, when it is a file, and the files inside it. */
  lemma {:induction false} ChildSplit(t: Tree, d: Path, c: Name)
    ensures forall p :: (p in t && Under(p, d) && p[|d|] == c) <==> (p in t && (p == d + [c] || Under(p, d + [c])))
  {
    ChildUnder(d, c);
    forall p | p in t && Under(p, d) && p[|d|] == c
      ensures p == d + [c] || Under(p, d + [c])
    {
      UnderSplit(p, d);
    }
    forall p | p in t && Under(p, d + [c])
      ensures Under(p, d) && p[|d|] == c
    {
      UnderChild(p, d, c);
    }
  }

  /** The workspace directory, changed in place by the filesystem calls. */
  class Workspace {
    var files: Tree

    constructor (t: Tree)
      ensures files == t
    {
      files := t;
    }

    /** `fs.readdir(d)`: the names in `d`, in an order the filesystem chooses; fails unless `d` is a directory. */
    method ReadDir(d: Path) returns (r: Result<seq<Name>>)
      ensures r.Ok? <==> IsDir(files, d) && d !in files
      ensures r.Err? ==> r.error == IoFailure
      ensures r.Ok? ==> IsListing(r.value, Children(files, d))
    {
      if !IsDir(files, d) || d in files {
        return Err(IoFailure);
      }
      var rest := Children(files, d);
      var ns: seq<Name> := [];
      while rest != {}
        invariant rest !! (set n | n in ns)
        invariant forall i, j :: 0 <= i < j < |ns| ==> ns[i] != ns[j]
        invariant forall i :: 0 <= i < |ns| ==> ns[i] in Children(files, d)
        invariant forall n :: n in Children(files, d) ==> n in ns || n in rest
        invariant rest <= Children(files, d)
        decreases rest
      {
        var n :| n in rest;
        ns := ns + [n];
        rest := rest - {n};
      }
      return Ok(ns);
    }

    /** `fs.readFile(p)`. */
    method ReadFile(p: Path) returns (r: Result<string>)
      ensures r == ReadAt(files, p)
    {
      r := ReadAt(files, p);
    }

    /** `fs.writeFile(p, c)`. */
    method WriteFile(p: Path, c: string) returns (r: Result<()>)
      modifies this
      ensures r.Ok? <==> WriteAt(old(files), p, c).Ok?
      ensures r.Err? ==> WriteAt(old(files), p, c) == Err(r.error)
      ensures files == if r.Ok? then WriteAt(old(files), p, c).value else old(files)
      ensures Valid(old(files)) ==> Valid(files)
    {
      var w := WriteAt(files, p, c);
      if w.Err? {
        return Err(w.error);
      }
      if Valid(files) {
        WriteKeepsValid(files, p, c);
      }
      files := w.value;
      return Ok(());
    }

    /** `fs.unlink(p)`. */
    method Unlink(p: Path) returns (r: Result<()>)
      modifies this
      ensures r.Ok? <==> UnlinkAt(old(files), p).Ok?
      ensures r.Err? ==> UnlinkAt(old(files), p) == Err(r.error)
      ensures files == if r.Ok? then UnlinkAt(old(files), p).value else old(files)
      ensures Valid(old(files)) ==> Valid(files)
    {
      var u := UnlinkAt(files, p);
      if u.Err? {
        return Err(u.error);
      }
      files := u.value;
      return Ok(());
    }

    /** `fs.copyFile(src, dst)`. */
    method CopyFile(src: Path, dst: Path) returns (r: Result<()>)
      modifies this
      ensures r.Ok? <==> CopyAt(old(files), src, dst).Ok?
      ensures r.Err? ==> CopyAt(old(files), src, dst) == Err(r.error)
      ensures files == if r.Ok? then CopyAt(old(files), src, dst).value else old(files)
      ensures Valid(old(files)) ==> Valid(files)
    {
      var c := CopyAt(files, src, dst);
      if c.Err? {
        return Err(c.error);
      }
      if Valid(files) {
        WriteKeepsValid(files, dst, files[src]);
      }
      files := c.value;
      return Ok(());
    }

    /** `fs.rm(p, {recursive: true, force: true})`. */
    method RemoveTree(p: Path)
      modifies this
      ensures files == RemoveTreeAt(old(files), p)
      ensures Valid(old(files)) ==> Valid(files)
    {
      files := RemoveTreeAt(files, p);
    }
  }
}
