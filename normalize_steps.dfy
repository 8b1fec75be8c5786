/**
 * What each step of the Vite preparation does to the content at any one path: which paths it
 * removes, which it fills and from where, and that every other path keeps its content.
 */
module NormalizeSteps {
  import opened Base
  import opened Text
  import opened Files
  import opened Manifest
  import opened Normalize

  /** `x` is a root `.svg` of the listing. */
  predicate IsRootSvg(x: Path, ns: seq<Name>) {
    |x| == 1 && x[0] in ns && IsSvgName(x[0])
  }

  /** `x` is where a root `.svg` of the listing is moved to. */
  predicate IsSvgTarget(x: Path, ns: seq<Name>) {
    |x| == 3 && x[0] == "src" && x[1] == "assets" && x[2] in ns && IsSvgName(x[2])
  }

  /** The content at `x` after the `.svg` moves, in terms of the tree before them. */
  function AfterSvgs(t: Tree, ns: seq<Name>, x: Path): Option<string> {
    if IsRootSvg(x, ns) then None
    else if IsSvgTarget(x, ns) then Lookup(t, [x[2]])
    else Lookup(t, x)
  }

  /** One `.svg` move takes the file from the root into `src/assets` and changes nothing else. */
  lemma {:induction false} MoveSvgAt(t: Tree, m: Name, x: Path)
    requires MoveSvg(t, m).Ok?
    ensures IsSvgName(m) ==> [m] in t
    ensures Lookup(MoveSvg(t, m).value, x) ==
      if IsSvgName(m) && x == [m] then None
      else if IsSvgName(m) && x == InAssets(m) then Lookup(t, [m])
      else Lookup(t, x)
  {
  }

  /** The `.svg` moves of a listing without repeats, at any path. */
  lemma {:induction false} MoveSvgsAt(t: Tree, ns: seq<Name>, x: Path)
    requires Distinct(ns)
    requires MoveSvgs(t, ns).Ok?
    ensures IsSvgTarget(x, ns) ==> [x[2]] in t
    ensures Lookup(MoveSvgs(t, ns).value, x) == AfterSvgs(t, ns, x)
    decreases |ns|
  {
    if ns != [] {
      var m := ns[0];
      var t1 := MoveSvg(t, m).value;
      var rest := ns[1..];
      assert Distinct(rest);
      assert m !in rest;
      assert forall n :: n in ns <==> n == m || n in rest;
      MoveSvgsAt(t1, rest, x);
      MoveSvgAt(t, m, x);
      if IsSvgTarget(x, rest) {
        MoveSvgAt(t, m, [x[2]]);
      }
    }
  }

  /** `x` is a key file of the listing at the root. */
  predicate IsRootKey(x: Path, ns: seq<Name>, fs: seq<Name>) {
    |x| == 1 && x[0] in fs && x[0] in ns
  }

  /** `x` is where a key file of the listing is moved to. */
  predicate IsKeyTarget(x: Path, ns: seq<Name>, fs: seq<Name>) {
    |x| == 2 && x[0] == "src" && x[1] in fs && x[1] in ns
  }

  /** The transformed content of a file, if there is one. */
  function TransformAt(t: Tree, f: Name): Option<string> {
    if [f] in t then Some(Transform(f, t[[f]])) else None
  }

  /** The content at `x` after the key files are moved, in terms of the tree before. */
  function AfterKeys(t: Tree, ns: seq<Name>, fs: seq<Name>, x: Path): Option<string> {
    if IsRootKey(x, ns, fs) then None
    else if IsKeyTarget(x, ns, fs) then TransformAt(t, x[1])
    else Lookup(t, x)
  }

  /** One key-file move puts the transformed text in `src` and removes the root file. */
  lemma {:induction false} MoveKeyFileAt(t: Tree, ns: seq<Name>, f: Name, x: Path)
    requires MoveKeyFile(t, ns, f).Ok?
    ensures f in ns ==> [f] in t
    ensures Lookup(MoveKeyFile(t, ns, f).value, x) ==
      if f in ns && x == [f] then None
      else if f in ns && x == InSrc(f) then TransformAt(t, f)
      else Lookup(t, x)
  {
  }

  /** The key-file moves, at any path; a listed key file was a file at the root. */
  lemma {:induction false} MoveKeyFilesAt(t: Tree, ns: seq<Name>, fs: seq<Name>, x: Path)
    requires Distinct(fs)
    requires MoveKeyFiles(t, ns, fs).Ok?
    ensures IsKeyTarget(x, ns, fs) ==> [x[1]] in t
    ensures Lookup(MoveKeyFiles(t, ns, fs).value, x) == AfterKeys(t, ns, fs, x)
    decreases |fs|
  {
    if fs != [] {
      var f := fs[0];
      var t1 := MoveKeyFile(t, ns, f).value;
      var rest := fs[1..];
      assert Distinct(rest);
      assert f !in rest;
      assert forall n :: n in fs <==> n == f || n in rest;
      MoveKeyFilesAt(t1, ns, rest, x);
      MoveKeyFileAt(t, ns, f, x);
      if IsKeyTarget(x, ns, rest) {
        MoveKeyFileAt(t, ns, f, [x[1]]);
      }
    }
  }

  /** `x` is where an entry of the root `assets` listing is copied to. */
  predicate IsAssetTarget(x: Path, ans: seq<Name>) {
    |x| == 3 && x[0] == "src" && x[1] == "assets" && x[2] in ans
  }

  /** The copies of the `assets` entries, at any path: each target takes its source's content. */
  lemma {:induction false} CopyAssetsAt(t: Tree, ans: seq<Name>, x: Path)
    requires CopyAssets(t, ans).Ok?
    ensures Lookup(CopyAssets(t, ans).value, x) ==
      if IsAssetTarget(x, ans) then Lookup(t, ["assets", x[2]]) else Lookup(t, x)
    decreases |ans|
  {
    if ans != [] {
      var m := ans[0];
      var t1 := CopyAt(t, ["assets", m], InAssets(m)).value;
      CopyAssetsAt(t1, ans[1..], x);
      assert forall n :: n in ans <==> n == m || n in ans[1..];
      assert t1 == t[InAssets(m) := t[["assets", m]]];
      if IsAssetTarget(x, ans[1..]) {
        assert Lookup(t1, ["assets", x[2]]) == Lookup(t, ["assets", x[2]]);
      } else if x == InAssets(m) {
        assert x[2] == m;
      }
    }
  }

  /** `x` is the root `assets` directory or inside it. */
  predicate InRootAssets(x: Path) {
    x == ["assets"] || Under(x, ["assets"])
  }

  /** The merge of a root `assets` directory, at any path: the directory is gone and its entries are in `src/assets`. */
  lemma {:induction false} MergeAssetsAt(t: Tree, ns: seq<Name>, ans: seq<Name>, x: Path)
    requires MergeAssets(t, ns, ans).Ok?
    ensures Lookup(MergeAssets(t, ns, ans).value, x) ==
      if "assets" in ns && InRootAssets(x) then None
      else if "assets" in ns && IsAssetTarget(x, ans) then Lookup(t, ["assets", x[2]])
      else Lookup(t, x)
  {
    if "assets" in ns {
      CopyAssetsAt(t, ans, x);
    }
  }

  /** The rewrite of `index.html` changes that file alone, to the rewritten text. */
  lemma {:induction false} RewriteIndexAt(t: Tree, ns: seq<Name>, x: Path)
    requires RewriteIndex(t, ns).Ok?
    ensures "index.html" in ns ==> ["index.html"] in t
    ensures Lookup(RewriteIndex(t, ns).value, x) ==
      if "index.html" in ns && x == ["index.html"] then Some(IndexRewrite(t[["index.html"]]))
      else Lookup(t, x)
  {
  }

  /** The augmentation changes `package.json` alone, to the printed augmented manifest. */
  lemma {:induction false} AugmentManifestAt(t: Tree, ns: seq<Name>, codec: Codec, x: Path)
    requires AugmentManifest(t, ns, codec).Ok?
    ensures "package.json" in ns ==> ["package.json"] in t && codec.parse(t[["package.json"]]).Some?
    ensures Lookup(AugmentManifest(t, ns, codec).value, x) ==
      if "package.json" in ns && x == ["package.json"] then Some(codec.show(Augmented(codec.parse(t[["package.json"]]).value)))
      else Lookup(t, x)
  {
  }

  /** The paths the final check may write: the debug copy and the two placeholders. */
  predicate IsCheckOutput(x: Path) {
    x == ["app-debug.txt"] || x == InAssets("react.svg") || x == InAssets("vite.svg")
  }

  /** The final check writes only its outputs, and a placeholder never replaces a file that is there. */
  lemma {:induction false} FinalCheckAt(t: Tree, x: Path)
    requires FinalCheck(t).Ok?
    ensures !IsCheckOutput(x) ==> Lookup(FinalCheck(t).value, x) == Lookup(t, x)
    ensures x in t && x != ["app-debug.txt"] ==> Lookup(FinalCheck(t).value, x) == Lookup(t, x)
  {
  }
}
