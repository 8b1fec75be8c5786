/**
 * `prepareViteProject` (vercelDeploy.js:138-327) as the deployer runs it: one filesystem call after
 * another on the workspace. Each step is proved to leave the tree its specification function in
 * `Normalize` computes, so the properties proved there hold of the workspace it leaves.
 */
module ViteSetup {
  import opened Base
  import opened Patterns
  import opened Files
  import opened Manifest
  import opened Normalize
  import opened NormalizeProps

  /** Lines 142-150: `mkdir -p src` and `mkdir -p src/assets`; a file standing at either path makes them fail. */
  method MakeSourceDirectories(w: Workspace) returns (r: Result<()>)
    ensures r.Ok? <==> MakeSrcDirs(w.files).Ok?
    ensures r.Err? ==> MakeSrcDirs(w.files) == Err(r.error)
  {
    if ["src"] in w.files {
      return Err(IoFailure);
    }
    if InSrc("assets") in w.files {
      return Err(IoFailure);
    }
    return Ok(());
  }

  /** Lines 153-158: each `.svg` of the root listing is copied into `src/assets` and unlinked, in listing order. */
  method MoveSvgFiles(w: Workspace, ns: seq<Name>) returns (r: Result<()>)
    requires Valid(w.files)
    modifies w
    ensures Valid(w.files)
    ensures r.Ok? <==> MoveSvgs(old(w.files), ns).Ok?
    ensures r.Err? ==> MoveSvgs(old(w.files), ns) == Err(r.error)
    ensures r.Ok? ==> w.files == MoveSvgs(old(w.files), ns).value
  {
    var i := 0;
    while i < |ns|
      invariant i <= |ns|
      invariant Valid(w.files)
      invariant MoveSvgs(w.files, ns[i..]) == MoveSvgs(old(w.files), ns)
    {
      assert ns[i..][0] == ns[i] && ns[i..][1..] == ns[i + 1..];
      var n := ns[i];
      if IsSvgName(n) {
        var c := w.CopyFile([n], InAssets(n));
        if c.Err? {
          return Err(c.error);
        }
        var u := w.Unlink([n]);
        if u.Err? {
          return Err(u.error);
        }
      }
      i := i + 1;
    }
    return Ok(());
  }

  /** Lines 161-194: each key file the root listing has is read, transformed, written into `src` and unlinked. */
  method MoveKeyFilesToSrc(w: Workspace, ns: seq<Name>) returns (r: Result<()>)
    requires Valid(w.files)
    modifies w
    ensures Valid(w.files)
    ensures r.Ok? <==> MoveKeyFiles(old(w.files), ns, KeyFiles).Ok?
    ensures r.Err? ==> MoveKeyFiles(old(w.files), ns, KeyFiles) == Err(r.error)
    ensures r.Ok? ==> w.files == MoveKeyFiles(old(w.files), ns, KeyFiles).value
  {
    var fs := KeyFiles;
    var i := 0;
    while i < |fs|
      invariant i <= |fs|
      invariant Valid(w.files)
      invariant MoveKeyFiles(w.files, ns, fs[i..]) == MoveKeyFiles(old(w.files), ns, fs)
    {
      assert fs[i..][0] == fs[i] && fs[i..][1..] == fs[i + 1..];
      var f := fs[i];
      if f in ns {
        var content := w.ReadFile([f]);
        if content.Err? {
          return Err(content.error);
        }
        var written := w.WriteFile(InSrc(f), Transform(f, content.value));
        if written.Err? {
          return Err(written.error);
        }
        var u := w.Unlink([f]);
        if u.Err? {
          return Err(u.error);
        }
      }
      i := i + 1;
    }
    return Ok(());
  }

  /** Lines 200-202: each listed entry of `assets` is copied to the same name in `src/assets`, in listing order. */
  method CopyAssetEntries(w: Workspace, entries: seq<Name>) returns (r: Result<()>)
    requires Valid(w.files)
    modifies w
    ensures Valid(w.files)
    ensures r.Ok? <==> CopyAssets(old(w.files), entries).Ok?
    ensures r.Err? ==> CopyAssets(old(w.files), entries) == Err(r.error)
    ensures r.Ok? ==> w.files == CopyAssets(old(w.files), entries).value
  {
    var i := 0;
    while i < |entries|
      invariant i <= |entries|
      invariant Valid(w.files)
      invariant CopyAssets(w.files, entries[i..]) == CopyAssets(old(w.files), entries)
    {
      assert entries[i..][0] == entries[i] && entries[i..][1..] == entries[i + 1..];
      var c := w.CopyFile(["assets", entries[i]], InAssets(entries[i]));
      if c.Err? {
        return Err(c.error);
      }
      i := i + 1;
    }
    return Ok(());
  }

  /**
   * Lines 197-204: a root `assets` directory is listed, each entry copied into `src/assets`, and
   * the directory removed. `ans` is the listing the filesystem gave.
   */
  method MergeAssetsDirectory(w: Workspace, ns: seq<Name>) returns (r: Result<()>, ghost ans: seq<Name>)
    requires Valid(w.files)
    modifies w
    ensures Valid(w.files)
    ensures "assets" in ns && r.Ok? ==> IsListing(ans, Children(old(w.files), ["assets"]))
    ensures IsDir(old(w.files), ["assets"]) && ["assets"] !in old(w.files) ==> IsListing(ans, Children(old(w.files), ["assets"]))
    ensures r.Ok? <==> MergeAssets(old(w.files), ns, ans).Ok?
    ensures r.Err? ==> MergeAssets(old(w.files), ns, ans) == Err(r.error)
    ensures r.Ok? ==> w.files == MergeAssets(old(w.files), ns, ans).value
  {
    ans := SomeListing(Children(w.files, ["assets"]));
    if "assets" !in ns {
      return Ok(()), ans;
    }
    var listed := w.ReadDir(["assets"]);
    if listed.Err? {
      return Err(listed.error), ans;
    }
    var entries := listed.value;
    ans := entries;
    var copied := CopyAssetEntries(w, entries);
    if copied.Err? {
      return copied, ans;
    }
    w.RemoveTree(["assets"]);
    return Ok(()), ans;
  }

  /** Lines 207-222: `index.html` is read, and written back after each rewrite its guard lets run. */
  method RewriteIndexHtml(w: Workspace, ns: seq<Name>) returns (r: Result<()>)
    requires Valid(w.files)
    modifies w
    ensures Valid(w.files)
    ensures r.Ok? <==> RewriteIndex(old(w.files), ns).Ok?
    ensures r.Err? ==> RewriteIndex(old(w.files), ns) == Err(r.error)
    ensures r.Ok? ==> w.files == RewriteIndex(old(w.files), ns).value
  {
    if "index.html" !in ns {
      return Ok(());
    }
    var read := w.ReadFile(["index.html"]);
    if read.Err? {
      return Err(read.error);
    }
    var c := read.value;
    if MentionsEntry(c, "jsx") {
      c := Guarded(c, "jsx");
      var written := w.WriteFile(["index.html"], c);
      assert written.Ok?; // the page is a file that was just read
    }
    if MentionsEntry(c, "tsx") {
      c := Guarded(c, "tsx");
      var written := w.WriteFile(["index.html"], c);
      assert written.Ok?; // the page is a file that was written or read just before
    }
    return Ok(());
  }

  /** Lines 225-239: the minimal config is written when the root listing has neither Vite config. */
  method WriteMinimalViteConfig(w: Workspace, ns: seq<Name>) returns (r: Result<()>)
    requires Valid(w.files)
    modifies w
    ensures Valid(w.files)
    ensures r.Ok? <==> WriteViteConfig(old(w.files), ns).Ok?
    ensures r.Err? ==> WriteViteConfig(old(w.files), ns) == Err(r.error)
    ensures r.Ok? ==> w.files == WriteViteConfig(old(w.files), ns).value
  {
    if "vite.config.js" !in ns && "vite.config.ts" !in ns {
      r := w.WriteFile(["vite.config.js"], ViteConfigText);
    } else {
      r := Ok(());
    }
  }

  /** Lines 242-276: `package.json` is parsed into an object, augmented in place and printed back. */
  method AugmentPackageJson(w: Workspace, ns: seq<Name>, codec: Codec) returns (r: Result<()>)
    requires Valid(w.files)
    modifies w
    ensures Valid(w.files)
    ensures r.Ok? <==> AugmentManifest(old(w.files), ns, codec).Ok?
    ensures r.Err? ==> AugmentManifest(old(w.files), ns, codec) == Err(r.error)
    ensures r.Ok? ==> w.files == AugmentManifest(old(w.files), ns, codec).value
  {
    if "package.json" !in ns {
      return Ok(());
    }
    var read := w.ReadFile(["package.json"]);
    if read.Err? {
      return Err(read.error);
    }
    var parsed := codec.parse(read.value);
    if parsed.None? {
      return Err(ManifestParseError);
    }
    var pkg := new PackageObject(parsed.value);
    pkg.Augment();
    r := w.WriteFile(["package.json"], codec.show(pkg.Value()));
  }

  /** Lines 279-324: when `src/App.jsx` exists it is copied to `app-debug.txt`, and a missing SVG it names gets a placeholder. */
  method CheckAppImports(w: Workspace) returns (r: Result<()>)
    requires Valid(w.files)
    modifies w
    ensures Valid(w.files)
    ensures r.Ok? <==> FinalCheck(old(w.files)).Ok?
    ensures r.Err? ==> FinalCheck(old(w.files)) == Err(r.error)
    ensures r.Ok? ==> w.files == FinalCheck(old(w.files)).value
  {
    if !Exists(w.files, InSrc("App.jsx")) {
      return Ok(());
    }
    var read := w.ReadFile(InSrc("App.jsx"));
    if read.Err? {
      return Err(read.error);
    }
    var c := read.value;
    var debug := w.WriteFile(["app-debug.txt"], c);
    if debug.Err? {
      return Err(debug.error);
    }
    if MentionsAsset(c, "react.svg") && !Exists(w.files, InAssets("react.svg")) {
      var written := w.WriteFile(InAssets("react.svg"), ReactPlaceholder);
      if written.Err? {
        return Err(written.error);
      }
    }
    if MentionsAsset(c, "vite.svg") && !Exists(w.files, InAssets("vite.svg")) {
      r := w.WriteFile(InAssets("vite.svg"), VitePlaceholder);
    } else {
      r := Ok(());
    }
  }

  /**
   * The whole preparation: the root is listed once, then the steps run in source order and the
   * first failure ends it. `ns` and `ans` are the listings the filesystem gave.
   */
  method PrepareViteProject(w: Workspace, codec: Codec) returns (r: Result<()>, ghost ns: seq<Name>, ghost ans: seq<Name>)
    requires Valid(w.files)
    modifies w
    ensures Valid(w.files)
    ensures IsListing(ns, RootNames(old(w.files)))
    ensures Listed(old(w.files), ns, ans)
    ensures r.Ok? <==> Prepare(old(w.files), ns, ans, codec).Ok?
    ensures r.Err? ==> Prepare(old(w.files), ns, ans, codec) == Err(r.error)
    ensures r.Ok? ==> w.files == Prepare(old(w.files), ns, ans, codec).value
  {
    ans := SomeListing(Children(w.files, ["assets"]));
    var listed := w.ReadDir([]);
    assert listed.Ok?;
    var names := listed.value;
    ns := names;
    r := MakeSourceDirectories(w);
    if r.Err? {
      return;
    }
    r := MoveSvgFiles(w, names);
    if r.Err? {
      return;
    }
    r := MoveKeyFilesToSrc(w, names);
    if r.Err? {
      return;
    }
    AssetsKeptByMoves(old(w.files), names);
    r, ans := MergeAssetsDirectory(w, names);
    if r.Err? {
      return;
    }
    r := RewriteIndexHtml(w, names);
    if r.Err? {
      return;
    }
    r := WriteMinimalViteConfig(w, names);
    if r.Err? {
      return;
    }
    r := AugmentPackageJson(w, names, codec);
    if r.Err? {
      return;
    }
    r := CheckAppImports(w);
  }
}
