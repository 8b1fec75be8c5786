/**
 * What a successful Vite preparation guarantees about the tree it leaves: where the root SVGs and
 * the key files went and with what content, the rewritten page, the written config, the augmented
 * manifest, the final App check, and that every path none of the steps writes or removes keeps
 * its content.
 */
module NormalizeProps {
  import opened Base
  import opened Text
  import opened Patterns
  import opened Files
  import opened Manifest
  import opened Normalize
  import opened NormalizeSteps

  /** The names the preparation writes at the root, and the key files, are not SVG names. */
  lemma {:induction false} FixedNamesNotSvg()
    ensures forall f :: f in KeyFiles ==> !IsSvgName(f)
    ensures !IsSvgName("index.html") && !IsSvgName("vite.config.js") && !IsSvgName("package.json")
    ensures !IsSvgName("app-debug.txt") && !IsSvgName("assets")
  {
    forall f | f in KeyFiles
      ensures !IsSvgName(f)
    {
      assert f[|f| - 1] != 'g';
    }
    assert "index.html"[|"index.html"| - 1] != 'g';
    assert "vite.config.js"[|"vite.config.js"| - 1] != 'g';
    assert "package.json"[|"package.json"| - 1] != 'g';
    assert "app-debug.txt"[|"app-debug.txt"| - 1] != 'g';
    assert "assets"[|"assets"| - 1] != 'g';
  }

  /** The key files are six different names. */
  lemma {:induction false} KeyFilesDistinct()
    ensures Distinct(KeyFiles)
  {
  }

  /** The `.svg` and key-file moves leave the root `assets` directory, and so its listing, as they found it. */
  lemma {:induction false} AssetsKeptByMoves(t: Tree, ns: seq<Name>)
    requires Distinct(ns)
    requires MoveSvgs(t, ns).Ok? && MoveKeyFiles(MoveSvgs(t, ns).value, ns, KeyFiles).Ok?
    ensures var t3 := MoveKeyFiles(MoveSvgs(t, ns).value, ns, KeyFiles).value;
      && (IsDir(t3, ["assets"]) <==> IsDir(t, ["assets"]))
      && (["assets"] in t3 <==> ["assets"] in t)
      && Children(t3, ["assets"]) == Children(t, ["assets"])
  {
    var t2 := MoveSvgs(t, ns).value;
    var t3 := MoveKeyFiles(t2, ns, KeyFiles).value;
    KeyFilesDistinct();
    FixedNamesNotSvg();
    forall x: Path | |x| > 0 && x[0] == "assets"
      ensures Lookup(t3, x) == Lookup(t, x)
    {
      MoveSvgsAt(t, ns, x);
      MoveKeyFilesAt(t2, ns, KeyFiles, x);
    }
    assert Lookup(t3, ["assets"]) == Lookup(t, ["assets"]);
    forall q | Under(q, ["assets"])
      ensures q in t3 <==> q in t
    {
      assert Lookup(t3, q) == Lookup(t, q);
    }
  }

  /**
   * Every root `.svg` ends up in `src/assets` with its content and is gone from the root, unless
   * the root `assets` directory holds an entry of the same name, whose copy is made later and wins.
   */
  lemma {:induction false} SvgRelocated(t: Tree, ns: seq<Name>, ans: seq<Name>, codec: Codec, n: Name)
    requires Distinct(ns)
    requires Prepare(t, ns, ans, codec).Ok?
    requires n in ns && IsSvgName(n)
    requires "assets" in ns ==> n !in ans
    ensures [n] in t
    ensures [n] !in Prepare(t, ns, ans, codec).value
    ensures Lookup(Prepare(t, ns, ans, codec).value, InAssets(n)) == Some(t[[n]])
  {
    var fs, t2, t3, t4, t5, t6, t7 := PrepareSteps(t, ns, ans, codec);
    SvgThrough(t, ns, ans, codec, fs, t2, t3, t4, t5, t6, t7, n);
    FinalCheckAt(t7, [n]);
    FinalCheckAt(t7, InAssets(n));
  }

  /** Through the steps before the final check, a root `.svg` leaves the root for `src/assets`. */
  lemma {:induction false} SvgThrough(t: Tree, ns: seq<Name>, ans: seq<Name>, codec: Codec, fs: seq<Name>,
                                      t2: Tree, t3: Tree, t4: Tree, t5: Tree, t6: Tree, t7: Tree, n: Name)
    requires Distinct(ns) && fs == KeyFiles
    requires MoveSvgs(t, ns) == Ok(t2) && MoveKeyFiles(t2, ns, fs) == Ok(t3)
    requires MergeAssets(t3, ns, ans) == Ok(t4) && RewriteIndex(t4, ns) == Ok(t5)
    requires WriteViteConfig(t5, ns) == Ok(t6) && AugmentManifest(t6, ns, codec) == Ok(t7)
    requires n in ns && IsSvgName(n)
    requires "assets" in ns ==> n !in ans
    ensures [n] in t
    ensures Lookup(t7, [n]) == None
    ensures Lookup(t7, InAssets(n)) == Some(t[[n]])
  {
    FixedNamesNotSvg();
    KeyFilesDistinct();
    var x1: Path := [n];
    var x2 := InAssets(n);
    MoveSvgsAt(t, ns, x1);
    MoveSvgsAt(t, ns, x2);
    MoveKeyFilesAt(t2, ns, fs, x1);
    MoveKeyFilesAt(t2, ns, fs, x2);
    MergeAssetsAt(t3, ns, ans, x1);
    MergeAssetsAt(t3, ns, ans, x2);
    RewriteIndexAt(t4, ns, x1);
    RewriteIndexAt(t4, ns, x2);
    AugmentManifestAt(t6, ns, codec, x1);
    AugmentManifestAt(t6, ns, codec, x2);
  }

  /**
   * Each key file the root listing has is gone from the root and sits in `src`: script files with
   * their imports fixed (and `App` scripts with their asset imports redirected), style sheets verbatim.
   */
  lemma {:induction false} KeyFileRelocated(t: Tree, ns: seq<Name>, ans: seq<Name>, codec: Codec, f: Name)
    requires Distinct(ns)
    requires Prepare(t, ns, ans, codec).Ok?
    requires f in KeyFiles && f in ns
    ensures [f] in t
    ensures [f] !in Prepare(t, ns, ans, codec).value
    ensures Lookup(Prepare(t, ns, ans, codec).value, InSrc(f)) == Some(Transform(f, t[[f]]))
  {
    var fs, t2, t3, t4, t5, t6, t7 := PrepareSteps(t, ns, ans, codec);
    KeyFileThrough(t, ns, ans, codec, fs, t2, t3, t4, t5, t6, t7, f);
    FinalCheckAt(t7, [f]);
    FinalCheckAt(t7, InSrc(f));
  }

  /** Through the steps before the final check, a key file leaves the root for `src`, transformed. */
  lemma {:induction false} KeyFileThrough(t: Tree, ns: seq<Name>, ans: seq<Name>, codec: Codec, fs: seq<Name>,
                                          t2: Tree, t3: Tree, t4: Tree, t5: Tree, t6: Tree, t7: Tree, f: Name)
    requires Distinct(ns) && fs == KeyFiles
    requires MoveSvgs(t, ns) == Ok(t2) && MoveKeyFiles(t2, ns, fs) == Ok(t3)
    requires MergeAssets(t3, ns, ans) == Ok(t4) && RewriteIndex(t4, ns) == Ok(t5)
    requires WriteViteConfig(t5, ns) == Ok(t6) && AugmentManifest(t6, ns, codec) == Ok(t7)
    requires f in KeyFiles && f in ns
    ensures [f] in t
    ensures Lookup(t7, [f]) == None
    ensures Lookup(t7, InSrc(f)) == Some(Transform(f, t[[f]]))
  {
    FixedNamesNotSvg();
    KeyFilesDistinct();
    var x1: Path := [f];
    var x2 := InSrc(f);
    MoveSvgsAt(t, ns, x1);
    MoveKeyFilesAt(t2, ns, fs, x1);
    MoveKeyFilesAt(t2, ns, fs, x2);
    MergeAssetsAt(t3, ns, ans, x1);
    MergeAssetsAt(t3, ns, ans, x2);
    RewriteIndexAt(t4, ns, x1);
    RewriteIndexAt(t4, ns, x2);
    AugmentManifestAt(t6, ns, codec, x1);
    AugmentManifestAt(t6, ns, codec, x2);
  }

  /** A root `index.html` holds its rewritten text afterwards. */
  lemma {:induction false} IndexRewritten(t: Tree, ns: seq<Name>, ans: seq<Name>, codec: Codec)
    requires Distinct(ns)
    requires Prepare(t, ns, ans, codec).Ok?
    requires "index.html" in ns
    ensures ["index.html"] in t
    ensures Lookup(Prepare(t, ns, ans, codec).value, ["index.html"]) == Some(IndexRewrite(t[["index.html"]]))
  {
    var fs, t2, t3, t4, t5, t6, t7 := PrepareSteps(t, ns, ans, codec);
    FixedNamesNotSvg();
    KeyFilesDistinct();
    var x: Path := ["index.html"];
    MoveSvgsAt(t, ns, x);
    MoveKeyFilesAt(t2, ns, fs, x);
    MergeAssetsAt(t3, ns, ans, x);
    RewriteIndexAt(t4, ns, x);
    AugmentManifestAt(t6, ns, codec, x);
    FinalCheckAt(t7, x);
  }

  /** `vite.config.js` is the minimal config exactly when the root listing had no Vite config; otherwise it is untouched. */
  lemma {:induction false} ViteConfigWritten(t: Tree, ns: seq<Name>, ans: seq<Name>, codec: Codec)
    requires Distinct(ns)
    requires Prepare(t, ns, ans, codec).Ok?
    ensures "vite.config.js" !in ns && "vite.config.ts" !in ns ==>
      Lookup(Prepare(t, ns, ans, codec).value, ["vite.config.js"]) == Some(ViteConfigText)
    ensures "vite.config.js" in ns || "vite.config.ts" in ns ==>
      Lookup(Prepare(t, ns, ans, codec).value, ["vite.config.js"]) == Lookup(t, ["vite.config.js"])
  {
    var fs, t2, t3, t4, t5, t6, t7 := PrepareSteps(t, ns, ans, codec);
    FixedNamesNotSvg();
    KeyFilesDistinct();
    var x: Path := ["vite.config.js"];
    MoveSvgsAt(t, ns, x);
    MoveKeyFilesAt(t2, ns, fs, x);
    MergeAssetsAt(t3, ns, ans, x);
    RewriteIndexAt(t4, ns, x);
    AugmentManifestAt(t6, ns, codec, x);
    FinalCheckAt(t7, x);
  }

  /** A root `package.json` parses, and afterwards holds the printed augmentation of what it held. */
  lemma {:induction false} ManifestAugmented(t: Tree, ns: seq<Name>, ans: seq<Name>, codec: Codec)
    requires Distinct(ns)
    requires Prepare(t, ns, ans, codec).Ok?
    requires "package.json" in ns
    ensures ["package.json"] in t && codec.parse(t[["package.json"]]).Some?
    ensures Lookup(Prepare(t, ns, ans, codec).value, ["package.json"]) ==
      Some(codec.show(Augmented(codec.parse(t[["package.json"]]).value)))
  {
    var fs, t2, t3, t4, t5, t6, t7 := PrepareSteps(t, ns, ans, codec);
    FixedNamesNotSvg();
    KeyFilesDistinct();
    var x: Path := ["package.json"];
    MoveSvgsAt(t, ns, x);
    MoveKeyFilesAt(t2, ns, fs, x);
    MergeAssetsAt(t3, ns, ans, x);
    RewriteIndexAt(t4, ns, x);
    AugmentManifestAt(t6, ns, codec, x);
    FinalCheckAt(t7, x);
  }

  /**
   * With a lawful codec the prepared `package.json` reads back as the augmented manifest, so it
   * has a build script, declares Vite and its React plugin, and declares React.
   */
  lemma {:induction false} ManifestReadsBack(t: Tree, ns: seq<Name>, ans: seq<Name>, codec: Codec)
    requires Lawful(codec)
    requires Distinct(ns)
    requires Prepare(t, ns, ans, codec).Ok?
    requires "package.json" in ns
    ensures ["package.json"] in t && codec.parse(t[["package.json"]]).Some?
    ensures ["package.json"] in Prepare(t, ns, ans, codec).value
    ensures var q := codec.parse(Prepare(t, ns, ans, codec).value[["package.json"]]);
      && q == Some(Augmented(codec.parse(t[["package.json"]]).value))
      && Truthy(q.value.scripts, "build") && Declares(q.value, "vite") && Declares(q.value, PluginReact)
      && Truthy(q.value.dependencies, "react")
  {
    ManifestAugmented(t, ns, ans, codec);
    var a := Augmented(codec.parse(t[["package.json"]]).value);
    var r := Prepare(t, ns, ans, codec).value;
    assert r[["package.json"]] == codec.show(a);
    ReadsBack(codec, a);
  }

  /** A lawful codec parses what it printed. */
  lemma {:induction false} ReadsBack(codec: Codec, p: PackageJson)
    requires Lawful(codec)
    ensures codec.parse(codec.show(p)) == Some(p)
  {
  }

  /** The App names an asset exactly when it names it after a slash: the `./assets/` spelling contains that one. */
  lemma {:induction false} MentionsAssetBySlash(c: string, n: Name)
    ensures MentionsAsset(c, n) <==> Contains(c, "/" + n)
  {
    if Contains(c, "./assets/" + n) {
      assert "./assets/" + n == "./assets" + ("/" + n) + "";
      ContainsInfix("./assets", "/" + n, "", "/" + n) by {
        ContainsWitness("/" + n, 0, "/" + n);
      }
      ContainsTransitive(c, "./assets/" + n, "/" + n);
    }
  }

  /** Writing a file keeps everything that existed in existence. */
  lemma {:induction false} WriteKeepsExisting(t: Tree, p: Path, c: string, x: Path)
    requires Exists(t, x)
    ensures Exists(t[p := c], x)
  {
    if x !in t && x != [] {
      var q :| q in t && Under(q, x);
      assert q in t[p := c];
    }
  }

  /** The placeholder step leaves something at the asset's path whenever the App names it. */
  lemma {:induction false} PlaceholderEnsures(t: Tree, c: string, n: Name, svg: string, x: Path)
    requires Placeholder(t, c, n, svg).Ok?
    requires Exists(t, x)
    ensures MentionsAsset(c, n) ==> Exists(Placeholder(t, c, n, svg).value, InAssets(n))
    ensures Exists(Placeholder(t, c, n, svg).value, x)
  {
    if MentionsAsset(c, n) && !Exists(t, InAssets(n)) {
      WriteKeepsExisting(t, InAssets(n), svg, x);
    }
  }

  /** The final check copies the App to `app-debug.txt` and leaves something at every asset path the App names. */
  lemma {:induction false} FinalCheckApp(t: Tree)
    requires FinalCheck(t).Ok?
    requires InSrc("App.jsx") in FinalCheck(t).value
    ensures var r := FinalCheck(t).value;
      var c := r[InSrc("App.jsx")];
      && Lookup(r, ["app-debug.txt"]) == Some(c)
      && (MentionsAsset(c, "react.svg") ==> Exists(r, InAssets("react.svg")))
      && (MentionsAsset(c, "vite.svg") ==> Exists(r, InAssets("vite.svg")))
  {
    FinalCheckAt(t, InSrc("App.jsx"));
    var r := FinalCheck(t).value;
    assert Exists(t, InSrc("App.jsx"));
    var c := t[InSrc("App.jsx")];
    var u1 := t[["app-debug.txt"] := c];
    var u2 := Placeholder(u1, c, "react.svg", ReactPlaceholder).value;
    assert r == Placeholder(u2, c, "vite.svg", VitePlaceholder).value;
    assert Exists(u1, ["app-debug.txt"]);
    PlaceholderEnsures(u1, c, "react.svg", ReactPlaceholder, ["app-debug.txt"]);
    if MentionsAsset(c, "react.svg") {
      PlaceholderEnsures(u2, c, "vite.svg", VitePlaceholder, InAssets("react.svg"));
    } else {
      PlaceholderEnsures(u2, c, "vite.svg", VitePlaceholder, ["app-debug.txt"]);
    }
    assert r[InSrc("App.jsx")] == c;
  }

  /**
   * When the prepared tree has `src/App.jsx`, `app-debug.txt` is a copy of it, and each SVG the App
   * names is present in `src/assets`, as the file that was there or as a placeholder.
   */
  lemma {:induction false} AppChecked(t: Tree, ns: seq<Name>, ans: seq<Name>, codec: Codec)
    requires Prepare(t, ns, ans, codec).Ok?
    requires InSrc("App.jsx") in Prepare(t, ns, ans, codec).value
    ensures var r := Prepare(t, ns, ans, codec).value;
      var c := r[InSrc("App.jsx")];
      && Lookup(r, ["app-debug.txt"]) == Some(c)
      && (Contains(c, "/react.svg") ==> Exists(r, InAssets("react.svg")))
      && (Contains(c, "/vite.svg") ==> Exists(r, InAssets("vite.svg")))
  {
    var fs, t2, t3, t4, t5, t6, t7 := PrepareSteps(t, ns, ans, codec);
    FinalCheckApp(t7);
    var c := FinalCheck(t7).value[InSrc("App.jsx")];
    MentionsAssetBySlash(c, "react.svg");
    MentionsAssetBySlash(c, "vite.svg");
    SlashedAssetNames();
  }

  /** The two asset names after a slash, spelled out. */
  lemma {:induction false} SlashedAssetNames()
    ensures "/" + "react.svg" == "/react.svg" && "/" + "vite.svg" == "/vite.svg"
  {
  }

  /**
   * The paths the preparation may write or remove: anything in `src`, the listed root `.svg` files
   * and key files it moves, the root `assets` directory it merges, the page and the manifest it
   * rewrites, and the two files it creates at the root.
   */
  predicate Touched(x: Path, ns: seq<Name>) {
    x != [] &&
    (|| x[0] == "src"
     || IsRootSvg(x, ns)
     || IsRootKey(x, ns, KeyFiles)
     || InRootAssets(x)
     || x == ["index.html"]
     || x == ["package.json"]
     || x == ["vite.config.js"]
     || x == ["app-debug.txt"])
  }

  /** Every other path holds after the preparation exactly what it held before. */
  lemma {:induction false} Untouched(t: Tree, ns: seq<Name>, ans: seq<Name>, codec: Codec, x: Path)
    requires Distinct(ns)
    requires Prepare(t, ns, ans, codec).Ok?
    requires !Touched(x, ns)
    ensures Lookup(Prepare(t, ns, ans, codec).value, x) == Lookup(t, x)
  {
    var fs, t2, t3, t4, t5, t6, t7 := PrepareSteps(t, ns, ans, codec);
    KeyFilesDistinct();
    MoveSvgsAt(t, ns, x);
    MoveKeyFilesAt(t2, ns, fs, x);
    MergeAssetsAt(t3, ns, ans, x);
    RewriteIndexAt(t4, ns, x);
    AugmentManifestAt(t6, ns, codec, x);
    FinalCheckAt(t7, x);
  }
}
