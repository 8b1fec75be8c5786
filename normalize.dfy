/**
 * `prepareViteProject` (vercelDeploy.js:138-327) as a sequence of tree rewrites, each a function
 * from the tree before the step to the tree after it or the error that stops the preparation.
 * The order in which the filesystem lists a directory is a parameter: `ns` is the root listing
 * taken at the start, `ans` the listing of the root `assets` directory taken when it is merged.
 */
module Normalize {
  import opened Base
  import opened Text
  import opened Patterns
  import opened ImportFixer
  import opened Files
  import opened Manifest

  /** The six files moved into `src`, in the order they are moved. */
  const KeyFiles: seq<Name> := ["main.jsx", "main.tsx", "App.jsx", "App.tsx", "App.css", "index.css"]

  const ViteConfigText :=
    "import { defineConfig } from 'vite'\nimport react from '@vitejs/plugin-react'\n\nexport default defineConfig({\n"
    + "  plugins: [react()],\n  build: {\n    outDir: 'dist',\n    assetsDir: 'assets'\n  }\n})\n"

  const ReactPlaceholder :=
    "<svg xmlns=\"http://www.w3.org/2000/svg\" viewBox=\"0 0 100 100\">\n"
    + "  <circle cx=\"50\" cy=\"50\" r=\"40\" stroke=\"black\" stroke-width=\"3\" fill=\"blue\" />\n</svg>"

  const VitePlaceholder :=
    "<svg xmlns=\"http://www.w3.org/2000/svg\" viewBox=\"0 0 100 100\">\n"
    + "  <polygon points=\"50,10 90,90 10,90\" stroke=\"black\" stroke-width=\"3\" fill=\"yellow\" />\n</svg>"

  function InSrc(n: Name): Path {
    ["src", n]
  }

  function InAssets(n: Name): Path {
    ["src", "assets", n]
  }

  predicate IsSvgName(n: Name) {
    EndsWith(n, ".svg")
  }

  /** Lines 142-150: `src` and `src/assets` are created; a file standing at either path stops the preparation. */
  function MakeSrcDirs(t: Tree): (r: Result<Tree>)
    ensures r.Ok? <==> ["src"] !in t && InSrc("assets") !in t
    ensures r.Ok? ==> r.value == t
  {
    if ["src"] in t || InSrc("assets") in t then Err(IoFailure) else Ok(t)
  }

  /** Lines 155-157 for one root name: an `.svg` is copied into `src/assets` and unlinked. */
  function MoveSvg(t: Tree, n: Name): Result<Tree> {
    if IsSvgName(n) then
      var t1 :- CopyAt(t, [n], InAssets(n));
      UnlinkAt(t1, [n])
    else
      Ok(t)
  }

  /** Lines 153-158: the `.svg` names of the root listing, moved in listing order. */
  function MoveSvgs(t: Tree, ns: seq<Name>): Result<Tree>
    decreases |ns|
  {
    if ns == [] then Ok(t)
    else
      var t1 :- MoveSvg(t, ns[0]);
      MoveSvgs(t1, ns[1..])
  }

  /** Lines 169-186: script files have their imports fixed, and `App` scripts their asset imports redirected; others are copied verbatim. */
  function Transform(f: Name, content: string): (r: string)
    ensures !EndsWith(f, ".jsx") && !EndsWith(f, ".js") && !EndsWith(f, ".tsx") && !EndsWith(f, ".ts") ==> r == content
  {
    if EndsWith(f, ".jsx") || EndsWith(f, ".js") || EndsWith(f, ".tsx") || EndsWith(f, ".ts") then
      var fixed := FixImportStatements(content);
      if f == "App.jsx" || f == "App.tsx" then RedirectAppAssets(fixed) else fixed
    else
      content
  }

  /** Lines 163-193 for one file: when the root listing has it, read it, write its transformed text in `src`, unlink it. */
  function MoveKeyFile(t: Tree, ns: seq<Name>, f: Name): Result<Tree> {
    if f in ns then
      var content :- ReadAt(t, [f]);
      var t1 :- WriteAt(t, InSrc(f), Transform(f, content));
      UnlinkAt(t1, [f])
    else
      Ok(t)
  }

  /** Lines 161-194: the key files, in their fixed order. */
  function MoveKeyFiles(t: Tree, ns: seq<Name>, fs: seq<Name>): Result<Tree>
    decreases |fs|
  {
    if fs == [] then Ok(t)
    else
      var t1 :- MoveKeyFile(t, ns, fs[0]);
      MoveKeyFiles(t1, ns, fs[1..])
  }

  /** Lines 200-202: each listed entry of `assets` is copied to the same name in `src/assets`. */
  function CopyAssets(t: Tree, ans: seq<Name>): Result<Tree>
    decreases |ans|
  {
    if ans == [] then Ok(t)
    else
      var t1 :- CopyAt(t, ["assets", ans[0]], InAssets(ans[0]));
      CopyAssets(t1, ans[1..])
  }

  /** Lines 197-204: a root `assets` directory is merged into `src/assets` and then removed. */
  function MergeAssets(t: Tree, ns: seq<Name>, ans: seq<Name>): Result<Tree> {
    if "assets" in ns then
      if !IsDir(t, ["assets"]) || ["assets"] in t then Err(IoFailure)
      else
        var t1 :- CopyAssets(t, ans);
        Ok(RemoveTreeAt(t1, ["assets"]))
    else
      Ok(t)
  }

  /** The spelling the guard looks for besides the relative one: `src="main.<ext>"`. */
  function Bare(ext: string): string {
    "src=\"main." + ext + "\""
  }

  /** The guard of lines 211 and 217: the page names the entry script bare or relative. */
  predicate MentionsEntry(c: string, ext: string) {
    Contains(c, Bare(ext)) || Contains(c, Relative(ext))
  }

  /** Lines 211-213 (`jsx`) and 217-219 (`tsx`) on the text: the global rewrite of the entry script reference, run only when the guard holds. */
  function Guarded(c: string, ext: string): (r: string)
    ensures !MentionsEntry(c, ext) ==> r == c
  {
    if MentionsEntry(c, ext) then ReplaceAll(MainScript(ext), c) else c
  }

  /** Lines 211-219 on the text: the `jsx` rewrite, then the `tsx` rewrite guarded on its result. */
  function IndexRewrite(c: string): (r: string)
    ensures !MentionsEntry(c, "jsx") && !MentionsEntry(c, "tsx") ==> r == c
  {
    Guarded(Guarded(c, "jsx"), "tsx")
  }

  /** Lines 207-222: `index.html` is read and written back after each rewrite that its guard lets run. */
  function RewriteIndex(t: Tree, ns: seq<Name>): Result<Tree> {
    if "index.html" in ns then
      var c :- ReadAt(t, ["index.html"]);
      var c1 := Guarded(c, "jsx");
      var t1 :- if MentionsEntry(c, "jsx") then WriteAt(t, ["index.html"], c1) else Ok(t);
      if MentionsEntry(c1, "tsx") then WriteAt(t1, ["index.html"], Guarded(c1, "tsx")) else Ok(t1)
    else
      Ok(t)
  }

  /** Lines 225-239: a minimal `vite.config.js` is written when the root listing had no Vite config. */
  function WriteViteConfig(t: Tree, ns: seq<Name>): Result<Tree> {
    if "vite.config.js" !in ns && "vite.config.ts" !in ns then WriteAt(t, ["vite.config.js"], ViteConfigText)
    else Ok(t)
  }

  /** Lines 242-276: `package.json` is parsed, augmented and printed back. */
  function AugmentManifest(t: Tree, ns: seq<Name>, codec: Codec): Result<Tree> {
    if "package.json" in ns then
      var c :- ReadAt(t, ["package.json"]);
      match codec.parse(c)
      case None => Err(ManifestParseError)
      case Some(p) => WriteAt(t, ["package.json"], codec.show(Augmented(p)))
    else
      Ok(t)
  }

  /** The guard of lines 293 and 309: the App names the asset under `./assets/` or after a slash. */
  predicate MentionsAsset(c: string, n: Name) {
    Contains(c, "./assets/" + n) || Contains(c, "/" + n)
  }

  /** Lines 293-307 for one asset: a placeholder is written when the App names it and nothing is at its path. */
  function Placeholder(t: Tree, c: string, n: Name, svg: string): Result<Tree> {
    if MentionsAsset(c, n) && !Exists(t, InAssets(n)) then WriteAt(t, InAssets(n), svg) else Ok(t)
  }

  /** Lines 279-324: when `src/App.jsx` exists, it is copied to `app-debug.txt` and the SVGs it names are ensured. */
  function FinalCheck(t: Tree): Result<Tree> {
    if Exists(t, InSrc("App.jsx")) then
      var c :- ReadAt(t, InSrc("App.jsx"));
      var t1 :- WriteAt(t, ["app-debug.txt"], c);
      var t2 :- Placeholder(t1, c, "react.svg", ReactPlaceholder);
      Placeholder(t2, c, "vite.svg", VitePlaceholder)
    else
      Ok(t)
  }

  /**
   * `ns` is what `readdir` gave for the root of `t`, and `ans` what it gave for the root `assets`
   * directory when there is one: the listings `Prepare` is meant to be given.
   */
  ghost predicate Listed(t: Tree, ns: seq<Name>, ans: seq<Name>) {
    && IsListing(ns, RootNames(t))
    && (IsDir(t, ["assets"]) && ["assets"] !in t ==> IsListing(ans, Children(t, ["assets"])))
  }

  /** `prepareViteProject`: the steps in source order; the first failing step ends the preparation. */
  function Prepare(t: Tree, ns: seq<Name>, ans: seq<Name>, codec: Codec): Result<Tree> {
    var t1 :- MakeSrcDirs(t);
    var t2 :- MoveSvgs(t1, ns);
    var t3 :- MoveKeyFiles(t2, ns, KeyFiles);
    var t4 :- MergeAssets(t3, ns, ans);
    var t5 :- RewriteIndex(t4, ns);
    var t6 :- WriteViteConfig(t5, ns);
    var t7 :- AugmentManifest(t6, ns, codec);
    FinalCheck(t7)
  }

  /** The intermediate trees of a preparation that succeeds. */
  lemma {:induction false} PrepareSteps(t: Tree, ns: seq<Name>, ans: seq<Name>, codec: Codec)
    returns (fs: seq<Name>, t2: Tree, t3: Tree, t4: Tree, t5: Tree, t6: Tree, t7: Tree)
    requires Prepare(t, ns, ans, codec).Ok?
    ensures fs == KeyFiles
    ensures MakeSrcDirs(t) == Ok(t)
    ensures MoveSvgs(t, ns) == Ok(t2)
    ensures MoveKeyFiles(t2, ns, fs) == Ok(t3)
    ensures MergeAssets(t3, ns, ans) == Ok(t4)
    ensures RewriteIndex(t4, ns) == Ok(t5)
    ensures WriteViteConfig(t5, ns) == Ok(t6)
    ensures AugmentManifest(t6, ns, codec) == Ok(t7)
    ensures FinalCheck(t7) == Prepare(t, ns, ans, codec)
  {
    fs := KeyFiles;
    t2 := MoveSvgs(t, ns).value;
    t3 := MoveKeyFiles(t2, ns, fs).value;
    t4 := MergeAssets(t3, ns, ans).value;
    t5 := RewriteIndex(t4, ns).value;
    t6 := WriteViteConfig(t5, ns).value;
    t7 := AugmentManifest(t6, ns, codec).value;
  }
}
