# Vercel deployer: a Dafny model

This project models the deployment core of a small Node.js service that takes an uploaded project
and publishes it to Vercel. Every deployment does the same things:

- It copies the upload directory (`repo`) into a fresh staging directory.
- It refuses an empty or undeployable copy.
- It classifies the project as `vite`, `next`, `react`, `node` or `static`.
- For a Vite project, it reshapes the tree into the standard `src/` layout. This step moves SVGs
  and key files, fixes broken import statements, merges `assets/`, rewrites `index.html`, writes a
  minimal `vite.config.js`, augments `package.json` and performs a final App check.
- It writes a `vercel.json` descriptor chosen by the project kind.
- It runs the Vercel CLI and reads the deployment URL out of the CLI's output.
- It always cleans up the staging directory afterwards.

Around this core, the HTTP server:

- filters and cleans uploaded names;
- routes `<sub>.web.net:<port>` hosts to mapped deployments;
- keeps the deployment state: latest URL, interval, cron job and next deployment time. The
  `/upload` and `/add-files` handlers update it.

The model is written in the source's own forms:

- The filesystem is a `Workspace` class. Its one field, the tree of files, is read by `readdir` and
  `readFile`, and changed in place by `writeFile`, `unlink`, `copyFile` and `rm`.
- Each procedure that calls the filesystem step by step is a method over that workspace. These are
  `prepareViteProject`, `cleanupTempDirectory`, `getAllFiles`, `deployToVercel` and
  `processUploadedFiles`.
- Each such method is proved to leave exactly the tree its specification function computes from
  the listings `ns` (the root) and `ans` (the root `assets` directory). Its ensures also state that
  these are listings of the tree the method started from (`Normalize.Listed`). The properties of the
  procedure are then proved about those functions.
- The regular expressions are matchers over strings, and `replace` (global and first-match) is a
  scan over the table of matches.
- `Number.parseInt` is a function over strings.
- The deployment state and the request are classes.

Modules, in dependency order:

| module | file | what it models |
|---|---|---|
| `Base` | base.dfy | `Option`, `Result`, the error kinds |
| `Text` | text.dfy | `includes`, `endsWith`, `\s`, `\w` on strings |
| `Patterns` | patterns.dfy | the regular expressions of `fixImportStatements` and the App redirects, `replace` with and without `g` |
| `ImportFixer` | import_fixer.dfy | `fixImportStatements` and the six App redirects, on one import line |
| `Splice` | splice.dfy | `replace` on a text made of two pieces |
| `Lines` | lines.dfy | `fixImportStatements` and the App redirects on a whole file, line by line |
| `Files` | files.dfy | the staging directory and the `fs.promises` calls |
| `Manifest` | manifest.dfy | `package.json` and its augmentation |
| `Classify` | classify.dfy | `validateDeployable`, `detectProjectType` |
| `Descriptor` | descriptor.dfy | the `vercel.json` descriptor |
| `DeployUrl` | deploy_url.dfy | reading the URL out of the CLI output |
| `Normalize`, `NormalizeSteps`, `NormalizeProps` | normalize*.dfy | `prepareViteProject` as tree rewrites, step lemmas, end-to-end properties |
| `EntryScript` | entry_script.dfy | the `index.html` entry-script rewrite on a page of any shape |
| `ViteSetup` | vite_setup.dfy | `prepareViteProject` as filesystem calls on the workspace |
| `Reclaim` | reclaim.dfy | `cleanupTempDirectory` |
| `Deploy` | deploy.dfy | `deployToVercel`, `getAllFiles` |
| `JsNumber` | js_number.dfy | `Number.parseInt` without a radix |
| `Server` | server.dfy | `shouldSkipFile`, `processUploadedFiles`, the subdomain middleware, `/upload`, `/add-files` |

Two behaviours of the code are worth knowing:

- After a failed CLI run, the URL is searched for in `stdout || stderr || message`: the first of
  the three that is non-empty (vercelDeploy.js:438).
- `processUploadedFiles` reports success whenever its second listing succeeds, whether or not
  `package.json` is present (server.js:160-181).

## Model

| member | source | states |
|---|---|---|
| ImportFixer.FixImportLine | vercelDeploy.js:114-135 | an import line with any quoting, its closing quote missing or present, becomes the well-formed single-quoted line `import x from 'q'` |
| ImportFixer.FixKeepsWellFormedImport | vercelDeploy.js:114-135 | a well-formed single-quoted import line is left unchanged |
| ImportFixer.FixClosesAssetImport | vercelDeploy.js:116-119 | an unterminated `import x from './assets/p` gets its closing quote |
| ImportFixer.LineImportNormalises | vercelDeploy.js:124-127 | the second global rewrite turns any quoting of an import line into the single-quoted form |
| ImportFixer.AssetImportOnImportLine | vercelDeploy.js:116-119 | the first rewrite changes an import line exactly when its path is `./assets/` plus something, and otherwise leaves it alone |
| ImportFixer.LineFromKeepsImportLine | vercelDeploy.js:130-132 | the `from` rewrite keeps a well-formed import line |
| ImportFixer.RedirectImportLine | vercelDeploy.js:175-185 | on a well-formed import line, the six first-match redirects rewrite only its module path, to the path `RedirectPath` gives |
| ImportFixer.RedirectSteps | vercelDeploy.js:177-184 | each redirect kind on an import line: `./assets/` kept, root `/x.svg` moved under `./assets/`, a literal target swapped for its destination |
| ImportFixer.RootSvgAt | vercelDeploy.js:178 | the root-SVG pattern matches exactly a quoted `/name.svg` path of at least five characters and moves it under `./assets/` |
| ImportFixer.RedirectChainPlain | vercelDeploy.js:177-184 | every intermediate path of the redirect chain stays free of quotes and whitespace, so each later redirect still sees a well-formed line |
| ImportFixer.FixImportStatements | vercelDeploy.js:114-135 | the three global rewrites in source order; what they do is stated by `FixImportLine`, `Lines.FixJoin` and `Lines.FixImportLineInFile` |
| ImportFixer.RedirectAppAssets | vercelDeploy.js:175-185 | the six first-occurrence redirects in source order; what they do is stated by `RedirectImportLine`, `Lines.FirstJoin` and `Lines.RedirectFirstOnly` |
| Lines.LeftAgreesClosed | vercelDeploy.js:114-135 | no match of the import patterns or of the quoted redirects crosses a split made after a closing quote (and any `;` and blanks) and before a line end |
| Lines.FixJoin | vercelDeploy.js:114-135 | at such a split, fixing the file is fixing each piece and joining the results |
| Lines.FixLeadingBreak | vercelDeploy.js:114-135 | a leading line end is kept, and the rest is fixed on its own |
| Lines.FixAfterLine | vercelDeploy.js:114-135 | after a complete line, the rest of the file is fixed on its own |
| Lines.FixInFile | vercelDeploy.js:114-135 | a piece that ends with a quote, placed after a complete line and before a line end, is fixed as it would be alone, and so is the text around it |
| Lines.FixImportLineInFile | vercelDeploy.js:114-135 | an import line with its closing quote (`'` or `"`), opened by either quote, anywhere in a file after a complete line and before a line end, becomes `import x from 'q'`; the rest of the file is fixed as it would be without it |
| Lines.AssetImportCapture | vercelDeploy.js:116-119 | an asset import with no closing quote on its line: the greedy path runs over the line end up to the next quote, and that quote is replaced by a single quote |
| Lines.FirstJoin | vercelDeploy.js:175-185 | on a file split after a statement and before a line end, a first-occurrence redirect rewrites only the first piece when that piece holds a match, and otherwise keeps the first piece and rewrites in the second |
| Lines.StepOverFixedTail | vercelDeploy.js:175-185 | a redirect that leaves the second piece alone rewrites the file as it rewrites the first piece |
| Lines.RedirectFirstOnly | vercelDeploy.js:177-184 | with two root-relative SVG imports on consecutive lines, only the first is sent to `./assets/`, and the second keeps its path when it is neither `/vite.svg` nor `/react.svg` |
| Lines.RedirectSecondDefault | vercelDeploy.js:177-184 | with two root-relative SVG imports on consecutive lines where the second is `/vite.svg` or `/react.svg`, `RootSvgFrom` sends only the first to `./assets/`, and the literal redirect for that name (lines 183-184) then sends the second there too |
| Splice.ReplaceAllJoin | vercelDeploy.js:116-132 | when no match starting in `a` reaches into `b`, the global `replace` of `a + b` is the replace of `a` followed by the replace of `b` |
| Splice.ReplaceFirstLeft | vercelDeploy.js:177-184 | under the same condition, when `a` holds a match, the first-occurrence `replace` of `a + b` rewrites `a` and keeps `b` |
| Splice.ReplaceFirstRight | vercelDeploy.js:177-184 | under the same condition, when `a` holds no match, the first-occurrence `replace` of `a + b` keeps `a` and rewrites `b` |
| Patterns.RunEndSpec | vercelDeploy.js:116 | a greedy character-class run holds only class characters and stops at the end or at a character outside the class |
| Patterns.LazySpec | vercelDeploy.js:124 | the lazily captured path holds no quote and no line terminator |
| Patterns.LazyClosedAtEnd | vercelDeploy.js:124 | a path closed by a quote at the end of the text is captured whole |
| Patterns.FromQuote | vercelDeploy.js:130 | a found `from\s+['"]` starts with `from` and ends at a quote inside the text |
| Patterns.FromQuoteSpec | vercelDeploy.js:130 | only whitespace lies between `from` and the quote |
| Patterns.ImportHead | vercelDeploy.js:116 | a found import head starts with `import`, and its name, `from` and quote are in that order |
| Patterns.ImportHeadSpec | vercelDeploy.js:116 | the head's gaps are whitespace and its name is a `\w+` run |
| Patterns.ReplaceAll | vercelDeploy.js:116-132 | `replace` with the `g` flag, as a scan over the table of matches; stated by `RewriteStable`, `NoMatchReplaceAll`, `ReplaceAllWhole` and `Splice.ReplaceAllJoin` |
| Patterns.ReplaceFirst | vercelDeploy.js:177-184 | `replace` without `g`; stated by `ReplaceFirstAt`, `NoMatchReplaceFirst` and `Splice.ReplaceFirstLeft` |
| Patterns.MatchAt | vercelDeploy.js:116-184 | a match at `i` ends after `i`, inside the text |
| Patterns.Matches | vercelDeploy.js:116-132 | the table holds the match at every index |
| Patterns.FirstIn | vercelDeploy.js:177-184 | the first match found is the leftmost one, and none is found only when no index matches |
| Patterns.ImportMatchNeedsHead | vercelDeploy.js:116-127 | both `import` patterns match only where an import head does |
| Patterns.LineImportAt | vercelDeploy.js:124-127 | at an import head, the `LineImport` match runs to the end of the line and writes the requoted, closed line |
| Patterns.AssetImportAt | vercelDeploy.js:116-119 | at an import head with a `./assets/` path, the `AssetImport` match consumes an optional closing quote and writes the closed line |
| Patterns.AssetImportNone | vercelDeploy.js:116 | without `./assets/` and one more path character, `AssetImport` does not match |
| Patterns.LineFromAt | vercelDeploy.js:130-132 | after `from\s+['"]`, the `LineFrom` match writes the requoted path |
| Patterns.RewriteStable | vercelDeploy.js:116-132 | replacing every match by the text it matched changes nothing |
| Patterns.ReplaceAllWhole | vercelDeploy.js:116-132 | a match at the start that runs to the end replaces the whole text |
| Patterns.ReplaceAllTail | vercelDeploy.js:116-132 | a match that runs to the end, with none before it, replaces the tail |
| Patterns.NoMatchReplaceAll | vercelDeploy.js:116-132 | where nothing matches, the global `replace` returns its input |
| Patterns.NoMatchReplaceFirst | vercelDeploy.js:177-184 | where nothing matches, the first-match `replace` returns its input |
| Patterns.ReplaceFirstAt | vercelDeploy.js:177-184 | the first-match `replace` rewrites the leftmost match only and keeps the text around it |
| Files.ReadAt | vercelDeploy.js:167 | a read succeeds exactly on a file, and gives its content |
| Files.WriteAt | vercelDeploy.js:189 | a write succeeds exactly when the path is not a directory and no file stands on the way to it; the tree then has the new content there |
| Files.UnlinkAt | vercelDeploy.js:192 | an unlink succeeds exactly on a file, and removes just that file |
| Files.CopyAt | vercelDeploy.js:156 | a copy succeeds exactly when the source is a file and the target is writable; the target then holds the source's content |
| Files.RemoveTreeAt | vercelDeploy.js:203 | a recursive removal takes away the path and everything under it, and keeps everything else with its content |
| Files.WriteKeepsValid | vercelDeploy.js:189 | a successful write leaves a tree a filesystem can hold |
| Files.SubtreeValid | server.js:147-149 | removing files leaves a tree a filesystem can hold |
| Files.Workspace.ReadDir | vercelDeploy.js:140 | a listing succeeds exactly on a directory, lists each child once, and otherwise fails with an I/O error |
| Files.Workspace.ReadFile | vercelDeploy.js:167 | the in-place read gives what `ReadAt` gives |
| Files.Workspace.WriteFile | vercelDeploy.js:189 | the workspace becomes `WriteAt`'s tree on success and is unchanged on failure; validity is kept |
| Files.Workspace.Unlink | vercelDeploy.js:192 | the workspace becomes `UnlinkAt`'s tree on success and is unchanged on failure; validity is kept |
| Files.Workspace.CopyFile | vercelDeploy.js:349 | the workspace becomes `CopyAt`'s tree on success and is unchanged on failure; validity is kept |
| Files.Workspace.RemoveTree | vercelDeploy.js:203 | the workspace becomes `RemoveTreeAt`'s tree, and validity is kept |
| Manifest.Merged | vercelDeploy.js:25 | the merged dependencies hold the keys of both maps, and a development entry overrides a runtime one |
| Manifest.Augmented | vercelDeploy.js:247-273 | a build script (with `preview` when added), `vite`, the React plugin and React (with `react-dom` when added) are set afterwards; everything already set keeps its value; added entries get the fixed versions; other fields are untouched |
| Manifest.AugmentedIdempotent | vercelDeploy.js:247-273 | augmenting twice is augmenting once |
| Manifest.PackageObject.Augment | vercelDeploy.js:247-273 | the field-by-field in-place update leaves the object equal to `Augmented` of what it was |
| Classify.KindOfManifest | vercelDeploy.js:25-48 | Vite (dependency or config file) has priority, then Next, then the four server frameworks, then React, otherwise Node; a project with a manifest is never static |
| Classify.Detect | vercelDeploy.js:18-70 | without `package.json` the project is static; an unreadable manifest is an I/O error; a malformed one is a parse error; otherwise the manifest decides |
| Classify.Validate | vercelDeploy.js:103-111 | a root passes exactly when it has `index.html` or `package.json`; otherwise the error is "not deployable" |
| Classify.ValidatedWithoutManifestIsStatic | vercelDeploy.js:18-24 | a validated root without `package.json` has `index.html` and is detected as static |
| Descriptor.BuildFor | vercelDeploy.js:381-422 | each kind name gets its builder and output directory; any other name gets the static builder |
| Descriptor.OutputDirectories | vercelDeploy.js:382-401 | only `vite` and `react` have a build configuration, and only the four manifest kinds build from `package.json` |
| Descriptor.Describe | vercelDeploy.js:367-422 | version 2 and public, the alias is `<subdomain>.vercel.app`, one catch-all route, exactly one build entry chosen by the kind |
| DeployUrl.UrlEnd | vercelDeploy.js:452 | a URL runs past its scheme and ends inside the text |
| DeployUrl.FirstUrlFrom | vercelDeploy.js:452 | a found start is inside the text and begins a URL |
| DeployUrl.FirstUrlFromSpec | vercelDeploy.js:452 | the search finds the leftmost URL, and finds none only when there is none |
| DeployUrl.FirstUrlSpec | vercelDeploy.js:452 | the match is leftmost, starts with `https://`, holds no whitespace and is maximal; nothing is found only in text without a URL |
| DeployUrl.FirstUrl | vercelDeploy.js:452 | `match(/https:\/\/[^\s]+/)`; stated by `FirstUrlSpec` |
| DeployUrl.ErrorText | vercelDeploy.js:438 | the first non-empty of stdout, stderr and the message |
| DeployUrl.Extract | vercelDeploy.js:431-459 | a finished run gives the URL in stdout; a failed run gives the URL in its error text; without a URL, the error carries the searched text |
| DeployUrl.FailedRunWithUrlSucceeds | vercelDeploy.js:436-444 | a failed run whose stdout holds a URL still deploys, and stderr is never read |
| DeployUrl.ExtractedUrlShape | vercelDeploy.js:431-459 | every extracted URL starts with `https://` and has no whitespace |
| DeployUrl.FirstUrlBetween | vercelDeploy.js:452 | a URL with no `h` before it, ended by whitespace or the end of the text, is the one found |
| DeployUrl.FirstUrlOfParts | vercelDeploy.js:452 | `prefix + https://rest + blank-led suffix` yields exactly `https://rest` |
| DeployUrl.ExampleOutput | vercelDeploy.js:452 | the URL in a typical success line is read up to the space after it |
| Normalize.MakeSrcDirs | vercelDeploy.js:142-150 | creating `src` and `src/assets` succeeds exactly when no file stands at either path, and changes no file |
| Normalize.Transform | vercelDeploy.js:169-186 | style sheets and other non-script files are copied verbatim |
| Normalize.Guarded | vercelDeploy.js:211-219 | a page that does not name the entry script bare or relatively is left unchanged by that extension's rewrite |
| Normalize.IndexRewrite | vercelDeploy.js:207-222 | a page that names neither entry script is left unchanged; the rewrite of a page that does is stated by the `EntryScript` lemmas |
| Normalize.MoveSvgs | vercelDeploy.js:153-158 | the root `.svg` files moved in listing order; stated by `NormalizeSteps.MoveSvgsAt` |
| Normalize.MoveKeyFiles | vercelDeploy.js:161-194 | the key files read, transformed, written into `src` and unlinked; stated by `NormalizeSteps.MoveKeyFilesAt` |
| Normalize.CopyAssets | vercelDeploy.js:200-202 | the listed `assets` entries copied; stated by `NormalizeSteps.CopyAssetsAt` |
| Normalize.MergeAssets | vercelDeploy.js:197-204 | the root `assets` merged and removed; stated by `NormalizeSteps.MergeAssetsAt` |
| Normalize.RewriteIndex | vercelDeploy.js:207-222 | `index.html` read, rewritten by `IndexRewrite` and written back; stated by `NormalizeSteps.RewriteIndexAt` |
| Normalize.WriteViteConfig | vercelDeploy.js:225-239 | the minimal config written when the root listing has no Vite config; stated by `NormalizeProps.ViteConfigWritten` |
| Normalize.AugmentManifest | vercelDeploy.js:242-276 | `package.json` parsed, augmented and printed back; stated by `NormalizeSteps.AugmentManifestAt` |
| Normalize.FinalCheck | vercelDeploy.js:279-324 | the App copied to `app-debug.txt` and the placeholders written; stated by `NormalizeSteps.FinalCheckAt` and `NormalizeProps.AppChecked` |
| Normalize.Prepare | vercelDeploy.js:138-327 | the eight steps in source order, the first failure ending the preparation; stated by `PrepareSteps` and the `NormalizeProps` lemmas |
| NormalizeSteps.MoveSvgsAt | vercelDeploy.js:153-158 | after the SVG moves, each root `.svg` is gone and its content is in `src/assets`; every other path keeps its content |
| NormalizeSteps.MoveKeyFilesAt | vercelDeploy.js:161-194 | after the key-file moves, each listed key file is gone from the root and its transformed text is in `src`; every other path keeps its content |
| NormalizeSteps.CopyAssetsAt | vercelDeploy.js:200-202 | each listed `assets` entry is copied to `src/assets` under its name; every other path keeps its content |
| NormalizeSteps.MergeAssetsAt | vercelDeploy.js:197-204 | the merge copies the root `assets` into `src/assets` and removes the root `assets`; every other path keeps its content |
| NormalizeSteps.RewriteIndexAt | vercelDeploy.js:207-222 | only `index.html` changes, and it becomes the rewritten text of what it held |
| NormalizeSteps.AugmentManifestAt | vercelDeploy.js:242-276 | only `package.json` changes, and it becomes the printed augmentation of its parse |
| NormalizeSteps.FinalCheckAt | vercelDeploy.js:279-324 | the final check changes only `app-debug.txt` and the two placeholder paths |
| Normalize.PrepareSteps | vercelDeploy.js:138-327 | a successful preparation is the composition of its eight steps in source order |
| NormalizeProps.SvgRelocated | vercelDeploy.js:153-158 | after a successful preparation, each root SVG is in `src/assets` with its content and gone from the root, unless a same-named `assets` entry overrides it |
| NormalizeProps.KeyFileRelocated | vercelDeploy.js:161-194 | after a successful preparation, each key file is in `src` with its transformed text and gone from the root |
| NormalizeProps.AssetsKeptByMoves | vercelDeploy.js:153-194 | the SVG and key-file moves leave the root `assets` directory, its presence and its children as they found them, so the listing taken before still lists it |
| NormalizeProps.IndexRewritten | vercelDeploy.js:207-222 | `index.html` holds `IndexRewrite` of what it held; with `EntryScript.PreparedPageRelative` and `PreparedPageBare` this says what the page names afterwards |
| NormalizeProps.ViteConfigWritten | vercelDeploy.js:225-239 | `vite.config.js` is the minimal config exactly when the root had neither Vite config; otherwise it is untouched |
| NormalizeProps.ManifestAugmented | vercelDeploy.js:242-276 | `package.json` parsed and now holds the printed augmentation of its old content |
| NormalizeProps.ManifestReadsBack | vercelDeploy.js:242-276 | with a lawful codec, the new manifest reads back with a build script, `vite`, the React plugin and React declared |
| NormalizeProps.AppChecked | vercelDeploy.js:279-324 | `app-debug.txt` is a copy of the App, and each SVG the App names exists in `src/assets` |
| NormalizeProps.Untouched | vercelDeploy.js:138-327 | any path other than those in `src`, the listed root `.svg` and key files it moves, the root `assets` directory, `index.html`, `package.json`, `vite.config.js` and `app-debug.txt` holds afterwards what it held before, so `README.md`, `public/…` and `server.js` keep their content |
| EntryScript.ScriptSplits | vercelDeploy.js:211-219 | a page `p + k + q` around a spelling `k` that starts with `src="` and cannot restart inside itself is rewritten piece by piece |
| EntryScript.ReferenceRewritten | vercelDeploy.js:211-219 | wherever the relative or the absolute reference stands in a page, the global rewrite puts `src="/src/main.<ext>"` in its place and rewrites the text around it on its own |
| EntryScript.InertKept | vercelDeploy.js:211-219 | a spelling that holds no match of the pattern is left as it is |
| EntryScript.BareReferenceKept | vercelDeploy.js:211-219 | wherever a bare `src="main.<x>"` stands in a page, the rewrite of either extension keeps it and rewrites the text around it on its own |
| EntryScript.RelativeReferenceRewritten | vercelDeploy.js:211-219 | a page holding the relative reference passes the guard, and the guarded rewrite puts the reference into `src` in its place |
| EntryScript.AbsoluteReferenceRewritten | vercelDeploy.js:211-219 | on a page the guard lets through, the absolute reference is rewritten in the same way |
| EntryScript.AbsoluteAloneKept | vercelDeploy.js:211-219 | a page whose only reference is the absolute one passes neither guard and is left as it is |
| EntryScript.InertSurvives | vercelDeploy.js:211-219 | a spelling inert for both extensions is still in the page after both guarded rewrites |
| EntryScript.BareReferenceSurvives | vercelDeploy.js:211-219 | a page with a bare reference passes the guard, yet the bare reference is still in it after both rewrites |
| EntryScript.TargetSurvives | vercelDeploy.js:211-219 | a reference already into `src` is still in the page after both rewrites |
| EntryScript.RelativeEndsInSrc | vercelDeploy.js:207-222 | wherever the relative reference of either entry script stands, the page afterwards names that script inside `src` |
| EntryScript.PreparedPageRelative | vercelDeploy.js:207-222 | after a successful preparation, a root page that named its entry script relatively names it inside `src` |
| EntryScript.PreparedPageBare | vercelDeploy.js:207-222 | after a successful preparation, a root page that named its entry script bare still names it bare |
| ViteSetup.MakeSourceDirectories | vercelDeploy.js:142-150 | the directory creation fails exactly when `MakeSrcDirs` does, with the same error |
| ViteSetup.MoveSvgFiles | vercelDeploy.js:153-158 | the copy-and-unlink loop leaves exactly `MoveSvgs`'s tree, or fails exactly as it does |
| ViteSetup.MoveKeyFilesToSrc | vercelDeploy.js:161-194 | the read-transform-write-unlink loop leaves exactly `MoveKeyFiles`'s tree, or fails exactly as it does |
| ViteSetup.CopyAssetEntries | vercelDeploy.js:200-202 | the copy loop leaves exactly `CopyAssets`'s tree, or fails exactly as it does |
| ViteSetup.MergeAssetsDirectory | vercelDeploy.js:197-204 | the listing is a listing of `assets`; the workspace ends as `MergeAssets` says |
| ViteSetup.RewriteIndexHtml | vercelDeploy.js:207-222 | the workspace ends as `RewriteIndex` says |
| ViteSetup.WriteMinimalViteConfig | vercelDeploy.js:225-239 | the workspace ends as `WriteViteConfig` says |
| ViteSetup.AugmentPackageJson | vercelDeploy.js:242-276 | the workspace ends as `AugmentManifest` says |
| ViteSetup.CheckAppImports | vercelDeploy.js:279-324 | the workspace ends as `FinalCheck` says |
| ViteSetup.PrepareViteProject | vercelDeploy.js:138-327 | `ns` and `ans` are the listings of the root and of the root `assets` of the tree it started from (`Listed`); the workspace ends as `Prepare` says with them, or the first failing step's error is returned |
| Reclaim.Unlinked | vercelDeploy.js:79-87 | every attempted unlink of the trace is in the set |
| Reclaim.UnlinkedAppend | vercelDeploy.js:79-87 | the attempts of two traces add up |
| Reclaim.VisitChild | vercelDeploy.js:79-87 | one child is handled: a directory is cleaned recursively, a file is unlinked unless stuck; the loop invariant is extended to it, and every action of its trace lies below that child |
| Reclaim.ContentsFirstAppend | vercelDeploy.js:78-89 | the traces of two different children, one after the other, still remove no directory before an action inside it |
| Reclaim.Cleanup | vercelDeploy.js:72-101 | every file inside the directory is attempted; exactly the stuck ones remain; nothing outside changes; the trace ends with removing the directory, which succeeds exactly when it is empty; no action on a path inside a directory, at any depth, comes after the `rmdir` of that directory (`ContentsFirst`) |
| Deploy.EmptyRepositoryRefused | vercelDeploy.js:341-343 | a repository without files is refused |
| Deploy.UndeployableRefused | vercelDeploy.js:353 | a copy with neither `index.html` nor `package.json` is refused as not deployable |
| Deploy.DeployedUrlShape | vercelDeploy.js:431-459 | every URL a deployment returns starts with `https://` and holds no whitespace |
| Deploy.StagedTree | vercelDeploy.js:353-424 | the CLI runs on a validated, classified copy with `vercel.json` holding the descriptor for its kind; a non-Vite copy is otherwise unchanged, and a Vite copy is the prepared tree |
| Deploy.StaticSiteDescriptor | vercelDeploy.js:414-416 | a deployable copy without `package.json` gets the single static build entry |
| Deploy.AllFiles | vercelDeploy.js:471-494 | the listing holds exactly the files under the directory |
| Deploy.CopyAll | vercelDeploy.js:345-350 | copying the listed files makes the staging directory an exact copy of the repository |
| Deploy.StageCopy | vercelDeploy.js:337-350 | the staging directory ends as an exact copy of the repository |
| Deploy.Staged | vercelDeploy.js:337-424 | the tree the CLI runs in; stated by `StagedTree`, `EmptyRepositoryRefused` and `UndeployableRefused` |
| Deploy.Outcome | vercelDeploy.js:329-459 | the result of a deployment; stated by `DeployedUrlShape` and `Extract` |
| Deploy.Run | vercelDeploy.js:353-459 | `ns` and `ans` list the staged copy (`Listed`), and the in-place run gives the `Outcome` of that copy with them |
| Deploy.Teardown | vercelDeploy.js:463-467 | the cleanup removes every staged file except the stuck ones, and its last action removes the staging directory, succeeding exactly when it is empty |
| Deploy.DeployToVercel | vercelDeploy.js:329-469 | `ns` and `ans` list the repository (`Listed`); the result is its `Outcome` with them; the staging directory is fresh; only stuck files remain in it afterwards |
| JsNumber.ParseInt | server.js:195 | `Number.parseInt` without a radix, `None` for NaN; stated by `ParseDecimal` and `NoDigitsNaN` |
| JsNumber.SkipSpace | server.js:195 | the skipped prefix is whitespace, and the first character after it is not |
| JsNumber.DigitsEnd | server.js:195 | the run holds only digits of the radix and stops at a non-digit or the end |
| JsNumber.Decimal | server.js:195 | the decimal rendering is a non-empty run of digits |
| JsNumber.DecimalValue | server.js:195 | the digits of the rendering of `n` are worth `n` |
| JsNumber.ParseDecimal | server.js:195 | whitespace, the decimal digits of `n`, then anything that does not continue the number parses to `n` |
| JsNumber.NoDigitsNaN | server.js:195 | a text without a decimal digit is NaN |
| Server.ShouldSkip | server.js:43-56 | `shouldSkipFile`; stated by `ShouldSkipIff` |
| Server.Pruned | server.js:142-153 | the directory without its skipped top-level entries; stated by `PrunedRoot` and `PrunedIdempotent` |
| Server.IntervalOf | server.js:195 | `parseInt` of the form field; stated by `DecimalIntervals` and `DigitlessIntervalRejected` |
| Server.AnyOccurs | server.js:55 | some pattern matches exactly when some pattern of the list occurs in the name |
| Server.ShouldSkipIff | server.js:43-56 | a name is skipped exactly when it contains one of the eight substrings |
| Server.GitNamesSkipped | server.js:46 | any name containing `.git`, such as `.gitignore` or `.github`, is skipped |
| Server.BareOutputDirsKept | server.js:47-48 | entries named `dist` or `build` are kept, since the patterns need the slash |
| Server.PrunedRoot | server.js:142-153 | the cleaned root has exactly the names that are not skipped, and the kept entries keep their whole content |
| Server.PrunedIdempotent | server.js:142-153 | cleaning twice is cleaning once |
| Server.PrunedValid | server.js:142-153 | the cleaned directory is a tree a filesystem can hold |
| Server.PruneEntry | server.js:144-152 | one entry is removed whole when skipped: a directory with its contents, a file alone |
| Server.ProcessUploaded | server.js:136-186 | the directory ends exactly cleaned of skipped top-level entries, and success is reported |
| Server.FirstLabel | server.js:80 | the first label is the longest dot-free prefix, followed by a dot when shorter than the host |
| Server.FirstLabelOf | server.js:80 | the first label of `sub.rest` is `sub` |
| Server.Resolve | server.js:77-94 | a request is routed only when its host ends with `.web.net:<port>` and the mapping holds a non-empty deployment id for the first label |
| Server.MappedHostRouted | server.js:77-94 | a mapped `<sub>.web.net:<port>` host is routed to its deployment |
| Server.Request.constructor | server.js:77-94 | a request starts with its host and no routing |
| Server.RouteBySubdomain | server.js:77-94 | the request gets its deployment id and subdomain exactly when `Resolve` routes it, and is otherwise unchanged |
| Server.NextDeployTime | server.js:205 | the next deployment is at least a minute after now for an interval of at least one minute |
| Server.DecimalIntervals | server.js:195-198 | a whole number of minutes is accepted exactly when it is at least 1 |
| Server.DigitlessIntervalRejected | server.js:195-198 | a missing field, or one without a digit, is rejected |
| Server.DeploymentState.constructor | server.js:69-74 | the state starts empty and valid |
| Server.DeploymentState.RecordUpload | server.js:199-224 | the running job is stopped; a successful deployment stores the URL, interval, next time and new job; a failed one stores nothing and replies 500 |
| Server.DeploymentState.Upload | server.js:188-229 | the upload is cleaned; a rejected interval replies 400 and deploys nothing; otherwise the cleaned directory is deployed with listings of it (`Listed`), and the state updated as `RecordUpload` states |
| Server.DeploymentState.RecordRedeploy | server.js:238-245 | a successful redeploy stores the URL and sets the next time from the stored interval, or none without one; interval and job are kept |
| Server.DeploymentState.AddFiles | server.js:231-250 | the upload is cleaned and redeployed with listings of it (`Listed`), and the state is updated as `RecordRedeploy` states |
| Server.UploadedUrlShape | server.js:220-224 | a successful upload replies with a URL starting with `https://` and holding no whitespace |

## Left out

- Logging: console output and the debug messages are not modelled.
- Waiting: the one-second pause at the start of every `cleanupTempDirectory` call (vercelDeploy.js:74-75), once per directory and after the CLI has run, is not modelled.
- Process spawning: the Vercel CLI is the parameter `cli`, a function from the staged tree to how the run ended. Its options and environment are not modelled.
- Randomness: the random staging directory name and subdomain (`crypto.randomBytes`) are parameters.
- Clock: `Date.now()` is the parameter `now`.
- Date formatting: the ISO rendering of `nextDeployment` is not modelled; the reply carries the number. So the `RangeError` that `toISOString` throws for a time past 8.64e15 ms (server.js:223, 244), an interval above about 1.44e11 minutes, is not modelled either: there the code answers 500 after `deploymentState` is already updated (server.js:203-205), and the model answers with the deployment.
- JSON: `JSON.parse` and `JSON.stringify` of `package.json` are the `Codec` parameter. `Lawful` states the round trip where a property needs it. The descriptor's rendering is the parameter `render`.
- Manifest fields: `package.json` keeps only `scripts`, `dependencies` and `devDependencies` as maps of strings. Every other field is carried as opaque text.
- Mapping values: the values of `mappings.json` are strings, and "truthy" means non-empty. Prototype keys such as `constructor` are not modelled.
- Cron scheduling: `startCronJob` and `stopCronJob` are recorded, not run. The job number is the parameter `job`, and stopped jobs are appended to `stopped`. The scheduled redeployment inside the cron closure is not modelled.
- Concurrency: concurrent requests are not modelled.
- Reclaim.Cleanup: `stuck` stands in for the files the operating system refuses to unlink. Failures of `rmdir` other than a non-empty directory are not modelled.
- Empty directories: the tree holds files only. Empty directories do not exist in the model, so `getAllFiles` and the copy do not see them. The missing `repo` directory reads as an empty repository.
- Files.Workspace.ReadDir: a listing of an existing directory always succeeds. `processUploadedFiles` therefore always reports success in the model, and its error branches (server.js:155-157, 182-184) are not reachable.
- Server.ProcessUploaded: the per-file `fs.stat` loop (server.js:169-177) only logs, and is left out.
- JsNumber.ParseInt: values are unbounded integers. The rounding to a double of very long digit runs is not modelled.
- Server.NextDeployTime: times are unbounded integers, without double-precision rounding.
- Express: routing, multer storage and CORS are not modelled. So are static file serving, `GET /latest-url` and `GET /` (server.js:96-133, 252-254).
- ImportFixer.FixImportLine, FixKeepsWellFormedImport, LineImportNormalises, AssetImportOnImportLine, LineFromKeepsImportLine: each is about a text that is one import line. Import lines inside a file are covered by `Lines.FixImportLineInFile` and `Lines.FixJoin`.
- FixClosesAssetImport: holds when the unterminated import is the whole text. Inside a file the greedy path runs on to the next quote, possibly on a later line (`Lines.AssetImportCapture`).
- RedirectImportLine, RedirectSteps: each is about a text that is one import line. A file of several lines is covered by `Lines.FirstJoin`, `Lines.RedirectFirstOnly` and `Lines.RedirectSecondDefault`.
- Lines.FixJoin, FixAfterLine, FixInFile, FixImportLineInFile, FirstJoin: a split needs a closing quote, then only `;` and blanks, before the line end. A line that ends in a comment, or in anything else after its quote, is not a split these lemmas cover.
- IndexRewrite: its own ensures covers the page that names neither entry script. The rewrite of a page that does is stated by `EntryScript.ReferenceRewritten`, `BareReferenceKept`, `RelativeEndsInSrc` and the other `EntryScript` lemmas.
- IndexRewritten: it states that `index.html` holds `IndexRewrite` of its old text. What that text then names is stated by `EntryScript.PreparedPageRelative` and `EntryScript.PreparedPageBare`.
- Other files: `azureDeploy.js`, `localDeploy.js`, `cronManager.js` and `utils.js` are not part of this model.
