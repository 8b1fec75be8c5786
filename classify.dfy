/**
 * The deployability gate (`validateDeployable`, vercelDeploy.js:103-111) and the project
 * classification (`detectProjectType`, vercelDeploy.js:18-70), both decided on the staged root.
 */
module Classify {
  import opened Base
  import opened Files
  import opened Manifest

  /** The project kinds `detectProjectType` answers with. */
  datatype Kind = Vite | Next | Node | React | Static

  /** The string the source uses for each kind. */
  function KindName(k: Kind): string {
    match k
    case Vite => "vite"
    case Next => "next"
    case Node => "node"
    case React => "react"
    case Static => "static"
  }

  /** Marks a Vite project: `vite` among the merged dependencies, or a Vite config at the root. */
  predicate ViteSignal(names: set<Name>, deps: StringMap) {
    ("vite" in deps && deps["vite"] != "") || "vite.config.js" in names || "vite.config.ts" in names
  }

  /** `deps?.[k]` is truthy. */
  predicate Has(deps: StringMap, k: string) {
    k in deps && deps[k] != ""
  }

  /** Marks a Node.js server: one of the four server frameworks. */
  predicate ServerSignal(deps: StringMap) {
    Has(deps, "express") || Has(deps, "koa") || Has(deps, "fastify") || Has(deps, "@nestjs/core")
  }

  /** The decision of lines 25-48 for a root holding `names` and a parsed manifest `p`, in priority order. */
  function KindOfManifest(names: set<Name>, p: PackageJson): (k: Kind)
    ensures k == Vite <==> ViteSignal(names, Merged(p))
    ensures k == Next <==> !ViteSignal(names, Merged(p)) && Has(Merged(p), "next")
    ensures k == React <==>
      !ViteSignal(names, Merged(p)) && !Has(Merged(p), "next") && !ServerSignal(Merged(p)) && Has(Merged(p), "react")
    ensures k == Node <==>
      !ViteSignal(names, Merged(p)) && !Has(Merged(p), "next") && (ServerSignal(Merged(p)) || !Has(Merged(p), "react"))
    ensures k != Static
  {
    var deps := Merged(p);
    if ViteSignal(names, deps) then Vite
    else if Has(deps, "next") then Next
    else if ServerSignal(deps) then Node
    else if Has(deps, "react") then React
    else Node
  }

  /**
   * `detectProjectType`: with `package.json` at the root, the manifest decides; its only failures
   * are an unreadable or malformed manifest. Without it the project is static, whatever else is there.
   */
  function Detect(t: Tree, codec: Codec): (r: Result<Kind>)
    ensures "package.json" !in RootNames(t) ==> r == Ok(Static)
    ensures "package.json" in RootNames(t) && !IsFile(t, ["package.json"]) ==> r == Err(IoFailure)
    ensures "package.json" in RootNames(t) && IsFile(t, ["package.json"]) ==>
      match codec.parse(t[["package.json"]])
      case None => r == Err(ManifestParseError)
      case Some(p) => r == Ok(KindOfManifest(RootNames(t), p))
  {
    var names := RootNames(t);
    if "package.json" in names then
      var text :- ReadAt(t, ["package.json"]);
      match codec.parse(text)
      case None => Err(ManifestParseError)
      case Some(p) => Ok(KindOfManifest(names, p))
    else
      Ok(Static)
  }

  /** `validateDeployable`: a root with `index.html` or `package.json` passes; any other root is refused. */
  function Validate(t: Tree): (r: Result<()>)
    ensures r.Ok? <==> "index.html" in RootNames(t) || "package.json" in RootNames(t)
    ensures r.Err? ==> r.error == NotDeployable
  {
    var names := RootNames(t);
    if "index.html" in names || "package.json" in names then Ok(()) else Err(NotDeployable)
  }

  /** A root that passes the gate without `package.json` has `index.html`, and is static. */
  lemma {:induction false} ValidatedWithoutManifestIsStatic(t: Tree, codec: Codec)
    requires Validate(t).Ok?
    requires "package.json" !in RootNames(t)
    ensures "index.html" in RootNames(t)
    ensures Detect(t, codec) == Ok(Static)
  {
  }
}
