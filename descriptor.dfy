/**
 * The `vercel.json` descriptor `deployToVercel` writes (vercelDeploy.js:367-422): fixed settings,
 * an alias for the subdomain, one catch-all route and one build entry chosen by the project kind.
 */
module Descriptor {
  import opened Base
  import opened Classify

  /** The `config` of a static build: the command to run and the directory it fills. */
  datatype BuildConfig = BuildConfig(buildCommand: string, outputDirectory: string)

  /** One entry of `builds`: which files, which Vercel builder, and its optional configuration. */
  datatype Build = Build(src: string, use: string, config: Option<BuildConfig>)

  /** One entry of `routes`. */
  datatype Route = Route(src: string, dest: string)

  datatype VercelConfig = VercelConfig(
    version: int,
    public: bool,
    alias: seq<string>,
    builds: seq<Build>,
    routes: seq<Route>)

  const InstallAndBuild := "npm install && npm run build"

  /** The build entry the `switch` pushes for a kind name; any name it does not list falls to the static builder. */
  function BuildFor(kind: string): (b: Build)
    ensures kind == KindName(Vite) ==> b == Build("package.json", "@vercel/static-build", Some(BuildConfig(InstallAndBuild, "dist")))
    ensures kind == KindName(React) ==> b == Build("package.json", "@vercel/static-build", Some(BuildConfig(InstallAndBuild, "build")))
    ensures kind == KindName(Next) ==> b == Build("package.json", "@vercel/next", None)
    ensures kind == KindName(Node) ==> b == Build("package.json", "@vercel/node", None)
    ensures kind !in {KindName(Vite), KindName(React), KindName(Next), KindName(Node)} ==> b == Build("**/*", "@vercel/static", None)
  {
    if kind == "vite" then Build("package.json", "@vercel/static-build", Some(BuildConfig(InstallAndBuild, "dist")))
    else if kind == "react" then Build("package.json", "@vercel/static-build", Some(BuildConfig(InstallAndBuild, "build")))
    else if kind == "next" then Build("package.json", "@vercel/next", None)
    else if kind == "node" then Build("package.json", "@vercel/node", None)
    else Build("**/*", "@vercel/static", None)
  }

  /** Only the two bundler kinds build into an output directory, and they use different ones. */
  lemma {:induction false} OutputDirectories(kind: string)
    ensures BuildFor(kind).config.Some? <==> kind == KindName(Vite) || kind == KindName(React)
    ensures BuildFor(kind).src == "package.json" <==> kind in {KindName(Vite), KindName(React), KindName(Next), KindName(Node)}
  {
  }

  /** The descriptor for a kind name and a subdomain. */
  function ConfigFor(projectType: string, subdomain: string): VercelConfig {
    VercelConfig(2, true, [subdomain + ".vercel.app"], [BuildFor(projectType)], [Route("/(.*)", "/$1")])
  }

  /**
   * The descriptor literal and the `switch` that fills `builds`: the settings are fixed, the alias is
   * the subdomain under `vercel.app`, and there is exactly one build entry, decided by the kind alone.
   */
  method Describe(projectType: string, subdomain: string) returns (c: VercelConfig)
    ensures c.version == 2 && c.public
    ensures c.alias == [subdomain + ".vercel.app"]
    ensures c.routes == [Route("/(.*)", "/$1")]
    ensures c.builds == [BuildFor(projectType)]
    ensures c == ConfigFor(projectType, subdomain)
  {
    c := VercelConfig(2, true, [subdomain + ".vercel.app"], [], [Route("/(.*)", "/$1")]);
    var builds := c.builds;
    if projectType == "vite" {
      builds := builds + [Build("package.json", "@vercel/static-build", Some(BuildConfig(InstallAndBuild, "dist")))];
    } else if projectType == "react" {
      builds := builds + [Build("package.json", "@vercel/static-build", Some(BuildConfig(InstallAndBuild, "build")))];
    } else if projectType == "next" {
      builds := builds + [Build("package.json", "@vercel/next", None)];
    } else if projectType == "node" {
      builds := builds + [Build("package.json", "@vercel/node", None)];
    } else if projectType == "static" {
      builds := [Build("**/*", "@vercel/static", None)];
    } else {
      builds := builds + [Build("**/*", "@vercel/static", None)];
    }
    c := c.(builds := builds);
  }
}
