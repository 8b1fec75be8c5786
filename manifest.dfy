/**
 * `package.json` as the deployer sees it: three optional string maps, and the in-place augmentation
 * that makes a Vite project buildable (vercelDeploy.js:247-273).
 */
module Manifest {
  import opened Base

  /** A JSON object whose values are strings, as `scripts` and the dependency maps are. */
  type StringMap = map<string, string>

  /**
   * The fields of `package.json` the deployer reads or changes. `rest` stands for every other
   * top-level field, by name and JSON text, which the deployer carries over untouched.
   */
  datatype PackageJson = PackageJson(
    scripts: Option<StringMap>,
    dependencies: Option<StringMap>,
    devDependencies: Option<StringMap>,
    rest: map<string, string>)

  /** Parsing and printing `package.json`: `JSON.parse` and `JSON.stringify`. `parse` is `None` on malformed text. */
  datatype Codec = Codec(parse: string -> Option<PackageJson>, show: PackageJson -> string)

  /** Printing then parsing gives the manifest back. */
  ghost predicate Lawful(codec: Codec) {
    forall p :: codec.parse(codec.show(p)) == Some(p)
  }

  const ViteVersion := "^5.0.0"
  const PluginReact := "@vitejs/plugin-react"
  const PluginReactVersion := "^4.0.0"
  const ReactVersion := "^18.2.0"

  /** A map that is absent reads as empty. */
  function OrEmpty(m: Option<StringMap>): StringMap {
    if m.Some? then m.value else map[]
  }

  /** `m?.[k]` is truthy: the map is present and holds a non-empty string at `k`. */
  predicate Truthy(m: Option<StringMap>, k: string) {
    m.Some? && k in m.value && m.value[k] != ""
  }

  /** `{ ...dependencies, ...devDependencies }`: a development entry overrides a runtime one. */
  function Merged(p: PackageJson): (r: StringMap)
    ensures forall k :: k in r <==> k in OrEmpty(p.dependencies) || k in OrEmpty(p.devDependencies)
    ensures forall k :: k in OrEmpty(p.devDependencies) ==> r[k] == OrEmpty(p.devDependencies)[k]
    ensures forall k :: k in OrEmpty(p.dependencies) && k !in OrEmpty(p.devDependencies) ==> r[k] == OrEmpty(p.dependencies)[k]
  {
    OrEmpty(p.dependencies) + OrEmpty(p.devDependencies)
  }

  /** A dependency is set when either map holds a truthy version for it. */
  predicate Declares(p: PackageJson, k: string) {
    Truthy(p.dependencies, k) || Truthy(p.devDependencies, k)
  }

  /** The value of `m[k]` once it is known to be set. */
  function At(m: Option<StringMap>, k: string): string {
    if m.Some? && k in m.value then m.value[k] else ""
  }

  /**
   * The manifest after lines 247-273: a build script is ensured, `vite` and the React plugin are
   * added to `devDependencies` when neither map declares them, and React is added to
   * `dependencies` when it lacks it. Everything already set keeps its value.
   */
  function Augmented(p: PackageJson): (r: PackageJson)
    ensures Truthy(r.scripts, "build")
    ensures Truthy(p.scripts, "build") ==> r.scripts == p.scripts
    ensures !Truthy(p.scripts, "build") ==>
      r.scripts == Some(OrEmpty(p.scripts)["build" := "vite build"]["preview" := "vite preview"])
    ensures r.devDependencies.Some?
    ensures Declares(r, "vite") && Declares(r, PluginReact)
    ensures Declares(p, "vite") ==> At(r.devDependencies, "vite") == At(p.devDependencies, "vite")
    ensures !Declares(p, "vite") ==> At(r.devDependencies, "vite") == ViteVersion
    ensures Declares(p, PluginReact) ==> At(r.devDependencies, PluginReact) == At(p.devDependencies, PluginReact)
    ensures !Declares(p, PluginReact) ==> At(r.devDependencies, PluginReact) == PluginReactVersion
    ensures forall k :: k != "vite" && k != PluginReact ==>
      (k in OrEmpty(r.devDependencies) <==> k in OrEmpty(p.devDependencies))
    ensures forall k :: k != "vite" && k != PluginReact && k in OrEmpty(p.devDependencies) ==>
      OrEmpty(r.devDependencies)[k] == OrEmpty(p.devDependencies)[k]
    ensures Truthy(r.dependencies, "react")
    ensures Truthy(p.dependencies, "react") ==> r.dependencies == p.dependencies
    ensures !Truthy(p.dependencies, "react") ==>
      r.dependencies == Some(OrEmpty(p.dependencies)["react" := ReactVersion]["react-dom" := ReactVersion])
    ensures r.rest == p.rest
  {
    var scripts :=
      if !Truthy(p.scripts, "build") then Some(OrEmpty(p.scripts)["build" := "vite build"]["preview" := "vite preview"])
      else p.scripts;
    var dev0 := OrEmpty(p.devDependencies);
    var dev1 :=
      if !Truthy(p.dependencies, "vite") && !Truthy(Some(dev0), "vite") then dev0["vite" := ViteVersion] else dev0;
    var dev2 :=
      if !Truthy(p.dependencies, PluginReact) && !Truthy(Some(dev1), PluginReact) then dev1[PluginReact := PluginReactVersion]
      else dev1;
    var deps :=
      if !Truthy(p.dependencies, "react") then Some(OrEmpty(p.dependencies)["react" := ReactVersion]["react-dom" := ReactVersion])
      else p.dependencies;
    PackageJson(scripts, deps, Some(dev2), p.rest)
  }

  /** Augmenting twice changes nothing more: every addition is guarded by the absence it repairs. */
  lemma {:induction false} AugmentedIdempotent(p: PackageJson)
    ensures Augmented(Augmented(p)) == Augmented(p)
  {
    var a := Augmented(p);
    var b := Augmented(a);
    assert b.scripts == a.scripts;
    assert b.dependencies == a.dependencies;
    assert OrEmpty(b.devDependencies) == OrEmpty(a.devDependencies);
  }

  /** The manifest object `prepareViteProject` parses and then changes field by field. */
  class PackageObject {
    var scripts: Option<StringMap>
    var dependencies: Option<StringMap>
    var devDependencies: Option<StringMap>
    const rest: map<string, string>

    constructor (p: PackageJson)
      ensures Value() == p
    {
      scripts := p.scripts;
      dependencies := p.dependencies;
      devDependencies := p.devDependencies;
      rest := p.rest;
    }

    /** The object as a manifest value: what `JSON.stringify` would print. */
    function Value(): PackageJson
      reads this
    {
      PackageJson(scripts, dependencies, devDependencies, rest)
    }

    /** Lines 247-273, one assignment at a time. */
    method Augment()
      modifies this
      ensures Value() == Augmented(old(Value()))
    {
      if !Truthy(scripts, "build") {
        var s := OrEmpty(scripts);
        scripts := Some(s);
        scripts := Some(scripts.value["build" := "vite build"]);
        scripts := Some(scripts.value["preview" := "vite preview"]);
      }
      devDependencies := Some(OrEmpty(devDependencies));
      if !Truthy(dependencies, "vite") && !Truthy(devDependencies, "vite") {
        devDependencies := Some(devDependencies.value["vite" := ViteVersion]);
      }
      if !Truthy(dependencies, PluginReact) && !Truthy(devDependencies, PluginReact) {
        devDependencies := Some(devDependencies.value[PluginReact := PluginReactVersion]);
      }
      if !Truthy(dependencies, "react") {
        dependencies := Some(OrEmpty(dependencies));
        dependencies := Some(dependencies.value["react" := ReactVersion]);
        dependencies := Some(dependencies.value["react-dom" := ReactVersion]);
      }
    }
  }
}
