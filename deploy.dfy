/**
 * `deployToVercel` and `getAllFiles` (vercelDeploy.js:329-494): the repository is listed and copied
 * into a fresh staging directory, checked, classified, prepared when it is a Vite project, given a
 * `vercel.json`, and handed to the Vercel CLI; the staging directory is cleaned up on every path.
 *
 * The CLI run is the parameter `cli`, from the tree it runs in to how it ended; `JSON.stringify`
 * of the descriptor is `render`; the random subdomain is `subdomain`.
 */
module Deploy {
  import opened Base
  import opened Text
  import opened Files
  import opened Manifest
  import opened Classify
  import opened Descriptor
  import opened DeployUrl
  import opened Normalize
  import opened ViteSetup
  import opened Reclaim

  /**
   * The tree the CLI runs in, from the staged copy `t`: an empty copy, an undeployable root, an
   * unreadable manifest or a failed preparation stops the run; otherwise `vercel.json` is written.
   */
  function Staged(t: Tree, ns: seq<Name>, ans: seq<Name>, codec: Codec, subdomain: string,
                  render: VercelConfig -> string): Result<Tree>
  {
    if t == map[] then Err(EmptySource)
    else
      var ok :- Validate(t);
      var kind :- Detect(t, codec);
      var prepared :- if kind == Vite then Prepare(t, ns, ans, codec) else Ok(t);
      WriteAt(prepared, ["vercel.json"], render(ConfigFor(KindName(kind), subdomain)))
  }

  /** The result of a deployment of `t`: the URL the CLI reported, or why there is none. */
  function Outcome(t: Tree, ns: seq<Name>, ans: seq<Name>, codec: Codec, subdomain: string,
                   render: VercelConfig -> string, cli: Tree -> CliOutcome): Result<string>
  {
    var staged :- Staged(t, ns, ans, codec, subdomain, render);
    Extract(cli(staged))
  }

  /** Lines 341-343: a repository without a single file is refused before anything else. */
  lemma {:induction false} EmptyRepositoryRefused(ns: seq<Name>, ans: seq<Name>, codec: Codec, subdomain: string,
                                                  render: VercelConfig -> string, cli: Tree -> CliOutcome)
    ensures Outcome(map[], ns, ans, codec, subdomain, render, cli) == Err(EmptySource)
  {
  }

  /** Line 353 with lines 103-111: a copy with neither `index.html` nor `package.json` at its root is refused. */
  lemma {:induction false} UndeployableRefused(t: Tree, ns: seq<Name>, ans: seq<Name>, codec: Codec, subdomain: string,
                                               render: VercelConfig -> string, cli: Tree -> CliOutcome)
    requires t != map[]
    requires "index.html" !in RootNames(t) && "package.json" !in RootNames(t)
    ensures Outcome(t, ns, ans, codec, subdomain, render, cli) == Err(NotDeployable)
  {
  }

  /** Every URL a deployment returns starts with `https://` and holds no whitespace. */
  lemma {:induction false} DeployedUrlShape(t: Tree, ns: seq<Name>, ans: seq<Name>, codec: Codec, subdomain: string,
                                            render: VercelConfig -> string, cli: Tree -> CliOutcome)
    requires Outcome(t, ns, ans, codec, subdomain, render, cli).Ok?
    ensures var u := Outcome(t, ns, ans, codec, subdomain, render, cli).value;
      StartsAt(u, 0, Scheme) && forall m :: 0 <= m < |u| ==> !IsSpace(u[m])
  {
    ExtractedUrlShape(cli(Staged(t, ns, ans, codec, subdomain, render).value));
  }

  /**
   * The CLI runs on a deployable copy with a `vercel.json` holding the descriptor for the detected
   * kind; a project that is not Vite is otherwise the repository unchanged.
   */
  lemma {:induction false} StagedTree(t: Tree, ns: seq<Name>, ans: seq<Name>, codec: Codec, subdomain: string,
                                      render: VercelConfig -> string)
    requires Staged(t, ns, ans, codec, subdomain, render).Ok?
    ensures t != map[] && Validate(t).Ok? && Detect(t, codec).Ok?
    ensures var s := Staged(t, ns, ans, codec, subdomain, render).value;
      var kind := Detect(t, codec).value;
      && Lookup(s, ["vercel.json"]) == Some(render(ConfigFor(KindName(kind), subdomain)))
      && (kind != Vite ==> s == t[["vercel.json"] := render(ConfigFor(KindName(kind), subdomain))])
      && (kind == Vite ==>
            && Prepare(t, ns, ans, codec).Ok?
            && s == Prepare(t, ns, ans, codec).value[["vercel.json"] := render(ConfigFor(KindName(kind), subdomain))])
  {
  }

  /** A deployable copy without `package.json` is a static site: one build entry, for the static builder. */
  lemma {:induction false} StaticSiteDescriptor(t: Tree, ns: seq<Name>, ans: seq<Name>, codec: Codec, subdomain: string,
                                                render: VercelConfig -> string)
    requires Staged(t, ns, ans, codec, subdomain, render).Ok?
    requires "package.json" !in RootNames(t)
    ensures Lookup(Staged(t, ns, ans, codec, subdomain, render).value, ["vercel.json"]) ==
      Some(render(VercelConfig(2, true, [subdomain + ".vercel.app"], [Build("**/*", "@vercel/static", None)],
                               [Route("/(.*)", "/$1")])))
  {
    ValidatedWithoutManifestIsStatic(t, codec);
    StagedTree(t, ns, ans, codec, subdomain, render);
  }

  /**
   * Lines 471-494 for directory `d`: every file inside it, found by listing each directory and
   * descending into the subdirectories.
   */
  method AllFiles(repo: Workspace, d: Path, ghost depth: nat) returns (files: seq<Path>)
    requires Valid(repo.files) && IsDir(repo.files, d) && d !in repo.files
    requires DepthBound(repo.files, d, depth)
    ensures forall p :: p in files <==> p in repo.files && Under(p, d)
    decreases depth
  {
    var listed := repo.ReadDir(d);
    if listed.Err? {
      assert false;
    }
    var names := listed.value;
    files := [];
    var i := 0;
    while i < |names|
      invariant i <= |names|
      invariant forall p :: p in files <==> p in repo.files && Under(p, d) && p[|d|] in names[..i]
    {
      var c := names[i];
      var child := d + [c];
      assert names[..i + 1] == names[..i] + [c];
      ChildSplit(repo.files, d, c);
      if IsDir(repo.files, child) {
        var q :| q in repo.files && Under(q, child);
        ChildBound(repo.files, d, c, depth, q);
        var sub := AllFiles(repo, child, depth - 1);
        files := files + sub;
      } else {
        assert c in Children(repo.files, d);
        var q :| q in repo.files && Under(q, d) && q[|d|] == c;
        files := files + [child];
      }
      i := i + 1;
    }
    assert names[..i] == names;
    forall p | p in repo.files && Under(p, d)
      ensures p[|d|] in names
    {
      assert p[|d|] in Children(repo.files, d);
    }
  }

  /** Lines 352-464 on the staged copy: everything between the copy and the cleanup. */
  method Run(w: Workspace, codec: Codec, subdomain: string, render: VercelConfig -> string,
             cli: Tree -> CliOutcome) returns (r: Result<string>, ghost ns: seq<Name>, ghost ans: seq<Name>)
    requires Valid(w.files) && w.files != map[]
    modifies w
    ensures Valid(w.files)
    ensures Listed(old(w.files), ns, ans)
    ensures r == Outcome(old(w.files), ns, ans, codec, subdomain, render, cli)
  {
    ns := SomeListing(RootNames(w.files));
    ans := SomeListing(Children(w.files, ["assets"]));
    var valid := Validate(w.files);
    if valid.Err? {
      return Err(valid.error), ns, ans;
    }
    var kind := Detect(w.files, codec);
    if kind.Err? {
      return Err(kind.error), ns, ans;
    }
    if kind.value == Vite {
      var prepared;
      prepared, ns, ans := PrepareViteProject(w, codec);
      if prepared.Err? {
        return Err(prepared.error), ns, ans;
      }
    }
    var config := Describe(KindName(kind.value), subdomain);
    var written := w.WriteFile(["vercel.json"], render(config));
    if written.Err? {
      return Err(written.error), ns, ans;
    }
    r := Extract(cli(w.files));
  }

  /** Copying a file of a valid repository into a part of its own copy cannot fail. */
  lemma {:induction false} CopyStep(repo: Tree, t: Tree, p: Path)
    requires Valid(repo) && p in repo
    requires forall q :: q in t ==> q in repo && t[q] == repo[q]
    ensures WriteAt(t, p, repo[p]).Ok?
  {
  }

  /**
   * Lines 344-350: each listed file is read from the repository and written at the same path in
   * the staging directory, which ends up holding exactly the repository's files.
   */
  method CopyAll(repo: Workspace, temp: Workspace, files: seq<Path>)
    requires repo != temp && Valid(repo.files) && temp.files == map[]
    requires forall p :: p in files <==> p in repo.files
    modifies temp
    ensures temp.files == repo.files
  {
    var i := 0;
    while i < |files|
      invariant i <= |files|
      invariant forall q :: q in temp.files ==> q in repo.files && temp.files[q] == repo.files[q]
      invariant forall q :: q in files[..i] ==> q in temp.files
    {
      var p := files[i];
      assert files[..i + 1] == files[..i] + [p];
      var content := repo.ReadFile(p);
      CopyStep(repo.files, temp.files, p);
      var written := temp.WriteFile(p, content.value);
      i := i + 1;
    }
    assert files[..i] == files;
  }

  /**
   * Lines 337-350: `getAllFiles` lists the repository and each file is copied into the empty
   * staging directory; afterwards it holds exactly the repository's files.
   */
  method StageCopy(repo: Workspace, temp: Workspace)
    requires repo != temp && Valid(repo.files) && temp.files == map[]
    modifies temp
    ensures temp.files == repo.files
  {
    ghost var k := SomeDepthBound(repo.files);
    var files := AllFiles(repo, [], k);
    forall p | p in repo.files
      ensures p in files
    {
      assert p != [];
      assert Under(p, []);
    }
    CopyAll(repo, temp, files);
  }

  /** The log ends with the attempt to remove the staging directory itself, which succeeded iff `emptied`. */
  predicate RootRemoval(log: seq<Action>, emptied: bool) {
    |log| > 0 && log[|log| - 1].Rmdir? && log[|log| - 1].path == [] && (log[|log| - 1].ok <==> emptied)
  }

  /**
   * Lines 463-467: the `finally` cleanup of the whole staging directory. Only the files the system
   * refuses to delete remain, and the last attempt, on the staging directory itself, succeeds
   * exactly when none does.
   */
  method Teardown(temp: Workspace, stuck: set<Path>) returns (log: seq<Action>)
    requires Valid(temp.files)
    modifies temp
    ensures forall p :: p in temp.files ==> p in old(temp.files) && p in stuck
    ensures forall p :: p in old(temp.files) && p in stuck ==> p in temp.files
    ensures forall p :: p in old(temp.files) ==> p in Unlinked(log)
    ensures RootRemoval(log, temp.files == map[])
  {
    ghost var k := SomeDepthBound(temp.files);
    ghost var staged := temp.files;
    log := Cleanup(temp, [], stuck, k);
    forall p | p in temp.files
      ensures p in staged && p in stuck && Under(p, [])
    {
      assert p in staged && p != [];
    }
    forall p | p in staged
      ensures Under(p, [])
    {
      assert p != [];
    }
    if temp.files != map[] {
      var p :| p in temp.files;
      assert Under(p, []);
    }
  }

  /**
   * Lines 329-468: the repository's files are copied into a fresh staging directory, the run
   * happens there, and the cleanup follows whatever the run's result. `stuck` are the staged files
   * the system refuses to delete; `log` is what the cleanup attempted.
   */
  method DeployToVercel(repo: Workspace, codec: Codec, subdomain: string, render: VercelConfig -> string,
                        cli: Tree -> CliOutcome, stuck: set<Path>)
    returns (r: Result<string>, log: seq<Action>, temp: Workspace, ghost ns: seq<Name>, ghost ans: seq<Name>)
    requires Valid(repo.files)
    ensures fresh(temp)
    ensures Listed(repo.files, ns, ans)
    ensures r == Outcome(repo.files, ns, ans, codec, subdomain, render, cli)
    ensures forall p :: p in temp.files ==> p in stuck
    ensures RootRemoval(log, temp.files == map[])
  {
    ns := SomeListing(RootNames(repo.files));
    ans := SomeListing(Children(repo.files, ["assets"]));
    temp := new Workspace(map[]);
    StageCopy(repo, temp);
    if temp.files == map[] {
      r := Err(EmptySource);
    } else {
      r, ns, ans := Run(temp, codec, subdomain, render, cli);
    }
    log := Teardown(temp, stuck);
  }
}
