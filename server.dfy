/**
 * The logic of `server.js` around the deployer: which uploaded names are dropped, the cleanup of
 * the upload directory, the host-to-deployment routing, and the deployment state the `/upload` and
 * `/add-files` handlers keep. HTTP plumbing (Express, multer, CORS, JSON replies) is left out; a
 * reply is the `Reply` value the handler would serialise.
 */
module Server {
  import opened Base
  import opened Text
  import opened Files
  import opened Manifest
  import opened Descriptor
  import opened DeployUrl
  import opened Reclaim
  import opened Deploy
  import opened Normalize
  import opened JsNumber

  // ---------------------------------------------------------------- upload filter

  /** The substrings that make an uploaded name unwanted, in source order (server.js:44-53). */
  const SkipPatterns: seq<string> :=
    ["node_modules", ".git", "dist/", "build/", ".next/", "package-lock.json", "yarn.lock", ".DS_Store"]

  /** `patterns.some(p => p.test(name))` for patterns that match a fixed substring anywhere. */
  function AnyOccurs(name: string, ps: seq<string>): (r: bool)
    ensures r <==> exists k :: 0 <= k < |ps| && Contains(name, ps[k])
    decreases |ps|
  {
    if ps == [] then false
    else
      var rest := AnyOccurs(name, ps[1..]);
      assert rest <==> exists k :: 1 <= k < |ps| && Contains(name, ps[k]) by {
        forall k | 1 <= k < |ps|
          ensures ps[1..][k - 1] == ps[k]
        {
        }
      }
      Contains(name, ps[0]) || rest
  }

  /** `shouldSkipFile` (server.js:43-56). */
  predicate ShouldSkip(name: string) {
    AnyOccurs(name, SkipPatterns)
  }

  /** A name is skipped exactly when it contains one of the eight substrings. */
  lemma {:induction false} ShouldSkipIff(name: string)
    ensures ShouldSkip(name) <==>
      || Contains(name, "node_modules") || Contains(name, ".git") || Contains(name, "dist/")
      || Contains(name, "build/") || Contains(name, ".next/") || Contains(name, "package-lock.json")
      || Contains(name, "yarn.lock") || Contains(name, ".DS_Store")
  {
    assert SkipPatterns[0] == "node_modules" && SkipPatterns[1] == ".git" && SkipPatterns[2] == "dist/";
    assert SkipPatterns[3] == "build/" && SkipPatterns[4] == ".next/" && SkipPatterns[5] == "package-lock.json";
    assert SkipPatterns[6] == "yarn.lock" && SkipPatterns[7] == ".DS_Store";
  }

  /** The match is by substring: `.gitignore`, `.github` and anything else holding `.git` are skipped. */
  lemma {:induction false} GitNamesSkipped(name: string, i: nat)
    requires StartsAt(name, i, ".git")
    ensures ShouldSkip(name)
  {
    ContainsWitness(name, i, ".git");
    ShouldSkipIff(name);
  }

  /** A text without the character `t[j]` does not contain `t`. */
  lemma {:induction false} MissingCharNotContains(s: string, t: string, j: nat)
    requires j < |t| && t[j] !in s
    ensures !Contains(s, t)
  {
  }

  /** `dist/` and `build/` need their slash: top-level entries named `dist` or `build` are kept. */
  lemma {:induction false} BareOutputDirsKept(name: string)
    requires name == "dist" || name == "build"
    ensures !ShouldSkip(name)
  {
    forall k | 0 <= k < |SkipPatterns|
      ensures !Contains(name, SkipPatterns[k])
    {
      var t := SkipPatterns[k];
      var j := if k == 2 then 4 else if k == 3 then 5 else 0;
      assert t[j] !in name;
      MissingCharNotContains(name, t, j);
    }
  }

  // ---------------------------------------------------------------- processUploadedFiles

  /** The upload directory without the top-level entries whose name is skipped. */
  function Pruned(t: Tree): Tree {
    map p | p in t && !(p != [] && ShouldSkip(p[0])) :: t[p]
  }

  /** The directory after the cleanup loop has visited the root names in `done`. */
  function PrunedOf(t: Tree, done: seq<Name>): Tree {
    map p | p in t && !(p != [] && p[0] in done && ShouldSkip(p[0])) :: t[p]
  }

  /** The cleanup removes exactly the skipped top-level entries and keeps every other one whole. */
  lemma {:induction false} PrunedRoot(t: Tree)
    requires [] !in t
    ensures RootNames(Pruned(t)) == set n | n in RootNames(t) && !ShouldSkip(n)
    ensures forall p :: p in t && !ShouldSkip(p[0]) ==> p in Pruned(t) && Pruned(t)[p] == t[p]
    ensures forall p :: p in Pruned(t) ==> p in t && !ShouldSkip(p[0])
  {
    var r := Pruned(t);
    forall n | n in RootNames(r)
      ensures n in RootNames(t) && !ShouldSkip(n)
    {
      var p :| p in r && Under(p, []) && p[0] == n;
      assert p in t && Under(p, []);
    }
    forall n | n in RootNames(t) && !ShouldSkip(n)
      ensures n in RootNames(r)
    {
      var p :| p in t && Under(p, []) && p[0] == n;
      assert p in r && Under(p, []);
    }
  }

  /** Running the cleanup a second time removes nothing more. */
  lemma {:induction false} PrunedIdempotent(t: Tree)
    ensures Pruned(Pruned(t)) == Pruned(t)
  {
  }

  /** The cleanup leaves a tree a filesystem can hold. */
  lemma {:induction false} PrunedValid(t: Tree)
    requires Valid(t)
    ensures Valid(Pruned(t))
  {
    SubtreeValid(t, Pruned(t));
  }

  /** Once every root name is visited, the loop's tree is the cleaned directory. */
  lemma {:induction false} PrunedOfAll(t: Tree, done: seq<Name>)
    requires [] !in t && forall n :: n in RootNames(t) ==> n in done
    ensures PrunedOf(t, done) == Pruned(t)
  {
    forall p | p in t
      ensures p[0] in done
    {
      assert p[0] in RootNames(t) by {
        assert Under(p, []);
      }
    }
  }

  /** Every non-root path starts either with `n` or with another name; with `n`, it is `[n]` or inside it. */
  lemma {:induction false} FirstNameSplit(p: Path, n: Name)
    requires p != []
    ensures p[0] == n <==> p == [n] || Under(p, [n])
  {
  }

  /** Visiting a kept root entry changes nothing. */
  lemma {:induction false} PruneKeep(t0: Tree, done: seq<Name>, n: Name)
    requires !ShouldSkip(n)
    ensures PrunedOf(t0, done) == PrunedOf(t0, done + [n])
  {
    var a, b := PrunedOf(t0, done), PrunedOf(t0, done + [n]);
    forall p | p in t0 && p != []
      ensures p in a <==> p in b
    {
      if p[0] == n {
        assert p[0] !in done || !ShouldSkip(p[0]);
      }
    }
    assert a == b;
  }

  /** Removing a skipped root directory with everything inside it is the loop's next tree. */
  lemma {:induction false} PruneDir(t0: Tree, done: seq<Name>, n: Name)
    requires [] !in t0 && ShouldSkip(n)
    ensures RemoveTreeAt(PrunedOf(t0, done), [n]) == PrunedOf(t0, done + [n])
  {
    var a, b := RemoveTreeAt(PrunedOf(t0, done), [n]), PrunedOf(t0, done + [n]);
    forall p | p in t0
      ensures p in a <==> p in b
    {
      FirstNameSplit(p, n);
    }
    assert a == b;
  }

  /** A root entry that is not a directory is a file, and unlinking it is the loop's next tree. */
  lemma {:induction false} PruneFile(t0: Tree, done: seq<Name>, n: Name)
    requires [] !in t0 && ShouldSkip(n)
    requires n !in done && n in RootNames(t0)
    requires !IsDir(PrunedOf(t0, done), [n])
    ensures IsFile(PrunedOf(t0, done), [n])
    ensures PrunedOf(t0, done) - {[n]} == PrunedOf(t0, done + [n])
  {
    var now := PrunedOf(t0, done);
    var q :| q in t0 && Under(q, []) && q[0] == n;
    assert q in now;
    FirstNameSplit(q, n);
    var b := PrunedOf(t0, done + [n]);
    forall p | p in t0
      ensures p in now - {[n]} <==> p in b
    {
      PruneFileAt(t0, done, n, p);
    }
    assert now - {[n]} == b;
  }

  /** One path of `PruneFile`: only the file `n` itself is under `n`, and it is the one path removed. */
  lemma {:induction false} PruneFileAt(t0: Tree, done: seq<Name>, n: Name, p: Path)
    requires [] !in t0 && ShouldSkip(n) && n !in done && p in t0
    requires !IsDir(PrunedOf(t0, done), [n])
    ensures p in PrunedOf(t0, done) - {[n]} <==> p in PrunedOf(t0, done + [n])
  {
    FirstNameSplit(p, n);
    if p[0] == n {
      assert p in PrunedOf(t0, done);
      assert !Under(p, [n]);
    } else {
      assert p[0] in done + [n] <==> p[0] in done;
    }
  }

  /** Lines 144-152 for one root entry `n`: removed, whole, when its name is skipped. */
  method PruneEntry(repo: Workspace, n: Name, ghost t0: Tree, ghost done: seq<Name>)
    requires Valid(t0) && repo.files == PrunedOf(t0, done)
    requires n !in done && n in RootNames(t0)
    modifies repo
    ensures repo.files == PrunedOf(t0, done + [n])
    ensures Valid(old(repo.files)) ==> Valid(repo.files)
  {
    if ShouldSkip(n) {
      if IsDir(repo.files, [n]) {
        PruneDir(t0, done, n);
        repo.RemoveTree([n]);
      } else {
        PruneFile(t0, done, n);
        var removed := repo.Unlink([n]);
      }
    } else {
      PruneKeep(t0, done, n);
    }
  }

  /**
   * `processUploadedFiles` (server.js:136-186): the root of the upload directory is listed, and each
   * skipped entry is removed, a directory with everything inside it, a file alone. The validation
   * that follows only lists the root again and reports success whenever that listing succeeds,
   * whether or not `package.json` is present.
   */
  method ProcessUploaded(repo: Workspace) returns (ok: bool)
    requires Valid(repo.files)
    modifies repo
    ensures Valid(repo.files)
    ensures repo.files == Pruned(old(repo.files))
    ensures ok
  {
    ghost var t0 := repo.files;
    var listed := repo.ReadDir([]);
    assert listed.Ok?;
    var entries := listed.value;
    var i := 0;
    while i < |entries|
      invariant i <= |entries|
      invariant repo.files == PrunedOf(t0, entries[..i])
      invariant Valid(repo.files)
    {
      var n := entries[i];
      assert entries[..i + 1] == entries[..i] + [n];
      PruneEntry(repo, n, t0, entries[..i]);
      i := i + 1;
    }
    assert entries[..i] == entries;
    PrunedOfAll(t0, entries);
    var files := repo.ReadDir([]);
    ok := files.Ok?;
  }

  // ---------------------------------------------------------------- host routing

  const BaseDomain: string := "web.net"

  /** The ending a host must have to be routed: `.web.net:` and the server's port. */
  function HostSuffix(port: string): string {
    "." + BaseDomain + ":" + port
  }

  /** `host.split(".")[0]`: the text before the first dot, or all of it. */
  function FirstLabel(host: string): (r: string)
    ensures |r| <= |host| && r == host[..|r|]
    ensures forall k :: 0 <= k < |r| ==> r[k] != '.'
    ensures |r| < |host| ==> host[|r|] == '.'
    decreases |host|
  {
    if host == [] || host[0] == '.' then [] else [host[0]] + FirstLabel(host[1..])
  }

  /** The first label of a dotted name is the part before its first dot. */
  lemma {:induction false} FirstLabelOf(sub: string, rest: string)
    requires forall k :: 0 <= k < |sub| ==> sub[k] != '.'
    ensures FirstLabel(sub + "." + rest) == sub
  {
    var h := sub + "." + rest;
    var r := FirstLabel(h);
    assert forall k :: 0 <= k < |sub| ==> h[k] == sub[k];
    assert h[|sub|] == '.';
    assert |r| == |sub|;
  }

  /** Where a request is routed: the subdomain and the deployment it names. */
  datatype Target = Target(subdomain: string, deploymentId: string)

  /**
   * The subdomain middleware's decision (server.js:77-94). `mappings` is `deployed/mappings.json`
   * as parsed, `None` when it cannot be read or parsed (the error is logged and the request goes
   * on unrouted). A mapping counts only when its value is truthy, a non-empty string.
   */
  function Resolve(host: Option<string>, port: string, mappings: Option<map<string, string>>): (r: Option<Target>)
    ensures r.Some? ==> host.Some? && EndsWith(host.value, HostSuffix(port))
    ensures r.Some? ==>
      && mappings.Some? && r.value.subdomain in mappings.value
      && mappings.value[r.value.subdomain] == r.value.deploymentId && r.value.deploymentId != ""
    ensures r.Some? ==> r.value.subdomain == FirstLabel(host.value)
  {
    if host.None? || host.value == [] || !EndsWith(host.value, HostSuffix(port)) then None
    else
      var sub := FirstLabel(host.value);
      if mappings.Some? && sub in mappings.value && mappings.value[sub] != "" then
        Some(Target(sub, mappings.value[sub]))
      else None
  }

  /** A host `<sub>.web.net:<port>` whose `sub` is mapped is routed to that deployment. */
  lemma {:induction false} MappedHostRouted(sub: string, port: string, m: map<string, string>)
    requires forall k :: 0 <= k < |sub| ==> sub[k] != '.'
    requires sub in m && m[sub] != ""
    ensures Resolve(Some(sub + HostSuffix(port)), port, Some(m)) == Some(Target(sub, m[sub]))
  {
    var host := sub + HostSuffix(port);
    var suffix := HostSuffix(port);
    assert host[|host| - |suffix|..] == suffix;
    assert host == sub + "." + (BaseDomain + ":" + port);
    FirstLabelOf(sub, BaseDomain + ":" + port);
  }

  /** The fields the middleware reads and sets on a request. */
  class Request {
    var host: Option<string>
    var deploymentId: Option<string>
    var subdomain: Option<string>

    constructor (host: Option<string>)
      ensures this.host == host && deploymentId == None && subdomain == None
    {
      this.host := host;
      deploymentId := None;
      subdomain := None;
    }
  }

  /** The subdomain middleware (server.js:77-94): a routed request gets its deployment and subdomain set. */
  method RouteBySubdomain(req: Request, port: string, mappings: Option<map<string, string>>)
    modifies req
    ensures req.host == old(req.host)
    ensures var r := Resolve(old(req.host), port, mappings);
      if r.Some? then req.deploymentId == Some(r.value.deploymentId) && req.subdomain == Some(r.value.subdomain)
      else req.deploymentId == old(req.deploymentId) && req.subdomain == old(req.subdomain)
  {
    var host := req.host;
    if host.Some? && host.value != [] && EndsWith(host.value, HostSuffix(port)) {
      var sub := FirstLabel(host.value);
      if mappings.Some? && sub in mappings.value && mappings.value[sub] != "" {
        req.deploymentId := Some(mappings.value[sub]);
        req.subdomain := Some(sub);
      }
    }
  }

  // ---------------------------------------------------------------- deployment state and handlers

  /** Milliseconds in a minute: the interval is given in minutes, times are in milliseconds. */
  const MinuteMs: int := 60 * 1000

  /** server.js:205 and 240: `now` plus `minutes` minutes, in milliseconds. */
  function NextDeployTime(now: int, minutes: int): (r: int)
    ensures minutes >= 1 ==> r >= now + MinuteMs
  {
    now + minutes * MinuteMs
  }

  /** The interval an upload's form field gives: `Number.parseInt` of it, NaN when the field is missing. */
  function IntervalOf(field: Option<string>): Option<int> {
    if field.None? then None else ParseInt(field.value)
  }

  /** server.js:196: an interval that is a number and at least one minute. */
  predicate AcceptedInterval(p: Option<int>) {
    p.Some? && p.value >= 1
  }

  /** A field holding a whole number of minutes, possibly with blanks before and words after, is accepted iff it is at least 1. */
  lemma {:induction false} DecimalIntervals(lead: string, n: nat, rest: string)
    requires forall k :: 0 <= k < |lead| ==> IsSpace(lead[k])
    requires rest != [] ==> !IsDecimalDigit(rest[0]) && rest[0] != 'x' && rest[0] != 'X'
    ensures IntervalOf(Some(lead + Decimal(n) + rest)) == Some(n)
    ensures AcceptedInterval(IntervalOf(Some(lead + Decimal(n) + rest))) <==> n >= 1
  {
    ParseDecimal(lead, n, rest);
  }

  /** A missing field, or one without a single digit, is rejected. */
  lemma {:induction false} DigitlessIntervalRejected(field: Option<string>)
    requires field.Some? ==> forall k :: 0 <= k < |field.value| ==> !IsDecimalDigit(field.value[k])
    ensures !AcceptedInterval(IntervalOf(field))
  {
    if field.Some? {
      NoDigitsNaN(field.value);
    }
  }

  /** `nextDeployment` in a reply: the time when it is set and truthy, otherwise `null`. */
  function Shown(t: Option<int>): Option<int> {
    if t.Some? && t.value != 0 then t else None
  }

  /** What a handler replies: 200 with the URL and next time, 400 with a message, or 500 with the error. */
  datatype Reply = Deployed(url: string, nextDeployment: Option<int>) | BadRequest(message: string) | ServerError(error: Error)

  /** What a deployment needs besides the upload directory: manifest codec, descriptor rendering, CLI, undeletable files. */
  datatype Deployer = Deployer(codec: Codec, render: VercelConfig -> string, cli: Tree -> CliOutcome, stuck: set<Path>)

  /**
   * `deploymentState` (server.js:69-74) with the cron job as the number of the job `startCronJob`
   * returned; `stopped` lists the jobs handed to `stopCronJob`, in order.
   */
  class DeploymentState {
    var latestUrl: string
    var interval: Option<int>
    var cronJob: Option<nat>
    var nextDeployTime: Option<int>
    var stopped: seq<nat>

    /** A stored interval is at least a minute and comes with its job; a next time only exists with an interval. */
    ghost predicate Valid()
      reads this
    {
      && (interval.Some? ==> interval.value >= 1)
      && (interval.Some? <==> cronJob.Some?)
      && (nextDeployTime.Some? ==> interval.Some?)
    }

    constructor ()
      ensures Valid()
      ensures latestUrl == "" && interval == None && cronJob == None && nextDeployTime == None && stopped == []
    {
      latestUrl := "";
      interval := None;
      cronJob := None;
      nextDeployTime := None;
      stopped := [];
    }

    /**
     * Lines 199-205 of server.js after the interval check: the running job is stopped, and a
     * successful deployment `r` stores its URL, the interval, the next time and the new job `job`.
     * A failed one leaves the stopped job in place and is answered with 500.
     */
    method RecordUpload(r: Result<string>, minutes: int, now: int, job: nat) returns (reply: Reply)
      requires Valid() && minutes >= 1
      modifies this
      ensures Valid()
      ensures stopped == old(stopped) + (if old(cronJob).Some? then [old(cronJob).value] else [])
      ensures r.Err? ==>
        && reply == ServerError(r.error) && latestUrl == old(latestUrl) && interval == old(interval)
        && cronJob == old(cronJob) && nextDeployTime == old(nextDeployTime)
      ensures r.Ok? ==>
        && latestUrl == r.value && interval == Some(minutes) && cronJob == Some(job)
        && nextDeployTime == Some(NextDeployTime(now, minutes)) && reply == Deployed(r.value, Shown(nextDeployTime))
    {
      if cronJob.Some? {
        stopped := stopped + [cronJob.value];
      }
      if r.Err? {
        return ServerError(r.error);
      }
      latestUrl := r.value;
      interval := Some(minutes);
      nextDeployTime := Some(NextDeployTime(now, minutes));
      cronJob := Some(job);
      reply := Deployed(latestUrl, Shown(nextDeployTime));
    }

    /**
     * `POST /upload` (server.js:188-229) once multer has stored the files: the upload directory is
     * cleaned, the interval checked (400 without any deployment), the running job stopped, the
     * project deployed (500 on failure), and on success the URL, interval, next time and the new
     * job `job` stored. `now` is `Date.now()`, `subdomain` the random name the deployment uses;
     * `deployed` is what the deployment of the cleaned directory returned, `None` when none ran.
     */
    method Upload(repo: Workspace, field: Option<string>, now: int, job: nat, env: Deployer, subdomain: string)
      returns (reply: Reply, deployed: Option<Result<string>>, ghost ns: seq<Name>, ghost ans: seq<Name>)
      requires Valid() && Files.Valid(repo.files)
      modifies this, repo
      ensures Valid() && Files.Valid(repo.files)
      ensures repo.files == Pruned(old(repo.files))
      ensures deployed.Some? <==> AcceptedInterval(IntervalOf(field))
      ensures deployed.Some? ==> deployed.value == Outcome(repo.files, ns, ans, env.codec, subdomain, env.render, env.cli)
      ensures deployed.Some? ==> Listed(repo.files, ns, ans)
      ensures deployed.None? ==> reply == BadRequest("Invalid interval") && unchanged(this)
      ensures deployed.Some? ==>
        var r, m := deployed.value, IntervalOf(field).value;
        && stopped == old(stopped) + (if old(cronJob).Some? then [old(cronJob).value] else [])
        && (r.Err? ==>
              && reply == ServerError(r.error) && latestUrl == old(latestUrl) && interval == old(interval)
              && cronJob == old(cronJob) && nextDeployTime == old(nextDeployTime))
        && (r.Ok? ==>
              && latestUrl == r.value && interval == Some(m) && cronJob == Some(job)
              && nextDeployTime == Some(NextDeployTime(now, m)) && reply == Deployed(r.value, Shown(nextDeployTime)))
    {
      ns, ans := [], [];
      var cleaned := ProcessUploaded(repo);
      var parsed := IntervalOf(field);
      if !AcceptedInterval(parsed) {
        return BadRequest("Invalid interval"), None, ns, ans;
      }
      var r, log, temp;
      r, log, temp, ns, ans := DeployToVercel(repo, env.codec, subdomain, env.render, env.cli, env.stuck);
      deployed := Some(r);
      reply := RecordUpload(r, parsed.value, now, job);
    }

    /**
     * Lines 239-240 of server.js: a successful deployment `r` stores its URL and a next time one
     * stored interval from `now`, or none without a stored interval; a failed one changes nothing.
     */
    method RecordRedeploy(r: Result<string>, now: int) returns (reply: Reply)
      requires Valid()
      modifies this
      ensures Valid()
      ensures interval == old(interval) && cronJob == old(cronJob) && stopped == old(stopped)
      ensures r.Err? ==> reply == ServerError(r.error) && latestUrl == old(latestUrl) && nextDeployTime == old(nextDeployTime)
      ensures r.Ok? ==>
        && latestUrl == r.value && reply == Deployed(r.value, Shown(nextDeployTime))
        && nextDeployTime == (if interval.Some? then Some(NextDeployTime(now, interval.value)) else None)
    {
      if r.Err? {
        return ServerError(r.error);
      }
      latestUrl := r.value;
      nextDeployTime := if interval.Some? && interval.value != 0 then Some(NextDeployTime(now, interval.value)) else None;
      reply := Deployed(latestUrl, Shown(nextDeployTime));
    }

    /**
     * `POST /add-files` (server.js:231-250): the upload directory is cleaned and deployed again; on
     * success the URL is stored and the next time is one stored interval from now, or none when no
     * interval is stored. The job and the interval are left as they are.
     */
    method AddFiles(repo: Workspace, now: int, env: Deployer, subdomain: string)
      returns (reply: Reply, deployed: Result<string>, ghost ns: seq<Name>, ghost ans: seq<Name>)
      requires Valid() && Files.Valid(repo.files)
      modifies this, repo
      ensures Valid() && Files.Valid(repo.files)
      ensures repo.files == Pruned(old(repo.files))
      ensures deployed == Outcome(repo.files, ns, ans, env.codec, subdomain, env.render, env.cli)
      ensures Listed(repo.files, ns, ans)
      ensures interval == old(interval) && cronJob == old(cronJob) && stopped == old(stopped)
      ensures deployed.Err? ==>
        reply == ServerError(deployed.error) && latestUrl == old(latestUrl) && nextDeployTime == old(nextDeployTime)
      ensures deployed.Ok? ==>
        && latestUrl == deployed.value && reply == Deployed(deployed.value, Shown(nextDeployTime))
        && nextDeployTime == (if interval.Some? then Some(NextDeployTime(now, interval.value)) else None)
    {
      var cleaned := ProcessUploaded(repo);
      var log, temp;
      deployed, log, temp, ns, ans := DeployToVercel(repo, env.codec, subdomain, env.render, env.cli, env.stuck);
      reply := RecordRedeploy(deployed, now);
    }
  }

  /** A successful upload replies with a URL the CLI printed: it starts with `https://` and holds no blank. */
  lemma {:induction false} UploadedUrlShape(t: Tree, ns: seq<Name>, ans: seq<Name>, env: Deployer, subdomain: string)
    requires Outcome(t, ns, ans, env.codec, subdomain, env.render, env.cli).Ok?
    ensures var u := Outcome(t, ns, ans, env.codec, subdomain, env.render, env.cli).value;
      StartsAt(u, 0, Scheme) && forall m :: 0 <= m < |u| ==> !IsSpace(u[m])
  {
    DeployedUrlShape(t, ns, ans, env.codec, subdomain, env.render, env.cli);
  }
}
