/**
 * Reading the deployment URL out of the Vercel CLI's output (vercelDeploy.js:431-459): the first
 * match of `https:\/\/[^\s]+`, searched in stdout on success and in the error text on failure.
 */
module DeployUrl {
  import opened Base
  import opened Text
  import opened Patterns

  const Scheme := "https://"

  /** A URL starts at `i`: the scheme, then at least one non-whitespace character. */
  predicate UrlAt(s: string, i: nat) {
    StartsAt(s, i, Scheme) && i + |Scheme| < |s| && !IsSpace(s[i + |Scheme|])
  }

  /** Where the greedy `[^\s]+` stops for a URL at `i`. */
  function UrlEnd(s: string, i: nat): (j: nat)
    requires UrlAt(s, i)
    ensures i + |Scheme| < j <= |s|
  {
    RunEnd(s, i + |Scheme| + 1, NonSpace)
  }

  /** The leftmost index at or after `i` where a URL starts: the regex search without the `g` flag. */
  function FirstUrlFrom(s: string, i: nat): (k: Option<nat>)
    requires i <= |s|
    ensures k.Some? ==> i <= k.value < |s| && UrlAt(s, k.value)
    decreases |s| - i
  {
    if i == |s| then None
    else if UrlAt(s, i) then Some(i)
    else FirstUrlFrom(s, i + 1)
  }

  /** The search finds the leftmost URL, and finds none only when there is none. */
  lemma {:induction false} FirstUrlFromSpec(s: string, i: nat)
    requires i <= |s|
    ensures FirstUrlFrom(s, i).Some? ==> forall j :: i <= j < FirstUrlFrom(s, i).value ==> !UrlAt(s, j)
    ensures FirstUrlFrom(s, i).None? ==> forall j :: i <= j <= |s| ==> !UrlAt(s, j)
    decreases |s| - i
  {
    if i < |s| && !UrlAt(s, i) {
      FirstUrlFromSpec(s, i + 1);
    }
  }

  /** `s.match(/https:\/\/[^\s]+/)?.[0]`. */
  function FirstUrl(s: string): Option<string> {
    match FirstUrlFrom(s, 0)
    case None => None
    case Some(i) => Some(s[i..UrlEnd(s, i)])
  }

  /**
   * A found URL is the leftmost one, starts with the scheme, holds no whitespace and is maximal:
   * the text after it ends or is whitespace. Nothing is found only in text without a URL.
   */
  lemma {:induction false} FirstUrlSpec(s: string)
    ensures FirstUrl(s).None? <==> forall j :: 0 <= j <= |s| ==> !UrlAt(s, j)
    ensures FirstUrl(s).Some? ==> exists i ::
      && 0 <= i < |s| && UrlAt(s, i)
      && (forall j :: 0 <= j < i ==> !UrlAt(s, j))
      && FirstUrl(s).value == s[i..UrlEnd(s, i)]
      && (UrlEnd(s, i) == |s| || IsSpace(s[UrlEnd(s, i)]))
    ensures FirstUrl(s).Some? ==>
      && |FirstUrl(s).value| > |Scheme|
      && StartsAt(FirstUrl(s).value, 0, Scheme)
      && forall m :: 0 <= m < |FirstUrl(s).value| ==> !IsSpace(FirstUrl(s).value[m])
  {
    FirstUrlFromSpec(s, 0);
    if FirstUrlFrom(s, 0).Some? {
      var i := FirstUrlFrom(s, 0).value;
      var e := UrlEnd(s, i);
      RunEndSpec(s, i + |Scheme| + 1, NonSpace);
      var u := s[i..e];
      assert FirstUrl(s) == Some(u);
      forall m | 0 <= m < |u|
        ensures !IsSpace(u[m])
      {
        assert u[m] == s[i + m];
        if m > |Scheme| {
          assert InClass(s[i + m], NonSpace);
        } else if m < |Scheme| {
          assert s[i + m] == Scheme[m];
        }
      }
      assert forall m :: 0 <= m < |Scheme| ==> u[m] == s[i + m];
    }
  }

  /** How the CLI run ended: the promise resolved with its stdout, or rejected with the error's fields. */
  datatype CliOutcome =
    | Completed(stdout: string)
    | Failed(stdout: string, stderr: string, message: string)

  /** `err.stdout || err.stderr || err.message`: the first non-empty of the three. */
  function ErrorText(stdout: string, stderr: string, message: string): (e: string)
    ensures stdout != "" ==> e == stdout
    ensures stdout == "" && stderr != "" ==> e == stderr
    ensures stdout == "" && stderr == "" ==> e == message
  {
    if stdout != "" then stdout else if stderr != "" then stderr else message
  }

  /**
   * Lines 431-459: the URL of the deployment, taken from the output of a successful run or, when
   * the run failed, from its error text; a run whose searched text has no URL fails with that text.
   */
  function Extract(o: CliOutcome): (r: Result<string>)
    ensures o.Completed? ==> r == (if FirstUrl(o.stdout).Some? then Ok(FirstUrl(o.stdout).value) else Err(NoUrlFound(o.stdout)))
    ensures o.Failed? ==>
      var e := ErrorText(o.stdout, o.stderr, o.message);
      r == (if FirstUrl(e).Some? then Ok(FirstUrl(e).value) else Err(DeployFailed(e)))
  {
    match o
    case Completed(out) =>
      (match FirstUrl(out)
       case Some(u) => Ok(u)
       case None => Err(NoUrlFound(out)))
    case Failed(out, err, msg) =>
      var e := ErrorText(out, err, msg);
      match FirstUrl(e)
      case Some(u) => Ok(u)
      case None => Err(DeployFailed(e))
  }

  /** A URL in a failed run's stdout is a success even when stderr names the failure: stderr is then never read. */
  lemma {:induction false} FailedRunWithUrlSucceeds(out: string, err: string, msg: string)
    requires FirstUrl(out).Some?
    ensures Extract(Failed(out, err, msg)) == Ok(FirstUrl(out).value)
  {
  }

  /** Every URL the deployer returns begins with the scheme and holds no whitespace. */
  lemma {:induction false} ExtractedUrlShape(o: CliOutcome)
    requires Extract(o).Ok?
    ensures StartsAt(Extract(o).value, 0, Scheme)
    ensures forall m :: 0 <= m < |Extract(o).value| ==> !IsSpace(Extract(o).value[m])
  {
    match o
    case Completed(out) =>
      FirstUrlSpec(out);
    case Failed(out, err, msg) =>
      FirstUrlSpec(ErrorText(out, err, msg));
  }

  /** A URL at `i` with none between `from` and `i` is the one the search finds. */
  lemma {:induction false} FirstUrlFromAt(s: string, from: nat, i: nat)
    requires from <= i < |s| && UrlAt(s, i)
    requires forall j :: from <= j < i ==> !UrlAt(s, j)
    ensures FirstUrlFrom(s, from) == Some(i)
    decreases i - from
  {
    if from < i {
      FirstUrlFromAt(s, from + 1, i);
    }
  }

  /** A URL at `i` with no `h` before it and whitespace or the end at `e` is the one found, running to `e`. */
  lemma {:induction false} FirstUrlBetween(s: string, i: nat, e: nat)
    requires i + |Scheme| < e <= |s| && StartsAt(s, i, Scheme)
    requires forall j :: 0 <= j < i ==> s[j] != Scheme[0]
    requires forall m :: i + |Scheme| <= m < e ==> !IsSpace(s[m])
    requires e == |s| || IsSpace(s[e])
    ensures FirstUrl(s) == Some(s[i..e])
  {
    forall j | 0 <= j < i
      ensures !UrlAt(s, j)
    {
      assert s[j + 0] != Scheme[0];
    }
    FirstUrlFromAt(s, 0, i);
    RunEndAt(s, i + |Scheme| + 1, e, NonSpace);
  }

  /**
   * Text with no `h` before a URL, and whitespace or nothing after it, yields exactly that URL.
   * `rest` is what follows the scheme.
   */
  lemma {:induction false} FirstUrlOfParts(s: string, p: string, rest: string, q: string)
    requires s == p + Scheme + rest + q
    requires Scheme[0] !in p
    requires |rest| > 0 && forall c :: c in rest ==> !IsSpace(c)
    requires |q| == 0 || IsSpace(q[0])
    ensures FirstUrl(s) == Some(Scheme + rest)
  {
    var e := |p| + |Scheme| + |rest|;
    PartsLayout(p, rest, q);
    FirstUrlBetween(s, |p|, e);
    PartsSlice(p, Scheme, rest, q);
  }

  /** Where the pieces of `p + Scheme + rest + q` sit, character by character. */
  lemma {:induction false} PartsLayout(p: string, rest: string, q: string)
    requires Scheme[0] !in p
    requires forall c :: c in rest ==> !IsSpace(c)
    ensures forall j :: 0 <= j < |p| ==> (p + Scheme + rest + q)[j] != Scheme[0]
    ensures StartsAt(p + Scheme + rest + q, |p|, Scheme)
    ensures forall m :: |p| + |Scheme| <= m < |p| + |Scheme| + |rest| ==> !IsSpace((p + Scheme + rest + q)[m])
    ensures |q| > 0 ==> (p + Scheme + rest + q)[|p| + |Scheme| + |rest|] == q[0]
  {
    var a := p + Scheme;
    var b := a + rest;
    var s := b + q;
    forall j | 0 <= j < |p|
      ensures s[j] != Scheme[0]
    {
      assert s[j] == b[j] == a[j] == p[j];
    }
    forall k | 0 <= k < |Scheme|
      ensures s[|p| + k] == Scheme[k]
    {
      assert s[|p| + k] == b[|p| + k] == a[|p| + k];
    }
    forall m | |a| <= m < |b|
      ensures !IsSpace(s[m])
    {
      assert s[m] == b[m] == rest[m - |a|];
    }
  }

  /** The two middle pieces of a four-piece text are its slice. */
  lemma {:induction false} PartsSlice(p: string, a: string, b: string, q: string)
    ensures (p + a + b + q)[|p|..|p| + |a| + |b|] == a + b
  {
    var s := p + a + b + q;
    forall k | 0 <= k < |a| + |b|
      ensures s[|p|..|p| + |a| + |b|][k] == (a + b)[k]
    {
      assert s[|p| + k] == (p + a + b)[|p| + k];
      if k < |a| {
        assert (p + a + b)[|p| + k] == (p + a)[|p| + k];
      }
    }
  }

  /** The URL in the sentence the CLI prints on success is read up to the space after it. */
  lemma {:induction false} ExampleOutput(s: string)
    requires s == "Deployed! " + Scheme + "proj-abc123.example.app" + " ready"
    ensures FirstUrl(s) == Some(Scheme + "proj-abc123.example.app")
  {
    FirstUrlOfParts(s, "Deployed! ", "proj-abc123.example.app", " ready");
  }
}
