/**
 * `cleanupTempDirectory` (vercelDeploy.js:72-101): a depth-first removal that unlinks every file,
 * recurses into every subdirectory, then removes the directory itself. A file or a directory that
 * cannot be removed is reported and skipped; the cleanup never fails.
 */
module Reclaim {
  import opened Base
  import opened Files

  /** One removal the cleanup attempts, and whether it succeeded. */
  datatype Action = Unlink(path: Path, ok: bool) | Rmdir(path: Path, ok: bool)

  /** The paths a trace tried to unlink. */
  function Unlinked(trace: seq<Action>): (r: set<Path>)
    ensures forall k :: 0 <= k < |trace| && trace[k].Unlink? ==> trace[k].path in r
    decreases |trace|
  {
    if trace == [] then {}
    else (if trace[0].Unlink? then {trace[0].path} else {}) + Unlinked(trace[1..])
  }

  /** What a trace tried to unlink is what its two halves did. */
  lemma {:induction false} UnlinkedAppend(a: seq<Action>, b: seq<Action>)
    ensures Unlinked(a + b) == Unlinked(a) + Unlinked(b)
    decreases |a|
  {
    if a != [] {
      assert (a + b)[1..] == a[1..] + b;
      UnlinkedAppend(a[1..], b);
    } else {
      assert a + b == b;
    }
  }

  /** Every path the trace unlinks lies inside `d`. */
  predicate InsideOnly(trace: seq<Action>, d: Path) {
    forall k :: 0 <= k < |trace| && trace[k].Unlink? ==> Under(trace[k].path, d)
  }

  /** No action on a path inside a directory comes after the attempt to remove that directory. */
  predicate ContentsFirst(trace: seq<Action>) {
    forall i, j :: 0 <= i < j < |trace| && trace[i].Rmdir? ==> !Under(trace[j].path, trace[i].path)
  }

  /** Every action of the trace is on a path inside `d` below one of the children `cs`. */
  predicate InChildren(trace: seq<Action>, d: Path, cs: seq<Name>) {
    forall k :: 0 <= k < |trace| ==> Under(trace[k].path, d) && trace[k].path[|d|] in cs
  }

  /** Every action of the trace is on `d` itself or on a path inside it. */
  predicate AtOrInside(trace: seq<Action>, d: Path) {
    forall k :: 0 <= k < |trace| ==> trace[k].path == d || Under(trace[k].path, d)
  }

  /** The traces of two different children, one after the other, still keep each directory's contents first. */
  lemma {:induction false} ContentsFirstAppend(a: seq<Action>, b: seq<Action>, d: Path, cs: seq<Name>, c: Name)
    requires ContentsFirst(a) && InChildren(a, d, cs)
    requires ContentsFirst(b) && InChildren(b, d, [c]) && c !in cs
    ensures ContentsFirst(a + b) && InChildren(a + b, d, cs + [c])
  {
    var t := a + b;
    forall i, j | 0 <= i < j < |t| && t[i].Rmdir?
      ensures !Under(t[j].path, t[i].path)
    {
      if j < |a| {
        assert t[i] == a[i] && t[j] == a[j];
      } else if i >= |a| {
        assert t[i] == b[i - |a|] && t[j] == b[j - |a|];
      } else {
        assert t[i] == a[i] && t[j] == b[j - |a|];
        assert t[j].path[|d|] != t[i].path[|d|];
      }
    }
    forall k | 0 <= k < |t|
      ensures Under(t[k].path, d) && t[k].path[|d|] in cs + [c]
    {
      if k < |a| {
        assert t[k] == a[k];
      } else {
        assert t[k] == b[k - |a|];
      }
    }
  }

  /** The attempt on `d` itself, after everything inside it, keeps the contents first. */
  lemma {:induction false} ContentsFirstClose(trace: seq<Action>, d: Path, cs: seq<Name>, ok: bool)
    requires ContentsFirst(trace) && InChildren(trace, d, cs)
    ensures ContentsFirst(trace + [Rmdir(d, ok)]) && AtOrInside(trace + [Rmdir(d, ok)], d)
    ensures InsideOnly(trace + [Rmdir(d, ok)], d)
  {
    var t := trace + [Rmdir(d, ok)];
    forall i, j | 0 <= i < j < |t| && t[i].Rmdir?
      ensures !Under(t[j].path, t[i].path)
    {
      assert t[i] == trace[i];
      if j < |trace| {
        assert t[j] == trace[j];
      } else {
        assert t[j].path == d && |d| < |t[i].path|;
      }
    }
    forall k | 0 <= k < |t|
      ensures t[k].path == d || Under(t[k].path, d)
      ensures t[k].Unlink? ==> Under(t[k].path, d)
    {
      if k < |trace| {
        assert t[k] == trace[k];
      }
    }
  }

  /** A trace on a child directory of `d` lies below that child. */
  lemma {:induction false} ChildTrace(part: seq<Action>, d: Path, c: Name)
    requires AtOrInside(part, d + [c])
    ensures InChildren(part, d, [c])
  {
    forall k | 0 <= k < |part|
      ensures Under(part[k].path, d) && part[k].path[|d|] == c
    {
      if part[k].path == d + [c] {
        ChildUnder(d, c);
      } else {
        UnderChild(part[k].path, d, c);
      }
    }
  }

  /** The files of `now` are files of `before` with the same content: the cleanup only removes. */
  predicate Shrunk(now: Tree, before: Tree) {
    forall p :: p in now ==> p in before && now[p] == before[p]
  }

  /** The loop's invariant over the children `done` already visited, with the trace's unlinked set `u`. */
  ghost predicate Progress(t0: Tree, now: Tree, d: Path, stuck: set<Path>, done: seq<Name>, u: set<Path>) {
    && Shrunk(now, t0)
    && (forall p :: p in t0 && !Under(p, d) ==> p in now)
    && (forall p :: p in t0 && Under(p, d) && p[|d|] in done ==> (p in now <==> p in stuck))
    && (forall p :: p in t0 && Under(p, d) && p[|d|] !in done ==> p in now)
    && (forall p :: p in t0 && Under(p, d) && p[|d|] in done ==> p in u)
  }

  /** A listed child that is not a directory when its turn comes is a file. */
  lemma {:induction false} ChildIsFile(t0: Tree, now: Tree, d: Path, stuck: set<Path>, done: seq<Name>, u: set<Path>, c: Name)
    requires Progress(t0, now, d, stuck, done, u)
    requires c in Children(t0, d) && c !in done
    requires !IsDir(now, d + [c])
    ensures d + [c] in now
  {
    var q :| q in t0 && Under(q, d) && q[|d|] == c;
    UnderSplit(q, d);
  }

  /** Visiting a child directory with the recursive cleanup extends the invariant to that child. */
  lemma {:induction false} VisitedDir(t0: Tree, before: Tree, after: Tree, d: Path, stuck: set<Path>,
                                      done: seq<Name>, u: set<Path>, usub: set<Path>, c: Name)
    requires Progress(t0, before, d, stuck, done, u)
    requires c !in done && d + [c] !in before
    requires Shrunk(after, before)
    requires forall q :: q in before && !Under(q, d + [c]) ==> q in after
    requires forall q :: q in before && Under(q, d + [c]) ==> (q in after <==> q in stuck)
    requires forall q :: q in before && Under(q, d + [c]) ==> q in usub
    ensures Progress(t0, after, d, stuck, done + [c], u + usub)
  {
    forall p | p in t0 && Under(p, d)
      ensures p[|d|] == c ==> (p in after <==> p in stuck) && p in usub
      ensures p[|d|] != c ==> (p in after <==> p in before)
    {
      if p[|d|] == c {
        assert p in before;
        UnderSplit(p, d);
      } else if Under(p, d + [c]) {
        UnderChild(p, d, c);
      }
    }
    forall p | p in t0 && !Under(p, d)
      ensures p in after
    {
      if Under(p, d + [c]) {
        UnderChild(p, d, c);
      }
    }
  }

  /** Attempting to unlink a child file extends the invariant to that child. */
  lemma {:induction false} VisitedFile(t0: Tree, before: Tree, after: Tree, d: Path, stuck: set<Path>,
                                       done: seq<Name>, u: set<Path>, c: Name)
    requires Progress(t0, before, d, stuck, done, u)
    requires c !in done && d + [c] in before && !IsDir(before, d + [c])
    requires after == if d + [c] in stuck then before else before - {d + [c]}
    ensures Progress(t0, after, d, stuck, done + [c], u + {d + [c]})
  {
    forall p | p in t0 && Under(p, d) && p[|d|] == c
      ensures p == d + [c]
    {
      assert p in before;
      UnderSplit(p, d);
    }
    forall p | p in t0 && !Under(p, d)
      ensures p != d + [c]
    {
      ChildUnder(d, c);
    }
  }

  /** In a listing, the child at `i` is none of those before it. */
  lemma {:induction false} NotYetVisited(names: seq<Name>, i: nat)
    requires Distinct(names) && i < |names|
    ensures names[i] !in names[..i]
  {
    forall k | 0 <= k < i
      ensures names[..i][k] != names[i]
    {
      assert names[..i][k] == names[k];
    }
  }

  /** The loop's invariants after the visit of child `i`, whose trace is `part`. */
  lemma {:induction false} VisitStep(t0: Tree, now: Tree, d: Path, stuck: set<Path>, names: seq<Name>, i: nat,
                                     trace: seq<Action>, part: seq<Action>)
    requires i < |names| && names[i] !in names[..i]
    requires ContentsFirst(trace) && InChildren(trace, d, names[..i])
    requires ContentsFirst(part) && InChildren(part, d, [names[i]])
    requires Progress(t0, now, d, stuck, names[..i] + [names[i]], Unlinked(trace) + Unlinked(part))
    ensures Progress(t0, now, d, stuck, names[..i + 1], Unlinked(trace + part))
    ensures ContentsFirst(trace + part) && InChildren(trace + part, d, names[..i + 1])
  {
    assert names[..i + 1] == names[..i] + [names[i]];
    UnlinkedAppend(trace, part);
    ContentsFirstAppend(trace, part, d, names[..i], names[i]);
  }

  /** Once every listed child is visited, every file inside the directory was attempted. */
  lemma {:induction false} Finished(t0: Tree, now: Tree, d: Path, stuck: set<Path>, names: seq<Name>, u: set<Path>)
    requires Progress(t0, now, d, stuck, names, u)
    requires IsListing(names, Children(t0, d))
    ensures forall p :: p in t0 && Under(p, d) ==> (p in now <==> p in stuck) && p in u
  {
    forall p | p in t0 && Under(p, d)
      ensures p[|d|] in names
    {
      assert p[|d|] in Children(t0, d);
    }
  }

  /** Removing files keeps a tree valid and within its depth bound. */
  lemma {:induction false} ShrunkValid(now: Tree, before: Tree, d: Path, k: nat)
    requires Shrunk(now, before) && Valid(before) && DepthBound(before, d, k)
    ensures Valid(now) && DepthBound(now, d, k)
  {
  }

  /** `Shrunk` chains. */
  lemma {:induction false} ShrunkTrans(a: Tree, b: Tree, c: Tree)
    requires Shrunk(a, b) && Shrunk(b, c)
    ensures Shrunk(a, c)
  {
  }

  /**
   * Lines 79-87 for one listed child of `d`: a directory is cleaned up recursively, a file is
   * unlinked unless it is stuck; a failed unlink is reported and the loop goes on.
   */
  method VisitChild(w: Workspace, d: Path, c: Name, stuck: set<Path>, ghost depth: nat,
                    ghost t0: Tree, ghost done: seq<Name>, ghost u: set<Path>) returns (part: seq<Action>)
    requires Valid(w.files) && DepthBound(w.files, d, depth)
    requires Progress(t0, w.files, d, stuck, done, u)
    requires c in Children(t0, d) && c !in done
    modifies w
    ensures Valid(w.files) && DepthBound(w.files, d, depth)
    ensures Progress(t0, w.files, d, stuck, done + [c], u + Unlinked(part))
    ensures ContentsFirst(part) && InChildren(part, d, [c])
    decreases depth, 0
  {
    var p := d + [c];
    ghost var before := w.files;
    if IsDir(w.files, p) {
      var q :| q in w.files && Under(q, p);
      ChildBound(w.files, d, c, depth, q);
      part := Cleanup(w, p, stuck, depth - 1);
      VisitedDir(t0, before, w.files, d, stuck, done, u, Unlinked(part), c);
      ChildTrace(part, d, c);
    } else {
      ChildIsFile(t0, before, d, stuck, done, u, c);
      var ok := false;
      if p !in stuck {
        var r := w.Unlink(p);
        ok := r.Ok?;
      }
      part := [Unlink(p, ok)];
      assert Unlinked(part) == {p};
      VisitedFile(t0, before, w.files, d, stuck, done, u, c);
      ChildUnder(d, c);
    }
    ShrunkTrans(w.files, before, t0);
    ShrunkValid(w.files, before, d, depth);
  }

  /**
   * Lines 72-101 for directory `d`. `stuck` are the files the system refuses to unlink (a handle
   * still open on them). Every file inside `d` is attempted; exactly the stuck ones remain; nothing
   * outside `d` changes; the trace ends with the attempt on `d` itself, which succeeds exactly when
   * nothing is left inside it.
   */
  method Cleanup(w: Workspace, d: Path, stuck: set<Path>, ghost depth: nat) returns (trace: seq<Action>)
    requires Valid(w.files) && IsDir(w.files, d) && d !in w.files
    requires DepthBound(w.files, d, depth)
    modifies w
    ensures Valid(w.files) && Shrunk(w.files, old(w.files))
    ensures forall p :: p in old(w.files) && !Under(p, d) ==> p in w.files
    ensures forall p :: p in old(w.files) && Under(p, d) ==> (p in w.files <==> p in stuck)
    ensures forall p :: p in old(w.files) && Under(p, d) ==> p in Unlinked(trace)
    ensures InsideOnly(trace, d)
    ensures |trace| > 0 && trace[|trace| - 1].Rmdir? && trace[|trace| - 1].path == d
    ensures trace[|trace| - 1].ok <==> forall p :: p in w.files ==> !Under(p, d)
    ensures ContentsFirst(trace) && AtOrInside(trace, d)
    decreases depth, 1
  {
    trace := [];
    var listed := w.ReadDir(d);
    if listed.Err? {
      assert false;
    }
    var names := listed.value;
    ghost var t0 := w.files;
    var i := 0;
    while i < |names|
      invariant i <= |names|
      invariant Valid(w.files) && DepthBound(w.files, d, depth)
      invariant Progress(t0, w.files, d, stuck, names[..i], Unlinked(trace))
      invariant ContentsFirst(trace) && InChildren(trace, d, names[..i])
    {
      NotYetVisited(names, i);
      var part := VisitChild(w, d, names[i], stuck, depth, t0, names[..i], Unlinked(trace));
      VisitStep(t0, w.files, d, stuck, names, i, trace, part);
      trace := trace + part;
      i := i + 1;
    }
    assert names[..i] == names;
    Finished(t0, w.files, d, stuck, names, Unlinked(trace));
    var empty := forall p :: p in w.files ==> !Under(p, d);
    ghost var body := trace;
    trace := trace + [Rmdir(d, empty)];
    UnlinkedAppend(body, [Rmdir(d, empty)]);
    ContentsFirstClose(body, d, names, empty);
  }
}
