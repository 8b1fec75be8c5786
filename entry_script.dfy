/**
 * What the entry-script rewrite of `index.html` (vercelDeploy.js:207-222) does to a page of any
 * shape. Every spelling involved opens with `src="`, and no later position in it could start
 * that opening again ("sealed"). So no occurrence of a spelling straddles the boundary of a
 * spelling placed in a page, and a page `p + spelling + q` is rewritten piece by piece.
 */
module EntryScript {
  import opened Text
  import opened Patterns
  import opened Splice
  import opened Files
  import opened Manifest
  import opened Normalize
  import opened NormalizeProps

  const Opening := "src=\""

  /** The two extensions whose entry script the page rewrite looks for. */
  predicate IsExt(e: string) {
    e == "jsx" || e == "tsx"
  }

  /** At `k` the text cannot continue as the opening `src="`, as far as the text goes. */
  predicate Breaks(s: string, k: nat)
    requires k < |s|
  {
    || s[k] != 's'
    || (k + 1 < |s| && s[k + 1] != 'r')
    || (k + 2 < |s| && s[k + 2] != 'c')
    || (k + 3 < |s| && s[k + 3] != '=')
    || (k + 4 < |s| && s[k + 4] != '"')
  }

  predicate BreaksFrom(s: string, k: nat)
    decreases |s| - k
  {
    k >= |s| || (Breaks(s, k) && BreaksFrom(s, k + 1))
  }

  /** `s` opens with `src="` and cannot open again anywhere after its first character. */
  predicate Sealed(s: string) {
    StartsAt(s, 0, Opening) && BreaksFrom(s, 1)
  }

  /** `k` and `l` differ at a position both reach. */
  predicate Differs(k: string, l: string) {
    exists j :: 0 <= j < |k| && j < |l| && k[j] != l[j]
  }

  /** Whether `l` occurs at the start of `k + q` is decided by `k` alone. */
  predicate Decides(k: string, l: string) {
    |l| <= |k| || Differs(k, l)
  }

  /** A spelling inside which the pattern of `e` never starts a match, and whose match at its start ends inside it. */
  predicate Splittable(e: string, k: string) {
    Sealed(k) && Decides(k, Relative(e)) && Decides(k, Absolute(e))
  }

  /** A spelling the pattern of `e` does not match anywhere, whatever follows it. */
  predicate Inert(e: string, k: string) {
    Sealed(k) && Differs(k, Relative(e)) && Differs(k, Absolute(e))
  }

  lemma {:induction false} BreaksFromAll(s: string, k: nat, j: nat)
    requires BreaksFrom(s, k) && k <= j < |s|
    ensures Breaks(s, j)
    decreases j - k
  {
    if k < j {
      BreaksFromAll(s, k + 1, j);
    }
  }

  lemma {:induction false} SpellingsSealed(e: string)
    requires IsExt(e)
    ensures Sealed(Relative(e)) && Sealed(Absolute(e)) && Sealed(Target(e)) && Sealed(Bare(e))
  {
    RelativeSealed(e);
    AbsoluteSealed(e);
    TargetSealed(e);
    BareSealed(e);
  }

  lemma {:induction false} RelativeSealed(e: string)
    requires IsExt(e)
    ensures Sealed(Relative(e))
  {
    if e == "jsx" { ChainSealed(Relative("jsx")); } else { ChainSealed(Relative("tsx")); }
  }

  lemma {:induction false} AbsoluteSealed(e: string)
    requires IsExt(e)
    ensures Sealed(Absolute(e))
  {
    if e == "jsx" { ChainSealed(Absolute("jsx")); } else { ChainSealed(Absolute("tsx")); }
  }

  lemma {:induction false} TargetSealed(e: string)
    requires IsExt(e)
    ensures Sealed(Target(e))
  {
    if e == "jsx" { ChainSealed(Target("jsx")); } else { ChainSealed(Target("tsx")); }
  }

  lemma {:induction false} BareSealed(e: string)
    requires IsExt(e)
    ensures Sealed(Bare(e))
  {
    if e == "jsx" { ChainSealed(Bare("jsx")); } else { ChainSealed(Bare("tsx")); }
  }

  /** A text is sealed when it opens with `src="` and breaks at every later position. */
  lemma {:induction false} ChainSealed(s: string)
    requires StartsAt(s, 0, Opening)
    requires forall k :: 1 <= k < |s| ==> Breaks(s, k)
    ensures Sealed(s)
  {
    BreaksFromEvery(s, 1);
  }

  lemma {:induction false} BreaksFromEvery(s: string, k: nat)
    requires forall j :: k <= j < |s| ==> Breaks(s, j)
    ensures BreaksFrom(s, k)
    decreases |s| - k
  {
    if k < |s| {
      BreaksFromEvery(s, k + 1);
    }
  }

  lemma {:induction false} CharAt(s: string, i: nat, t: string, j: nat)
    requires StartsAt(s, i, t) && j < |t|
    ensures i + j < |s| && s[i + j] == t[j]
  {
  }

  /** A sealed `l` cannot occur at `k` when the text opens again at `n`, strictly inside that occurrence. */
  lemma {:induction false} NoStraddle(s: string, n: nat, k: nat, l: string)
    requires Sealed(l) && StartsAt(s, n, Opening) && k < n < k + |l|
    ensures !StartsAt(s, k, l)
  {
    var d := n - k;
    BreaksFromAll(l, 1, d);
    if StartsAt(s, k, l) {
      assert Opening == ['s', 'r', 'c', '=', '"'];
      CharAt(s, k, l, d);
      CharAt(s, n, Opening, 0);
      if d + 1 < |l| { CharAt(s, k, l, d + 1); CharAt(s, n, Opening, 1); }
      if d + 2 < |l| { CharAt(s, k, l, d + 2); CharAt(s, n, Opening, 2); }
      if d + 3 < |l| { CharAt(s, k, l, d + 3); CharAt(s, n, Opening, 3); }
      if d + 4 < |l| { CharAt(s, k, l, d + 4); CharAt(s, n, Opening, 4); }
    }
  }

  /** Inside a sealed prefix `k` of the text, after its first character, no spelling opening with `src="` starts. */
  lemma {:induction false} NoReopen(s: string, k: string, i: nat, l: string)
    requires Sealed(k) && k <= s && 0 < i < |k| && StartsAt(l, 0, Opening)
    ensures !StartsAt(s, i, l)
  {
    BreaksFromAll(k, 1, i);
    if StartsAt(s, i, l) {
      assert Opening == ['s', 'r', 'c', '=', '"'];
      CharAt(s, i, l, 0);
      CharAt(l, 0, Opening, 0);
      if i + 1 < |k| { CharAt(s, i, l, 1); CharAt(l, 0, Opening, 1); }
      if i + 2 < |k| { CharAt(s, i, l, 2); CharAt(l, 0, Opening, 2); }
      if i + 3 < |k| { CharAt(s, i, l, 3); CharAt(l, 0, Opening, 3); }
      if i + 4 < |k| { CharAt(s, i, l, 4); CharAt(l, 0, Opening, 4); }
    }
  }

  /** A sealed `l` occurs at `i < |a|` in `a + x`, where `x` opens with `src="`, exactly when it occurs there in `a`. */
  lemma {:induction false} SameStartLeft(a: string, x: string, i: nat, l: string)
    requires Sealed(l) && StartsAt(x, 0, Opening) && i < |a|
    ensures StartsAt(a + x, i, l) == StartsAt(a, i, l)
  {
    var s := a + x;
    if i + |l| <= |a| {
      forall j | i <= j < i + |l|
        ensures s[j] == a[j]
      {
      }
    } else {
      forall j | 0 <= j < |Opening|
        ensures s[|a| + j] == Opening[j]
      {
        assert s[|a| + j] == x[j];
      }
      NoStraddle(s, |a|, i, l);
    }
  }

  /** Whether `l` occurs at the start of `k + q` is what it is in `k` when `k` decides it. */
  lemma {:induction false} SameStartHead(k: string, q: string, l: string)
    requires Decides(k, l)
    ensures StartsAt(k + q, 0, l) == StartsAt(k, 0, l)
    ensures Differs(k, l) ==> !StartsAt(k, 0, l)
  {
    var s := k + q;
    if |l| <= |k| {
      forall j | 0 <= j < |l|
        ensures s[j] == k[j]
      {
      }
    } else {
      var j :| 0 <= j < |k| && j < |l| && k[j] != l[j];
      assert s[j] == k[j];
    }
  }

  /** The pattern of `e` matches in `a` as it does in `a + x` when `x` opens with `src="`. */
  lemma {:induction false} ScriptLeftAgrees(e: string, a: string, x: string)
    requires IsExt(e) && StartsAt(x, 0, Opening)
    ensures LeftAgrees(MainScript(e), a, x)
  {
    SpellingsSealed(e);
    forall i | 0 <= i < |a|
      ensures MatchAt(MainScript(e), a + x, i) == MatchAt(MainScript(e), a, i)
    {
      SameStartLeft(a, x, i, Relative(e));
      SameStartLeft(a, x, i, Absolute(e));
    }
  }

  /** The pattern of `e` matches in a splittable `k` as it does at the head of `k + q`. */
  lemma {:induction false} SplittableLeftAgrees(e: string, k: string, q: string)
    requires IsExt(e) && Splittable(e, k)
    ensures LeftAgrees(MainScript(e), k, q)
  {
    SpellingsSealed(e);
    forall i | 0 <= i < |k|
      ensures MatchAt(MainScript(e), k + q, i) == MatchAt(MainScript(e), k, i)
    {
      if i == 0 {
        SameStartHead(k, q, Relative(e));
        SameStartHead(k, q, Absolute(e));
      } else {
        NoReopen(k + q, k, i, Relative(e));
        NoReopen(k + q, k, i, Absolute(e));
        NoReopen(k, k, i, Relative(e));
        NoReopen(k, k, i, Absolute(e));
      }
    }
  }

  /** A text opening with a spelling opens with `src="`, whatever follows. */
  lemma {:induction false} OpensJoin(k: string, q: string)
    requires Sealed(k)
    ensures StartsAt(k + q, 0, Opening)
  {
    assert forall j :: 0 <= j < |Opening| ==> (k + q)[j] == k[j];
  }

  /**
   * The global rewrite of `e` on a page with a splittable spelling `k` inside it is the rewrite of
   * the text before `k`, the rewrite of `k` alone, and the rewrite of the text after it.
   */
  lemma {:induction false} ScriptSplits(e: string, k: string, p: string, q: string)
    requires IsExt(e) && Splittable(e, k)
    ensures ReplaceAll(MainScript(e), p + k + q) ==
      ReplaceAll(MainScript(e), p) + ReplaceAll(MainScript(e), k) + ReplaceAll(MainScript(e), q)
  {
    var pat := MainScript(e);
    assert p + k + q == p + (k + q);
    OpensJoin(k, q);
    ScriptLeftAgrees(e, p, k + q);
    ReplaceAllJoin(pat, p, k + q);
    SplittableLeftAgrees(e, k, q);
    ReplaceAllJoin(pat, k, q);
  }

  /** Either spelling of the entry script is splittable for its own extension. */
  lemma {:induction false} SpellingsSplittable(e: string)
    requires IsExt(e)
    ensures Splittable(e, Relative(e)) && Splittable(e, Absolute(e))
  {
    SpellingsSealed(e);
    assert Absolute(e)[5] != Relative(e)[5];
  }

  /**
   * Lines 211-213 and 217-219: wherever a relative or an absolute reference to the entry script
   * stands in a page, the global rewrite turns it into the reference into `src`, and rewrites the
   * text around it on its own.
   */
  lemma {:induction false} ReferenceRewritten(e: string, spelling: string, p: string, q: string)
    requires IsExt(e) && (spelling == Relative(e) || spelling == Absolute(e))
    ensures ReplaceAll(MainScript(e), p + spelling + q) ==
      ReplaceAll(MainScript(e), p) + Target(e) + ReplaceAll(MainScript(e), q)
  {
    SpellingsSplittable(e);
    ScriptSplits(e, spelling, p, q);
    assert StartsAt(spelling, 0, spelling);
    ReplaceAllWhole(MainScript(e), spelling);
  }

  /** An inert spelling is not rewritten at all. */
  lemma {:induction false} InertKept(e: string, k: string)
    requires IsExt(e) && Inert(e, k)
    ensures ReplaceAll(MainScript(e), k) == k
  {
    SpellingsSealed(e);
    forall i | 0 <= i < |k|
      ensures MatchAt(MainScript(e), k, i).None?
    {
      if i == 0 {
        SameStartHead(k, [], Relative(e));
        SameStartHead(k, [], Absolute(e));
      } else {
        NoReopen(k, k, i, Relative(e));
        NoReopen(k, k, i, Absolute(e));
      }
    }
    NoMatchReplaceAll(MainScript(e), k);
  }

  /**
   * The pattern of lines 213 and 219 needs a slash before `main`: wherever the bare reference
   * `src="main.<x>"` stands in a page, the rewrite of either extension keeps it and rewrites the
   * text around it on its own.
   */
  lemma {:induction false} BareReferenceKept(x: string, e: string, p: string, q: string)
    requires IsExt(x) && IsExt(e)
    ensures ReplaceAll(MainScript(e), p + Bare(x) + q) ==
      ReplaceAll(MainScript(e), p) + Bare(x) + ReplaceAll(MainScript(e), q)
  {
    SpellingsSealed(x);
    assert Bare(x)[5] != Relative(e)[5] && Bare(x)[5] != Absolute(e)[5];
    ScriptSplits(e, Bare(x), p, q);
    InertKept(e, Bare(x));
  }

  lemma {:induction false} Occurs(p: string, k: string, q: string)
    ensures Contains(p + k + q, k)
  {
    ContainsWitness(k, 0, k);
    ContainsInfix(p, k, q, k);
  }

  /**
   * Lines 211-213 and 217-219: a page holding the relative reference passes the guard, and the
   * rewrite turns that reference into the one into `src` and rewrites the text around it on its own.
   */
  lemma {:induction false} RelativeReferenceRewritten(e: string, p: string, q: string)
    requires IsExt(e)
    ensures MentionsEntry(p + Relative(e) + q, e)
    ensures Guarded(p + Relative(e) + q, e) ==
      ReplaceAll(MainScript(e), p) + Target(e) + ReplaceAll(MainScript(e), q)
  {
    Occurs(p, Relative(e), q);
    ReferenceRewritten(e, Relative(e), p, q);
  }

  /**
   * The absolute reference is rewritten in the same way, but only on a page the guard lets through:
   * the guard looks for the bare and the relative spellings, not for this one.
   */
  lemma {:induction false} AbsoluteReferenceRewritten(e: string, p: string, q: string)
    requires IsExt(e) && MentionsEntry(p + Absolute(e) + q, e)
    ensures Guarded(p + Absolute(e) + q, e) ==
      ReplaceAll(MainScript(e), p) + Target(e) + ReplaceAll(MainScript(e), q)
  {
    ReferenceRewritten(e, Absolute(e), p, q);
  }

  /** A page whose only reference is the absolute one is left as it is. */
  lemma {:induction false} AbsoluteAloneKept(e: string)
    requires IsExt(e)
    ensures IndexRewrite(Absolute(e)) == Absolute(e)
  {
    AbsoluteUnmentioned(e, "jsx");
    AbsoluteUnmentioned(e, "tsx");
  }

  lemma {:induction false} AbsoluteUnmentioned(e: string, x: string)
    requires IsExt(e) && IsExt(x)
    ensures !MentionsEntry(Absolute(e), x)
  {
    var s := Absolute(e);
    forall i: nat | i <= |s|
      ensures !StartsAt(s, i, Bare(x))
    {
      if StartsAt(s, i, Bare(x)) {
        if i == 0 {
          CharAt(s, 0, Bare(x), 5);
        } else {
          assert i == 1;
          CharAt(s, 1, Bare(x), 0);
        }
      }
    }
  }

  /** The guarded rewrite of `e` either leaves the page alone or keeps an inert spelling and rewrites around it. */
  lemma {:induction false} InertGuarded(e: string, k: string, p: string, q: string)
    requires IsExt(e) && Inert(e, k)
    ensures Guarded(p + k + q, e) == p + k + q ||
      Guarded(p + k + q, e) == ReplaceAll(MainScript(e), p) + k + ReplaceAll(MainScript(e), q)
  {
    if MentionsEntry(p + k + q, e) {
      ScriptSplits(e, k, p, q);
      InertKept(e, k);
    }
  }

  /** The whole rewrite of lines 211-219 keeps a spelling inert for both extensions wherever it stands. */
  lemma {:induction false} InertSurvives(k: string, p: string, q: string)
    requires Inert("jsx", k) && Inert("tsx", k)
    ensures Contains(IndexRewrite(p + k + q), k)
  {
    InertGuarded("jsx", k, p, q);
    var p1, q1 := p, q;
    if Guarded(p + k + q, "jsx") != p + k + q {
      p1, q1 := ReplaceAll(MainScript("jsx"), p), ReplaceAll(MainScript("jsx"), q);
    }
    InertGuarded("tsx", k, p1, q1);
    var p2, q2 := p1, q1;
    if Guarded(p1 + k + q1, "tsx") != p1 + k + q1 {
      p2, q2 := ReplaceAll(MainScript("tsx"), p1), ReplaceAll(MainScript("tsx"), q1);
    }
    Occurs(p2, k, q2);
  }

  /**
   * Lines 211 and 213: a page naming its entry script in the bare spelling `src="main.<x>"` passes
   * the guard, yet the rewrite's pattern needs a slash, so that reference is still in the page after
   * both rewrites.
   */
  lemma {:induction false} BareReferenceSurvives(x: string, p: string, q: string)
    requires IsExt(x)
    ensures MentionsEntry(p + Bare(x) + q, x)
    ensures Contains(IndexRewrite(p + Bare(x) + q), Bare(x))
  {
    Occurs(p, Bare(x), q);
    BareSealed(x);
    assert Bare(x)[5] != Relative("jsx")[5] && Bare(x)[5] != Absolute("jsx")[5];
    assert Bare(x)[5] != Relative("tsx")[5] && Bare(x)[5] != Absolute("tsx")[5];
    InertSurvives(Bare(x), p, q);
  }

  /** A reference already into `src` is in the page after both rewrites. */
  lemma {:induction false} TargetSurvives(x: string, p: string, q: string)
    requires IsExt(x)
    ensures Contains(IndexRewrite(p + Target(x) + q), Target(x))
  {
    TargetInert(x, "jsx");
    TargetInert(x, "tsx");
    InertSurvives(Target(x), p, q);
  }

  lemma {:induction false} TargetInert(x: string, e: string)
    requires IsExt(x) && IsExt(e)
    ensures Inert(e, Target(x))
  {
    TargetSealed(x);
    assert Target(x)[5] != Relative(e)[5] && Target(x)[6] != Absolute(e)[6];
  }

  /** Lines 207-222: wherever the relative reference of either entry script stands, the page ends up naming that script inside `src`. */
  lemma {:induction false} RelativeEndsInSrc(x: string, p: string, q: string)
    requires IsExt(x)
    ensures Contains(IndexRewrite(p + Relative(x) + q), Target(x))
  {
    if x == "jsx" {
      RelativeReferenceRewritten("jsx", p, q);
      var p1, q1 := ReplaceAll(MainScript("jsx"), p), ReplaceAll(MainScript("jsx"), q);
      TargetInert("jsx", "tsx");
      InertGuarded("tsx", Target("jsx"), p1, q1);
      var p2, q2 := p1, q1;
      if Guarded(p1 + Target("jsx") + q1, "tsx") != p1 + Target("jsx") + q1 {
        p2, q2 := ReplaceAll(MainScript("tsx"), p1), ReplaceAll(MainScript("tsx"), q1);
      }
      Occurs(p2, Target("jsx"), q2);
    } else {
      RelativeSealed("tsx");
      assert Relative("tsx")[12] != Relative("jsx")[12] && Relative("tsx")[5] != Absolute("jsx")[5];
      InertGuarded("jsx", Relative("tsx"), p, q);
      var p1, q1 := p, q;
      if Guarded(p + Relative("tsx") + q, "jsx") != p + Relative("tsx") + q {
        p1, q1 := ReplaceAll(MainScript("jsx"), p), ReplaceAll(MainScript("jsx"), q);
      }
      RelativeReferenceRewritten("tsx", p1, q1);
      Occurs(ReplaceAll(MainScript("tsx"), p1), Target("tsx"), ReplaceAll(MainScript("tsx"), q1));
    }
  }

  /** After the whole preparation, a root page that named its entry script relatively names it inside `src`. */
  lemma {:induction false} PreparedPageRelative(t: Tree, ns: seq<Name>, ans: seq<Name>, codec: Codec, x: string, p: string, q: string)
    requires Distinct(ns) && "index.html" in ns
    requires Prepare(t, ns, ans, codec).Ok?
    requires IsExt(x) && ["index.html"] in t && t[["index.html"]] == p + Relative(x) + q
    ensures var r := Lookup(Prepare(t, ns, ans, codec).value, ["index.html"]); r.Some? && Contains(r.value, Target(x))
  {
    IndexRewritten(t, ns, ans, codec);
    RelativeEndsInSrc(x, p, q);
  }

  /** After the whole preparation, a root page that named its entry script bare still names it bare. */
  lemma {:induction false} PreparedPageBare(t: Tree, ns: seq<Name>, ans: seq<Name>, codec: Codec, x: string, p: string, q: string)
    requires Distinct(ns) && "index.html" in ns
    requires Prepare(t, ns, ans, codec).Ok?
    requires IsExt(x) && ["index.html"] in t && t[["index.html"]] == p + Bare(x) + q
    ensures var r := Lookup(Prepare(t, ns, ans, codec).value, ["index.html"]); r.Some? && Contains(r.value, Bare(x))
  {
    IndexRewritten(t, ns, ans, codec);
    BareReferenceSurvives(x, p, q);
  }
}
