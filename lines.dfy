/**
 * The script rewrites of the Vite normaliser on whole files rather than single lines. A file
 * splits wherever a piece ends with a quote followed only by `;` and blanks, and the next piece
 * starts a new line: no match of the import patterns runs across such a boundary, so each piece
 * is rewritten on its own. Where a line does not close its quote, the greedy path run of
 * `AssetImport` can cross line ends, and `AssetImportCapture` shows what it then does.
 */
module Lines {
  import opened Base
  import opened Text
  import opened Patterns
  import opened Splice
  import opened ImportFixer

  /** What may follow the closing quote of a statement on its line: `;` and blanks. */
  predicate IsTrailing(c: char) {
    c == ';' || (IsSpace(c) && !IsLineTerminator(c))
  }

  /** A character a pattern literal may open with at a split: neither trailing nor a line end. */
  predicate Opens(c: char) {
    !IsTrailing(c) && !IsLineTerminator(c)
  }

  predicate QuoteFree(t: string) {
    forall k :: 0 <= k < |t| ==> !IsQuote(t[k])
  }

  /** `t` has a quote at `e` and only trailing characters after it. */
  predicate ClosedAt(t: string, e: nat) {
    e < |t| && IsQuote(t[e]) && forall k :: e < k < |t| ==> IsTrailing(t[k])
  }

  /** `t` ends a statement: a quote and then at most `;` and blanks. */
  ghost predicate EndsClause(t: string) {
    exists e: nat :: ClosedAt(t, e)
  }

  /** Where a text splits for the import rewrites: the first piece is empty or ends a statement, the second is empty or starts a new line. */
  ghost predicate QuoteClosed(a: string, b: string) {
    (a == [] || EndsClause(a)) && (b == [] || IsLineTerminator(b[0]))
  }

  /** The patterns whose matches stop at the first quote they meet after their opening one. */
  predicate Bounded(p: Pattern) {
    match p
    case MainScript(_) => false
    case QuotedFrom(target, _) => |target| > 0 && Opens(target[0]) && QuoteFree(target)
    case _ => true
  }

  /** `a` is a prefix of `s` that ends a statement at `e`. */
  ghost predicate Closes(s: string, a: string, e: nat) {
    a <= s && ClosedAt(a, e)
  }

  /** ...and in `s` nothing or a line terminator follows it. */
  ghost predicate ClosesLine(s: string, a: string, e: nat) {
    Closes(s, a, e) && (|s| == |a| || IsLineTerminator(s[|a|]))
  }

  lemma {:induction false} PrefixChar(s: string, a: string, k: nat)
    requires a <= s && k < |a|
    ensures k < |s| && s[k] == a[k]
  {
  }

  lemma {:induction false} SliceLeft(s: string, a: string, x: nat, y: nat)
    requires a <= s && x <= y <= |a|
    ensures s[x..y] == a[x..y]
  {
    assert s[..|a|] == a;
    assert s[x..y] == s[..|a|][x..y];
  }

  /** A quote-free literal starting at or before the closing quote reads the same in `s` and ends before that quote. */
  lemma {:induction false} StartsAtLeft(s: string, a: string, e: nat, i: nat, t: string)
    requires Closes(s, a, e) && i <= e && QuoteFree(t)
    ensures StartsAt(s, i, t) == StartsAt(a, i, t)
    ensures StartsAt(a, i, t) ==> i + |t| <= e
  {
    PrefixChar(s, a, e);
    if i + |t| > e {
      assert a[i + (e - i)] != t[e - i];
      assert s[i + (e - i)] != t[e - i];
    } else {
      forall j | i <= j < i + |t|
        ensures s[j] == a[j]
      {
        PrefixChar(s, a, j);
      }
    }
  }

  /** ...and anywhere up to the end of `a`, when the literal opens with a character that cannot trail a statement. */
  lemma {:induction false} StartsAtOpen(s: string, a: string, e: nat, i: nat, t: string)
    requires ClosesLine(s, a, e) && i <= |a| && QuoteFree(t) && |t| > 0 && Opens(t[0])
    ensures StartsAt(s, i, t) == StartsAt(a, i, t)
    ensures StartsAt(a, i, t) ==> i + |t| <= e
  {
    if i <= e {
      StartsAtLeft(s, a, e, i, t);
    } else {
      if i < |a| {
        PrefixChar(s, a, i);
        assert a[i + 0] != t[0];
      } else if i < |s| {
        assert s[i + 0] != t[0];
      }
    }
  }

  /** A run of a class without quotes, started at or before the closing quote, stops there at the latest, at the same place in `s`. */
  lemma {:induction false} RunEndLeft(s: string, a: string, e: nat, i: nat, k: CharClass)
    requires Closes(s, a, e) && i <= e && k != NonSpace
    ensures RunEnd(s, i, k) == RunEnd(a, i, k) <= e
    decreases e - i
  {
    PrefixChar(s, a, i);
    if InClass(a[i], k) {
      RunEndLeft(s, a, e, i + 1, k);
    }
  }

  /** The lazy path of a multiline pattern, started inside or right after `a`, ends at the same place in `s`. */
  lemma {:induction false} LazyLeft(s: string, a: string, e: nat, j: nat)
    requires ClosesLine(s, a, e) && j <= |a|
    ensures LazyToLineEnd(s, j) == LazyToLineEnd(a, j)
    decreases |a| - j
  {
    if j < |a| {
      PrefixChar(s, a, j);
      if j + 1 < |a| {
        PrefixChar(s, a, j + 1);
      }
      if !IsQuote(a[j]) && !IsLineTerminator(a[j]) {
        LazyLeft(s, a, e, j + 1);
      }
    } else if j < |s| {
      assert !IsQuote(s[j]);
    }
  }

  lemma {:induction false} FromQuoteBefore(s: string, a: string, e: nat, d: nat)
    requires Closes(s, a, e) && d <= e
    ensures FromQuote(s, d) == FromQuote(a, d)
    ensures FromQuote(a, d).Some? ==> FromQuote(a, d).value <= e
  {
    StartsAtLeft(s, a, e, d, "from");
    if StartsAt(a, d, "from") {
      RunEndLeft(s, a, e, d + 4, Space);
      PrefixChar(s, a, RunEnd(a, d + 4, Space));
    }
  }

  lemma {:induction false} FromQuoteLeft(s: string, a: string, e: nat, d: nat)
    requires ClosesLine(s, a, e) && d < |a|
    ensures FromQuote(s, d) == FromQuote(a, d)
    ensures FromQuote(a, d).Some? ==> FromQuote(a, d).value <= e
  {
    if d <= e {
      FromQuoteBefore(s, a, e, d);
    } else {
      StartsAtOpen(s, a, e, d, "from");
    }
  }

  /** An import head starting at or before the closing quote of `a` is the same head in `s`, with its quote at or before that one. */
  lemma {:induction false} ImportHeadBefore(s: string, a: string, e: nat, i: nat)
    requires Closes(s, a, e) && i <= e
    ensures ImportHead(s, i) == ImportHead(a, i)
    ensures ImportHead(a, i).Some? ==> ImportHead(a, i).value.quote <= e
  {
    StartsAtLeft(s, a, e, i, "import");
    if StartsAt(a, i, "import") {
      RunEndLeft(s, a, e, i + 6, Space);
      var b := RunEnd(a, i + 6, Space);
      RunEndLeft(s, a, e, b, Word);
      var c := RunEnd(a, b, Word);
      RunEndLeft(s, a, e, c, Space);
      FromQuoteBefore(s, a, e, RunEnd(a, c, Space));
    }
  }

  lemma {:induction false} ImportHeadLeft(s: string, a: string, e: nat, i: nat)
    requires ClosesLine(s, a, e) && i < |a|
    ensures ImportHead(s, i) == ImportHead(a, i)
    ensures ImportHead(a, i).Some? ==> ImportHead(a, i).value.quote <= e
  {
    if i <= e {
      ImportHeadBefore(s, a, e, i);
    } else {
      StartsAtOpen(s, a, e, i, "import");
    }
  }

  /** `from ` plus a quote reads the same in `s` as in `a`, and lies before the closing quote. */
  lemma {:induction false} FromSpaceQuoteLeft(s: string, a: string, e: nat, i: nat)
    requires ClosesLine(s, a, e) && i < |a|
    ensures FromSpaceQuote(s, i) == FromSpaceQuote(a, i)
    ensures FromSpaceQuote(a, i) ==> i + 5 <= e
  {
    StartsAtOpen(s, a, e, i, "from ");
    if StartsAt(a, i, "from ") {
      PrefixChar(s, a, i + 5);
    }
  }

  /** `./assets/` holds no quote and starts with a character that continues a line. */
  lemma AssetsDirOpens()
    ensures |AssetsDir| > 0 && QuoteFree(AssetsDir) && Opens(AssetsDir[0])
  {
  }

  lemma {:induction false} AssetImportTailLeft(s: string, a: string, e: nat, h: Head)
    requires ClosesLine(s, a, e) && h.nameStart <= h.nameEnd <= h.quote <= e
    ensures AssetImportTail(s, h) == AssetImportTail(a, h)
  {
    AssetsDirOpens();
    StartsAtOpen(s, a, e, h.quote + 1, AssetsDir);
    if StartsAt(a, h.quote + 1, AssetsDir) {
      var f := h.quote + 1 + |AssetsDir|;
      RunEndLeft(s, a, e, f, NonQuote);
      AssetImportTextLeft(s, a, h, RunEnd(a, f, NonQuote));
    }
  }

  lemma {:induction false} AssetImportTextLeft(s: string, a: string, h: Head, g: nat)
    requires a <= s && h.nameStart <= h.nameEnd <= |a| && h.quote + 1 + |AssetsDir| <= g <= |a|
    ensures AssetImportText(s, h, g) == AssetImportText(a, h, g)
  {
    SliceLeft(s, a, h.nameStart, h.nameEnd);
    SliceLeft(s, a, h.quote + 1 + |AssetsDir|, g);
  }

  lemma {:induction false} AssetImportLeft(s: string, a: string, e: nat, i: nat)
    requires ClosesLine(s, a, e) && i < |a|
    ensures MatchAt(AssetImport, s, i) == MatchAt(AssetImport, a, i)
  {
    ImportHeadLeft(s, a, e, i);
    if ImportHead(a, i).Some? {
      AssetImportTailLeft(s, a, e, ImportHead(a, i).value);
    }
  }

  lemma {:induction false} LineImportTailLeft(s: string, a: string, e: nat, h: Head)
    requires ClosesLine(s, a, e) && h.nameStart <= h.nameEnd <= h.quote <= e
    ensures LineImportTail(s, h) == LineImportTail(a, h)
  {
    LazyLeft(s, a, e, h.quote + 1);
    if LazyToLineEnd(a, h.quote + 1).Some? {
      var pathEnd := LazyToLineEnd(a, h.quote + 1).value.0;
      SliceLeft(s, a, h.nameStart, h.nameEnd);
      SliceLeft(s, a, h.quote + 1, pathEnd);
      assert LineImportText(s, h, pathEnd) == LineImportText(a, h, pathEnd);
    }
  }

  lemma {:induction false} LineImportLeft(s: string, a: string, e: nat, i: nat)
    requires ClosesLine(s, a, e) && i < |a|
    ensures MatchAt(LineImport, s, i) == MatchAt(LineImport, a, i)
  {
    ImportHeadLeft(s, a, e, i);
    if ImportHead(a, i).Some? {
      LineImportTailLeft(s, a, e, ImportHead(a, i).value);
    }
  }

  lemma {:induction false} LineFromLeft(s: string, a: string, e: nat, i: nat)
    requires ClosesLine(s, a, e) && i < |a|
    ensures MatchAt(LineFrom, s, i) == MatchAt(LineFrom, a, i)
  {
    FromQuoteLeft(s, a, e, i);
    if FromQuote(a, i).Some? {
      var q := FromQuote(a, i).value;
      LazyLeft(s, a, e, q + 1);
      if LazyToLineEnd(a, q + 1).Some? {
        SliceLeft(s, a, q + 1, LazyToLineEnd(a, q + 1).value.0);
      }
    }
  }

  lemma {:induction false} AssetFromLeft(s: string, a: string, e: nat, i: nat)
    requires ClosesLine(s, a, e) && i < |a|
    ensures MatchAt(AssetFrom, s, i) == MatchAt(AssetFrom, a, i)
  {
    FromSpaceQuoteLeft(s, a, e, i);
    if FromSpaceQuote(a, i) {
      AssetsDirOpens();
      StartsAtOpen(s, a, e, i + 6, AssetsDir);
      if StartsAt(a, i + 6, AssetsDir) {
        var f := i + 6 + |AssetsDir|;
        RunEndLeft(s, a, e, f, NonQuote);
        SliceLeft(s, a, f, RunEnd(a, f, NonQuote));
      }
    }
  }

  lemma {:induction false} RootSvgLeft(s: string, a: string, e: nat, i: nat)
    requires ClosesLine(s, a, e) && i < |a|
    ensures MatchAt(RootSvgFrom, s, i) == MatchAt(RootSvgFrom, a, i)
  {
    FromSpaceQuoteLeft(s, a, e, i);
    if FromSpaceQuote(a, i) {
      if i + 6 < |a| {
        PrefixChar(s, a, i + 6);
        if a[i + 6] == '/' {
          var f := i + 7;
          RunEndLeft(s, a, e, f, NonQuote);
          SliceLeft(s, a, f, RunEnd(a, f, NonQuote));
        }
      }
    }
  }

  lemma {:induction false} QuotedLeft(s: string, a: string, e: nat, i: nat, target: string, replacement: string)
    requires ClosesLine(s, a, e) && i < |a|
    requires |target| > 0 && Opens(target[0]) && QuoteFree(target)
    ensures MatchAt(QuotedFrom(target, replacement), s, i) == MatchAt(QuotedFrom(target, replacement), a, i)
  {
    FromSpaceQuoteLeft(s, a, e, i);
    if FromSpaceQuote(a, i) {
      StartsAtOpen(s, a, e, i + 6, target);
      if StartsAt(a, i + 6, target) {
        PrefixChar(s, a, i + 6 + |target|);
      }
    }
  }

  /** Every bounded pattern matches inside `a` exactly as it does inside `s`. */
  lemma {:induction false} MatchLeft(p: Pattern, s: string, a: string, e: nat, i: nat)
    requires Bounded(p) && ClosesLine(s, a, e) && i < |a|
    ensures MatchAt(p, s, i) == MatchAt(p, a, i)
  {
    match p
    case AssetImport => AssetImportLeft(s, a, e, i);
    case LineImport => LineImportLeft(s, a, e, i);
    case LineFrom => LineFromLeft(s, a, e, i);
    case AssetFrom => AssetFromLeft(s, a, e, i);
    case RootSvgFrom => RootSvgLeft(s, a, e, i);
    case QuotedFrom(target, replacement) => QuotedLeft(s, a, e, i, target, replacement);
  }

  /** A split after a statement and before a line end is one that no bounded pattern's match crosses. */
  lemma {:induction false} LeftAgreesClosed(p: Pattern, a: string, b: string)
    requires QuoteClosed(a, b) && Bounded(p)
    ensures LeftAgrees(p, a, b)
  {
    if a != [] {
      var e: nat :| ClosedAt(a, e);
      assert a <= a + b;
      forall k | 0 <= k < |a|
        ensures MatchAt(p, a + b, k) == MatchAt(p, a, k)
      {
        MatchLeft(p, a + b, a, e, k);
      }
    }
  }

  /** Every bounded pattern opens with a character that neither trails a statement nor ends a line. */
  lemma {:induction false} MatchOpens(p: Pattern, s: string, k: nat)
    requires Bounded(p) && k < |s|
    ensures MatchAt(p, s, k).Some? ==> Opens(s[k])
  {
    if MatchAt(p, s, k).Some? {
      match p
      case AssetImport => assert s[k + 0] == "import"[0];
      case LineImport => assert s[k + 0] == "import"[0];
      case LineFrom => assert s[k + 0] == "from"[0];
      case AssetFrom => assert s[k + 0] == "from "[0];
      case RootSvgFrom => assert s[k + 0] == "from "[0];
      case QuotedFrom(_, _) => assert s[k + 0] == "from "[0];
    }
  }

  /** The three patterns of `fixImportStatements`. */
  predicate FixPattern(p: Pattern) {
    p == AssetImport || p == LineImport || p == LineFrom
  }

  lemma {:induction false} FromTextCloses(u: string, path: string)
    ensures |u + FromText(path)| > 0 && (u + FromText(path))[|u + FromText(path)| - 1] == '\''
  {
  }

  /** What the fixing patterns write always ends with a single quote. */
  lemma {:induction false} ReplacementQuoted(p: Pattern, s: string, k: nat)
    requires FixPattern(p) && k <= |s| && MatchAt(p, s, k).Some?
    ensures var r := MatchAt(p, s, k).value.replacement; |r| > 0 && r[|r| - 1] == '\''
  {
    var h := ImportHead(s, k);
    match p
    case AssetImport =>
      var f := h.value.quote + 1 + |AssetsDir|;
      var g := RunEnd(s, f, NonQuote);
      FromTextCloses("import " + s[h.value.nameStart..h.value.nameEnd] + " ", AssetsDir + s[f..g]);
    case LineImport =>
      var pathEnd := LazyToLineEnd(s, h.value.quote + 1).value.0;
      FromTextCloses("import " + s[h.value.nameStart..h.value.nameEnd] + " ", s[h.value.quote + 1..pathEnd]);
    case LineFrom =>
      var q := FromQuote(s, k).value;
      FromTextCloses([], s[q + 1..LazyToLineEnd(s, q + 1).value.0]);
  }

  /** Prefixing text keeps a statement end. */
  lemma {:induction false} EndsClauseAfter(u: string, v: string)
    requires EndsClause(v)
    ensures EndsClause(u + v)
  {
    var e: nat :| ClosedAt(v, e);
    var w := u + v;
    forall k | |u| + e < k < |w|
      ensures IsTrailing(w[k])
    {
      assert w[k] == v[k - |u|];
    }
    assert ClosedAt(w, |u| + e);
  }

  /** Past the closing quote nothing matches, so the rest is copied. */
  lemma {:induction false} TailCopied(p: Pattern, a: string, e: nat, j: nat)
    requires Bounded(p) && ClosedAt(a, e) && e < j <= |a|
    ensures Rewrite(a, Matches(p, a), j) == a[j..]
  {
    var ms := Matches(p, a);
    forall k | j <= k < |a|
      ensures ms[k].None?
    {
      MatchOpens(p, a, k);
    }
    RewriteSkips(a, ms, j, |a|);
  }

  /** A quote-ended text followed by what trails a statement ends a statement. */
  lemma {:induction false} QuoteThenTail(r: string, a: string, e: nat, j: nat)
    requires |r| > 0 && IsQuote(r[|r| - 1]) && ClosedAt(a, e) && e < j <= |a|
    ensures ClosedAt(r + a[j..], |r| - 1)
  {
    var w := r + a[j..];
    forall k | |r| - 1 < k < |w|
      ensures IsTrailing(w[k])
    {
      assert w[k] == a[j + (k - |r|)];
    }
  }

  /** Rewriting a text that ends a statement yields a text that ends a statement. */
  lemma {:induction false} RewriteClause(p: Pattern, a: string, e: nat, i: nat)
    requires FixPattern(p) && ClosedAt(a, e) && i <= e
    ensures EndsClause(Rewrite(a, Matches(p, a), i))
    decreases e - i
  {
    var ms := Matches(p, a);
    match ms[i]
    case Some(m) =>
      if m.end <= e {
        RewriteClause(p, a, e, m.end);
        EndsClauseAfter(m.replacement, Rewrite(a, ms, m.end));
      } else {
        ReplacementQuoted(p, a, i);
        TailCopied(p, a, e, m.end);
        QuoteThenTail(m.replacement, a, e, m.end);
      }
    case None =>
      if i < e {
        RewriteClause(p, a, e, i + 1);
        EndsClauseAfter([a[i]], Rewrite(a, ms, i + 1));
      } else {
        TailCopied(p, a, e, e + 1);
        QuoteThenTail([a[e]], a, e, e + 1);
      }
  }

  /** A text that starts a new line is rewritten into one that starts with the same line end. */
  lemma {:induction false} RewriteStartsLine(p: Pattern, b: string)
    requires Bounded(p) && |b| > 0 && IsLineTerminator(b[0])
    ensures |ReplaceAll(p, b)| > 0 && ReplaceAll(p, b)[0] == b[0]
  {
    MatchOpens(p, b, 0);
    assert ReplaceAll(p, b) == [b[0]] + Rewrite(b, Matches(p, b), 1);
  }

  lemma {:induction false} ReplaceAllEmpty(p: Pattern)
    ensures ReplaceAll(p, []) == []
  {
  }

  /** One fixing pass splits at a statement end before a line end, and leaves a split of the same kind. */
  lemma {:induction false} PassJoin(p: Pattern, a: string, b: string)
    requires FixPattern(p) && QuoteClosed(a, b)
    ensures ReplaceAll(p, a + b) == ReplaceAll(p, a) + ReplaceAll(p, b)
    ensures QuoteClosed(ReplaceAll(p, a), ReplaceAll(p, b))
  {
    LeftAgreesClosed(p, a, b);
    ReplaceAllJoin(p, a, b);
    ReplaceAllEmpty(p);
    if a != [] {
      var e: nat :| ClosedAt(a, e);
      RewriteClause(p, a, e, 0);
    }
    if b != [] {
      RewriteStartsLine(p, b);
    }
  }

  /**
   * `fixImportStatements` on a file is the concatenation of its runs on the pieces, wherever the
   * file splits after a closing quote (and any `;` and blanks) and before a line end.
   */
  lemma {:induction false} FixJoin(a: string, b: string)
    requires QuoteClosed(a, b)
    ensures FixImportStatements(a + b) == FixImportStatements(a) + FixImportStatements(b)
  {
    PassJoin(AssetImport, a, b);
    var a1, b1 := ReplaceAll(AssetImport, a), ReplaceAll(AssetImport, b);
    PassJoin(LineImport, a1, b1);
    PassJoin(LineFrom, ReplaceAll(LineImport, a1), ReplaceAll(LineImport, b1));
  }

  /** A lone line end agrees with anything after it: no bounded pattern matches there. */
  lemma {:induction false} BreakAgrees(p: Pattern, c: string, b: string)
    requires Bounded(p) && |c| == 1 && IsLineTerminator(c[0])
    ensures LeftAgrees(p, c, b)
    ensures forall j :: 0 <= j < |c| ==> MatchAt(p, c, j).None?
  {
    forall k | 0 <= k < |c|
      ensures MatchAt(p, c + b, k) == MatchAt(p, c, k) && MatchAt(p, c, k).None?
    {
      MatchOpens(p, c, k);
      MatchOpens(p, c + b, k);
      assert (c + b)[k] == c[k];
    }
  }

  /** A line end in front passes through each bounded pass unchanged. */
  lemma {:induction false} PassLeadingBreak(p: Pattern, c: string, b: string)
    requires Bounded(p) && |c| == 1 && IsLineTerminator(c[0])
    ensures ReplaceAll(p, c + b) == c + ReplaceAll(p, b)
    ensures ReplaceFirst(p, c + b) == c + ReplaceFirst(p, b)
  {
    BreakAgrees(p, c, b);
    ReplaceAllJoin(p, c, b);
    NoMatchReplaceAll(p, c);
    ReplaceFirstRight(p, c, b);
  }

  lemma {:induction false} FixLeadingBreak(c: string, b: string)
    requires |c| == 1 && IsLineTerminator(c[0])
    ensures FixImportStatements(c + b) == c + FixImportStatements(b)
  {
    PassLeadingBreak(AssetImport, c, b);
    var b1 := ReplaceAll(AssetImport, b);
    PassLeadingBreak(LineImport, c, b1);
    PassLeadingBreak(LineFrom, c, ReplaceAll(LineImport, b1));
  }

  /** `pre` is empty or ends a statement and then a line end: a new line starts after it. */
  ghost predicate EndsLine(pre: string) {
    pre == [] || QuoteClosed(pre[..|pre| - 1], pre[|pre| - 1..])
  }

  lemma {:induction false} FixEmpty()
    ensures FixImportStatements([]) == []
  {
    ReplaceAllEmpty(AssetImport);
    ReplaceAllEmpty(LineImport);
    ReplaceAllEmpty(LineFrom);
  }

  /** A single line end is left alone. */
  lemma {:induction false} FixBreak(c: string)
    requires |c| == 1 && IsLineTerminator(c[0])
    ensures FixImportStatements(c) == c
  {
    FixLeadingBreak(c, []);
    FixEmpty();
    assert c + [] == c;
  }

  lemma {:induction false} FixAcrossBreak(h: string, c: string, t: string)
    requires QuoteClosed(h, c) && |c| == 1
    ensures FixImportStatements(h + (c + t)) == FixImportStatements(h) + (c + FixImportStatements(t))
  {
    assert (c + t)[0] == c[0];
    FixJoin(h, c + t);
    FixLeadingBreak(c, t);
  }

  lemma {:induction false} FixUpToBreak(h: string, c: string)
    requires QuoteClosed(h, c) && |c| == 1
    ensures FixImportStatements(h + c) == FixImportStatements(h) + c
  {
    FixJoin(h, c);
    FixBreak(c);
  }

  /** After a complete line, the rest of a file is fixed on its own. */
  lemma {:induction false} FixAfterLine(pre: string, t: string)
    requires EndsLine(pre)
    ensures FixImportStatements(pre + t) == FixImportStatements(pre) + FixImportStatements(t)
  {
    if pre == [] {
      FixEmpty();
      assert pre + t == t;
    } else {
      var h, c := pre[..|pre| - 1], pre[|pre| - 1..];
      assert pre == h + c;
      assert pre + t == h + (c + t);
      FixAcrossBreak(h, c, t);
      FixUpToBreak(h, c);
      Regroup(FixImportStatements(h), c, FixImportStatements(t));
    }
  }

  /** A piece that fixes to `fixed` and ends with a quote, placed after a complete line and before a line end. */
  lemma {:induction false} FixInFile(pre: string, line: string, fixed: string, post: string)
    requires |line| > 0 && IsQuote(line[|line| - 1]) && FixImportStatements(line) == fixed
    requires EndsLine(pre) && (post == [] || IsLineTerminator(post[0]))
    ensures FixImportStatements(pre + line + post) == FixImportStatements(pre) + fixed + FixImportStatements(post)
  {
    assert ClosedAt(pre + line, |pre + line| - 1);
    FixJoin(pre + line, post);
    FixAfterLine(pre, line);
  }

  /**
   * An import line with its closing quote (`'` or `"`), in any of the quotings `fixImportStatements`
   * handles, placed in a file after a complete line and before a line end, is normalised to
   * `import <x> from '<q>'` while the text around it is fixed exactly as it would be on its own.
   */
  lemma {:induction false} FixImportLineInFile(pre: string, x: string, q: string, open: char, close: string, post: string)
    requires IsIdentifier(x) && IsPlainPath(q) && IsQuote(open) && IsCloser(close) && close != ""
    requires EndsLine(pre) && (post == [] || IsLineTerminator(post[0]))
    ensures FixImportStatements(pre + (ImportPrefix(x, open) + q + close) + post)
         == FixImportStatements(pre) + ImportLine(x, q) + FixImportStatements(post)
  {
    FixImportLine(x, q, open, close);
    FixInFile(pre, ImportPrefix(x, open) + q + close, ImportLine(x, q), post);
  }

  /** Some match of `p` starts inside `a`. */
  ghost predicate HasMatch(p: Pattern, a: string) {
    exists k :: 0 <= k < |a| && MatchAt(p, a, k).Some?
  }

  /**
   * A first-occurrence `replace` on a file split after a statement and before a line end: when
   * the first piece holds a match, that piece alone is rewritten; otherwise the first piece is
   * unchanged and the rewrite happens in the second.
   */
  lemma {:induction false} FirstJoin(p: Pattern, a: string, b: string)
    requires Bounded(p) && QuoteClosed(a, b)
    ensures HasMatch(p, a) ==> ReplaceFirst(p, a + b) == ReplaceFirst(p, a) + b
    ensures !HasMatch(p, a) ==> ReplaceFirst(p, a) == a && ReplaceFirst(p, a + b) == a + ReplaceFirst(p, b)
  {
    LeftAgreesClosed(p, a, b);
    if HasMatch(p, a) {
      var k :| 0 <= k < |a| && MatchAt(p, a, k).Some?;
      ReplaceFirstLeft(p, a, b, k);
    } else {
      NoMatchReplaceFirst(p, a);
      ReplaceFirstRight(p, a, b);
    }
  }

  /** A redirect that leaves the second piece alone rewrites the file as it rewrites the first piece. */
  lemma {:induction false} StepOverFixedTail(p: Pattern, a: string, b: string)
    requires Bounded(p) && QuoteClosed(a, b) && ReplaceFirst(p, b) == b
    ensures ReplaceFirst(p, a + b) == ReplaceFirst(p, a) + b
  {
    FirstJoin(p, a, b);
  }

  lemma {:induction false} ImportLineEndsClause(x: string, q: string)
    ensures EndsClause(ImportLine(x, q))
  {
    assert ClosedAt(ImportLine(x, q), |ImportLine(x, q)| - 1);
  }

  /** A redirect that leaves an import line alone leaves it alone on a line of its own too. */
  lemma {:induction false} NextLineKept(p: Pattern, x: string, q: string)
    requires Bounded(p) && ReplaceFirst(p, ImportLine(x, q)) == ImportLine(x, q)
    ensures ReplaceFirst(p, "\n" + ImportLine(x, q)) == "\n" + ImportLine(x, q)
  {
    PassLeadingBreak(p, "\n", ImportLine(x, q));
  }

  /** One literal redirect applied to the first of two import lines, when it leaves the second alone. */
  lemma {:induction false} QuotedStepFirst(x1: string, q1: string, x2: string, q2: string, target: string, dest: string)
    requires IsIdentifier(x1) && IsPlainPath(q1) && IsIdentifier(x2) && IsPlainPath(q2) && q2 != target
    requires |target| > 0 && Opens(target[0]) && QuoteFree(target)
    ensures var p := QuotedFrom(target, FromText(dest));
      ReplaceFirst(p, ImportLine(x1, q1) + ("\n" + ImportLine(x2, q2)))
      == ImportLine(x1, Swap(q1, target, dest)) + ("\n" + ImportLine(x2, q2))
  {
    var p := QuotedFrom(target, FromText(dest));
    RedirectSteps(x1, q1, target, dest);
    RedirectSteps(x2, q2, target, dest);
    NextLineKept(p, x2, q2);
    ImportLineEndsClause(x1, q1);
    StepOverFixedTail(p, ImportLine(x1, q1), "\n" + ImportLine(x2, q2));
  }

  /** `AssetFrom` finds nothing in two import lines; `RootSvgFrom` rewrites the first and so never reaches the second. */
  lemma {:induction false} RootSvgFirst(x1: string, q1: string, x2: string, q2: string)
    requires IsIdentifier(x1) && IsPlainPath(q1) && IsRootSvgPath(q1)
    requires IsIdentifier(x2) && IsPlainPath(q2)
    ensures var b := "\n" + ImportLine(x2, q2);
      ReplaceFirst(RootSvgFrom, ReplaceFirst(AssetFrom, ImportLine(x1, q1) + b)) == ImportLine(x1, RootSvgSwap(q1)) + b
  {
    var b := "\n" + ImportLine(x2, q2);
    ImportLineEndsClause(x1, q1);
    RedirectSteps(x1, q1, "", "");
    RedirectSteps(x2, q2, "", "");
    NextLineKept(AssetFrom, x2, q2);
    StepOverFixedTail(AssetFrom, ImportLine(x1, q1), b);
    assert |AssetsDir + q1[1..]| == |q1| + |AssetsDir| - 1;
    assert ImportLine(x1, RootSvgSwap(q1)) != ImportLine(x1, q1) by {
      assert |ImportLine(x1, RootSvgSwap(q1))| != |ImportLine(x1, q1)|;
    }
    FirstJoin(RootSvgFrom, ImportLine(x1, q1), b);
  }

  /** The four literal redirects, on a first line already past `RootSvgFrom`, when none applies to the second line's path. */
  lemma {:induction false} LiteralsFirst(x1: string, q1: string, x2: string, q2: string)
    requires IsIdentifier(x1) && IsPlainPath(q1) && IsIdentifier(x2) && IsPlainPath(q2)
    requires q2 !in {"./react.svg", "./vite.svg", "/vite.svg", "/react.svg"}
    ensures var b := "\n" + ImportLine(x2, q2);
      var qs := RedirectChain(q1);
      ReplaceFirst(QuotedFrom("/react.svg", FromText("./assets/react.svg")),
        ReplaceFirst(QuotedFrom("/vite.svg", FromText("./assets/vite.svg")),
          ReplaceFirst(QuotedFrom("./vite.svg", FromText("./assets/vite.svg")),
            ReplaceFirst(QuotedFrom("./react.svg", FromText("./assets/react.svg")), ImportLine(x1, qs[2]) + b))))
      == ImportLine(x1, qs[6]) + b
  {
    var qs := RedirectChain(q1);
    RedirectChainPlain(q1);
    QuotedStepFirst(x1, qs[2], x2, q2, "./react.svg", "./assets/react.svg");
    QuotedStepFirst(x1, qs[3], x2, q2, "./vite.svg", "./assets/vite.svg");
    QuotedStepFirst(x1, qs[4], x2, q2, "/vite.svg", "./assets/vite.svg");
    QuotedStepFirst(x1, qs[5], x2, q2, "/react.svg", "./assets/react.svg");
  }

  /**
   * The App-file redirects are first-occurrence replacements: with two root-relative SVG imports,
   * only the first is sent to `./assets/`; the second line keeps its path unless it is `/vite.svg`
   * or `/react.svg`, which a literal redirect of its own reaches (`RedirectSecondDefault`).
   */
  lemma {:induction false} RedirectFirstOnly(x1: string, q1: string, x2: string, q2: string)
    requires IsIdentifier(x1) && IsPlainPath(q1) && IsRootSvgPath(q1)
    requires IsIdentifier(x2) && IsPlainPath(q2) && IsRootSvgPath(q2) && q2 != "/vite.svg" && q2 != "/react.svg"
    ensures RedirectAppAssets(ImportLine(x1, q1) + "\n" + ImportLine(x2, q2))
         == ImportLine(x1, RedirectPath(q1)) + "\n" + ImportLine(x2, q2)
  {
    var b := "\n" + ImportLine(x2, q2);
    var qs := RedirectChain(q1);
    RedirectChainEnd(q1);
    assert ImportLine(x1, q1) + "\n" + ImportLine(x2, q2) == ImportLine(x1, q1) + b;
    RootSvgFirst(x1, q1, x2, q2);
    assert q2[0] == '/';
    LiteralsFirst(x1, q1, x2, q2);
    assert ImportLine(x1, qs[6]) + b == ImportLine(x1, RedirectPath(q1)) + "\n" + ImportLine(x2, q2);
  }

  /** A literal redirect whose target is the second line's path, and not the first's, rewrites the second line only. */
  lemma {:induction false} SecondLineStep(x1: string, q1: string, x2: string, q2: string, dest: string)
    requires IsIdentifier(x1) && IsPlainPath(q1) && IsIdentifier(x2) && IsPlainPath(q2) && q1 != q2
    requires |q2| > 0 && Opens(q2[0]) && QuoteFree(q2)
    ensures var p := QuotedFrom(q2, FromText(dest));
      ReplaceFirst(p, ImportLine(x1, q1) + ("\n" + ImportLine(x2, q2)))
      == ImportLine(x1, q1) + ("\n" + ImportLine(x2, dest))
  {
    var p := QuotedFrom(q2, FromText(dest));
    var a := ImportLine(x1, q1);
    QuotedMissesOtherPath(x1, q1, q2, dest);
    assert !HasMatch(p, a);
    ImportLineEndsClause(x1, q1);
    FirstJoin(p, a, "\n" + ImportLine(x2, q2));
    PassLeadingBreak(p, "\n", ImportLine(x2, q2));
    RedirectSteps(x2, q2, q2, dest);
  }

  lemma {:induction false} DefaultRootSvgs()
    ensures IsPlainPath("/vite.svg") && IsPlainPath("/react.svg")
    ensures QuoteFree("/vite.svg") && QuoteFree("/react.svg") && Opens('/')
  {
  }

  /** `RedirectPath` sends `q`, which is `/<n>` for the SVG name `n`, to `r`, which is `./assets/<n>`. */
  lemma {:induction false} DefaultRootSvgPath(q: string, n: string, r: string)
    requires n == "vite.svg" || n == "react.svg"
    requires q == "/" + n && r == "./assets/" + n
    ensures RedirectPath(q) == r
  {
    assert q[1..] == n;
    assert q[1..][|q| - 5..] == ".svg";
    assert IsRootSvgPath(q);
    assert AssetsDir + n == "./assets/" + n;
  }

  lemma {:induction false} ViteRootPath()
    ensures RedirectPath("/vite.svg") == "./assets/vite.svg"
  {
    DefaultRootSvgPath("/vite.svg", "vite.svg", "./assets/vite.svg");
  }

  lemma {:induction false} ReactRootPath()
    ensures RedirectPath("/react.svg") == "./assets/react.svg"
  {
    DefaultRootSvgPath("/react.svg", "react.svg", "./assets/react.svg");
  }

  /** The four literal redirects on two import lines whose first path is none of their targets and whose second is `/vite.svg`. */
  lemma {:induction false} LiteralsSecondVite(x1: string, q: string, x2: string)
    requires IsIdentifier(x1) && IsPlainPath(q) && |q| >= 14 && IsIdentifier(x2)
    ensures var b := "\n" + ImportLine(x2, "/vite.svg");
      ReplaceFirst(QuotedFrom("/react.svg", FromText("./assets/react.svg")),
        ReplaceFirst(QuotedFrom("/vite.svg", FromText("./assets/vite.svg")),
          ReplaceFirst(QuotedFrom("./vite.svg", FromText("./assets/vite.svg")),
            ReplaceFirst(QuotedFrom("./react.svg", FromText("./assets/react.svg")), ImportLine(x1, q) + b))))
      == ImportLine(x1, q) + ("\n" + ImportLine(x2, "./assets/vite.svg"))
  {
    var react, vite := "./assets/react.svg", "./assets/vite.svg";
    DefaultRootSvgs();
    DefaultSvgsPlain();
    QuotedStepFirst(x1, q, x2, "/vite.svg", "./react.svg", react);
    QuotedStepFirst(x1, q, x2, "/vite.svg", "./vite.svg", vite);
    SecondLineStep(x1, q, x2, "/vite.svg", vite);
    QuotedStepFirst(x1, q, x2, vite, "/react.svg", react);
  }

  /** The same four redirects when the second path is `/react.svg`. */
  lemma {:induction false} LiteralsSecondReact(x1: string, q: string, x2: string)
    requires IsIdentifier(x1) && IsPlainPath(q) && |q| >= 14 && IsIdentifier(x2)
    ensures var b := "\n" + ImportLine(x2, "/react.svg");
      ReplaceFirst(QuotedFrom("/react.svg", FromText("./assets/react.svg")),
        ReplaceFirst(QuotedFrom("/vite.svg", FromText("./assets/vite.svg")),
          ReplaceFirst(QuotedFrom("./vite.svg", FromText("./assets/vite.svg")),
            ReplaceFirst(QuotedFrom("./react.svg", FromText("./assets/react.svg")), ImportLine(x1, q) + b))))
      == ImportLine(x1, q) + ("\n" + ImportLine(x2, "./assets/react.svg"))
  {
    var react, vite := "./assets/react.svg", "./assets/vite.svg";
    DefaultRootSvgs();
    QuotedStepFirst(x1, q, x2, "/react.svg", "./react.svg", react);
    QuotedStepFirst(x1, q, x2, "/react.svg", "./vite.svg", vite);
    QuotedStepFirst(x1, q, x2, "/react.svg", "/vite.svg", vite);
    SecondLineStep(x1, q, x2, "/react.svg", react);
  }

  /**
   * The other half of `RedirectFirstOnly`: when the second of two root-relative SVG imports is
   * `/vite.svg` or `/react.svg`, `RootSvgFrom` still rewrites only the first line, but the literal
   * redirect for that name then finds the second line and sends it to `./assets/` as well.
   */
  lemma {:induction false} RedirectSecondDefault(x1: string, q1: string, x2: string, q2: string)
    requires IsIdentifier(x1) && IsPlainPath(q1) && IsRootSvgPath(q1)
    requires IsIdentifier(x2) && (q2 == "/vite.svg" || q2 == "/react.svg")
    ensures RedirectAppAssets(ImportLine(x1, q1) + "\n" + ImportLine(x2, q2))
         == ImportLine(x1, RedirectPath(q1)) + "\n" + ImportLine(x2, RedirectPath(q2))
  {
    assert IsPlainPath(q2) by {
      DefaultRootSvgs();
    }
    var q := RootSvgSwap(q1);
    RootSvgSwapPlain(q1);
    assert q == RedirectPath(q1) && |q| >= 14;
    Regroup(ImportLine(x1, q1), "\n", ImportLine(x2, q2));
    Regroup(ImportLine(x1, q), "\n", ImportLine(x2, RedirectPath(q2)));
    RootSvgFirst(x1, q1, x2, q2);
    if q2 == "/vite.svg" {
      ViteRootPath();
      LiteralsSecondVite(x1, q, x2);
    } else {
      ReactRootPath();
      LiteralsSecondReact(x1, q, x2);
    }
  }

  lemma {:induction false} JoinedQuoteFree(p: string, r: string)
    requires QuoteFree(p) && QuoteFree(r)
    ensures QuoteFree(p + "\n" + r)
  {
    var u := p + "\n" + r;
    forall k | 0 <= k < |u|
      ensures !IsQuote(u[k])
    {
      if k < |p| {
        assert u[k] == p[k];
      } else if k > |p| {
        assert u[k] == r[k - |p| - 1];
      }
    }
  }

  /** The asset path of an import whose quote is left open runs to the next quote, wherever it is. */
  lemma {:induction false} OpenPathRun(s: string, f: nat, u: string, cq: char, t: string)
    requires f + |u| < |s| && s[f..] == u + [cq] + t && QuoteFree(u) && IsQuote(cq)
    ensures RunEnd(s, f, NonQuote) == f + |u|
  {
    forall m | f <= m < f + |u|
      ensures InClass(s[m], NonQuote)
    {
      assert s[m] == s[f..][m - f] == u[m - f];
    }
    assert s[f + |u|] == s[f..][|u|] == cq;
    RunEndAt(s, f, f + |u|, NonQuote);
  }

  /** An import prefix opens an import head whatever follows its quote. */
  lemma {:induction false} ImportHeadPrefixed(x: string, v: string)
    requires IsIdentifier(x)
    ensures ImportHead(ImportPrefix(x, '\'') + v, 0) == Some(Head(7, 7 + |x|, 8 + |x|, 13 + |x|))
    ensures (ImportPrefix(x, '\'') + v)[7..7 + |x|] == x
  {
    var a := ImportPrefix(x, '\'');
    ImportHeadAtStart(x, '\'', "");
    assert a + "" == a;
    assert ClosedAt(a, |a| - 1);
    ImportHeadBefore(a + v, a, |a| - 1, 0);
    assert (a + v)[7..7 + |x|] == a[7..7 + |x|];
  }

  /** After a head, `./assets/`, a quote-free `u` and a quote: the asset path is `u`, and the match ends after the quote. */
  lemma {:induction false} OpenAssetTail(s: string, h: Head, u: string, cq: char, t: string)
    requires h.nameStart <= h.nameEnd <= h.quote < |s|
    requires s[h.quote + 1..] == AssetsDir + u + [cq] + t && |u| > 0 && QuoteFree(u) && IsQuote(cq)
    ensures var g := h.quote + 1 + |AssetsDir| + |u|;
      g < |s| && s[h.quote + 1 + |AssetsDir|..g] == u
      && AssetImportTail(s, h) == Some(Match(|s| - |t|, AssetImportText(s, h, g)))
  {
    var o := h.quote + 1;
    var v := AssetsDir + u + [cq] + t;
    assert StartsAt(s, o, AssetsDir) by {
      forall k | 0 <= k < |AssetsDir|
        ensures s[o + k] == AssetsDir[k]
      {
        assert s[o + k] == v[k];
      }
    }
    var f := o + |AssetsDir|;
    assert s[f..] == v[|AssetsDir|..] == u + [cq] + t;
    assert |s| - f == |u| + 1 + |t|;
    OpenPathRun(s, f, u, cq, t);
    assert s[f..f + |u|] == s[f..][..|u|] == u;
  }

  /** The whole `AssetImport` match of an import line `s` whose asset path `u` is closed only by a later quote. */
  lemma {:induction false} OpenAssetImport(s: string, x: string, u: string, cq: char, t: string)
    requires IsIdentifier(x) && |u| > 0 && QuoteFree(u) && IsQuote(cq)
    requires s == ImportPrefix(x, '\'') + (AssetsDir + u + [cq] + t)
    ensures MatchAt(AssetImport, s, 0) == Some(Match(|s| - |t|, "import " + x + " " + FromText(AssetsDir + u)))
  {
    ImportHeadPrefixed(x, AssetsDir + u + [cq] + t);
    var h := Head(7, 7 + |x|, 8 + |x|, 13 + |x|);
    assert s[h.quote + 1..] == AssetsDir + u + [cq] + t;
    OpenAssetTail(s, h, u, cq, t);
  }

  lemma {:induction false} CaptureLayout(x: string, p: string, r: string, cq: char, t: string)
    ensures "import " + x + " from './assets/" + p + "\n" + r + [cq] + t
         == ImportPrefix(x, '\'') + (AssetsDir + (p + "\n" + r) + [cq] + t)
    ensures AssetsDir + (p + "\n" + r) == AssetsDir + p + "\n" + r
  {
    assert "import " + x + " from './assets/" == ImportPrefix(x, '\'') + AssetsDir;
  }

  /**
   * An asset import whose quote is not closed on its line: the greedy path of `AssetImport` runs
   * over the line end and through the next line up to its first quote, and the rewrite puts a
   * single quote there, whatever quote stood in that later line.
   */
  lemma {:induction false} AssetImportCapture(x: string, p: string, r: string, cq: char, t: string)
    requires IsIdentifier(x) && QuoteFree(p) && QuoteFree(r) && IsQuote(cq)
    ensures var s := "import " + x + " from './assets/" + p + "\n" + r + [cq] + t;
      MatchAt(AssetImport, s, 0) == Some(Match(|s| - |t|, "import " + x + " " + FromText(AssetsDir + p + "\n" + r)))
  {
    var s := "import " + x + " from './assets/" + p + "\n" + r + [cq] + t;
    CaptureLayout(x, p, r, cq, t);
    JoinedQuoteFree(p, r);
    OpenAssetImport(s, x, p + "\n" + r, cq, t);
  }
}
