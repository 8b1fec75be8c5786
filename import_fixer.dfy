/**
 * The text rewrites the Vite normaliser applies to relocated script files: the three global
 * regular-expression replacements of `fixImportStatements` and the first-occurrence asset
 * redirects applied to `App.jsx` and `App.tsx`.
 */
module ImportFixer {
  import opened Base
  import opened Text
  import opened Patterns

  /** `fixImportStatements`: close asset imports, then close and requote import lines, then `from` clauses. */
  function FixImportStatements(content: string): string {
    var assetsClosed := ReplaceAll(AssetImport, content);
    var importsClosed := ReplaceAll(LineImport, assetsClosed);
    ReplaceAll(LineFrom, importsClosed)
  }

  /** The six first-occurrence redirects applied, in order, to `App.jsx` and `App.tsx`. */
  function RedirectAppAssets(content: string): string {
    var assets := ReplaceFirst(AssetFrom, content);
    var rootSvg := ReplaceFirst(RootSvgFrom, assets);
    var react := ReplaceFirst(QuotedFrom("./react.svg", FromText("./assets/react.svg")), rootSvg);
    var vite := ReplaceFirst(QuotedFrom("./vite.svg", FromText("./assets/vite.svg")), react);
    var rootVite := ReplaceFirst(QuotedFrom("/vite.svg", FromText("./assets/vite.svg")), vite);
    ReplaceFirst(QuotedFrom("/react.svg", FromText("./assets/react.svg")), rootVite)
  }

  /** A name as `\w+` matches it. */
  predicate IsIdentifier(x: string) {
    |x| > 0 && forall k :: 0 <= k < |x| ==> IsWordChar(x[k])
  }

  /** Text without whitespace (and so without line terminators). */
  predicate NoSpace(t: string) {
    forall k :: 0 <= k < |t| ==> !IsSpace(t[k])
  }

  /** A module specifier with neither quotes nor whitespace. */
  predicate IsPlainPath(q: string) {
    NoSpace(q) && forall k :: 0 <= k < |q| ==> !IsQuote(q[k])
  }

  /** `import <x> from <open>`: the head of an import line up to its opening quote. */
  function ImportPrefix(x: string, open: char): string {
    "import " + x + " from " + [open]
  }

  /** The well-formed single-quoted import line `import <x> from '<q>'`. */
  function ImportLine(x: string, q: string): string {
    ImportPrefix(x, '\'') + q + "'"
  }

  lemma {:induction false} ImportLineShape(x: string, q: string)
    ensures "import " + x + " " + FromText(q) == ImportLine(x, q)
  {
    assert "import " + x + " " + FromText(q) == "import " + x + " " + "from '" + q + "'";
    assert "import " + x + " " + "from '" == ImportPrefix(x, '\'');
  }

  lemma {:induction false} WordCharIsPlain(c: char)
    requires IsWordChar(c)
    ensures !IsSpace(c) && !IsQuote(c)
  {
  }

  /** Where the fixed characters of an import prefix sit, and where whitespace and quotes can. */
  lemma {:induction false} PrefixLayout(x: string, open: char, t: string)
    requires IsIdentifier(x) && IsQuote(open) && NoSpace(t)
    ensures var s := ImportPrefix(x, open) + t;
      && |s| == 14 + |x| + |t|
      && StartsAt(s, 0, "import") && s[6] == ' ' && s[7 + |x|] == ' '
      && StartsAt(s, 8 + |x|, "from") && StartsAt(s, 8 + |x|, "from ") && s[11 + |x|] == 'm'
      && s[12 + |x|] == ' ' && s[13 + |x|] == open
      && s[7..7 + |x|] == x && s[14 + |x|..] == t && s[..14 + |x|] == ImportPrefix(x, open)
      && (forall k :: 0 <= k < |s| && IsSpace(s[k]) ==> k == 6 || k == 7 + |x| || k == 12 + |x|)
      && (forall k :: 0 < k < |s| && IsQuote(s[k]) && IsSpace(s[k - 1]) ==> k == 13 + |x|)
  {
    var s := ImportPrefix(x, open) + t;
    assert s == "import " + x + " from " + [open] + t;
    assert s[7..7 + |x|] == x;
    assert s[8 + |x|..12 + |x|] == "from";
    assert s[8 + |x|..13 + |x|] == "from ";
    assert s[14 + |x|..] == t;
    forall k | 0 <= k < |s| && k != 6 && k != 7 + |x| && k != 12 + |x|
      ensures !IsSpace(s[k])
    {
      if k < 6 {
        assert s[k] == "import"[k];
      } else if k < 7 + |x| {
        assert s[k] == x[k - 7];
        WordCharIsPlain(x[k - 7]);
      } else if k < 12 + |x| {
        assert s[k] == "from"[k - 8 - |x|];
      } else if k > 13 + |x| {
        assert s[k] == t[k - 14 - |x|];
      }
    }
  }

  /** In an import line whose tail has no whitespace, only the quote after `from ` follows whitespace. */
  lemma {:induction false} QuoteAfterSpace(x: string, open: char, t: string, k: nat)
    requires IsIdentifier(x) && IsQuote(open) && NoSpace(t)
    requires 0 < k < |ImportPrefix(x, open) + t|
    requires IsQuote((ImportPrefix(x, open) + t)[k]) && IsSpace((ImportPrefix(x, open) + t)[k - 1])
    ensures k == 13 + |x|
  {
    PrefixLayout(x, open, t);
    var s := ImportPrefix(x, open) + t;
    assert s[7] == x[0];
    WordCharIsPlain(x[0]);
    assert s[8 + |x|..12 + |x|] == "from";
    assert !IsQuote(s[8 + |x|]);
  }

  /** `from\s+['"]` occurs in an import line only at its own `from`. */
  lemma {:induction false} FromQuotePinned(x: string, open: char, t: string)
    requires IsIdentifier(x) && IsQuote(open) && NoSpace(t)
    ensures var s := ImportPrefix(x, open) + t;
      && FromQuote(s, 8 + |x|) == Some(13 + |x|)
      && forall k :: 0 <= k <= |s| && FromQuote(s, k).Some? ==> k == 8 + |x|
  {
    PrefixLayout(x, open, t);
    var s := ImportPrefix(x, open) + t;
    RunEndAt(s, 12 + |x|, 13 + |x|, Space);
    assert s[8 + |x|..12 + |x|] == "from";
    assert !IsSpace(s[11 + |x|]);
    forall k | 0 <= k <= |s| && FromQuote(s, k).Some?
      ensures k == 8 + |x|
    {
      var e := FromQuote(s, k).value;
      FromQuoteSpec(s, k);
      assert IsSpace(s[e - 1]);
      QuoteAfterSpace(x, open, t, e);
    }
  }

  /** `import\s+(\w+)\s+from\s+['"]` matches at the start of an import line with the line's own parts. */
  lemma {:induction false} ImportHeadAtStart(x: string, open: char, t: string)
    requires IsIdentifier(x) && IsQuote(open) && NoSpace(t)
    ensures var s := ImportPrefix(x, open) + t;
      ImportHead(s, 0) == Some(Head(7, 7 + |x|, 8 + |x|, 13 + |x|))
  {
    PrefixLayout(x, open, t);
    FromQuotePinned(x, open, t);
    var s := ImportPrefix(x, open) + t;
    assert s[7] == x[0];
    WordCharIsPlain(x[0]);
    RunEndAt(s, 6, 7, Space);
    assert s[8 + |x|..12 + |x|] == "from";
    assert s[8 + |x|] == 'f';
    RunEndAt(s, 7, 7 + |x|, Word);
    RunEndAt(s, 7 + |x|, 8 + |x|, Space);
  }

  /** ... and nowhere else. */
  lemma {:induction false} ImportHeadOnlyAtStart(x: string, open: char, t: string)
    requires IsIdentifier(x) && IsQuote(open) && NoSpace(t)
    ensures var s := ImportPrefix(x, open) + t;
      forall k :: 0 <= k <= |s| && ImportHead(s, k).Some? ==> k == 0
  {
    PrefixLayout(x, open, t);
    FromQuotePinned(x, open, t);
    var s := ImportPrefix(x, open) + t;
    assert s[6 + |x|] == x[|x| - 1];
    WordCharIsPlain(x[|x| - 1]);
    forall k | 0 <= k <= |s| && ImportHead(s, k).Some?
      ensures k == 0
    {
      var h := ImportHead(s, k).value;
      assert h.fromAt == 8 + |x|;
      ImportHeadSpec(s, k);
      assert IsSpace(s[h.nameStart - 1]);
    }
  }

  /** The lazy tail runs over a plain path to the end of the text. */
  lemma {:induction false} LazyOpenAtEnd(s: string, j: nat)
    requires j <= |s|
    requires forall m :: j <= m < |s| ==> !IsQuote(s[m]) && !IsSpace(s[m])
    ensures LazyToLineEnd(s, j) == Some((|s|, |s|))
    decreases |s| - j
  {
    if j < |s| {
      LazyOpenAtEnd(s, j + 1);
    }
  }

  /** Quote options that may close an import line: nothing, `'` or `"`. */
  predicate IsCloser(close: string) {
    close == "" || close == "'" || close == "\""
  }

  lemma {:induction false} CloserLayout(q: string, close: string)
    requires IsPlainPath(q) && IsCloser(close)
    ensures NoSpace(q + close)
    ensures forall m :: 0 <= m < |q| ==> (q + close)[m] == q[m]
  {
  }

  /** The `from` clause of a single-quoted import line, as `LineFrom` rewrites it, is the clause itself. */
  lemma {:induction false} FromClauseOfImportLine(x: string, q: string)
    ensures var s := ImportLine(x, q);
      |s| == 15 + |x| + |q| && FromText(s[14 + |x|..|s| - 1]) == s[8 + |x|..]
  {
    var s := ImportLine(x, q);
    assert s == ImportPrefix(x, '\'') + q + "'";
    assert s[14 + |x|..|s| - 1] == q;
    assert s[8 + |x|..] == FromText(q);
  }

  /** The regular `from` clause of an import line is the only `LineFrom` match, and it is kept. */
  lemma {:induction false} LineFromKeepsImportLine(x: string, q: string)
    requires IsIdentifier(x) && IsPlainPath(q)
    ensures ReplaceAll(LineFrom, ImportLine(x, q)) == ImportLine(x, q)
  {
    var t := q + "'";
    var s := ImportPrefix(x, '\'') + t;
    assert s == ImportLine(x, q);
    PrefixLayout(x, '\'', t);
    FromQuotePinned(x, '\'', t);
    LazyClosedAtEnd(s, 14 + |x|);
    FromClauseOfImportLine(x, q);
    LineFromStable(s, 8 + |x|, |s| - 1);
  }

  /** The characters after the opening quote of an import line: the path, then the optional closing quote. */
  lemma {:induction false} TailLayout(x: string, q: string, open: char, close: string)
    requires IsPlainPath(q) && IsCloser(close)
    ensures var s := ImportPrefix(x, open) + q + close;
      && |s| == 14 + |x| + |q| + |close|
      && s[14 + |x|..14 + |x| + |q|] == q
      && (forall m :: 14 + |x| <= m < 14 + |x| + |q| ==> !IsQuote(s[m]) && !IsSpace(s[m]))
      && (close != "" ==> IsQuote(s[|s| - 1]))
  {
    var s := ImportPrefix(x, open) + q + close;
    assert s[14 + |x|..14 + |x| + |q|] == q;
    forall m | 14 + |x| <= m < 14 + |x| + |q|
      ensures !IsQuote(s[m]) && !IsSpace(s[m])
    {
      assert s[m] == q[m - 14 - |x|];
    }
  }

  /** The lazy path of an import line stops before its closing quote, or at the end when there is none. */
  lemma {:induction false} LazyOnImportLine(x: string, q: string, open: char, close: string)
    requires IsPlainPath(q) && IsCloser(close)
    ensures var s := ImportPrefix(x, open) + q + close;
      var r := LazyToLineEnd(s, 14 + |x|);
      r.Some? && r.value.0 == 14 + |x| + |q| && r.value.1 == |s|
  {
    var s := ImportPrefix(x, open) + q + close;
    TailLayout(x, q, open, close);
    if close == "" {
      LazyOpenAtEnd(s, 14 + |x|);
    } else {
      LazyClosedAtEnd(s, 14 + |x|);
    }
  }

  /** The head of an import line both `import` patterns see: where the name and the opening quote are, and that no other head follows. */
  lemma {:induction false} ImportLineHead(x: string, q: string, open: char, close: string)
    requires IsIdentifier(x) && IsPlainPath(q) && IsQuote(open) && IsCloser(close)
    ensures var s := ImportPrefix(x, open) + q + close;
      && s[7..7 + |x|] == x
      && ImportHead(s, 0) == Some(Head(7, 7 + |x|, 8 + |x|, 13 + |x|))
      && forall k :: 0 < k <= |s| ==> ImportHead(s, k).None?
  {
    var s := ImportPrefix(x, open) + q + close;
    CloserLayout(q, close);
    assert s == ImportPrefix(x, open) + (q + close);
    ImportHeadAtStart(x, open, q + close);
    ImportHeadOnlyAtStart(x, open, q + close);
    assert s[7..7 + |x|] == x;
  }

  /** The parts of an import line both `import` patterns see: its head, name, path and lazy tail. */
  lemma {:induction false} ImportLineParts(x: string, q: string, open: char, close: string)
    requires IsIdentifier(x) && IsPlainPath(q) && IsQuote(open) && IsCloser(close)
    ensures var s := ImportPrefix(x, open) + q + close;
      && 14 + |x| + |q| <= |s| <= 15 + |x| + |q|
      && s[7..7 + |x|] == x && s[14 + |x|..14 + |x| + |q|] == q
      && (|s| == 14 + |x| + |q| || IsQuote(s[14 + |x| + |q|]))
      && ImportHead(s, 0) == Some(Head(7, 7 + |x|, 8 + |x|, 13 + |x|))
      && LazyToLineEnd(s, 14 + |x|) == Some((14 + |x| + |q|, |s|))
      && forall k :: 0 < k <= |s| ==> ImportHead(s, k).None?
  {
    ImportLineHead(x, q, open, close);
    TailLayout(x, q, open, close);
    LazyOnImportLine(x, q, open, close);
  }

  /** The text `LineImport` writes for the parts of an import line is the single-quoted line. */
  lemma {:induction false} LineImportTextOfParts(s: string, x: string, q: string)
    requires 14 + |x| + |q| <= |s| && s[7..7 + |x|] == x && s[14 + |x|..14 + |x| + |q|] == q
    ensures LineImportText(s, Head(7, 7 + |x|, 8 + |x|, 13 + |x|), 14 + |x| + |q|) == ImportLine(x, q)
  {
    ImportLineShape(x, q);
  }

  /** A text with the parts of an import line is rewritten by `LineImport` to the single-quoted line. */
  lemma {:induction false} LineImportOfParts(s: string, x: string, q: string)
    requires 14 + |x| + |q| <= |s| && s[7..7 + |x|] == x && s[14 + |x|..14 + |x| + |q|] == q
    requires ImportHead(s, 0) == Some(Head(7, 7 + |x|, 8 + |x|, 13 + |x|))
    requires LazyToLineEnd(s, 14 + |x|) == Some((14 + |x| + |q|, |s|))
    ensures ReplaceAll(LineImport, s) == ImportLine(x, q)
  {
    LineImportWhole(s, 14 + |x| + |q|);
    LineImportTextOfParts(s, x, q);
  }

  /** An import line of any quoting becomes the single-quoted line once `LineImport` has run. */
  lemma {:induction false} LineImportNormalises(x: string, q: string, open: char, close: string)
    requires IsIdentifier(x) && IsPlainPath(q) && IsQuote(open) && IsCloser(close)
    ensures ReplaceAll(LineImport, ImportPrefix(x, open) + q + close) == ImportLine(x, q)
  {
    ImportLineParts(x, q, open, close);
    LineImportOfParts(ImportPrefix(x, open) + q + close, x, q);
  }

  /** An import path that `AssetImport` rewrites: `./assets/` and at least one more character. */
  predicate IsAssetPath(q: string) {
    |q| > |AssetsDir| && StartsAt(q, 0, AssetsDir)
  }

  /** The characters of a path copied into a text at `o`. */
  lemma {:induction false} PathChars(s: string, o: nat, q: string)
    requires o + |q| <= |s| && s[o..o + |q|] == q
    ensures forall m :: 0 <= m < |q| ==> s[o + m] == q[m]
  {
    forall m | 0 <= m < |q| ensures s[o + m] == q[m] {
      assert s[o..o + |q|][m] == s[o + m];
    }
  }

  /** The text `AssetImport` writes for the parts of an import line of an asset path is the single-quoted line. */
  lemma {:induction false} AssetImportTextOfParts(s: string, x: string, q: string)
    requires 14 + |x| + |q| <= |s| && s[7..7 + |x|] == x && s[14 + |x|..14 + |x| + |q|] == q
    requires IsAssetPath(q)
    ensures AssetImportText(s, Head(7, 7 + |x|, 8 + |x|, 13 + |x|), 14 + |x| + |q|) == ImportLine(x, q)
  {
    var rest := q[|AssetsDir|..];
    assert s[14 + |x| + |AssetsDir|..14 + |x| + |q|] == rest;
    assert q == AssetsDir + rest by {
      forall m | 0 <= m < |q| ensures q[m] == (AssetsDir + rest)[m] {
        if m < |AssetsDir| { assert q[0 + m] == AssetsDir[m]; }
      }
    }
    ImportLineShape(x, q);
  }

  /** A text with the parts of an import line of an asset path is rewritten by `AssetImport` to the single-quoted line. */
  lemma {:induction false} AssetImportOfAssetParts(s: string, x: string, q: string)
    requires 14 + |x| + |q| <= |s| <= 15 + |x| + |q| && s[7..7 + |x|] == x && s[14 + |x|..14 + |x| + |q|] == q
    requires |s| == 14 + |x| + |q| || IsQuote(s[14 + |x| + |q|])
    requires forall m :: 0 <= m < |q| ==> !IsQuote(q[m])
    requires ImportHead(s, 0) == Some(Head(7, 7 + |x|, 8 + |x|, 13 + |x|))
    requires IsAssetPath(q)
    ensures ReplaceAll(AssetImport, s) == ImportLine(x, q)
  {
    PathChars(s, 14 + |x|, q);
    AssetPathRun(s, 14 + |x|, q);
    AssetImportWhole(s, 14 + |x| + |q|);
    AssetImportTextOfParts(s, x, q);
  }

  /** An asset path copied into a text at `o` and closed there: `./assets/`, then a run of non-quotes up to its end. */
  lemma {:induction false} AssetPathRun(s: string, o: nat, q: string)
    requires o + |q| <= |s| && forall m :: 0 <= m < |q| ==> s[o + m] == q[m] && !IsQuote(q[m])
    requires o + |q| == |s| || IsQuote(s[o + |q|])
    requires IsAssetPath(q)
    ensures StartsAt(s, o, AssetsDir) && RunEnd(s, o + |AssetsDir|, NonQuote) == o + |q|
  {
    StartsAtShift(s, o, q, AssetsDir);
    forall m | o + |AssetsDir| <= m < o + |q|
      ensures !IsQuote(s[m])
    {
      assert s[o + (m - o)] == q[m - o];
    }
    RunEndAt(s, o + |AssetsDir|, o + |q|, NonQuote);
  }

  /** At the head of an import line whose path is not an asset path, `AssetImport` does not match. */
  lemma {:induction false} AssetImportNoneOfParts(s: string, x: string, q: string)
    requires 14 + |x| + |q| <= |s| <= 15 + |x| + |q| && s[14 + |x|..14 + |x| + |q|] == q
    requires |s| == 14 + |x| + |q| || IsQuote(s[14 + |x| + |q|])
    requires ImportHead(s, 0) == Some(Head(7, 7 + |x|, 8 + |x|, 13 + |x|))
    requires !IsAssetPath(q)
    ensures MatchAt(AssetImport, s, 0).None?
  {
    var f := 14 + |x| + |AssetsDir|;
    if StartsAt(s, 14 + |x|, AssetsDir) {
      PathChars(s, 14 + |x|, q);
      if |q| < |AssetsDir| {
        AssetsDirNoQuote(s, 14 + |x|, |q|);
        assert false;
      }
      StartsAtShift(s, 14 + |x|, q, AssetsDir);
      RunEndAt(s, f, f, NonQuote);
    }
    AssetImportNone(s, 0);
  }

  /** A text with the parts of an import line of any other path is left alone by `AssetImport`. */
  lemma {:induction false} AssetImportOfOtherParts(s: string, x: string, q: string)
    requires 14 + |x| + |q| <= |s| <= 15 + |x| + |q| && s[14 + |x|..14 + |x| + |q|] == q
    requires |s| == 14 + |x| + |q| || IsQuote(s[14 + |x| + |q|])
    requires ImportHead(s, 0) == Some(Head(7, 7 + |x|, 8 + |x|, 13 + |x|))
    requires forall k :: 0 < k <= |s| ==> ImportHead(s, k).None?
    requires !IsAssetPath(q)
    ensures ReplaceAll(AssetImport, s) == s
  {
    AssetImportNoneOfParts(s, x, q);
    AssetImportIdle(s);
  }

  /** `AssetImport` rewrites an import line of an asset path to the single-quoted line, and leaves any other alone. */
  lemma {:induction false} AssetImportOnImportLine(x: string, q: string, open: char, close: string)
    requires IsIdentifier(x) && IsPlainPath(q) && IsQuote(open) && IsCloser(close)
    ensures IsAssetPath(q) ==> ReplaceAll(AssetImport, ImportPrefix(x, open) + q + close) == ImportLine(x, q)
    ensures !IsAssetPath(q) ==> ReplaceAll(AssetImport, ImportPrefix(x, open) + q + close) == ImportPrefix(x, open) + q + close
  {
    ImportLineParts(x, q, open, close);
    if IsAssetPath(q) {
      AssetImportOfAssetParts(ImportPrefix(x, open) + q + close, x, q);
    } else {
      AssetImportOfOtherParts(ImportPrefix(x, open) + q + close, x, q);
    }
  }

  /**
   * Whatever its quotes, and whether or not it is closed, an import line `import <x> from '<q>`
   * comes out of `fixImportStatements` as the single-quoted `import <x> from '<q>'`; in particular
   * a well-formed line is left exactly as it was and an unterminated one is closed.
   */
  lemma {:induction false} FixImportLine(x: string, q: string, open: char, close: string)
    requires IsIdentifier(x) && IsPlainPath(q) && IsQuote(open) && IsCloser(close)
    ensures FixImportStatements(ImportPrefix(x, open) + q + close) == ImportLine(x, q)
  {
    var s := ImportPrefix(x, open) + q + close;
    AssetImportOnImportLine(x, q, open, close);
    if !IsAssetPath(q) {
      LineImportNormalises(x, q, open, close);
    } else {
      assert ImportLine(x, q) == ImportPrefix(x, '\'') + q + "'";
      LineImportNormalises(x, q, '\'', "'");
    }
    LineFromKeepsImportLine(x, q);
  }

  /** A well-formed single-quoted import is never rewritten. */
  lemma {:induction false} FixKeepsWellFormedImport(x: string, q: string)
    requires IsIdentifier(x) && IsPlainPath(q)
    ensures FixImportStatements(ImportLine(x, q)) == ImportLine(x, q)
  {
    assert ImportLine(x, q) == ImportPrefix(x, '\'') + q + "'";
    FixImportLine(x, q, '\'', "'");
  }

  /** An unterminated `import <x> from './assets/<p>` is closed with a single quote. */
  lemma {:induction false} FixClosesAssetImport(x: string, p: string)
    requires IsIdentifier(x) && IsPlainPath(p)
    ensures FixImportStatements("import " + x + " from './assets/" + p) == "import " + x + " from './assets/" + p + "'"
  {
    var q := AssetsDir + p;
    assert IsPlainPath(q) by {
      forall k | 0 <= k < |q| ensures !IsQuote(q[k]) && !IsSpace(q[k]) {
        if k >= |AssetsDir| { assert q[k] == p[k - |AssetsDir|]; }
      }
    }
    assert "import " + x + " from './assets/" + p == ImportPrefix(x, '\'') + q + "";
    FixImportLine(x, q, '\'', "");
  }

  /** A root-relative SVG path that `RootSvgFrom` moves into `./assets/`: `/` and a name of at least five characters ending `.svg`. */
  predicate IsRootSvgPath(q: string) {
    |q| >= 6 && q[0] == '/' && EndsWith(q[1..], ".svg")
  }

  /** Where the App-file redirects send the module path of one import line. */
  function RedirectPath(q: string): string {
    if IsRootSvgPath(q) then AssetsDir + q[1..]
    else if q == "./react.svg" then "./assets/react.svg"
    else if q == "./vite.svg" then "./assets/vite.svg"
    else q
  }

  /** What the redirect patterns need of a text: it is an import line whose only `from ` + quote is its own. */
  ghost predicate FromLine(s: string, x: string, q: string) {
    && |s| == 15 + |x| + |q|
    && s[..14 + |x|] == "import " + x + " from '"
    && s[14 + |x|..] == q + "'"
    && FromSpaceQuote(s, 8 + |x|)
    && forall k :: 0 <= k < |s| && FromSpaceQuote(s, k) ==> k == 8 + |x|
  }

  /** Every well-formed import line has that shape. */
  lemma {:induction false} ImportLineIsFromLine(x: string, q: string)
    requires IsIdentifier(x) && IsPlainPath(q)
    ensures FromLine(ImportLine(x, q), x, q)
  {
    var t := q + "'";
    var s := ImportPrefix(x, '\'') + t;
    assert s == ImportLine(x, q);
    CloserLayout(q, "'");
    PrefixLayout(x, '\'', t);
    assert ImportPrefix(x, '\'') == "import " + x + " from '";
    forall k | 0 <= k < |s| && FromSpaceQuote(s, k)
      ensures k == 8 + |x|
    {
      assert s[k..k + 5] == "from ";
      assert s[k + 4] == ' ';
      QuoteAfterSpace(x, '\'', t, k + 5);
    }
  }

  /** The pieces of an import line put back together. */
  lemma {:induction false} FromLineJoin(s: string, x: string, q: string, r: string)
    requires FromLine(s, x, q)
    ensures s == ImportLine(x, q)
    ensures s[..8 + |x|] + FromText(r) == ImportLine(x, r)
  {
    assert s == s[..14 + |x|] + s[14 + |x|..];
    assert "import " + x + " from '" == ImportPrefix(x, '\'');
    assert s[..8 + |x|] == ("import " + x + " from '")[..8 + |x|] == "import " + x + " ";
    ImportLineShape(x, r);
  }

  /** Apart from its own `from`, an import line holds no match of a redirect pattern. */
  lemma {:induction false} FromLineOnlyMatch(s: string, x: string, q: string, p: Pattern)
    requires FromLine(s, x, q) && (p.AssetFrom? || p.RootSvgFrom? || p.QuotedFrom?)
    ensures forall k :: 0 <= k < |s| && k != 8 + |x| ==> MatchAt(p, s, k).None?
  {
    forall k | 0 <= k < |s| && k != 8 + |x|
      ensures MatchAt(p, s, k).None?
    {
      FromPatternNeedsQuote(p, s, k);
    }
  }

  /** A redirect pattern that, at the line's own `from`, matches the rest of the line and writes path `r`, or does not match and `r` is the old path. */
  ghost predicate RewritesPathTo(s: string, x: string, q: string, p: Pattern, r: string)
    requires 8 + |x| <= |s|
  {
    var m := MatchAt(p, s, 8 + |x|);
    if m.Some? then m.value.end == |s| && m.value.replacement == FromText(r) else r == q
  }

  /** `ReplaceFirst` of a redirect pattern on an import line rewrites at most its own path. */
  lemma {:induction false} FromLineStep(s: string, x: string, q: string, p: Pattern, r: string)
    requires FromLine(s, x, q) && (p.AssetFrom? || p.RootSvgFrom? || p.QuotedFrom?)
    requires RewritesPathTo(s, x, q, p, r)
    ensures ReplaceFirst(p, s) == ImportLine(x, r)
  {
    FromLineOnlyMatch(s, x, q, p);
    FromLineJoin(s, x, q, r);
    if MatchAt(p, s, 8 + |x|).Some? {
      ReplaceFirstAt(p, s, 8 + |x|);
    } else {
      NoMatchReplaceFirst(p, s);
    }
  }

  /** The quote-free path of an import line, as its characters. */
  lemma {:induction false} FromLinePath(s: string, x: string, q: string)
    requires FromLine(s, x, q) && IsPlainPath(q)
    ensures s[14 + |x|..|s| - 1] == q && IsQuote(s[|s| - 1])
    ensures forall m :: 14 + |x| <= m < |s| - 1 ==> !IsQuote(s[m]) && s[m] == q[m - 14 - |x|]
  {
    assert s[14 + |x|..][|q|] == s[|s| - 1];
    forall m | 14 + |x| <= m < |s| - 1
      ensures !IsQuote(s[m]) && s[m] == q[m - 14 - |x|]
    {
      assert s[14 + |x|..][m - 14 - |x|] == s[m];
    }
  }

  /** At an import line's own `from`, `AssetFrom` rewrites an asset path to itself and matches nothing else. */
  lemma {:induction false} AssetFromMatch(s: string, x: string, q: string)
    requires FromLine(s, x, q) && IsPlainPath(q)
    ensures RewritesPathTo(s, x, q, AssetFrom, q)
  {
    FromLinePath(s, x, q);
    AssetFromAt(s, 8 + |x|, q);
  }

  /** `AssetFrom` on a quoted path `q` that closes the text: an asset path is rewritten to itself, anything else is not matched. */
  lemma {:induction false} AssetFromAt(s: string, i: nat, q: string)
    requires |s| == i + 7 + |q| && FromSpaceQuote(s, i) && IsQuote(s[|s| - 1])
    requires forall m :: i + 6 <= m < |s| - 1 ==> !IsQuote(s[m]) && s[m] == q[m - i - 6]
    ensures var m := MatchAt(AssetFrom, s, i);
      m.Some? ==> m.value.end == |s| && m.value.replacement == FromText(q)
  {
    assert forall m :: 0 <= m < |q| ==> s[i + 6 + m] == q[m] by {
      forall m | 0 <= m < |q| ensures s[i + 6 + m] == q[m] {
        assert s[i + 6 + m] == q[i + 6 + m - i - 6];
      }
    }
    if IsAssetPath(q) {
      StartsAtShift(s, i + 6, q, AssetsDir);
      AssetFromHit(s, i, q);
    } else if StartsAt(s, i + 6, AssetsDir) {
      if |q| < |AssetsDir| {
        AssetsDirNoQuote(s, i + 6, |q|);
        assert false;
      }
      StartsAtShift(s, i + 6, q, AssetsDir);
      RunEndAt(s, i + 6 + |AssetsDir|, i + 6 + |AssetsDir|, NonQuote);
    }
  }

  /** `AssetFrom` on a quoted asset path that closes the text rewrites it to itself. */
  lemma {:induction false} AssetFromHit(s: string, i: nat, q: string)
    requires |s| == i + 7 + |q| && FromSpaceQuote(s, i) && IsQuote(s[|s| - 1])
    requires forall m :: i + 6 <= m < |s| - 1 ==> !IsQuote(s[m]) && s[m] == q[m - i - 6]
    requires IsAssetPath(q) && StartsAt(s, i + 6, AssetsDir)
    ensures var m := MatchAt(AssetFrom, s, i);
      m.Some? && m.value.end == |s| && m.value.replacement == FromText(q)
  {
    var f := i + 6 + |AssetsDir|;
    var rest := q[|AssetsDir|..];
    assert s[f..|s| - 1] == rest;
    RunEndAt(s, f, |s| - 1, NonQuote);
    assert q == AssetsDir + rest by {
      forall m | 0 <= m < |q| ensures q[m] == (AssetsDir + rest)[m] {
        if m < |AssetsDir| { assert q[0 + m] == AssetsDir[m]; }
      }
    }
  }

  /** At an import line's own `from`, `RootSvgFrom` matches exactly a root-relative SVG path. */
  lemma {:induction false} RootSvgMatch(s: string, x: string, q: string)
    requires FromLine(s, x, q) && IsPlainPath(q)
    ensures RewritesPathTo(s, x, q, RootSvgFrom, if IsRootSvgPath(q) then AssetsDir + q[1..] else q)
  {
    FromLinePath(s, x, q);
    RootSvgAt(s, 8 + |x|, q);
  }

  /** `RootSvgFrom` on a quoted path `q` that closes the text matches exactly when `q` is a root-relative SVG path, and moves it under `./assets/`. */
  lemma {:induction false} RootSvgAt(s: string, i: nat, q: string)
    requires |s| == i + 7 + |q| && FromSpaceQuote(s, i) && IsQuote(s[|s| - 1])
    requires forall m :: i + 6 <= m < |s| - 1 ==> !IsQuote(s[m]) && s[m] == q[m - i - 6]
    ensures MatchAt(RootSvgFrom, s, i).Some? <==> IsRootSvgPath(q)
    ensures IsRootSvgPath(q) ==>
      MatchAt(RootSvgFrom, s, i).value.end == |s| && MatchAt(RootSvgFrom, s, i).value.replacement == FromText(AssetsDir + q[1..])
  {
    if |q| > 0 && q[0] == '/' {
      assert s[i + 6] == q[0];
      assert s[i + 7..|s| - 1] == q[1..];
      RunEndAt(s, i + 7, |s| - 1, NonQuote);
    } else if |q| > 0 {
      assert s[i + 6] == q[0];
    }
  }

  /** At an import line's own `from`, a literal redirect matches exactly its target path. */
  lemma {:induction false} QuotedMatch(s: string, x: string, q: string, target: string, dest: string)
    requires FromLine(s, x, q) && IsPlainPath(q)
    ensures RewritesPathTo(s, x, q, QuotedFrom(target, FromText(dest)), if q == target then dest else q)
  {
    FromLinePath(s, x, q);
    var i := 8 + |x|;
    var t := i + 6 + |target|;
    assert StartsAt(s, i + 6, target) && t == |s| - 1 ==> target == q;
    assert StartsAt(s, i + 6, target) && t < |s| - 1 ==> !IsQuote(s[t]);
  }

  /** A literal redirect finds no match at all on an import line whose path is not its target. */
  lemma {:induction false} QuotedMissesOtherPath(x: string, q: string, target: string, dest: string)
    requires IsIdentifier(x) && IsPlainPath(q) && q != target
    ensures forall k :: 0 <= k < |ImportLine(x, q)| ==> MatchAt(QuotedFrom(target, FromText(dest)), ImportLine(x, q), k).None?
  {
    var s := ImportLine(x, q);
    ImportLineIsFromLine(x, q);
    FromLineOnlyMatch(s, x, q, QuotedFrom(target, FromText(dest)));
    FromLinePath(s, x, q);
    var i := 8 + |x|;
    var t := i + 6 + |target|;
    assert StartsAt(s, i + 6, target) && t == |s| - 1 ==> target == q;
    assert StartsAt(s, i + 6, target) && t < |s| - 1 ==> !IsQuote(s[t]);
  }

  /** `AssetFrom` leaves an import line as it is. */
  lemma {:induction false} AssetFromStep(s: string, x: string, q: string)
    requires FromLine(s, x, q) && IsPlainPath(q)
    ensures ReplaceFirst(AssetFrom, s) == ImportLine(x, q)
  {
    AssetFromMatch(s, x, q);
    FromLineStep(s, x, q, AssetFrom, q);
  }

  /** `RootSvgFrom` moves a root-relative SVG path into `./assets/` and leaves any other path alone. */
  lemma {:induction false} RootSvgStep(s: string, x: string, q: string)
    requires FromLine(s, x, q) && IsPlainPath(q)
    ensures ReplaceFirst(RootSvgFrom, s) == ImportLine(x, if IsRootSvgPath(q) then AssetsDir + q[1..] else q)
  {
    RootSvgMatch(s, x, q);
    FromLineStep(s, x, q, RootSvgFrom, if IsRootSvgPath(q) then AssetsDir + q[1..] else q);
  }

  /** A literal redirect rewrites exactly the import of its target. */
  lemma {:induction false} QuotedStep(s: string, x: string, q: string, target: string, dest: string)
    requires FromLine(s, x, q) && IsPlainPath(q)
    ensures ReplaceFirst(QuotedFrom(target, FromText(dest)), s) == ImportLine(x, if q == target then dest else q)
  {
    QuotedMatch(s, x, q, target, dest);
    FromLineStep(s, x, q, QuotedFrom(target, FromText(dest)), if q == target then dest else q);
  }

  lemma {:induction false} AssetsPathPlain(n: string)
    requires IsPlainPath(n)
    ensures IsPlainPath(AssetsDir + n)
  {
    var q := AssetsDir + n;
    forall k | 0 <= k < |q| ensures !IsQuote(q[k]) && !IsSpace(q[k]) {
      if k >= |AssetsDir| { assert q[k] == n[k - |AssetsDir|]; }
    }
  }

  /** A literal redirect of one path. */
  function Swap(q: string, target: string, dest: string): string {
    if q == target then dest else q
  }

  /** The path after `RootSvgFrom`. */
  function RootSvgSwap(q: string): string {
    if IsRootSvgPath(q) then AssetsDir + q[1..] else q
  }

  /** The path after each of the six redirects, in order. */
  function RedirectChain(q: string): seq<string> {
    var q1 := RootSvgSwap(q);
    var q2 := Swap(q1, "./react.svg", "./assets/react.svg");
    var q3 := Swap(q2, "./vite.svg", "./assets/vite.svg");
    var q4 := Swap(q3, "/vite.svg", "./assets/vite.svg");
    var q5 := Swap(q4, "/react.svg", "./assets/react.svg");
    [q, q, q1, q2, q3, q4, q5]
  }

  /** The chain of redirects ends where `RedirectPath` says. */
  lemma {:induction false} RedirectChainEnd(q: string)
    ensures RedirectChain(q)[6] == RedirectPath(q)
  {
    assert IsRootSvgPath("/vite.svg") && IsRootSvgPath("/react.svg");
    if IsRootSvgPath(q) {
      assert |AssetsDir + q[1..]| >= 14;
    }
  }

  /** The three kinds of redirect on a well-formed import line. */
  lemma {:induction false} RedirectSteps(x: string, q: string, target: string, dest: string)
    requires IsIdentifier(x) && IsPlainPath(q)
    ensures ReplaceFirst(AssetFrom, ImportLine(x, q)) == ImportLine(x, q)
    ensures ReplaceFirst(RootSvgFrom, ImportLine(x, q)) == ImportLine(x, RootSvgSwap(q))
    ensures ReplaceFirst(QuotedFrom(target, FromText(dest)), ImportLine(x, q)) == ImportLine(x, Swap(q, target, dest))
  {
    ImportLineIsFromLine(x, q);
    AssetFromStep(ImportLine(x, q), x, q);
    RootSvgStep(ImportLine(x, q), x, q);
    QuotedStep(ImportLine(x, q), x, q, target, dest);
  }

  /** Every path along the chain has neither quotes nor whitespace. */
  lemma {:induction false} RedirectChainPlain(q: string)
    requires IsPlainPath(q)
    ensures forall k :: 0 <= k < |RedirectChain(q)| ==> IsPlainPath(RedirectChain(q)[k])
  {
    var react, vite := "./assets/react.svg", "./assets/vite.svg";
    DefaultSvgsPlain();
    var q1 := RootSvgSwap(q);
    RootSvgSwapPlain(q);
    var q2 := Swap(q1, "./react.svg", react);
    var q3 := Swap(q2, "./vite.svg", vite);
    var q4 := Swap(q3, "/vite.svg", vite);
    var q5 := Swap(q4, "/react.svg", react);
    assert RedirectChain(q) == [q, q, q1, q2, q3, q4, q5];
  }

  /** The moved default SVG paths have neither quotes nor whitespace. */
  lemma {:induction false} DefaultSvgsPlain()
    ensures IsPlainPath("./assets/react.svg") && IsPlainPath("./assets/vite.svg")
  {
    AssetsPathPlain("react.svg");
    assert "./assets/react.svg" == AssetsDir + "react.svg";
    AssetsPathPlain("vite.svg");
    assert "./assets/vite.svg" == AssetsDir + "vite.svg";
  }

  lemma {:induction false} RootSvgSwapPlain(q: string)
    requires IsPlainPath(q)
    ensures IsPlainPath(RootSvgSwap(q))
  {
    if IsRootSvgPath(q) {
      forall k | 0 <= k < |q| - 1 ensures !IsQuote(q[1..][k]) && !IsSpace(q[1..][k]) {
        assert q[1..][k] == q[k + 1];
      }
      AssetsPathPlain(q[1..]);
    }
  }

  /**
   * On an import line `import <x> from '<q>'` of `App.jsx` or `App.tsx`, the six redirects together
   * send the path where `RedirectPath` says: root SVGs and the default `react.svg` and `vite.svg`
   * into `./assets/`, everything else unchanged.
   */
  lemma {:induction false} RedirectImportLine(x: string, q: string)
    requires IsIdentifier(x) && IsPlainPath(q)
    ensures RedirectAppAssets(ImportLine(x, q)) == ImportLine(x, RedirectPath(q))
  {
    var qs := RedirectChain(q);
    RedirectChainEnd(q);
    RedirectChainPlain(q);
    var react, vite := "./assets/react.svg", "./assets/vite.svg";
    RedirectSteps(x, qs[0], "", "");
    RedirectSteps(x, qs[2], "./react.svg", react);
    RedirectSteps(x, qs[3], "./vite.svg", vite);
    RedirectSteps(x, qs[4], "/vite.svg", vite);
    RedirectSteps(x, qs[5], "/react.svg", react);
  }
}
