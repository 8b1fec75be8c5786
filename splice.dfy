/**
 * How `replace` behaves on a text made of two pieces. Every pattern looks only forward from
 * where it starts, so the matches inside the second piece are that piece's own matches, moved;
 * when no match starting in the first piece reaches into the second, a global replace of the
 * whole is the replace of each piece, and a first-occurrence replace touches only the piece
 * holding the first match.
 */
module Splice {
  import opened Base
  import opened Text
  import opened Patterns

  /** A match of a piece, seen in a text where the piece starts at index `n`. */
  function Shifted(m: Option<Match>, n: nat): Option<Match> {
    match m
    case None => None
    case Some(x) => Some(Match(x.end + n, x.replacement))
  }

  /** `b` is the tail of `s` from index `n`. */
  ghost predicate Placed(s: string, b: string, n: nat) {
    |s| == n + |b| && forall k :: 0 <= k < |b| ==> s[n + k] == b[k]
  }

  lemma {:induction false} JoinPlaced(a: string, b: string)
    ensures Placed(a + b, b, |a|)
  {
  }

  lemma {:induction false} SlicePlaced(s: string, b: string, n: nat, i: nat, j: nat)
    requires Placed(s, b, n) && i <= j <= |b|
    ensures s[n + i..n + j] == b[i..j]
  {
    forall m | 0 <= m < j - i
      ensures s[n + i..n + j][m] == b[i..j][m]
    {
      assert s[n + i + m] == b[i + m];
    }
  }

  lemma {:induction false} StartsAtPlaced(s: string, b: string, n: nat, k: nat, t: string)
    requires Placed(s, b, n) && k <= |b|
    ensures StartsAt(s, n + k, t) <==> StartsAt(b, k, t)
  {
    if StartsAt(b, k, t) {
      forall m | 0 <= m < |t| ensures s[n + k + m] == t[m] {
        assert b[k + m] == t[m];
      }
    }
    if StartsAt(s, n + k, t) {
      forall m | 0 <= m < |t| ensures b[k + m] == t[m] {
        assert s[n + k + m] == t[m];
      }
    }
  }

  lemma {:induction false} StartsAtMoved(s: string, b: string, n: nat, k: nat, t: string)
    requires Placed(s, b, n) && k <= |b| && StartsAt(b, k, t)
    ensures StartsAt(s, n + k, t)
  {
    StartsAtPlaced(s, b, n, k, t);
  }

  lemma {:induction false} StartsAtUnmoved(s: string, b: string, n: nat, k: nat, t: string)
    requires Placed(s, b, n) && k <= |b| && !StartsAt(b, k, t)
    ensures !StartsAt(s, n + k, t)
  {
    StartsAtPlaced(s, b, n, k, t);
  }

  lemma {:induction false} RunEndPlaced(s: string, b: string, n: nat, k: nat, c: CharClass)
    requires Placed(s, b, n) && k <= |b|
    ensures RunEnd(s, n + k, c) == n + RunEnd(b, k, c)
    decreases |b| - k
  {
    if k < |b| {
      assert s[n + k] == b[k];
      if InClass(b[k], c) {
        RunEndPlaced(s, b, n, k + 1, c);
      }
    }
  }

  /** The lazy tail's stopping points, moved by `n`. */
  function ShiftPair(r: Option<(nat, nat)>, n: nat): Option<(nat, nat)> {
    match r
    case None => None
    case Some((x, y)) => Some((x + n, y + n))
  }

  lemma {:induction false} LazyPlaced(s: string, b: string, n: nat, j: nat)
    requires Placed(s, b, n) && j <= |b|
    ensures LazyToLineEnd(s, n + j) == ShiftPair(LazyToLineEnd(b, j), n)
    decreases |b| - j
  {
    if j < |b| {
      assert s[n + j] == b[j];
      if j + 1 < |b| {
        assert s[n + j + 1] == b[j + 1];
      }
      if !IsQuote(b[j]) && !IsLineTerminator(b[j]) {
        LazyPlaced(s, b, n, j + 1);
      }
    }
  }

  function ShiftIndex(o: Option<nat>, n: nat): Option<nat> {
    match o
    case None => None
    case Some(x) => Some(x + n)
  }

  lemma {:induction false} FromQuotePlaced(s: string, b: string, n: nat, d: nat)
    requires Placed(s, b, n) && d <= |b|
    ensures FromQuote(s, n + d) == ShiftIndex(FromQuote(b, d), n)
  {
    if StartsAt(b, d, "from") {
      StartsAtMoved(s, b, n, d, "from");
      RunEndPlaced(s, b, n, d + 4, Space);
      var e := RunEnd(b, d + 4, Space);
      if e < |b| {
        assert s[n + e] == b[e];
      }
    } else {
      StartsAtUnmoved(s, b, n, d, "from");
    }
  }

  function ShiftHead(h: Option<Head>, n: nat): Option<Head> {
    match h
    case None => None
    case Some(x) => Some(ShiftBy(x, n))
  }

  lemma {:induction false} ImportHeadPlaced(s: string, b: string, n: nat, i: nat)
    requires Placed(s, b, n) && i <= |b|
    ensures ImportHead(s, n + i) == ShiftHead(ImportHead(b, i), n)
  {
    if StartsAt(b, i, "import") {
      StartsAtMoved(s, b, n, i, "import");
      var b1 := RunEnd(b, i + 6, Space);
      var c := RunEnd(b, b1, Word);
      var d := RunEnd(b, c, Space);
      var s1 := RunEnd(s, n + i + 6, Space);
      var s2 := RunEnd(s, s1, Word);
      var s3 := RunEnd(s, s2, Space);
      HeadRunsPlaced(s, b, n, i);
      FromQuoteAt(s, b, n, d, s3);
      HeadIs(b, i, b1, c, d);
      HeadIs(s, n + i, s1, s2, s3);
      HeadShifted(n, i, b1, c, d, s1, s2, s3, FromQuote(b, d), FromQuote(s, s3), ImportHead(b, i), ImportHead(s, n + i));
    } else {
      StartsAtUnmoved(s, b, n, i, "import");
    }
  }

  /** The three runs of an import head (blanks, name, blanks), moved by `n`. */
  lemma {:induction false} HeadRunsPlaced(s: string, b: string, n: nat, i: nat)
    requires Placed(s, b, n) && i + 6 <= |b|
    ensures var b1 := RunEnd(b, i + 6, Space);
      var c := RunEnd(b, b1, Word);
      var s1 := RunEnd(s, n + i + 6, Space);
      var s2 := RunEnd(s, s1, Word);
      && s1 == n + b1
      && s2 == n + c
      && RunEnd(s, s2, Space) == n + RunEnd(b, c, Space)
  {
    var b1 := RunEnd(b, i + 6, Space);
    RunEndPlaced(s, b, n, i + 6, Space);
    var c := RunEnd(b, b1, Word);
    RunEndPlaced(s, b, n, b1, Word);
    RunEndPlaced(s, b, n, c, Space);
  }

  /** `FromQuotePlaced` at a position named by its value in the joined text. */
  lemma {:induction false} FromQuoteAt(s: string, b: string, n: nat, d: nat, e: nat)
    requires Placed(s, b, n) && d <= |b| && e == n + d
    ensures FromQuote(s, e) == ShiftIndex(FromQuote(b, d), n)
  {
    FromQuotePlaced(s, b, n, d);
  }

  /** A head built from run ends and a quote all moved by `n` is the head built from the originals, moved. */
  lemma {:induction false} HeadShifted(n: nat, i: nat, b1: nat, c: nat, d: nat, s1: nat, s2: nat, s3: nat,
                                       fb: Option<nat>, fs: Option<nat>, hb: Option<Head>, hs: Option<Head>)
    requires s1 == n + b1 && s2 == n + c && s3 == n + d && fs == ShiftIndex(fb, n)
    requires hb == if b1 == i + 6 || c == b1 || d == c || fb.None? then None else Some(Head(b1, c, d, fb.value))
    requires hs == if s1 == n + i + 6 || s2 == s1 || s3 == s2 || fs.None? then None else Some(Head(s1, s2, s3, fs.value))
    ensures hs == ShiftHead(hb, n)
  {
  }

  /** An import head at `i`, given its three run ends. */
  lemma {:induction false} HeadIs(s: string, i: nat, b1: nat, c: nat, d: nat)
    requires i + 6 <= |s| && StartsAt(s, i, "import")
    requires b1 == RunEnd(s, i + 6, Space) && c == RunEnd(s, b1, Word) && d == RunEnd(s, c, Space)
    ensures ImportHead(s, i) == if b1 == i + 6 || c == b1 || d == c || FromQuote(s, d).None? then None
      else Some(Head(b1, c, d, FromQuote(s, d).value))
  {
  }

  lemma {:induction false} AssetImportPlaced(s: string, b: string, n: nat, k: nat)
    requires Placed(s, b, n) && k <= |b|
    ensures MatchAt(AssetImport, s, n + k) == Shifted(MatchAt(AssetImport, b, k), n)
  {
    ImportHeadPlaced(s, b, n, k);
    if ImportHead(b, k).Some? {
      var h := ImportHead(b, k).value;
      AssetImportTailPlaced(s, b, n, h);
    }
  }

  function ShiftBy(h: Head, n: nat): Head {
    Head(h.nameStart + n, h.nameEnd + n, h.fromAt + n, h.quote + n)
  }

  lemma {:induction false} AssetImportTailPlaced(s: string, b: string, n: nat, h: Head)
    requires Placed(s, b, n) && h.nameStart <= h.nameEnd <= h.quote < |b|
    ensures AssetImportTail(s, ShiftBy(h, n)) == Shifted(AssetImportTail(b, h), n)
  {
    var f := h.quote + 1 + |AssetsDir|;
    StartsAtPlaced(s, b, n, h.quote + 1, AssetsDir);
    if StartsAt(b, h.quote + 1, AssetsDir) {
      RunEndPlaced(s, b, n, f, NonQuote);
      var g := RunEnd(b, f, NonQuote);
      if g != f {
        AssetImportTextPlaced(s, b, n, h, g);
      }
    }
  }

  lemma {:induction false} AssetImportTextPlaced(s: string, b: string, n: nat, h: Head, g: nat)
    requires Placed(s, b, n)
    requires h.nameStart <= h.nameEnd <= |b| && h.quote + 1 + |AssetsDir| <= g <= |b|
    ensures AssetImportText(s, ShiftBy(h, n), n + g) == AssetImportText(b, h, g)
  {
    SlicePlaced(s, b, n, h.nameStart, h.nameEnd);
    SlicePlaced(s, b, n, h.quote + 1 + |AssetsDir|, g);
  }

  lemma {:induction false} LineImportTextPlaced(s: string, b: string, n: nat, h: Head, pathEnd: nat)
    requires Placed(s, b, n)
    requires h.nameStart <= h.nameEnd <= |b| && h.quote + 1 <= pathEnd <= |b|
    ensures LineImportText(s, ShiftBy(h, n), n + pathEnd) == LineImportText(b, h, pathEnd)
  {
    SlicePlaced(s, b, n, h.nameStart, h.nameEnd);
    SlicePlaced(s, b, n, h.quote + 1, pathEnd);
  }

  lemma {:induction false} LineImportTailPlaced(s: string, b: string, n: nat, h: Head)
    requires Placed(s, b, n) && h.nameStart <= h.nameEnd <= h.quote < |b|
    ensures LineImportTail(s, ShiftBy(h, n)) == Shifted(LineImportTail(b, h), n)
  {
    LazyPlaced(s, b, n, h.quote + 1);
    if LazyToLineEnd(b, h.quote + 1).Some? {
      LineImportTextPlaced(s, b, n, h, LazyToLineEnd(b, h.quote + 1).value.0);
    }
  }

  lemma {:induction false} LineImportPlaced(s: string, b: string, n: nat, k: nat)
    requires Placed(s, b, n) && k <= |b|
    ensures MatchAt(LineImport, s, n + k) == Shifted(MatchAt(LineImport, b, k), n)
  {
    ImportHeadPlaced(s, b, n, k);
    if ImportHead(b, k).Some? {
      var h := ImportHead(b, k).value;
      LineImportTailPlaced(s, b, n, h);
    }
  }

  lemma {:induction false} LineFromPlaced(s: string, b: string, n: nat, k: nat)
    requires Placed(s, b, n) && k <= |b|
    ensures MatchAt(LineFrom, s, n + k) == Shifted(MatchAt(LineFrom, b, k), n)
  {
    FromQuotePlaced(s, b, n, k);
    if FromQuote(b, k).Some? {
      var q := FromQuote(b, k).value;
      LazyPlaced(s, b, n, q + 1);
      if LazyToLineEnd(b, q + 1).Some? {
        SlicePlaced(s, b, n, q + 1, LazyToLineEnd(b, q + 1).value.0);
      }
    }
  }

  lemma {:induction false} MainScriptPlaced(ext: string, s: string, b: string, n: nat, k: nat)
    requires Placed(s, b, n) && k <= |b|
    ensures MatchAt(MainScript(ext), s, n + k) == Shifted(MatchAt(MainScript(ext), b, k), n)
  {
    StartsAtPlaced(s, b, n, k, "src=\"./main." + ext + "\"");
    StartsAtPlaced(s, b, n, k, "src=\"/main." + ext + "\"");
  }

  lemma {:induction false} FromSpaceQuotePlaced(s: string, b: string, n: nat, k: nat)
    requires Placed(s, b, n) && k <= |b|
    ensures FromSpaceQuote(s, n + k) <==> FromSpaceQuote(b, k)
  {
    StartsAtPlaced(s, b, n, k, "from ");
    if k + 5 < |b| {
      assert s[n + k + 5] == b[k + 5];
    }
  }

  lemma {:induction false} AssetFromPlaced(s: string, b: string, n: nat, k: nat)
    requires Placed(s, b, n) && k <= |b|
    ensures MatchAt(AssetFrom, s, n + k) == Shifted(MatchAt(AssetFrom, b, k), n)
  {
    FromSpaceQuotePlaced(s, b, n, k);
    if FromSpaceQuote(b, k) {
      StartsAtPlaced(s, b, n, k + 6, AssetsDir);
      if StartsAt(b, k + 6, AssetsDir) {
        var f := k + 6 + |AssetsDir|;
        RunEndPlaced(s, b, n, f, NonQuote);
        SlicePlaced(s, b, n, f, RunEnd(b, f, NonQuote));
      }
    }
  }

  lemma {:induction false} RootSvgPlaced(s: string, b: string, n: nat, k: nat)
    requires Placed(s, b, n) && k <= |b|
    ensures MatchAt(RootSvgFrom, s, n + k) == Shifted(MatchAt(RootSvgFrom, b, k), n)
  {
    FromSpaceQuotePlaced(s, b, n, k);
    if FromSpaceQuote(b, k) && k + 6 < |b| {
      assert s[n + k + 6] == b[k + 6];
      if b[k + 6] == '/' {
        RunEndPlaced(s, b, n, k + 7, NonQuote);
        SlicePlaced(s, b, n, k + 7, RunEnd(b, k + 7, NonQuote));
      }
    }
  }

  lemma {:induction false} QuotedPlaced(target: string, replacement: string, s: string, b: string, n: nat, k: nat)
    requires Placed(s, b, n) && k <= |b|
    ensures MatchAt(QuotedFrom(target, replacement), s, n + k) == Shifted(MatchAt(QuotedFrom(target, replacement), b, k), n)
  {
    FromSpaceQuotePlaced(s, b, n, k);
    var t := k + 6 + |target|;
    if FromSpaceQuote(b, k) {
      StartsAtPlaced(s, b, n, k + 6, target);
      if t < |b| {
        assert s[n + t] == b[t];
      }
    }
  }

  /** Every pattern's match inside a tail of a text is the tail's own match, moved by where the tail starts. */
  lemma {:induction false} MatchPlaced(p: Pattern, s: string, b: string, n: nat, k: nat)
    requires Placed(s, b, n) && k <= |b|
    ensures MatchAt(p, s, n + k) == Shifted(MatchAt(p, b, k), n)
  {
    match p
    case AssetImport => AssetImportPlaced(s, b, n, k);
    case LineImport => LineImportPlaced(s, b, n, k);
    case LineFrom => LineFromPlaced(s, b, n, k);
    case MainScript(ext) => MainScriptPlaced(ext, s, b, n, k);
    case AssetFrom => AssetFromPlaced(s, b, n, k);
    case RootSvgFrom => RootSvgPlaced(s, b, n, k);
    case QuotedFrom(target, replacement) => QuotedPlaced(target, replacement, s, b, n, k);
  }

  /** The table of a text, over a tail of it, is the tail's own table moved. */
  lemma {:induction false} TailEntry(p: Pattern, a: string, b: string, k: nat)
    requires k < |b|
    ensures (a + b)[|a| + k] == b[k] && Matches(p, a + b)[|a| + k] == Shifted(Matches(p, b)[k], |a|)
  {
    JoinedMatch(p, a, b, k);
  }

  /** A match inside the second piece of a joined text is the piece's own match, moved. */
  lemma {:induction false} JoinedMatch(p: Pattern, a: string, b: string, k: nat)
    requires k <= |b|
    ensures MatchAt(p, a + b, |a| + k) == Shifted(MatchAt(p, b, k), |a|)
  {
    JoinPlaced(a, b);
    MatchPlaced(p, a + b, b, |a|, k);
  }

  lemma {:induction false} TailTable(p: Pattern, a: string, b: string)
    ensures forall k :: 0 <= k < |b| ==> (a + b)[|a| + k] == b[k] && Matches(p, a + b)[|a| + k] == Shifted(Matches(p, b)[k], |a|)
  {
    forall k | 0 <= k < |b|
      ensures (a + b)[|a| + k] == b[k] && Matches(p, a + b)[|a| + k] == Shifted(Matches(p, b)[k], |a|)
    {
      TailEntry(p, a, b, k);
    }
  }

  /** The scan over the second piece of a joined text is the scan over that piece alone. */
  lemma {:induction false} RewriteTail(s: string, ms: seq<Option<Match>>, b: string, mb: seq<Option<Match>>, n: nat, j: nat, i: nat)
    requires IsTable(s, ms) && IsTable(b, mb) && |s| == n + |b| && j <= |b| && i == n + j
    requires forall k :: 0 <= k < |b| ==> s[n + k] == b[k] && ms[n + k] == Shifted(mb[k], n)
    ensures Rewrite(s, ms, i) == Rewrite(b, mb, j)
    decreases |b| - j
  {
    if j < |b| {
      assert s[i] == b[j] && ms[i] == Shifted(mb[j], n);
      match mb[j]
      case Some(m) =>
        RewriteTail(s, ms, b, mb, n, m.end, ms[i].value.end);
      case None =>
        RewriteTail(s, ms, b, mb, n, j + 1, i + 1);
    }
  }

  /** Joining is associative. */
  lemma {:induction false} Regroup(x: string, y: string, z: string)
    ensures x + (y + z) == (x + y) + z
  {
  }

  /** The scan over a first piece whose table is kept in the joined text, followed by the scan from where it ends. */
  lemma {:induction false} RewriteHead(s: string, ms: seq<Option<Match>>, a: string, ma: seq<Option<Match>>, i: nat)
    requires IsTable(s, ms) && IsTable(a, ma) && |a| <= |s| && i <= |a|
    requires forall k :: 0 <= k < |a| ==> s[k] == a[k] && ms[k] == ma[k]
    ensures Rewrite(s, ms, i) == Rewrite(a, ma, i) + Rewrite(s, ms, |a|)
    decreases |a| - i
  {
    if i < |a| {
      assert s[i] == a[i] && ms[i] == ma[i];
      match ma[i]
      case Some(m) =>
        RewriteHead(s, ms, a, ma, m.end);
        Regroup(m.replacement, Rewrite(a, ma, m.end), Rewrite(s, ms, |a|));
      case None =>
        RewriteHead(s, ms, a, ma, i + 1);
        Regroup([a[i]], Rewrite(a, ma, i + 1), Rewrite(s, ms, |a|));
    }
  }

  /** No match that starts in `a` sees past it: the matches there are those of `a` alone. */
  ghost predicate LeftAgrees(p: Pattern, a: string, b: string) {
    forall k :: 0 <= k < |a| ==> MatchAt(p, a + b, k) == MatchAt(p, a, k)
  }

  /** Over the first piece, the table of the joined text is the piece's own. */
  lemma {:induction false} HeadTable(p: Pattern, a: string, b: string)
    requires LeftAgrees(p, a, b)
    ensures forall k :: 0 <= k < |a| ==> (a + b)[k] == a[k] && Matches(p, a + b)[k] == Matches(p, a)[k]
  {
  }

  /** Where no match crosses from `a` into `b`, a global replace of `a + b` is the replace of `a` followed by the replace of `b`. */
  lemma {:induction false} ReplaceAllJoin(p: Pattern, a: string, b: string)
    requires LeftAgrees(p, a, b)
    ensures ReplaceAll(p, a + b) == ReplaceAll(p, a) + ReplaceAll(p, b)
  {
    TailTable(p, a, b);
    HeadTable(p, a, b);
    RewriteJoin(a + b, Matches(p, a + b), a, Matches(p, a), b, Matches(p, b));
  }

  /** The scan of a joined text whose table is made of its pieces' tables is the scans of the pieces, joined. */
  lemma {:induction false} RewriteJoin(s: string, ms: seq<Option<Match>>, a: string, ma: seq<Option<Match>>, b: string, mb: seq<Option<Match>>)
    requires IsTable(s, ms) && IsTable(a, ma) && IsTable(b, mb) && s == a + b
    requires forall k :: 0 <= k < |a| ==> s[k] == a[k] && ms[k] == ma[k]
    requires forall k :: 0 <= k < |b| ==> s[|a| + k] == b[k] && ms[|a| + k] == Shifted(mb[k], |a|)
    ensures Rewrite(s, ms, 0) == Rewrite(a, ma, 0) + Rewrite(b, mb, 0)
  {
    RewriteTail(s, ms, b, mb, |a|, 0, |a|);
    RewriteHead(s, ms, a, ma, 0);
  }

  /** Where no match crosses from `a` into `b` and `a` holds a match, a first-occurrence replace of `a + b` leaves `b` alone. */
  lemma {:induction false} ReplaceFirstLeft(p: Pattern, a: string, b: string, k: nat)
    requires LeftAgrees(p, a, b)
    requires k < |a| && MatchAt(p, a, k).Some?
    ensures ReplaceFirst(p, a + b) == ReplaceFirst(p, a) + b
  {
    HeadTable(p, a, b);
    LeftmostLeft(a + b, Matches(p, a + b), a, Matches(p, a), b, k);
  }

  /** The leftmost replacement in a joined text whose first piece keeps its table and holds a match. */
  lemma {:induction false} LeftmostLeft(s: string, ms: seq<Option<Match>>, a: string, ma: seq<Option<Match>>, b: string, k: nat)
    requires IsTable(s, ms) && IsTable(a, ma) && s == a + b && k < |a| && ma[k].Some?
    requires forall j :: 0 <= j < |a| ==> s[j] == a[j] && ms[j] == ma[j]
    ensures ReplaceLeftmost(s, ms) == ReplaceLeftmost(a, ma) + b
  {
    FirstLeft(s, ms, a, ma, 0, k);
    var j := FirstIn(a, ma, 0).value;
    var m := ma[j].value;
    assert s[..j] == a[..j];
    assert s[m.end..] == a[m.end..] + b;
  }

  /** With the same table over `a`, the first match of the whole is the first match of `a`, when `a` has one. */
  lemma {:induction false} FirstLeft(s: string, ms: seq<Option<Match>>, a: string, ma: seq<Option<Match>>, i: nat, k: nat)
    requires IsTable(s, ms) && IsTable(a, ma) && |a| <= |s| && i <= k < |a| && ma[k].Some?
    requires forall j :: 0 <= j < |a| ==> ms[j] == ma[j]
    ensures FirstIn(s, ms, i) == FirstIn(a, ma, i) && FirstIn(a, ma, i).Some?
    decreases k - i
  {
    if ma[i].None? {
      FirstLeft(s, ms, a, ma, i + 1, k);
    }
  }

  /** Where no match crosses from `a` into `b` and `a` holds none, a first-occurrence replace of `a + b` replaces in `b`. */
  lemma {:induction false} ReplaceFirstRight(p: Pattern, a: string, b: string)
    requires LeftAgrees(p, a, b)
    requires forall j :: 0 <= j < |a| ==> MatchAt(p, a, j).None?
    ensures ReplaceFirst(p, a + b) == a + ReplaceFirst(p, b)
  {
    TailTable(p, a, b);
    HeadTable(p, a, b);
    LeftmostRight(a + b, Matches(p, a + b), a, b, Matches(p, b));
  }

  /** The leftmost replacement in a joined text whose first piece holds no match is made in the second piece. */
  lemma {:induction false} LeftmostRight(s: string, ms: seq<Option<Match>>, a: string, b: string, mb: seq<Option<Match>>)
    requires IsTable(s, ms) && IsTable(b, mb) && s == a + b
    requires forall k :: 0 <= k < |a| ==> ms[k].None?
    requires forall k :: 0 <= k < |b| ==> ms[|a| + k] == Shifted(mb[k], |a|)
    ensures ReplaceLeftmost(s, ms) == a + ReplaceLeftmost(b, mb)
  {
    var n := |a|;
    FirstTail(s, ms, b, mb, n, 0);
    SkipToTail(s, ms, n, 0);
    match FirstIn(b, mb, 0)
    case None =>
    case Some(k) =>
      var m := mb[k].value;
      assert ms[n + k] == Some(Match(m.end + n, m.replacement));
      SpliceRight(a, b, k, m.end, m.replacement);
  }

  /** A replacement made inside the second piece of a joined text keeps the first piece in front. */
  lemma {:induction false} SpliceRight(a: string, b: string, k: nat, e: nat, r: string)
    requires k <= e <= |b|
    ensures (a + b)[..|a| + k] + r + (a + b)[|a| + e..] == a + (b[..k] + r + b[e..])
  {
    assert (a + b)[..|a| + k] == a + b[..k];
    assert (a + b)[|a| + e..] == b[e..];
  }

  /** Nothing matches before index `n`: the first match of the whole is the first from `n`. */
  lemma {:induction false} SkipToTail(s: string, ms: seq<Option<Match>>, n: nat, i: nat)
    requires IsTable(s, ms) && i <= n <= |s|
    requires forall j :: i <= j < n ==> ms[j].None?
    ensures FirstIn(s, ms, i) == FirstIn(s, ms, n)
    decreases n - i
  {
    if i < n {
      SkipToTail(s, ms, n, i + 1);
    }
  }

  /** The first match from `n + j` in the joined text is the first from `j` in the second piece, moved. */
  lemma {:induction false} FirstTail(s: string, ms: seq<Option<Match>>, b: string, mb: seq<Option<Match>>, n: nat, j: nat)
    requires IsTable(s, ms) && IsTable(b, mb) && |s| == n + |b| && j <= |b|
    requires forall k :: 0 <= k < |b| ==> ms[n + k] == Shifted(mb[k], n)
    ensures FirstIn(s, ms, n + j) == ShiftIndex(FirstIn(b, mb, j), n)
    decreases |b| - j
  {
    if j < |b| {
      assert ms[n + j] == Shifted(mb[j], n);
      FirstTail(s, ms, b, mb, n, j + 1);
    }
  }
}
