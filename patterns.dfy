/**
 * The regular expressions the deployment code applies, each written out as a matcher at one
 * index (with the leftmost, greedy-or-lazy choice that JavaScript's backtracking engine makes
 * for that particular pattern), and `String.prototype.replace` driven by them.
 */
module Patterns {
  import opened Base
  import opened Text

  /** Character classes used inside the patterns. */
  datatype CharClass = Space | Word | NonQuote | NonSpace

  predicate InClass(c: char, k: CharClass) {
    match k
    case Space => IsSpace(c)
    case Word => IsWordChar(c)
    case NonQuote => !IsQuote(c)
    case NonSpace => !IsSpace(c)
  }

  /** End of the longest run of `k` characters from `i`: what a greedy `k*` consumes. */
  function RunEnd(s: string, i: nat, k: CharClass): (j: nat)
    requires i <= |s|
    ensures i <= j <= |s|
    decreases |s| - i
  {
    if i == |s| || !InClass(s[i], k) then i else RunEnd(s, i + 1, k)
  }

  /** The greedy run from `i` holds only `k` characters and stops at the end or at a non-`k` character. */
  lemma {:induction false} RunEndSpec(s: string, i: nat, k: CharClass)
    requires i <= |s|
    ensures forall m :: i <= m < RunEnd(s, i, k) ==> InClass(s[m], k)
    ensures RunEnd(s, i, k) == |s| || !InClass(s[RunEnd(s, i, k)], k)
    decreases |s| - i
  {
    if i < |s| && InClass(s[i], k) {
      RunEndSpec(s, i + 1, k);
    }
  }

  /** A run that is known to end at `j` ends there. */
  lemma {:induction false} RunEndAt(s: string, i: nat, j: nat, k: CharClass)
    requires i <= j <= |s|
    requires forall m :: i <= m < j ==> InClass(s[m], k)
    requires j == |s| || !InClass(s[j], k)
    ensures RunEnd(s, i, k) == j
    decreases j - i
  {
    if i < j {
      RunEndAt(s, i + 1, j, k);
    }
  }

  /**
   * Where the lazy tail `([^'"]*?)['"]?$` of a multiline pattern, started at `j`, stops: the end
   * of the captured text and the end of the whole match. `None` when it cannot reach a line end.
   */
  function LazyToLineEnd(s: string, j: nat): (r: Option<(nat, nat)>)
    requires j <= |s|
    ensures r.Some? ==> j <= r.value.0 <= r.value.1 <= |s|
    ensures r.Some? ==> r.value.1 == r.value.0 || (r.value.1 == r.value.0 + 1 && IsQuote(s[r.value.0]))
    ensures r.Some? ==> r.value.1 == |s| || IsLineTerminator(s[r.value.1])
    decreases |s| - j
  {
    if j == |s| then Some((j, j))
    else if IsQuote(s[j]) then
      (if j + 1 == |s| || IsLineTerminator(s[j + 1]) then Some((j, j + 1)) else None)
    else if IsLineTerminator(s[j]) then Some((j, j))
    else LazyToLineEnd(s, j + 1)
  }

  /** The lazily captured path holds neither quotes nor line terminators. */
  lemma {:induction false} LazySpec(s: string, j: nat)
    requires j <= |s| && LazyToLineEnd(s, j).Some?
    ensures forall m :: j <= m < LazyToLineEnd(s, j).value.0 ==> !IsQuote(s[m]) && !IsLineTerminator(s[m])
    decreases |s| - j
  {
    if j < |s| && !IsQuote(s[j]) && !IsLineTerminator(s[j]) {
      LazySpec(s, j + 1);
    }
  }

  /** A path of ordinary characters closed by a quote at the very end is captured whole. */
  lemma {:induction false} LazyClosedAtEnd(s: string, j: nat)
    requires 0 < |s| && j < |s| && IsQuote(s[|s| - 1])
    requires forall m :: j <= m < |s| - 1 ==> !IsQuote(s[m]) && !IsSpace(s[m])
    ensures LazyToLineEnd(s, j) == Some((|s| - 1, |s|))
    decreases |s| - j
  {
    if j < |s| - 1 {
      LazyClosedAtEnd(s, j + 1);
    }
  }

  /** `from\s+['"]` at `d`: the index of the quote. */
  function FromQuote(s: string, d: nat): (q: Option<nat>)
    requires d <= |s|
    ensures q.Some? ==> StartsAt(s, d, "from") && d + 4 < q.value < |s| && IsQuote(s[q.value])
  {
    if !StartsAt(s, d, "from") then None
    else
      var e := RunEnd(s, d + 4, Space);
      if e == d + 4 || e == |s| || !IsQuote(s[e]) then None else Some(e)
  }

  /** Between `from` and the quote there is only whitespace. */
  lemma {:induction false} FromQuoteSpec(s: string, d: nat)
    requires d <= |s| && FromQuote(s, d).Some?
    ensures forall m :: d + 4 <= m < FromQuote(s, d).value ==> IsSpace(s[m])
  {
    RunEndSpec(s, d + 4, Space);
  }

  /** The pieces of `import\s+(\w+)\s+from\s+['"]` matched at some index. */
  datatype Head = Head(nameStart: nat, nameEnd: nat, fromAt: nat, quote: nat)

  /** `import\s+(\w+)\s+from\s+['"]` at `i`. */
  function ImportHead(s: string, i: nat): (h: Option<Head>)
    requires i <= |s|
    ensures h.Some? ==> StartsAt(s, i, "import")
    ensures h.Some? ==> i + 6 < h.value.nameStart < h.value.nameEnd < h.value.fromAt
    ensures h.Some? ==> h.value.fromAt <= |s| && FromQuote(s, h.value.fromAt) == Some(h.value.quote)
  {
    if !StartsAt(s, i, "import") then None
    else
      var b := RunEnd(s, i + 6, Space);
      var c := RunEnd(s, b, Word);
      var d := RunEnd(s, c, Space);
      if b == i + 6 || c == b || d == c then None
      else match FromQuote(s, d)
        case None => None
        case Some(q) => Some(Head(b, c, d, q))
  }

  /** The whitespace and the name of a matched import head. */
  lemma {:induction false} ImportHeadSpec(s: string, i: nat)
    requires i <= |s| && ImportHead(s, i).Some?
    ensures var h := ImportHead(s, i).value;
      && (forall m :: i + 6 <= m < h.nameStart ==> IsSpace(s[m]))
      && (forall m :: h.nameStart <= m < h.nameEnd ==> IsWordChar(s[m]))
      && (forall m :: h.nameEnd <= m < h.fromAt ==> IsSpace(s[m]))
  {
    var b := RunEnd(s, i + 6, Space);
    var c := RunEnd(s, b, Word);
    RunEndSpec(s, i + 6, Space);
    RunEndSpec(s, b, Word);
    RunEndSpec(s, c, Space);
  }

  /** The patterns of the source, by the line that uses them. */
  datatype Pattern =
    | AssetImport                   // /import\s+(\w+)\s+from\s+['"]\.\/assets\/([^'"]+)['"]?/g
    | LineImport                    // /import\s+(\w+)\s+from\s+['"]([^'"]*?)['"]?$/gm
    | LineFrom                      // /from\s+['"]([^'"]*?)['"]?$/gm
    | MainScript(ext: string)       // /src="\.?\/main\.<ext>"/g
    | AssetFrom                     // /from ['"]\.\/assets\/([^'"]+)['"]/
    | RootSvgFrom                   // /from ['"]\/([^'"]+\.svg)['"]/
    | QuotedFrom(target: string, replacement: string) // /from ['"]<target>['"]/ -> literal

  /** One match: where it ends and the text that replaces it. */
  datatype Match = Match(end: nat, replacement: string)

  const AssetsDir := "./assets/"

  /** `./assets/` found in a text puts no quote in its place. */
  lemma {:induction false} AssetsDirNoQuote(s: string, o: nat, n: nat)
    requires StartsAt(s, o, AssetsDir) && n < |AssetsDir|
    ensures !IsQuote(s[o + n])
  {
    assert s[o + n] == AssetsDir[n];
  }

  /** `from ['"]` at `i`, with a single literal space. */
  predicate FromSpaceQuote(s: string, i: nat) {
    StartsAt(s, i, "from ") && i + 5 < |s| && IsQuote(s[i + 5])
  }

  /** `from '<path>'`: a `from` clause with a single-quoted path. */
  function FromText(path: string): string {
    "from '" + path + "'"
  }

  /** The text `AssetImport` writes for the head `h` and an asset path ending at `g`. */
  function AssetImportText(s: string, h: Head, g: nat): string
    requires h.nameStart <= h.nameEnd <= |s| && h.quote + 1 + |AssetsDir| <= g <= |s|
  {
    "import " + s[h.nameStart..h.nameEnd] + " " + FromText(AssetsDir + s[h.quote + 1 + |AssetsDir|..g])
  }

  /** The text `LineImport` writes for the head `h` and a path ending at `pathEnd`. */
  function LineImportText(s: string, h: Head, pathEnd: nat): string
    requires h.nameStart <= h.nameEnd <= |s| && h.quote + 1 <= pathEnd <= |s|
  {
    "import " + s[h.nameStart..h.nameEnd] + " " + FromText(s[h.quote + 1..pathEnd])
  }

  /** The match of `p` that starts exactly at `i`, if any. */
  function MatchAt(p: Pattern, s: string, i: nat): (m: Option<Match>)
    requires i <= |s|
    ensures m.Some? ==> i < m.value.end <= |s|
  {
    match p
    case AssetImport => MatchAssetImport(s, i)
    case LineImport => MatchLineImport(s, i)
    case LineFrom => MatchLineFrom(s, i)
    case MainScript(ext) => MatchMainScript(ext, s, i)
    case AssetFrom => MatchAssetFrom(s, i)
    case RootSvgFrom => MatchRootSvg(s, i)
    case QuotedFrom(target, replacement) => MatchQuoted(target, replacement, s, i)
  }

  /** `AssetImport` at `i`: the rest of the path after `./assets/` must be non-empty; a closing quote is consumed. */
  function MatchAssetImport(s: string, i: nat): (m: Option<Match>)
    requires i <= |s|
    ensures m.Some? ==> i < m.value.end <= |s|
  {
    match ImportHead(s, i)
    case None => None
    case Some(h) => AssetImportTail(s, h)
  }

  /** The part of `AssetImport` after its head `h`: `\.\/assets\/([^'"]+)['"]?`. */
  function AssetImportTail(s: string, h: Head): (m: Option<Match>)
    requires h.nameStart <= h.nameEnd <= h.quote < |s|
    ensures m.Some? ==> h.quote < m.value.end <= |s|
  {
    var f := h.quote + 1 + |AssetsDir|;
    if !StartsAt(s, h.quote + 1, AssetsDir) then None
    else
      var g := RunEnd(s, f, NonQuote);
      if g == f then None
      else Some(Match(if g < |s| then g + 1 else g, AssetImportText(s, h, g)))
  }

  /** `LineImport` at `i`: an import head and a lazy path running to the end of the line. */
  function MatchLineImport(s: string, i: nat): (m: Option<Match>)
    requires i <= |s|
    ensures m.Some? ==> i < m.value.end <= |s|
  {
    match ImportHead(s, i)
    case None => None
    case Some(h) => LineImportTail(s, h)
  }

  /** The part of `LineImport` after its head `h`: `([^'"]*?)['"]?$`. */
  function LineImportTail(s: string, h: Head): (m: Option<Match>)
    requires h.nameStart <= h.nameEnd <= h.quote < |s|
    ensures m.Some? ==> h.quote < m.value.end <= |s|
  {
    match LazyToLineEnd(s, h.quote + 1)
    case None => None
    case Some((pathEnd, end)) => Some(Match(end, LineImportText(s, h, pathEnd)))
  }

  /** `LineFrom` at `i`: `from`, whitespace, a quote and a lazy path running to the end of the line. */
  function MatchLineFrom(s: string, i: nat): (m: Option<Match>)
    requires i <= |s|
    ensures m.Some? ==> i < m.value.end <= |s|
  {
    match FromQuote(s, i)
    case None => None
    case Some(q) =>
      (match LazyToLineEnd(s, q + 1)
       case None => None
       case Some((pathEnd, end)) => Some(Match(end, FromText(s[q + 1..pathEnd]))))
  }

  /** The entry script named relative to the page: `src="./main.<ext>"`. */
  function Relative(ext: string): string {
    "src=\"./main." + ext + "\""
  }

  /** The entry script named from the site root: `src="/main.<ext>"`. */
  function Absolute(ext: string): string {
    "src=\"/main." + ext + "\""
  }

  /** What both spellings become: `src="/src/main.<ext>"`. */
  function Target(ext: string): string {
    "src=\"/src/main." + ext + "\""
  }

  /** `MainScript(ext)` at `i`: either literal spelling of the entry script reference. */
  function MatchMainScript(ext: string, s: string, i: nat): (m: Option<Match>)
    requires i <= |s|
    ensures m.Some? ==> i < m.value.end <= |s|
  {
    if StartsAt(s, i, Relative(ext)) then Some(Match(i + |Relative(ext)|, Target(ext)))
    else if StartsAt(s, i, Absolute(ext)) then Some(Match(i + |Absolute(ext)|, Target(ext)))
    else None
  }

  /** `AssetFrom` at `i`: a non-empty path after `./assets/` that a quote closes. */
  function MatchAssetFrom(s: string, i: nat): (m: Option<Match>)
    requires i <= |s|
    ensures m.Some? ==> i < m.value.end <= |s|
  {
    if !(FromSpaceQuote(s, i) && StartsAt(s, i + 6, AssetsDir)) then None
    else
      var f := i + 6 + |AssetsDir|;
      var g := RunEnd(s, f, NonQuote);
      if g == f || g == |s| then None
      else Some(Match(g + 1, FromText(AssetsDir + s[f..g])))
  }

  /** `RootSvgFrom` at `i`: `/`, then a quoted name of at least five characters ending `.svg`. */
  function MatchRootSvg(s: string, i: nat): (m: Option<Match>)
    requires i <= |s|
    ensures m.Some? ==> i < m.value.end <= |s|
  {
    if !(FromSpaceQuote(s, i) && i + 6 < |s| && s[i + 6] == '/') then None
    else
      var f := i + 7;
      var g := RunEnd(s, f, NonQuote);
      if g == |s| || g - f < 5 || !EndsWith(s[f..g], ".svg") then None
      else Some(Match(g + 1, FromText(AssetsDir + s[f..g])))
  }

  /** `QuotedFrom(target, replacement)` at `i`: the target path between quotes. */
  function MatchQuoted(target: string, replacement: string, s: string, i: nat): (m: Option<Match>)
    requires i <= |s|
    ensures m.Some? ==> i < m.value.end <= |s|
  {
    var t := i + 6 + |target|;
    if FromSpaceQuote(s, i) && StartsAt(s, i + 6, target) && t < |s| && IsQuote(s[t])
    then Some(Match(t + 1, replacement))
    else None
  }

  /** Both `import` patterns match only where an import head does. */
  lemma {:induction false} ImportMatchNeedsHead(s: string, i: nat)
    requires i <= |s| && ImportHead(s, i).None?
    ensures MatchAt(AssetImport, s, i).None? && MatchAt(LineImport, s, i).None?
  {
  }

  /** The `LineImport` match at an import head: the head's name and the lazily matched path, requoted and closed. */
  lemma {:induction false} LineImportAt(s: string, i: nat, pathEnd: nat, end: nat)
    requires i <= |s| && ImportHead(s, i).Some?
    requires LazyToLineEnd(s, ImportHead(s, i).value.quote + 1) == Some((pathEnd, end))
    ensures var h := ImportHead(s, i).value; h.nameStart <= h.nameEnd <= |s| && h.quote + 1 <= pathEnd <= |s|
    ensures MatchAt(LineImport, s, i).Some? && MatchAt(LineImport, s, i).value.end == end
    ensures MatchAt(LineImport, s, i).value.replacement == LineImportText(s, ImportHead(s, i).value, pathEnd)
  {
  }

  /** The `AssetImport` match at an import head whose path starts with `./assets/` and continues. */
  lemma {:induction false} AssetImportAt(s: string, i: nat, g: nat)
    requires i <= |s| && ImportHead(s, i).Some?
    requires StartsAt(s, ImportHead(s, i).value.quote + 1, AssetsDir)
    requires RunEnd(s, ImportHead(s, i).value.quote + 1 + |AssetsDir|, NonQuote) == g
    requires g > ImportHead(s, i).value.quote + 1 + |AssetsDir|
    ensures var h := ImportHead(s, i).value; h.nameStart <= h.nameEnd <= |s| && h.quote + 1 + |AssetsDir| <= g <= |s|
    ensures MatchAt(AssetImport, s, i).Some?
    ensures MatchAt(AssetImport, s, i).value.end == if g < |s| then g + 1 else g
    ensures MatchAt(AssetImport, s, i).value.replacement == AssetImportText(s, ImportHead(s, i).value, g)
  {
  }

  /** Without `./assets/` and at least one more path character after the head, `AssetImport` does not match. */
  lemma {:induction false} AssetImportNone(s: string, i: nat)
    requires i <= |s| && ImportHead(s, i).Some?
    requires var f := ImportHead(s, i).value.quote + 1;
      !StartsAt(s, f, AssetsDir) || RunEnd(s, f + |AssetsDir|, NonQuote) == f + |AssetsDir|
    ensures MatchAt(AssetImport, s, i).None?
  {
  }

  /** `LineFrom` matches only where `from\s+['"]` does. */
  lemma {:induction false} LineFromNeedsQuote(s: string, i: nat)
    requires i <= |s| && FromQuote(s, i).None?
    ensures MatchAt(LineFrom, s, i).None?
  {
  }

  /** The `LineFrom` match after `from\s+['"]`: the lazily matched path, requoted and closed. */
  lemma {:induction false} LineFromAt(s: string, i: nat, pathEnd: nat, end: nat)
    requires i <= |s| && FromQuote(s, i).Some?
    requires LazyToLineEnd(s, FromQuote(s, i).value + 1) == Some((pathEnd, end))
    ensures FromQuote(s, i).value + 1 <= pathEnd <= |s|
    ensures MatchAt(LineFrom, s, i).Some? && MatchAt(LineFrom, s, i).value.end == end
    ensures MatchAt(LineFrom, s, i).value.replacement == FromText(s[FromQuote(s, i).value + 1..pathEnd])
  {
  }

  /** The asset-redirect patterns all begin with `from ` and a quote. */
  lemma {:induction false} FromPatternNeedsQuote(p: Pattern, s: string, i: nat)
    requires p.AssetFrom? || p.RootSvgFrom? || p.QuotedFrom?
    requires i <= |s| && !FromSpaceQuote(s, i)
    ensures MatchAt(p, s, i).None?
  {
  }

  /** A table of the matches at every index of `s`, each ending after its start and inside `s`. */
  ghost predicate IsTable(s: string, ms: seq<Option<Match>>) {
    && |ms| == |s|
    && forall k :: 0 <= k < |ms| && ms[k].Some? ==> k < ms[k].value.end <= |s|
  }

  /** The match of `p` at every index of `s`. */
  function Matches(p: Pattern, s: string): (ms: seq<Option<Match>>)
    ensures IsTable(s, ms)
    ensures forall k :: 0 <= k < |s| ==> ms[k] == MatchAt(p, s, k)
  {
    seq(|s|, k requires 0 <= k < |s| => MatchAt(p, s, k))
  }

  /** `s.replace(/p/g, …)`: scan left to right, replace each match, resume after it. */
  function ReplaceAll(p: Pattern, s: string): string {
    Rewrite(s, Matches(p, s), 0)
  }

  /** The scan of a global `replace` from index `i`, given the table of matches. */
  function Rewrite(s: string, ms: seq<Option<Match>>, i: nat): string
    requires IsTable(s, ms) && i <= |s|
    decreases |s| - i
  {
    if i == |s| then ""
    else match ms[i]
      case Some(m) => m.replacement + Rewrite(s, ms, m.end)
      case None => [s[i]] + Rewrite(s, ms, i + 1)
  }

  /** The leftmost index at or after `i` where the table holds a match. */
  function FirstIn(s: string, ms: seq<Option<Match>>, i: nat): (k: Option<nat>)
    requires IsTable(s, ms) && i <= |s|
    ensures k.Some? ==> i <= k.value < |s| && ms[k.value].Some?
    ensures k.Some? ==> forall j :: i <= j < k.value ==> ms[j].None?
    ensures k.None? ==> forall j :: i <= j < |s| ==> ms[j].None?
    decreases |s| - i
  {
    if i == |s| then None
    else if ms[i].Some? then Some(i)
    else FirstIn(s, ms, i + 1)
  }

  /** `s.replace(/p/, …)`: only the leftmost match is replaced. */
  function ReplaceFirst(p: Pattern, s: string): string {
    ReplaceLeftmost(s, Matches(p, s))
  }

  /** The text with its leftmost match, by the table, replaced. */
  function ReplaceLeftmost(s: string, ms: seq<Option<Match>>): string
    requires IsTable(s, ms)
  {
    match FirstIn(s, ms, 0)
    case None => s
    case Some(k) => s[..k] + ms[k].value.replacement + s[ms[k].value.end..]
  }

  /** Every match from `i` on is replaced by the very text it matched. */
  ghost predicate StableFrom(s: string, ms: seq<Option<Match>>, i: nat)
    requires IsTable(s, ms)
  {
    forall k :: i <= k < |s| && ms[k].Some? ==> ms[k].value.replacement == s[k..ms[k].value.end]
  }

  /** Replacing every match by what it matched changes nothing. */
  lemma {:induction false} RewriteStable(s: string, ms: seq<Option<Match>>, i: nat)
    requires IsTable(s, ms) && i <= |s| && StableFrom(s, ms, i)
    ensures Rewrite(s, ms, i) == s[i..]
    decreases |s| - i
  {
    if i < |s| {
      match ms[i]
      case Some(m) =>
        RewriteStable(s, ms, m.end);
        assert s[i..] == s[i..m.end] + s[m.end..];
      case None =>
        RewriteStable(s, ms, i + 1);
        assert s[i..] == [s[i]] + s[i + 1..];
    }
  }

  lemma {:induction false} ReplaceAllStable(p: Pattern, s: string)
    requires forall k :: 0 <= k < |s| && MatchAt(p, s, k).Some? ==>
      MatchAt(p, s, k).value.replacement == s[k..MatchAt(p, s, k).value.end]
    ensures ReplaceAll(p, s) == s
  {
    RewriteStable(s, Matches(p, s), 0);
  }

  /** A match at `i` that runs to the end, with none before it, replaces the whole tail from `i`. */
  lemma {:induction false} ReplaceAllTail(p: Pattern, s: string, i: nat)
    requires i < |s| && MatchAt(p, s, i).Some? && MatchAt(p, s, i).value.end == |s|
    requires forall j :: 0 <= j < i ==> MatchAt(p, s, j).None?
    ensures ReplaceAll(p, s) == s[..i] + MatchAt(p, s, i).value.replacement
  {
    var ms := Matches(p, s);
    RewriteSkips(s, ms, 0, i);
    assert Rewrite(s, ms, |s|) == "";
  }

  /** A match at the start that runs to the end replaces the whole text. */
  lemma {:induction false} ReplaceAllWhole(p: Pattern, s: string)
    requires 0 < |s| && MatchAt(p, s, 0).Some? && MatchAt(p, s, 0).value.end == |s|
    ensures ReplaceAll(p, s) == MatchAt(p, s, 0).value.replacement
  {
    ReplaceAllTail(p, s, 0);
    assert s[..0] == [];
  }

  /** An import line of an asset path that `AssetImport` matches whole is replaced by its requoted, closed form. */
  lemma {:induction false} AssetImportWhole(s: string, g: nat)
    requires ImportHead(s, 0).Some?
    requires StartsAt(s, ImportHead(s, 0).value.quote + 1, AssetsDir)
    requires RunEnd(s, ImportHead(s, 0).value.quote + 1 + |AssetsDir|, NonQuote) == g
    requires g > ImportHead(s, 0).value.quote + 1 + |AssetsDir|
    requires g == |s| || g + 1 == |s|
    ensures var h := ImportHead(s, 0).value; h.nameStart <= h.nameEnd <= |s| && h.quote + 1 + |AssetsDir| <= g <= |s|
    ensures ReplaceAll(AssetImport, s) == AssetImportText(s, ImportHead(s, 0).value, g)
  {
    AssetImportAt(s, 0, g);
    ReplaceAllWhole(AssetImport, s);
  }

  /** A text whose only match runs from `a` to the end and replaces that tail by itself is kept. */
  lemma {:induction false} ReplaceAllSingle(p: Pattern, s: string, a: nat)
    requires a < |s| && MatchAt(p, s, a).Some? && MatchAt(p, s, a).value.end == |s|
    requires MatchAt(p, s, a).value.replacement == s[a..]
    requires forall k :: 0 <= k < |s| && k != a ==> MatchAt(p, s, k).None?
    ensures ReplaceAll(p, s) == s
  {
    ReplaceAllTail(p, s, a);
    assert s[..a] + s[a..] == s;
  }

  /** A text with a single `from`-quote, whose `from` clause runs to its end and is already in the form `LineFrom` writes, is kept. */
  lemma {:induction false} LineFromStable(s: string, a: nat, pathEnd: nat)
    requires a <= |s| && FromQuote(s, a).Some?
    requires forall k :: 0 <= k <= |s| && k != a ==> FromQuote(s, k).None?
    requires LazyToLineEnd(s, FromQuote(s, a).value + 1) == Some((pathEnd, |s|))
    requires FromQuote(s, a).value + 1 <= pathEnd <= |s|
    requires FromText(s[FromQuote(s, a).value + 1..pathEnd]) == s[a..]
    ensures ReplaceAll(LineFrom, s) == s
  {
    LineFromAt(s, a, pathEnd, |s|);
    forall k | 0 <= k < |s| && k != a
      ensures MatchAt(LineFrom, s, k).None?
    {
      LineFromNeedsQuote(s, k);
    }
    ReplaceAllSingle(LineFrom, s, a);
  }

  /** An import line that `LineImport` matches whole is replaced by its requoted, closed form. */
  lemma {:induction false} LineImportWhole(s: string, pathEnd: nat)
    requires ImportHead(s, 0).Some?
    requires LazyToLineEnd(s, ImportHead(s, 0).value.quote + 1) == Some((pathEnd, |s|))
    ensures var h := ImportHead(s, 0).value; h.nameStart <= h.nameEnd <= |s| && h.quote + 1 <= pathEnd <= |s|
    ensures ReplaceAll(LineImport, s) == LineImportText(s, ImportHead(s, 0).value, pathEnd)
  {
    LineImportAt(s, 0, pathEnd, |s|);
    ReplaceAllWhole(LineImport, s);
  }

  /** A stretch without matches is copied unchanged. */
  lemma {:induction false} RewriteSkips(s: string, ms: seq<Option<Match>>, i: nat, k: nat)
    requires IsTable(s, ms) && i <= k <= |s|
    requires forall j :: i <= j < k ==> ms[j].None?
    ensures Rewrite(s, ms, i) == s[i..k] + Rewrite(s, ms, k)
    decreases k - i
  {
    if i < k {
      assert Rewrite(s, ms, i) == [s[i]] + Rewrite(s, ms, i + 1);
      RewriteSkips(s, ms, i + 1, k);
      assert s[i..k] == [s[i]] + s[i + 1..k];
      assert [s[i]] + (s[i + 1..k] + Rewrite(s, ms, k)) == ([s[i]] + s[i + 1..k]) + Rewrite(s, ms, k);
    }
  }

  /** Where nothing matches, `replace` returns its input. */
  lemma {:induction false} NoMatchReplaceAll(p: Pattern, s: string)
    requires forall j :: 0 <= j < |s| ==> MatchAt(p, s, j).None?
    ensures ReplaceAll(p, s) == s
  {
    RewriteSkips(s, Matches(p, s), 0, |s|);
  }

  lemma {:induction false} NoMatchReplaceFirst(p: Pattern, s: string)
    requires forall j :: 0 <= j < |s| ==> MatchAt(p, s, j).None?
    ensures ReplaceFirst(p, s) == s
  {
  }

  /** Past its first character a text without import heads gives `AssetImport` nothing to rewrite. */
  lemma {:induction false} AssetImportIdle(s: string)
    requires 0 < |s| ==> MatchAt(AssetImport, s, 0).None?
    requires forall k :: 0 < k <= |s| ==> ImportHead(s, k).None?
    ensures ReplaceAll(AssetImport, s) == s
  {
    forall k | 0 < k < |s|
      ensures MatchAt(AssetImport, s, k).None?
    {
      ImportMatchNeedsHead(s, k);
    }
    NoMatchReplaceAll(AssetImport, s);
  }

  /** The leftmost match alone is rewritten by `ReplaceFirst`. */
  lemma {:induction false} ReplaceFirstAt(p: Pattern, s: string, k: nat)
    requires k < |s| && MatchAt(p, s, k).Some?
    requires forall j :: 0 <= j < k ==> MatchAt(p, s, j).None?
    ensures ReplaceFirst(p, s) == s[..k] + MatchAt(p, s, k).value.replacement + s[MatchAt(p, s, k).value.end..]
  {
    var ms := Matches(p, s);
    assert ms[k].Some?;
  }
}
