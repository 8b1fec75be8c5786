/** Characters and substrings as JavaScript's string and regular-expression built-ins see them. */
module Text {

  /** JavaScript's `\s`: the WhiteSpace and LineTerminator code points. */
  predicate IsSpace(c: char) {
    || c == ' ' || c == '\t' || c == '\n' || c == '\r' || c == '\U{000B}' || c == '\U{000C}'
    || c == '\U{00A0}' || c == '\U{1680}' || ('\U{2000}' <= c <= '\U{200A}')
    || c == '\U{2028}' || c == '\U{2029}' || c == '\U{202F}' || c == '\U{205F}'
    || c == '\U{3000}' || c == '\U{FEFF}'
  }

  /** The characters before which a multiline `$` matches. */
  predicate IsLineTerminator(c: char) {
    c == '\n' || c == '\r' || c == '\U{2028}' || c == '\U{2029}'
  }

  /** JavaScript's `\w`. */
  predicate IsWordChar(c: char) {
    ('a' <= c <= 'z') || ('A' <= c <= 'Z') || ('0' <= c <= '9') || c == '_'
  }

  /** The class `['"]`. */
  predicate IsQuote(c: char) {
    c == '\'' || c == '"'
  }

  lemma {:induction false} LineTerminatorIsSpace(c: char)
    requires IsLineTerminator(c)
    ensures IsSpace(c)
  {
  }

  /** `t` occurs in `s` starting at index `i`. */
  predicate StartsAt(s: string, i: nat, t: string) {
    i + |t| <= |s| && forall k :: 0 <= k < |t| ==> s[i + k] == t[k]
  }

  /** A prefix `t` of a piece `q` copied into `s` at `o` occurs in `s` at `o` exactly when it occurs in `q` at 0. */
  lemma {:induction false} StartsAtShift(s: string, o: nat, q: string, t: string)
    requires o + |q| <= |s| && forall m :: 0 <= m < |q| ==> s[o + m] == q[m]
    requires |t| <= |q|
    ensures StartsAt(s, o, t) <==> StartsAt(q, 0, t)
  {
    if StartsAt(q, 0, t) {
      forall k | 0 <= k < |t| ensures s[o + k] == t[k] {
        assert s[o + k] == q[k];
      }
    }
    if StartsAt(s, o, t) {
      forall k | 0 <= k < |t| ensures q[k] == t[k] {
        assert s[o + k] == q[k];
      }
    }
  }

  /** `s.includes(t)`. */
  predicate Contains(s: string, t: string) {
    exists i: nat :: i <= |s| && StartsAt(s, i, t)
  }

  /** `s.endsWith(t)`. */
  predicate EndsWith(s: string, t: string) {
    |t| <= |s| && s[|s| - |t|..] == t
  }

  /** An occurrence of `t` inside a piece of `s` is an occurrence in `s`. */
  lemma {:induction false} ContainsInfix(a: string, b: string, c: string, t: string)
    requires Contains(b, t)
    ensures Contains(a + b + c, t)
  {
    var i: nat :| i <= |b| && StartsAt(b, i, t);
    var s := a + b + c;
    assert s[|a| + i..|a| + i + |t|] == b[i..i + |t|];
    assert StartsAt(s, |a| + i, t);
  }

  /** Containment of substrings is transitive. */
  lemma {:induction false} ContainsTransitive(s: string, u: string, t: string)
    requires Contains(s, u) && Contains(u, t)
    ensures Contains(s, t)
  {
    var i: nat :| i <= |s| && StartsAt(s, i, u);
    assert s == s[..i] + u + s[i + |u|..];
    ContainsInfix(s[..i], u, s[i + |u|..], t);
  }

  lemma {:induction false} ContainsWitness(s: string, i: nat, t: string)
    requires StartsAt(s, i, t)
    ensures Contains(s, t)
  {
  }

  /** Without a single occurrence of the first character, nothing starting with it occurs. */
  lemma {:induction false} NotContainsByChar(s: string, t: string)
    requires |t| > 0 && forall k :: 0 <= k < |s| ==> s[k] != t[0]
    ensures !Contains(s, t)
  {
    forall i: nat | i <= |s| ensures !StartsAt(s, i, t) {
      if i + |t| <= |s| {
        assert s[i..i + |t|][0] == s[i];
      }
    }
  }
}
