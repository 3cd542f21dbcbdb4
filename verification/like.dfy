/** SQLite's LIKE with an escape character, and the patterns that history queries send to it. */
module Like {

  const ESCAPE := '\\'

  /** SQLite folds the case of ASCII letters only. */
  function Fold(c: char): char {
    if 'A' <= c <= 'Z' then c - 'A' + 'a' else c
  }

  /**
   t LIKE p ESCAPE '\'. A percent sign stands for any characters, an underscore for any one
   character; an escaped character stands for itself, and a pattern that ends in the escape
   character matches nothing.
   */
  predicate Matches(p: string, t: string)
    decreases |p|, |t|
  {
    if p == [] then t == []
    else if p[0] == '%' then Matches(p[1..], t) || (t != [] && Matches(p, t[1..]))
    else if p[0] == ESCAPE then |p| > 1 && t != [] && Fold(p[1]) == Fold(t[0]) && Matches(p[2..], t[1..])
    else t != [] && (p[0] == '_' || Fold(p[0]) == Fold(t[0])) && Matches(p[1..], t[1..])
  }

  /** The replacer of pattern, applied to one character. */
  function Quote(c: char): string {
    if c == '\\' then "\\\\" else if c == '%' then "\\%" else if c == '_' then "\\_" else [c]
  }

  function Quoted(s: string): string {
    if s == "" then "" else Quote(s[0]) + Quoted(s[1..])
  }

  /** history.go: pattern(s). */
  function Pattern(s: string): string { "%" + Quoted(s) + "%" }

  // ---- the reference: substring up to ASCII case ----

  predicate SameAt(s: string, t: string, k: nat) {
    k + |s| <= |t| && forall i :: 0 <= i < |s| ==> Fold(s[i]) == Fold(t[k + i])
  }

  predicate Contains(t: string, s: string) {
    exists k :: 0 <= k <= |t| && SameAt(s, t, k)
  }

  // ---- escaping is exact ----

  /** A lone percent sign at the end matches any rest. */
  lemma {:induction false} AnyRest(t: string)
    ensures Matches("%", t)
  {
    assert "%"[1..] == "";
    if t != "" {
      AnyRest(t[1..]);
    }
  }

  /** A quoted text in front of a pattern matches itself, letter by letter, and nothing else. */
  lemma {:induction false} QuotedMatches(s: string, rest: string, t: string)
    ensures Matches(Quoted(s) + rest, t) <==> SameAt(s, t, 0) && Matches(rest, t[|s|..])
    decreases |s|
  {
    var p := Quoted(s) + rest;
    if s == "" {
      assert p == rest && t[0..] == t;
    } else {
      var q := Quoted(s[1..]) + rest;
      assert p == Quote(s[0]) + q;
      if t == "" {
        assert !SameAt(s, t, 0);
        assert p[0] != '%';
      } else {
        if |Quote(s[0])| == 2 {
          assert p[0] == ESCAPE && p[1] == s[0] && p[2..] == q;
        } else {
          assert p[0] == s[0] && p[1..] == q;
        }
        assert Matches(p, t) <==> Fold(s[0]) == Fold(t[0]) && Matches(q, t[1..]);
        QuotedMatches(s[1..], rest, t[1..]);
        if |s| <= |t| {
          assert t[1..][|s| - 1..] == t[|s|..];
        }
      }
    }
  }

  lemma {:induction false} SearchIsContains(s: string, t: string)
    ensures Matches(Pattern(s), t) <==> Contains(t, s)
    decreases |t|
  {
    var p, tail := Pattern(s), Quoted(s) + "%";
    assert p[1..] == tail;
    QuotedMatches(s, "%", t);
    if SameAt(s, t, 0) {
      AnyRest(t[|s|..]);
    }
    assert Matches(tail, t) <==> SameAt(s, t, 0);
    if t != "" {
      SearchIsContains(s, t[1..]);
      Shift(s, t);
    }
  }

  /** An occurrence is at the front or in the tail. */
  lemma Shift(s: string, t: string)
    requires t != ""
    ensures Contains(t, s) <==> SameAt(s, t, 0) || Contains(t[1..], s)
  {
    if k :| 0 <= k <= |t| && SameAt(s, t, k) {
      if k > 0 {
        forall i | 0 <= i < |s| ensures Fold(s[i]) == Fold(t[1..][k - 1 + i]) {
          assert t[1..][k - 1 + i] == t[k + i];
        }
        assert SameAt(s, t[1..], k - 1);
      }
    }
    if k :| 0 <= k <= |t[1..]| && SameAt(s, t[1..], k) {
      forall i | 0 <= i < |s| ensures Fold(s[i]) == Fold(t[k + 1 + i]) {
        assert t[1..][k + i] == t[k + 1 + i];
      }
      assert SameAt(s, t, k + 1);
    }
  }

  /** The pattern never grows beyond twice the filter and its two percent signs. */
  lemma PatternLength(s: string)
    ensures |s| + 2 <= |Pattern(s)| <= 2 * |s| + 2
  {
    QuotedLength(s);
  }

  lemma {:induction false} QuotedLength(s: string)
    ensures |s| <= |Quoted(s)| <= 2 * |s|
  {
    if s != "" {
      QuotedLength(s[1..]);
    }
  }
}
