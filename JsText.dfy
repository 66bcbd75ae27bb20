/**
 * The ECMAScript string operations the command dispatcher relies on:
 * `trim`, `toLowerCase`, `startsWith` and `slice` with one non-negative
 * argument. Strings are sequences of Unicode scalar values.
 */
module JsText {

  /** The WhiteSpace and LineTerminator code points that `String.prototype.trim` strips. */
  predicate IsWhiteSpace(c: char) {
    c == '\t' || c == '\n' || c == '\U{000B}' || c == '\U{000C}' || c == '\r' || c == ' '
    || c == '\U{00A0}' || c == '\U{1680}' || ('\U{2000}' <= c <= '\U{200A}')
    || c == '\U{2028}' || c == '\U{2029}' || c == '\U{202F}' || c == '\U{205F}'
    || c == '\U{3000}' || c == '\U{FEFF}'
  }

  predicate AllWhiteSpace(s: string) {
    forall i | 0 <= i < |s| :: IsWhiteSpace(s[i])
  }

  /** Neither end of `s` is white space: `trim` would leave it as it is. */
  predicate IsTrimmed(s: string) {
    s == [] || (!IsWhiteSpace(s[0]) && !IsWhiteSpace(s[|s| - 1]))
  }

  /** Drops the leading white space. */
  function TrimStart(s: string): string {
    if s != [] && IsWhiteSpace(s[0]) then TrimStart(s[1..]) else s
  }

  /** Drops the trailing white space. */
  function TrimEnd(s: string): string {
    if s != [] && IsWhiteSpace(s[|s| - 1]) then TrimEnd(s[..|s| - 1]) else s
  }

  /** `s.trim()`. */
  function Trim(s: string): string {
    TrimEnd(TrimStart(s))
  }

  /** What TrimStart leaves is the suffix of `s` after its leading white space. */
  lemma {:induction false} TrimStartSuffix(s: string)
    ensures var r := TrimStart(s);
            |r| <= |s| && r == s[|s| - |r|..] && AllWhiteSpace(s[..|s| - |r|])
            && (r == [] || !IsWhiteSpace(r[0]))
  {
    if s != [] && IsWhiteSpace(s[0]) {
      TrimStartSuffix(s[1..]);
      var r := TrimStart(s[1..]);
      assert s[1..][..|s| - 1 - |r|] == s[1..|s| - |r|];
    }
  }

  /** What TrimEnd leaves is the prefix of `s` before its trailing white space. */
  lemma {:induction false} TrimEndPrefix(s: string)
    ensures var r := TrimEnd(s);
            |r| <= |s| && r == s[..|r|] && AllWhiteSpace(s[|r|..])
            && (r == [] || !IsWhiteSpace(r[|r| - 1]))
  {
    if s != [] && IsWhiteSpace(s[|s| - 1]) {
      var init := s[..|s| - 1];
      TrimEndPrefix(init);
      var r := TrimEnd(init);
      forall k | |r| <= k < |s| ensures IsWhiteSpace(s[k]) {
        if k < |s| - 1 {
          assert s[k] == init[|r|..][k - |r|];
        }
      }
    }
  }

  /**
   * `trim` returns the part of `s` between its leading and its trailing
   * white space: no longer than `s`, white space at neither end, empty
   * exactly when `s` is all white space.
   */
  lemma TrimCore(s: string)
    ensures var r := Trim(s);
            |r| <= |s| && IsTrimmed(r) && (r == [] <==> AllWhiteSpace(s))
            && exists i | 0 <= i <= |s| - |r| ::
                 s[i..i + |r|] == r && AllWhiteSpace(s[..i]) && AllWhiteSpace(s[i + |r|..])
  {
    var t := TrimStart(s);
    TrimStartSuffix(s);
    var r := TrimEnd(t);
    TrimEndPrefix(t);
    var i := |s| - |t|;
    assert s[i..i + |r|] == r;
    assert s[i + |r|..] == t[|r|..];
    if r == [] {
      assert t[|r|..] == t;
      assert t == [];
      assert s[..i] == s;
    }
  }

  /** `trim` is determined by the split it finds: white space, a trimmed core, white space. */
  lemma TrimSplit(a: string, m: string, b: string)
    requires AllWhiteSpace(a) && AllWhiteSpace(b) && IsTrimmed(m)
    ensures Trim(a + m + b) == m
  {
    if m == [] {
      assert a + m + b == (a + b) + [];
      TrimStartSkips(a + b, []);
    } else {
      assert a + m + b == a + (m + b);
      TrimStartSkips(a, m + b);
      TrimEndSkips(m, b);
    }
  }

  /** Leading white space does not change what `trim` returns. */
  lemma TrimIgnoresIndent(a: string, s: string)
    requires AllWhiteSpace(a)
    ensures Trim(a + s) == Trim(s)
  {
    TrimStartIgnoresIndent(a, s);
  }

  lemma {:induction false} TrimStartIgnoresIndent(a: string, s: string)
    requires AllWhiteSpace(a)
    ensures TrimStart(a + s) == TrimStart(s)
  {
    if a != [] {
      assert (a + s)[0] == a[0] && IsWhiteSpace(a[0]);
      assert (a + s)[1..] == a[1..] + s;
      assert TrimStart(a + s) == TrimStart(a[1..] + s);
      TrimStartIgnoresIndent(a[1..], s);
    } else {
      assert a + s == s;
    }
  }

  lemma {:induction false} TrimStartSkips(a: string, t: string)
    requires AllWhiteSpace(a)
    requires t == [] || !IsWhiteSpace(t[0])
    ensures TrimStart(a + t) == t
  {
    if a != [] {
      assert (a + t)[1..] == a[1..] + t;
      TrimStartSkips(a[1..], t);
    } else {
      assert a + t == t;
    }
  }

  lemma {:induction false} TrimEndSkips(t: string, b: string)
    requires AllWhiteSpace(b)
    requires t == [] || !IsWhiteSpace(t[|t| - 1])
    ensures TrimEnd(t + b) == t
  {
    if b != [] {
      assert (t + b)[..|t + b| - 1] == t + b[..|b| - 1];
      TrimEndSkips(t, b[..|b| - 1]);
    } else {
      assert t + b == t;
    }
  }

  /** `toLowerCase` on one character, restricted to the ASCII letters. */
  function LowerChar(c: char): char {
    if 'A' <= c <= 'Z' then (c as int + ('a' as int - 'A' as int)) as char else c
  }

  /** `toLowerCase`, restricted to the ASCII letters, applied letter by letter. */
  function Lower(s: string): string {
    seq(|s|, i requires 0 <= i < |s| => LowerChar(s[i]))
  }

  /**
   * Lower-casing keeps the length, leaves no upper-case ASCII letter, changes
   * every other character not at all, and fixes exactly the text that has no
   * upper-case ASCII letter; so it is idempotent.
   */
  lemma LowerSpec(s: string)
    ensures |Lower(s)| == |s|
    ensures forall i | 0 <= i < |s| :: !('A' <= Lower(s)[i] <= 'Z')
    ensures forall i | 0 <= i < |s| :: !('A' <= s[i] <= 'Z') ==> Lower(s)[i] == s[i]
    ensures Lower(s) == s <==> forall i | 0 <= i < |s| :: !('A' <= s[i] <= 'Z')
    ensures Lower(Lower(s)) == Lower(s)
    ensures forall i | 0 <= i < |s| && 'A' <= s[i] <= 'Z' ::
              Lower(s)[i] == "abcdefghijklmnopqrstuvwxyz"[s[i] as int - 'A' as int]
  {
  }

  /**
   * Matching a lower-cased line against a lower-case keyword ignores case:
   * the line matches exactly when each of its characters is the keyword's
   * character or, for a letter, that letter's capital.
   */
  lemma LowerIsCaseInsensitive(w: string, k: string)
    requires forall i | 0 <= i < |k| :: !('A' <= k[i] <= 'Z')
    ensures Lower(w) == k <==>
              |w| == |k| &&
              forall i | 0 <= i < |k| ::
                w[i] == k[i] || ('a' <= k[i] <= 'z' && w[i] as int == k[i] as int - 32)
  {
    if Lower(w) == k {
      forall i | 0 <= i < |k|
        ensures w[i] == k[i] || ('a' <= k[i] <= 'z' && w[i] as int == k[i] as int - 32)
      {
        assert Lower(w)[i] == LowerChar(w[i]);
      }
    }
    if |w| == |k| &&
       forall i | 0 <= i < |k| ::
         w[i] == k[i] || ('a' <= k[i] <= 'z' && w[i] as int == k[i] as int - 32)
    {
      assert forall i | 0 <= i < |w| :: Lower(w)[i] == k[i];
    }
  }

  predicate StartsWith(s: string, prefix: string) {
    |prefix| <= |s| && s[..|prefix|] == prefix
  }

  /** `s.slice(start)` for a non-negative `start`: empty once `start` passes the end. */
  function Slice(s: string, start: nat): string {
    if start <= |s| then s[start..] else ""
  }
}
