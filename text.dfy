/**
 * String operations shared by the front end (JavaScript) and the Flask back
 * end (Python): trimming, whitespace removal and substring search.
 *
 * JavaScript's `String.prototype.trim` and the regular-expression class `\s`
 * use one set of whitespace characters; Python's `str.strip()` uses the
 * `str.isspace` set.  The two sets differ, so every operation here takes the
 * runtime whose rules it follows.
 */
module Text {

  /** Whose whitespace rules apply. */
  datatype Runtime = ECMAScript | Python

  /**
   * Whitespace as each runtime defines it.  ECMAScript: WhiteSpace and
   * LineTerminator (tab, line feed, vertical tab, form feed, carriage return,
   * every space separator, U+2028, U+2029 and the byte-order mark U+FEFF).
   * Python: `str.isspace` (the same control characters, U+001C..U+001F and
   * U+0085 besides, every space separator, U+2028, U+2029, but not U+FEFF).
   */
  predicate IsSpace(rt: Runtime, c: char) {
    || ('\t' <= c <= '\r')
    || c == ' ' || c == '\U{00A0}' || c == '\U{1680}'
    || ('\U{2000}' <= c <= '\U{200A}')
    || c == '\U{2028}' || c == '\U{2029}' || c == '\U{202F}' || c == '\U{205F}'
    || c == '\U{3000}'
    || (rt == ECMAScript && c == '\U{FEFF}')
    || (rt == Python && (('\U{001C}' <= c <= '\U{001F}') || c == '\U{0085}'))
  }

  /** Every character of `s` is whitespace. */
  predicate AllSpace(rt: Runtime, s: string) {
    forall i :: 0 <= i < |s| ==> IsSpace(rt, s[i])
  }

  /** `s` neither starts nor ends with whitespace. */
  predicate Trimmed(rt: Runtime, s: string) {
    s == [] || (!IsSpace(rt, s[0]) && !IsSpace(rt, s[|s| - 1]))
  }

  /** `c` is what is left of `s` once its leading and trailing whitespace is cut off. */
  predicate IsTrimOf(rt: Runtime, c: string, s: string) {
    exists i :: 0 <= i <= |s| && TrimAt(rt, c, s, i)
  }

  /** `s` is whitespace, then `c` from position `i`, then whitespace; `c` has no outer whitespace. */
  predicate TrimAt(rt: Runtime, c: string, s: string, i: int) {
    0 <= i && i + |c| <= |s| && s[i..i + |c|] == c
    && AllSpace(rt, s[..i]) && AllSpace(rt, s[i + |c|..]) && Trimmed(rt, c)
  }

  /** Drops the leading whitespace of `s`. */
  function TrimStart(rt: Runtime, s: string): (r: string)
    ensures |r| <= |s|
    ensures AllSpace(rt, s[..|s| - |r|])
    ensures r == [] || !IsSpace(rt, r[0])
    decreases |s|
  {
    if s != [] && IsSpace(rt, s[0]) then
      var r := TrimStart(rt, s[1..]);
      assert s[..|s| - |r|] == [s[0]] + s[1..][..|s| - 1 - |r|];
      r
    else
      s
  }

  /** Drops the trailing whitespace of `s`. */
  function TrimEnd(rt: Runtime, s: string): (r: string)
    ensures |r| <= |s|
    ensures AllSpace(rt, s[|r|..])
    ensures r == [] || !IsSpace(rt, r[|r| - 1])
    decreases |s|
  {
    if s != [] && IsSpace(rt, s[|s| - 1]) then
      var r := TrimEnd(rt, s[..|s| - 1]);
      assert s[|r|..] == s[..|s| - 1][|r|..] + [s[|s| - 1]];
      r
    else
      s
  }

  /** What TrimStart keeps is the end of `s`: only a prefix is cut. */
  lemma {:induction false} TrimStartIsSuffix(rt: Runtime, s: string)
    ensures TrimStart(rt, s) == s[|s| - |TrimStart(rt, s)|..]
    decreases |s|
  {
    if s != [] && IsSpace(rt, s[0]) {
      TrimStartIsSuffix(rt, s[1..]);
    }
  }

  /** What TrimEnd keeps is the start of `s`: only a suffix is cut. */
  lemma {:induction false} TrimEndIsPrefix(rt: Runtime, s: string)
    ensures TrimEnd(rt, s) == s[..|TrimEnd(rt, s)|]
    decreases |s|
  {
    if s != [] && IsSpace(rt, s[|s| - 1]) {
      TrimEndIsPrefix(rt, s[..|s| - 1]);
    }
  }

  /** `trim()` in JavaScript, `strip()` in Python. */
  function Trim(rt: Runtime, s: string): (r: string)
    ensures |r| <= |s|
    ensures Trimmed(rt, r)
  {
    var t := TrimStart(rt, s);
    TrimEndIsPrefix(rt, t);
    TrimEnd(rt, t)
  }

  /** What Trim returns is `s` with its outer whitespace cut off, and nothing else. */
  lemma TrimSpec(rt: Runtime, s: string)
    ensures IsTrimOf(rt, Trim(rt, s), s)
  {
    var t := TrimStart(rt, s);
    var r := TrimEnd(rt, t);
    var i := |s| - |t|;
    TrimStartIsSuffix(rt, s);
    TrimEndIsPrefix(rt, t);
    assert s[i..i + |r|] == r;
    assert s[i + |r|..] == t[|r|..];
    assert TrimAt(rt, r, s, i);
  }

  /** Leading whitespace in front of a text that starts with a non-space is skipped exactly. */
  lemma {:induction false} TrimStartSkips(rt: Runtime, p: string, t: string)
    requires AllSpace(rt, p)
    requires t == [] || !IsSpace(rt, t[0])
    ensures TrimStart(rt, p + t) == t
    decreases |p|
  {
    if p != [] {
      assert (p + t)[1..] == p[1..] + t;
      TrimStartSkips(rt, p[1..], t);
    }
  }

  /** Trailing whitespace after a text that ends with a non-space is dropped exactly. */
  lemma {:induction false} TrimEndSkips(rt: Runtime, t: string, q: string)
    requires AllSpace(rt, q)
    requires t == [] || !IsSpace(rt, t[|t| - 1])
    ensures TrimEnd(rt, t + q) == t
    decreases |q|
  {
    if q != [] {
      assert (t + q)[..|t + q| - 1] == t + q[..|q| - 1];
      TrimEndSkips(rt, t, q[..|q| - 1]);
    }
  }

  /** The trimmed form of a string is unique: whatever satisfies IsTrimOf is what Trim returns. */
  lemma TrimUnique(rt: Runtime, c: string, s: string)
    requires IsTrimOf(rt, c, s)
    ensures Trim(rt, s) == c
  {
    var i :| 0 <= i <= |s| && TrimAt(rt, c, s, i);
    var p, q := s[..i], s[i + |c|..];
    assert s == p + (c + q);
    if c == [] {
      assert AllSpace(rt, p + q) by {
        forall k | 0 <= k < |p + q| ensures IsSpace(rt, (p + q)[k]) {
          if k >= |p| { assert (p + q)[k] == q[k - |p|]; }
        }
      }
      assert s == (p + q) + [];
      TrimStartSkips(rt, p + q, []);
      assert TrimStart(rt, s) == [];
    } else {
      TrimStartSkips(rt, p, c + q);
      TrimEndSkips(rt, c, q);
      assert TrimStart(rt, s) == c + q;
    }
  }

  /** A string trims to nothing exactly when it is whitespace only. */
  lemma TrimEmptyIff(rt: Runtime, s: string)
    ensures Trim(rt, s) == [] <==> AllSpace(rt, s)
  {
    if AllSpace(rt, s) {
      assert s[0..0] == [] && s[..0] == [] && s[0..] == s;
      assert TrimAt(rt, [], s, 0);
      TrimUnique(rt, [], s);
    }
    if Trim(rt, s) == [] {
      TrimSpec(rt, s);
      var i :| 0 <= i <= |s| && TrimAt(rt, [], s, i);
      forall k | 0 <= k < |s| ensures IsSpace(rt, s[k]) {
        if k < i {
          assert s[..i][k] == s[k];
        } else {
          assert s[i..][k - i] == s[k];
        }
      }
    }
  }

  /** Trimming twice is trimming once. */
  lemma TrimIdempotent(rt: Runtime, s: string)
    ensures Trim(rt, Trim(rt, s)) == Trim(rt, s)
  {
    var c := Trim(rt, s);
    assert c[0..0 + |c|] == c && c[..0] == [] && c[0 + |c|..] == [];
    assert TrimAt(rt, c, c, 0);
    TrimUnique(rt, c, c);
  }

  /** Removes every whitespace character, as `replace(/[\s　]/g, '')` does. */
  function StripSpaces(rt: Runtime, s: string): (r: string)
    ensures |r| <= |s|
    ensures forall i :: 0 <= i < |r| ==> !IsSpace(rt, r[i])
    ensures forall c :: c in s && !IsSpace(rt, c) ==> c in r
    decreases |s|
  {
    if s == [] then []
    else
      var rest := StripSpaces(rt, s[1..]);
      assert forall c :: c in s ==> c == s[0] || c in s[1..];
      (if IsSpace(rt, s[0]) then [] else [s[0]]) + rest
  }

  /** Whitespace removal works character by character: it distributes over concatenation. */
  lemma {:induction false} StripSpacesAppend(rt: Runtime, a: string, b: string)
    ensures StripSpaces(rt, a + b) == StripSpaces(rt, a) + StripSpaces(rt, b)
    decreases |a|
  {
    if a != [] {
      assert (a + b)[0] == a[0] && (a + b)[1..] == a[1..] + b;
      StripSpacesAppend(rt, a[1..], b);
      var head := if IsSpace(rt, a[0]) then [] else [a[0]];
      calc {
        StripSpaces(rt, a + b);
        head + StripSpaces(rt, a[1..] + b);
        head + (StripSpaces(rt, a[1..]) + StripSpaces(rt, b));
        (head + StripSpaces(rt, a[1..])) + StripSpaces(rt, b);
      }
    } else {
      assert a + b == b;
    }
  }

  /** One character: whitespace disappears, anything else is kept. With StripSpacesAppend this fixes the result for every string. */
  lemma StripSpacesOfChar(rt: Runtime, c: char)
    ensures StripSpaces(rt, [c]) == if IsSpace(rt, c) then [] else [c]
  {
    assert [c][1..] == [];
  }

  /** A string of whitespace only disappears entirely. */
  lemma {:induction false} StripSpacesOfSpace(rt: Runtime, s: string)
    requires AllSpace(rt, s)
    ensures StripSpaces(rt, s) == []
    decreases |s|
  {
    if s != [] {
      StripSpacesOfSpace(rt, s[1..]);
    }
  }

  /** A string without whitespace comes through whitespace removal unchanged. */
  lemma {:induction false} StripSpacesKeepsText(rt: Runtime, s: string)
    requires forall i :: 0 <= i < |s| ==> !IsSpace(rt, s[i])
    ensures StripSpaces(rt, s) == s
    decreases |s|
  {
    if s != [] {
      StripSpacesKeepsText(rt, s[1..]);
    }
  }

  /** `s.includes(sub)` in JavaScript. */
  predicate Includes(s: string, sub: string)
    ensures Includes(s, sub) ==> |sub| <= |s|
    ensures sub == [] ==> Includes(s, sub)
    decreases |s|
  {
    sub <= s || (s != [] && Includes(s[1..], sub))
  }

  /** `includes` is substring search: `sub` occurs in `s` at some position. */
  lemma {:induction false} IncludesIff(s: string, sub: string)
    ensures Includes(s, sub) <==> exists i :: 0 <= i <= |s| && sub <= s[i..]
    decreases |s|
  {
    if sub <= s {
      assert s[0..] == s;
    } else if s != [] {
      assert s[0..] == s;
      IncludesIff(s[1..], sub);
      if Includes(s[1..], sub) {
        var j :| 0 <= j <= |s[1..]| && sub <= s[1..][j..];
        assert s[1..][j..] == s[j + 1..];
      }
      if exists i :: 0 <= i <= |s| && sub <= s[i..] {
        var i :| 0 <= i <= |s| && sub <= s[i..];
        assert i > 0;
        assert s[1..][i - 1..] == s[i..];
      }
    }
  }
}
