/**
 * The JavaScript string primitives the system relies on, over `seq<char>`:
 * the `\s` character class, `String.prototype.trim`, `String.prototype.includes`
 * and `String.prototype.replace` with a global one-character pattern and a callback.
 */
module JsText {

  /** Membership in the JavaScript `\s` class: the WhiteSpace and LineTerminator code points of ECMAScript. */
  predicate IsJsWhitespace(c: char) {
    || c == '\t' || c == '\n' || c == '\U{000B}' || c == '\U{000C}' || c == '\r' || c == ' '
    || c == '\U{00A0}' || c == '\U{1680}'
    || ('\U{2000}' <= c <= '\U{200A}')
    || c == '\U{2028}' || c == '\U{2029}' || c == '\U{202F}' || c == '\U{205F}'
    || c == '\U{3000}' || c == '\U{FEFF}'
  }

  /** True iff every character of `s` is `\s` whitespace (so `s.trim() === ""`). */
  predicate IsBlank(s: string) {
    forall i :: 0 <= i < |s| ==> IsJsWhitespace(s[i])
  }

  function TrimStart(s: string): (r: string)
    ensures |r| <= |s| && r == s[|s| - |r|..]
    ensures IsBlank(s[..|s| - |r|])
    ensures r != [] ==> !IsJsWhitespace(r[0])
  {
    if s != [] && IsJsWhitespace(s[0]) then
      var r := TrimStart(s[1..]);
      assert s[..|s| - |r|] == [s[0]] + s[1..][..|s| - 1 - |r|];
      r
    else s
  }

  function TrimEnd(s: string): (r: string)
    ensures |r| <= |s| && r == s[..|r|]
    ensures IsBlank(s[|r|..])
    ensures r != [] ==> !IsJsWhitespace(r[|r| - 1])
  {
    if s != [] && IsJsWhitespace(s[|s| - 1]) then
      var r := TrimEnd(s[..|s| - 1]);
      assert s[|r|..] == s[..|s| - 1][|r|..] + [s[|s| - 1]];
      r
    else s
  }

  /** `s.trim()`: `s` without its leading and trailing whitespace. */
  function Trim(s: string): (r: string)
    ensures |r| <= |s|
    ensures r != [] ==> !IsJsWhitespace(r[0]) && !IsJsWhitespace(r[|r| - 1])
  {
    TrimEnd(TrimStart(s))
  }

  /** The trimmed string is empty exactly when the string is blank. */
  lemma TrimEmptyIffBlank(s: string)
    ensures Trim(s) == [] <==> IsBlank(s)
  {
    var a := TrimStart(s);
    if Trim(s) == [] {
      assert a[0..] == a;
      assert a == [];
      assert s[..|s|] == s;
    }
  }

  /** A string that neither starts nor ends with whitespace is its own trim. */
  lemma TrimUnchanged(s: string)
    requires s != [] ==> !IsJsWhitespace(s[0]) && !IsJsWhitespace(s[|s| - 1])
    ensures Trim(s) == s
  {
  }

  predicate IsPrefix(p: string, s: string) {
    |p| <= |s| && s[..|p|] == p
  }

  /** `s.includes(sub)` */
  predicate Contains(s: string, sub: string)
    decreases |s|
  {
    IsPrefix(sub, s) || (s != [] && Contains(s[1..], sub))
  }

  /** `sub` occurs in `s` starting at position `k`. */
  predicate OccursAt(s: string, sub: string, k: int) {
    0 <= k <= |s| - |sub| && s[k..k + |sub|] == sub
  }

  /** `s.includes(sub)` holds iff `sub` occurs at some position of `s`. */
  lemma {:induction false} ContainsIffOccurs(s: string, sub: string)
    ensures Contains(s, sub) <==> exists k :: OccursAt(s, sub, k)
    decreases |s|
  {
    if IsPrefix(sub, s) {
      assert OccursAt(s, sub, 0);
    } else if s == [] {
    } else {
      ContainsIffOccurs(s[1..], sub);
      if exists k :: OccursAt(s, sub, k) {
        var k :| OccursAt(s, sub, k);
        assert k != 0;
        assert OccursAt(s[1..], sub, k - 1);
      }
      if Contains(s[1..], sub) {
        var k :| OccursAt(s[1..], sub, k);
        assert OccursAt(s, sub, k + 1);
      }
    }
  }

  /** Every string includes the empty string. */
  lemma ContainsEmpty(s: string)
    ensures Contains(s, "")
  {
    assert IsPrefix("", s);
  }

  /** An occurrence at position `k` makes `s.includes(sub)` true. */
  lemma ContainsAt(s: string, sub: string, k: nat)
    requires OccursAt(s, sub, k)
    ensures Contains(s, sub)
  {
    ContainsIffOccurs(s, sub);
  }

  /** A non-empty `sub` can only occur in `s` if its first character does. */
  lemma ContainsFirstChar(s: string, sub: string)
    requires sub != [] && Contains(s, sub)
    ensures sub[0] in s
  {
    ContainsIffOccurs(s, sub);
    var k :| OccursAt(s, sub, k);
    assert s[k] == s[k..k + |sub|][0];
  }

  /**
   * `s.replace(/[class]/g, f)` for a pattern that matches single characters:
   * each character `c` is replaced by `f(c)` (a character outside the class maps to itself).
   */
  function ReplaceEach(s: string, f: char -> string): string
  {
    if s == [] then [] else f(s[0]) + ReplaceEach(s[1..], f)
  }

  /** Replacing character by character distributes over concatenation. */
  lemma {:induction false} ReplaceEachConcat(a: string, b: string, f: char -> string)
    ensures ReplaceEach(a + b, f) == ReplaceEach(a, f) + ReplaceEach(b, f)
  {
    if a != [] {
      assert (a + b)[1..] == a[1..] + b;
      ReplaceEachConcat(a[1..], b, f);
    } else {
      assert a + b == b;
    }
  }

  lemma ReplaceEachSingle(c: char, f: char -> string)
    ensures ReplaceEach([c], f) == f(c)
  {
  }

  /** When `f` maps every character of `s` to itself, the replacement leaves `s` unchanged. */
  lemma {:induction false} ReplaceEachIdentity(s: string, f: char -> string)
    requires forall i :: 0 <= i < |s| ==> f(s[i]) == [s[i]]
    ensures ReplaceEach(s, f) == s
  {
    if s != [] {
      ReplaceEachIdentity(s[1..], f);
    }
  }

  /** Every character of the output comes from the image `f(c)` of some input character `c`. */
  lemma {:induction false} ReplaceEachOrigin(s: string, f: char -> string, x: char)
    requires x in ReplaceEach(s, f)
    ensures exists i :: 0 <= i < |s| && x in f(s[i])
  {
    if s != [] {
      if x !in f(s[0]) {
        ReplaceEachOrigin(s[1..], f, x);
        var i :| 0 <= i < |s| - 1 && x in f(s[1..][i]);
        assert s[1..][i] == s[i + 1];
      }
    }
  }

  /** `s.replace(/from/g, to)` for a one-character pattern and a one-character replacement. */
  function ReplaceChar(s: string, from: char, to: char): (r: string)
    ensures |r| == |s|
    ensures forall i :: 0 <= i < |s| ==> r[i] == (if s[i] == from then to else s[i])
  {
    if s == [] then [] else [if s[0] == from then to else s[0]] + ReplaceChar(s[1..], from, to)
  }

  /** Replacing a character twice is replacing it once. */
  lemma ReplaceCharTwice(s: string, from: char, to: char)
    ensures ReplaceChar(ReplaceChar(s, from, to), from, to) == ReplaceChar(s, from, to)
  {
  }

  /** Replacing a non-whitespace character by another commutes with `trimStart`. */
  lemma {:induction false} TrimStartReplaceChar(s: string, from: char, to: char)
    requires !IsJsWhitespace(from) && !IsJsWhitespace(to)
    ensures TrimStart(ReplaceChar(s, from, to)) == ReplaceChar(TrimStart(s), from, to)
  {
    if s != [] && IsJsWhitespace(s[0]) {
      assert ReplaceChar(s, from, to)[1..] == ReplaceChar(s[1..], from, to);
      TrimStartReplaceChar(s[1..], from, to);
    }
  }

  /** Replacing a non-whitespace character by another commutes with `trimEnd`. */
  lemma {:induction false} TrimEndReplaceChar(s: string, from: char, to: char)
    requires !IsJsWhitespace(from) && !IsJsWhitespace(to)
    ensures TrimEnd(ReplaceChar(s, from, to)) == ReplaceChar(TrimEnd(s), from, to)
    decreases |s|
  {
    if s != [] && IsJsWhitespace(s[|s| - 1]) {
      var r, init := ReplaceChar(s, from, to), s[..|s| - 1];
      assert r[|r| - 1] == s[|s| - 1];
      assert r[..|r| - 1] == ReplaceChar(init, from, to);
      TrimEndReplaceChar(init, from, to);
      calc {
        TrimEnd(r);
        TrimEnd(r[..|r| - 1]);
        ReplaceChar(TrimEnd(init), from, to);
      }
    }
  }

  /** Replacing a non-whitespace character by another commutes with `trim`. */
  lemma TrimReplaceChar(s: string, from: char, to: char)
    requires !IsJsWhitespace(from) && !IsJsWhitespace(to)
    ensures Trim(ReplaceChar(s, from, to)) == ReplaceChar(Trim(s), from, to)
  {
    TrimStartReplaceChar(s, from, to);
    TrimEndReplaceChar(TrimStart(s), from, to);
  }
}
