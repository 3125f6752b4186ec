/**
 * The two string idioms the screens use on form input: JavaScript's
 * `String.prototype.trim` and the `x || null` pattern that stores an empty
 * string as null.
 */
module Text {

  import opened Wrappers

  /** The characters `trim` removes: ECMAScript WhiteSpace and LineTerminator. */
  predicate IsWhitespace(c: char) {
    || c == ' ' || c == '\t' || c == '\n' || c == '\r'
    || c == '\U{000B}' || c == '\U{000C}' || c == '\U{00A0}' || c == '\U{FEFF}'
    || c == '\U{1680}' || ('\U{2000}' <= c <= '\U{200A}')
    || c == '\U{2028}' || c == '\U{2029}' || c == '\U{202F}' || c == '\U{205F}'
    || c == '\U{3000}'
  }

  predicate AllWhitespace(s: string) {
    forall i :: 0 <= i < |s| ==> IsWhitespace(s[i])
  }

  /** `s` without its leading whitespace. */
  function TrimStart(s: string): string {
    if s != [] && IsWhitespace(s[0]) then TrimStart(s[1..]) else s
  }

  /** `s` without its trailing whitespace. */
  function TrimEnd(s: string): string {
    if s != [] && IsWhitespace(s[|s| - 1]) then TrimEnd(s[..|s| - 1]) else s
  }

  /** The left trim is a suffix of `s` made by dropping only whitespace, and stops at a non-whitespace character. */
  lemma {:induction false} TrimStartSpec(s: string)
    ensures var r := TrimStart(s);
            && |r| <= |s| && r == s[|s| - |r|..]
            && AllWhitespace(s[..|s| - |r|])
            && (r == [] || !IsWhitespace(r[0]))
    decreases |s|
  {
    if s != [] && IsWhitespace(s[0]) {
      var rest := TrimStart(s[1..]);
      TrimStartSpec(s[1..]);
      assert s[1..][..|s| - 1 - |rest|] == s[1..|s| - |rest|];
    }
  }

  /** The right trim is a prefix of `s` made by dropping only whitespace, and stops at a non-whitespace character. */
  lemma {:induction false} TrimEndSpec(s: string)
    ensures var r := TrimEnd(s);
            && |r| <= |s| && r == s[..|r|]
            && AllWhitespace(s[|r|..])
            && (r == [] || !IsWhitespace(r[|r| - 1]))
    decreases |s|
  {
    if s != [] && IsWhitespace(s[|s| - 1]) {
      var rest := TrimEnd(s[..|s| - 1]);
      TrimEndSpec(s[..|s| - 1]);
      assert s[..|s| - 1][..|rest|] == s[..|rest|];
    }
  }

  /** `s.trim()`. */
  function Trim(s: string): string {
    TrimEnd(TrimStart(s))
  }

  /** `s.trim()` is falsy exactly when `s` is nothing but whitespace. */
  predicate IsBlank(s: string) {
    Trim(s) == []
  }

  /** `s || null`: an empty string becomes null. */
  function OrNull(s: string): (r: Option<string>)
    ensures r == None <==> s == []
    ensures r.Some? ==> r.value == s
  {
    if s == [] then None else Some(s)
  }

  /** `s.trim() || null`. */
  function TrimmedOrNull(s: string): Option<string> {
    OrNull(Trim(s))
  }

  /** Neither the first nor the last character of `s` is whitespace. */
  predicate TrimmedEnds(s: string) {
    s == [] || (!IsWhitespace(s[0]) && !IsWhitespace(s[|s| - 1]))
  }

  /** A trimmed string neither starts nor ends with whitespace. */
  lemma TrimLeavesNoOuterWhitespace(s: string)
    ensures TrimmedEnds(Trim(s))
  {
    var a := TrimStart(s);
    TrimStartSpec(s);
    TrimEndSpec(a);
    if Trim(s) != [] {
      assert Trim(s)[0] == a[0];
    }
  }

  /** Trimming removes only outer whitespace: the result is a slice of the input. */
  lemma TrimIsSlice(s: string)
    ensures exists i, j ::
              && 0 <= i <= j <= |s| && Trim(s) == s[i..j]
              && AllWhitespace(s[..i]) && AllWhitespace(s[j..])
  {
    var a := TrimStart(s);
    var b := TrimEnd(a);
    TrimStartSpec(s);
    TrimEndSpec(a);
    var i := |s| - |a|;
    var j := i + |b|;
    assert s[i..j] == a[..|b|];
    assert s[j..] == a[|b|..];
    assert Trim(s) == s[i..j];
  }

  /** A string is blank exactly when all its characters are whitespace. */
  lemma BlankIffAllWhitespace(s: string)
    ensures IsBlank(s) <==> AllWhitespace(s)
  {
    var a := TrimStart(s);
    TrimStartSpec(s);
    TrimEndSpec(a);
    var n := |s| - |a|;
    assert s == s[..n] + a;
    if IsBlank(s) {
      // nothing survives the right trim, so the left trim already left nothing
      assert a[|TrimEnd(a)|..] == a;
      assert a == [];
    }
  }

  /** Trimming twice is trimming once. */
  lemma TrimIdempotent(s: string)
    ensures Trim(Trim(s)) == Trim(s)
  {
    var a := TrimStart(s);
    var t := Trim(s);
    TrimStartSpec(s);
    TrimEndSpec(a);
    TrimEndSpec(t);
    assert TrimStart(t) == t by {
      if t != [] {
        assert t[0] == a[0];
      }
    }
  }
}
