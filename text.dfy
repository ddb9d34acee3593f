/** Whitespace and `String.prototype.trim`, as the contact form's validator uses them.
    JavaScript's `trim` and the regular-expression class `\s` both stand for the same
    fixed set of characters (the WhiteSpace and LineTerminator code points of ECMAScript);
    `IsSpace` is that set. */
module Text {

  /** The characters matched by `\s` and removed by `trim`. */
  predicate IsSpace(c: char) {
    c == ' ' || c == '\t' || c == '\n' || c == '\r' || c == '\U{000B}' || c == '\U{000C}'
    || c == '\U{00A0}' || c == '\U{1680}' || ('\U{2000}' <= c <= '\U{200A}')
    || c == '\U{2028}' || c == '\U{2029}' || c == '\U{202F}' || c == '\U{205F}'
    || c == '\U{3000}' || c == '\U{FEFF}'
  }

  /** Every character of `s` is whitespace (vacuously true of ""). */
  predicate AllSpace(s: string) {
    forall i :: 0 <= i < |s| ==> IsSpace(s[i])
  }

  /** `s` with its leading whitespace removed. */
  function TrimStart(s: string): (r: string)
    ensures |r| <= |s|
    ensures r == [] || !IsSpace(r[0])
  {
    if s != [] && IsSpace(s[0]) then TrimStart(s[1..]) else s
  }

  /** `s` with its trailing whitespace removed. */
  function TrimEnd(s: string): (r: string)
    ensures |r| <= |s|
    ensures r == [] || !IsSpace(r[|r| - 1])
  {
    if s != [] && IsSpace(s[|s| - 1]) then TrimEnd(s[..|s| - 1]) else s
  }

  /** What `TrimStart` removes is a run of whitespace, and what it keeps is the rest of `s`. */
  lemma {:induction false} TrimStartSplits(s: string)
    ensures var r := TrimStart(s);
      r == s[|s| - |r|..] && AllSpace(s[..|s| - |r|])
  {
    if s != [] && IsSpace(s[0]) {
      TrimStartSplits(s[1..]);
      var r := TrimStart(s);
      assert s[1..][|s| - 1 - |r|..] == s[|s| - |r|..];
      forall i | 0 <= i < |s| - |r|
        ensures IsSpace(s[i])
      {
        if i > 0 {
          assert s[i] == s[1..][..|s| - 1 - |r|][i - 1];
        }
      }
    }
  }

  /** What `TrimEnd` removes is a run of whitespace, and what it keeps is the start of `s`. */
  lemma {:induction false} TrimEndSplits(s: string)
    ensures var r := TrimEnd(s);
      r == s[..|r|] && AllSpace(s[|r|..])
  {
    if s != [] && IsSpace(s[|s| - 1]) {
      var p := s[..|s| - 1];
      TrimEndSplits(p);
      var r := TrimEnd(s);
      assert p[..|r|] == s[..|r|];
      forall i | |r| <= i < |s|
        ensures IsSpace(s[i])
      {
        if i < |s| - 1 {
          assert s[i] == p[|r|..][i - |r|];
        }
      }
    }
  }

  /** JavaScript's `s.trim()`: a result that is not empty neither starts nor ends with whitespace. */
  function Trim(s: string): (r: string)
    ensures |r| <= |s|
    ensures r != [] ==> !IsSpace(r[0]) && !IsSpace(r[|r| - 1])
  {
    var t := TrimStart(s);
    TrimEndSplits(t);
    TrimEnd(t)
  }

  /** `s.trim()` is empty exactly when `s` is all whitespace. */
  lemma TrimEmptyIffAllSpace(s: string)
    ensures Trim(s) == [] <==> AllSpace(s)
  {
    var t := TrimStart(s);
    TrimStartSplits(s);
    TrimEndSplits(t);
    assert s == s[..|s| - |t|] + t;
    if t != [] {
      assert t[0] == s[|s| - |t|];
    }
  }

  /** `s.trim()` is the text of `s` between its leading and its trailing whitespace. */
  lemma TrimIsInfix(s: string)
    ensures var k := |s| - |TrimStart(s)|;
      k + |Trim(s)| <= |s| && Trim(s) == s[k..k + |Trim(s)|]
  {
    TrimStartSplits(s);
    TrimEndSplits(TrimStart(s));
  }

  /** Trimming leaves alone a string that has no whitespace at either end. */
  lemma TrimNoEdgeSpace(s: string)
    requires s != [] && !IsSpace(s[0]) && !IsSpace(s[|s| - 1])
    ensures Trim(s) == s
  {
  }

  /** Trimming twice is trimming once. */
  lemma TrimIdempotent(s: string)
    ensures Trim(Trim(s)) == Trim(s)
  {
    if Trim(s) != [] {
      TrimNoEdgeSpace(Trim(s));
    }
  }
}
