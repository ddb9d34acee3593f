/** The contact form's email pattern `/^[^\s@]+@[^\s@]+\.[^\s@]+$/`.

    `Matches` is the language of the regular expression, written as "there is a way to
    split the string into the pattern's pieces"; `Test` is a decision procedure for it
    (what `emailRegex.test(s)` answers). `TestIsRegex` proves the two agree on every
    string, and `TestShape` characterises the accepted strings by their '@' and '.'. */
module EmailRegex {
  import opened Text

  /** A character of the class `[^\s@]`. */
  predicate Plain(c: char) {
    !IsSpace(c) && c != '@'
  }

  /** A run of `[^\s@]` characters (possibly empty; the pattern's `+` is stated separately). */
  predicate AllPlain(s: string) {
    forall i :: 0 <= i < |s| ==> Plain(s[i])
  }

  /** The pattern matches `s` with its literal '@' at index `at` and its literal '.' at index `dot`:
      `s[..at]`, `s[at+1..dot]` and `s[dot+1..]` are the three non-empty `[^\s@]+` runs. */
  ghost predicate MatchesAt(s: string, at: int, dot: int) {
    0 < at && at + 1 < dot && dot + 1 < |s| && s[at] == '@' && s[dot] == '.'
    && AllPlain(s[..at]) && AllPlain(s[at + 1..dot]) && AllPlain(s[dot + 1..])
  }

  /** `s` is in the language of `^[^\s@]+@[^\s@]+\.[^\s@]+$`. */
  ghost predicate Matches(s: string) {
    exists at, dot :: MatchesAt(s, at, dot)
  }

  /** Index of the first `c` in `s`, or `|s|` when there is none. */
  function IndexOf(s: string, c: char): (i: nat)
    ensures i <= |s|
    ensures i < |s| ==> s[i] == c
    ensures forall j :: 0 <= j < i ==> s[j] != c
  {
    if s == [] then 0
    else if s[0] == c then 0
    else 1 + IndexOf(s[1..], c)
  }

  /** Number of occurrences of `c` in `s`. */
  function Count(s: string, c: char): (n: nat)
    ensures n <= |s|
  {
    if s == [] then 0 else (if s[0] == c then 1 else 0) + Count(s[1..], c)
  }

  /** `d` has a '.' that is neither its first nor its last character. */
  predicate HasInnerDot(d: string) {
    exists k :: 0 < k < |d| - 1 && d[k] == '.'
  }

  /** The part of `s` before its first '@' (all of `s` when there is no '@'). */
  function LocalPart(s: string): (l: string)
    ensures '@' !in l
  {
    s[..IndexOf(s, '@')]
  }

  /** The part of `s` after its first '@' ("" when there is no '@'). */
  function DomainPart(s: string): (d: string)
    ensures |LocalPart(s)| + |d| < |s| || (d == [] && '@' !in s)
  {
    var at := IndexOf(s, '@');
    if at < |s| then s[at + 1..] else []
  }

  /** `emailRegex.test(s)`: the text before the first '@' is a non-empty `[^\s@]` run, and the
      text after it is a `[^\s@]` run with a '.' strictly inside it. */
  predicate Test(s: string) {
    var at := IndexOf(s, '@');
    0 < at < |s| && AllPlain(s[..at]) && AllPlain(s[at + 1..]) && HasInnerDot(s[at + 1..])
  }

  /** The decision procedure answers exactly the regular expression's language. */
  lemma TestIsRegex(s: string)
    ensures Test(s) <==> Matches(s)
  {
    var at := IndexOf(s, '@');
    if Test(s) {
      var d := s[at + 1..];
      var k :| 0 < k < |d| - 1 && d[k] == '.';
      var dot := at + 1 + k;
      assert s[at + 1..dot] == d[..k];
      assert s[dot + 1..] == d[k + 1..];
      assert MatchesAt(s, at, dot);
    }
    if Matches(s) {
      var a, dot :| MatchesAt(s, a, dot);
      assert forall j :: 0 <= j < a ==> s[j] == s[..a][j];
      assert at == a;
      var d := s[at + 1..];
      forall i | 0 <= i < |d|
        ensures Plain(d[i])
      {
        if at + 1 + i < dot {
          assert d[i] == s[at + 1..dot][i];
        } else if at + 1 + i > dot {
          assert d[i] == s[dot + 1..][i - (dot - at)];
        }
      }
      assert d[dot - at - 1] == '.';
    }
  }

  /** No occurrence counts as zero, and only then. */
  lemma {:induction false} CountZero(s: string, c: char)
    ensures Count(s, c) == 0 <==> c !in s
  {
    if s != [] {
      CountZero(s[1..], c);
      assert s == [s[0]] + s[1..];
    }
  }

  /** No character of `s` is whitespace. */
  predicate NoSpace(s: string) {
    forall i :: 0 <= i < |s| ==> !IsSpace(s[i])
  }

  /** Around an '@' that has none before it, the two sides are `[^\s@]` runs exactly when the
      whole string has no whitespace and the right side has no '@'. */
  lemma PlainAround(s: string, at: nat)
    requires at < |s| && s[at] == '@' && '@' !in s[..at]
    ensures AllPlain(s[..at]) && AllPlain(s[at + 1..]) <==> NoSpace(s) && '@' !in s[at + 1..]
  {
    var l, d := s[..at], s[at + 1..];
    assert !IsSpace('@');
    if AllPlain(l) && AllPlain(d) {
      forall i | 0 <= i < |s|
        ensures !IsSpace(s[i])
      {
        if i < at {
          assert s[i] == l[i];
        } else if i > at {
          assert s[i] == d[i - at - 1];
        }
      }
    }
    if NoSpace(s) && '@' !in d {
      forall i | 0 <= i < |l|
        ensures Plain(l[i])
      {
        assert l[i] == s[i];
      }
      forall i | 0 <= i < |d|
        ensures Plain(d[i])
      {
        assert d[i] == s[at + 1 + i];
      }
    }
  }

  /** The first '@' contributes one to the count; the rest come after it. */
  lemma {:induction false} CountAround(s: string, at: nat)
    requires at < |s| && s[at] == '@' && '@' !in s[..at]
    ensures Count(s, '@') == 1 + Count(s[at + 1..], '@')
  {
    if at > 0 {
      assert s[..at][0] == s[0];
      assert s[1..][..at - 1] == s[..at][1..];
      CountAround(s[1..], at - 1);
      assert s[1..][at..] == s[at + 1..];
    }
  }

  /** The strings the pattern accepts are exactly those with no whitespace, exactly one '@',
      a non-empty part before the '@', and a '.' strictly inside the part after it. */
  lemma TestShape(s: string)
    ensures Test(s) <==>
      NoSpace(s) && Count(s, '@') == 1 && LocalPart(s) != [] && HasInnerDot(DomainPart(s))
  {
    var at := IndexOf(s, '@');
    if at < |s| {
      assert '@' !in s[..at] by {
        forall j | 0 <= j < at
          ensures s[..at][j] != '@'
        {
          assert s[..at][j] == s[j];
        }
      }
      PlainAround(s, at);
      CountAround(s, at);
      CountZero(s[at + 1..], '@');
      assert DomainPart(s) == s[at + 1..];
    } else {
      CountZero(s, '@');
    }
  }

  /** A string with whitespace at either end never matches: the pattern is anchored and its
      classes exclude `\s`, so an address typed with a surrounding space is rejected. */
  lemma EdgeSpaceFails(s: string)
    requires s != [] && (IsSpace(s[0]) || IsSpace(s[|s| - 1]))
    ensures !Test(s)
  {
    var at := IndexOf(s, '@');
    if 0 < at < |s| {
      assert s[..at][0] == s[0];
      if at + 1 < |s| {
        assert s[at + 1..][|s| - at - 2] == s[|s| - 1];
      }
    }
  }
}
