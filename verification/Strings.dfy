/** Python string operations used in more than one place. */
module Strings {

  /** The characters that split() and strip() take for white space. */
  const WHITESPACE: string :=
    "\t\n\U{0B}\U{0C}\r\U{1C}\U{1D}\U{1E}\U{1F} \U{85}\U{A0}\U{1680}\U{2000}\U{2001}\U{2002}\U{2003}\U{2004}"
    + "\U{2005}\U{2006}\U{2007}\U{2008}\U{2009}\U{200A}\U{2028}\U{2029}\U{202F}\U{205F}\U{3000}"

  predicate Space(c: char) {
    c in WHITESPACE
  }

  /** part in s */
  predicate Contains(s: string, part: string) {
    part <= s || (s != [] && Contains(s[1..], part))
  }

  /** s.replace(part, "") */
  function Remove(s: string, part: string): string
    requires part != []
  {
    if s == [] then []
    else if part <= s then Remove(s[|part|..], part)
    else [s[0]] + Remove(s[1..], part)
  }

  lemma {:induction false} ContainsAt(a: string, part: string, b: string)
    ensures Contains(a + part + b, part)
  {
    var s := a + part + b;
    if a == [] {
      assert s == part + b;
    } else {
      ContainsAt(a[1..], part, b);
      assert s[1..] == a[1..] + part + b;
    }
  }

  /** One string is in another exactly when the other can be cut around it. */
  lemma {:induction false} ContainsIff(s: string, part: string)
    ensures Contains(s, part) <==> exists a, b :: s == a + part + b
  {
    if part <= s {
      assert s == [] + part + s[|part|..];
    } else if s != [] {
      ContainsIff(s[1..], part);
      if a, b :| s[1..] == a + part + b {
        assert s == ([s[0]] + a) + part + b;
      }
    }
    if a, b :| s == a + part + b {
      ContainsAt(a, part, b);
    }
  }

  /** `part` stands in `s` at `i` and nowhere before. */
  predicate FirstAt(s: string, part: string, i: nat) {
    i <= |s| && part <= s[i..] && forall j :: 0 <= j < i ==> !(part <= s[j..])
  }

  /** Removal takes out the first occurrence and goes on behind it. */
  lemma {:induction false} RemoveFirst(s: string, part: string, i: nat)
    requires part != [] && FirstAt(s, part, i)
    ensures Remove(s, part) == s[..i] + Remove(s[i + |part|..], part)
  {
    hide Remove;
    if s != [] {
      RemoveUnfold(s, part);
      FirstOrLater(s, part, i);
      if i > 0 {
        RemoveFirst(s[1..], part, i - 1);
        assert s[..i] == [s[0]] + s[1..][..i - 1] && s[1..][i - 1 + |part|..] == s[i + |part|..];
      }
    }
  }

  lemma {:induction false} RemoveUnfold(s: string, part: string)
    requires part != [] && s != []
    ensures Remove(s, part) == if part <= s then Remove(s[|part|..], part) else [s[0]] + Remove(s[1..], part)
  {}

  lemma {:induction false} FirstOrLater(s: string, part: string, i: nat)
    requires FirstAt(s, part, i)
    ensures i == 0 ==> part <= s
    ensures i > 0 ==> !(part <= s) && FirstAt(s[1..], part, i - 1)
  {
    assert s[0..] == s;
    if i > 0 {
      assert !(part <= s[0..]);
      FirstLater(s, part, i);
    }
  }

  lemma {:induction false} FirstLater(s: string, part: string, i: nat)
    requires FirstAt(s, part, i) && i > 0
    ensures FirstAt(s[1..], part, i - 1)
  {
    forall j | 0 <= j < i - 1 ensures !(part <= s[1..][j..]) {
      assert s[1..][j..] == s[j + 1..];
    }
    assert s[1..][i - 1..] == s[i..];
  }

  /** A string without an occurrence stays. */
  lemma {:induction false} RemoveNone(s: string, part: string)
    requires part != [] && !Contains(s, part)
    ensures Remove(s, part) == s
  {
    if s != [] {
      RemoveNone(s[1..], part);
    }
  }

  /** s.rstrip(chars) */
  function StripEnd(s: string, chars: string): string {
    if s != [] && s[|s| - 1] in chars then StripEnd(s[..|s| - 1], chars) else s
  }

  /** What is stripped are characters of `chars`, up to the last that is none. */
  lemma {:induction false} StripEndIs(s: string, chars: string)
    ensures var r := StripEnd(s, chars);
      && |r| <= |s| && r == s[..|r|] && (forall i :: |r| <= i < |s| ==> s[i] in chars)
      && (r != [] ==> r[|r| - 1] !in chars)
  {
    if s != [] && s[|s| - 1] in chars {
      StripEndIs(s[..|s| - 1], chars);
    }
  }

  function Digit(n: nat): char
    requires n < 10
  {
    "0123456789"[n]
  }

  /** str(n) */
  function Str(n: nat): string {
    if n < 10 then [Digit(n)] else Str(n / 10) + [Digit(n % 10)]
  }

  lemma {:induction false} DigitInjective(m: nat, n: nat)
    requires m < 10 && n < 10 && Digit(m) == Digit(n)
    ensures m == n
  {}

  lemma {:induction false} StrInjective(m: nat, n: nat)
    requires Str(m) == Str(n)
    ensures m == n
  {
    StrEnds(m);
    StrEnds(n);
    DigitInjective(m % 10, n % 10);
    if m >= 10 && n >= 10 {
      assert Str(m / 10) == Str(m)[..|Str(m)| - 1];
      assert Str(n / 10) == Str(n)[..|Str(n)| - 1];
      StrInjective(m / 10, n / 10);
    }
  }

  lemma {:induction false} StrEnds(n: nat)
    ensures |Str(n)| >= 1 && Str(n)[|Str(n)| - 1] == Digit(n % 10)
    ensures |Str(n)| >= 2 <==> n >= 10
  {}
}
