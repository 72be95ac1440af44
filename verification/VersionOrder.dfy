/**
 On which versions the comparison is an order. It is one exactly while no letter stands
 apart from the digit before it, and every version has a release: on such versions it is
 the lexicographic order of tokens, and any other version breaks transitivity with two of them.
 */
module VersionOrder {
  import opened Strings
  import opened Vercmp
  import opened Wrappers

  // ---- Chains of comparisons ----

  /** What an order makes of `a` against `b`, `b` against `c` and `a` against `c`. */
  predicate Chains(ab: Ordering, bc: Ordering, ac: Ordering) {
    ab != Greater && bc != Greater ==> ac == if ab == Equal && bc == Equal then Equal else Less
  }

  lemma ChainsThen(ab: Ordering, bc: Ordering, ac: Ordering, ab': Ordering, bc': Ordering, ac': Ordering)
    requires Chains(ab, bc, ac) && (ab == Equal && bc == Equal ==> Chains(ab', bc', ac'))
    ensures Chains(ab.Then(ab'), bc.Then(bc'), ac.Then(ac'))
  {
  }

  lemma {:induction false} LexicalChains(a: string, b: string, c: string)
    ensures Chains(Lexical(a, b), Lexical(b, c), Lexical(a, c))
  {
    if a != [] && b != [] && c != [] {
      LexicalChains(a[1..], b[1..], c[1..]);
    }
  }

  // ---- Words ----

  /** The first character that differs decides. */
  lemma {:induction false} DifferenceDecides(a: string, b: string, k: nat)
    requires k < |a| && k < |b| && a[..k] == b[..k] && a[k] < b[k]
    ensures Lexical(a, b) == Less
  {
    if k > 0 {
      assert a[0] == a[..k][0] == b[..k][0] == b[0];
      assert a[1..][..k - 1] == a[..k][1..] && b[1..][..k - 1] == b[..k][1..];
      DifferenceDecides(a[1..], b[1..], k - 1);
    }
  }

  /** What goes on after the other ends is greater. */
  lemma {:induction false} PrefixIsLess(a: string, b: string)
    requires |a| < |b| && a == b[..|a|]
    ensures Lexical(a, b) == Less
  {
    if a != [] {
      assert a[0] == b[0];
      assert b[1..][..|a| - 1] == b[..|a|][1..];
      PrefixIsLess(a[1..], b[1..]);
    }
  }

  lemma {:induction false} RunCat(u: string, s: string, digits: bool)
    ensures Run(u + s, digits) == if Run(u, digits) < |u| then Run(u, digits) else |u| + Run(s, digits)
  {
    if u == [] {
      assert u + s == s;
    } else {
      assert (u + s)[1..] == u[1..] + s && (u + s)[0] == u[0];
      RunCat(u[1..], s, digits);
    }
  }

  lemma {:induction false} SkipCat(u: string, s: string)
    ensures SkipSeparators(u + s) == if SkipSeparators(u) == [] then SkipSeparators(s) else SkipSeparators(u) + s
  {
    if u == [] {
      assert u + s == s;
    } else if !IsAlnum(u[0]) {
      assert (u + s)[1..] == u[1..] + s;
      SkipCat(u[1..], s);
    }
  }

  /** Where two versions first differ in a letter, the letters decide, whatever stands before and after. */
  lemma {:induction false} LetterDecides(u: string, s: string, t: string)
    requires s != [] && t != [] && IsAlpha(s[0]) && IsAlpha(t[0]) && s[0] < t[0]
    ensures CmpSegments(u + s, u + t) == Less
    decreases |u|
  {
    SkipCat(u, s);
    SkipCat(u, t);
    var u' := SkipSeparators(u);
    if u' == [] {
      DifferenceDecides(s[..Run(s, false)], t[..Run(t, false)], 0);
    } else {
      var digits := IsDigit(u'[0]);
      var m := Run(u', digits);
      RunCat(u', s, digits);
      RunCat(u', t, digits);
      if m == |u'| && !digits {
        DifferenceDecides((u' + s)[..Run(u' + s, false)], (u' + t)[..Run(u' + t, false)], m);
      } else {
        SameTurn(u, s, t, u', digits, m);
        LetterDecides(u'[m..], s, t);
      }
    }
  }

  /** Two words come first, and the lesser decides. */
  lemma WordsDecide(x: string, y: string, x': string, y': string, m: nat, n: nat)
    requires x' == SkipSeparators(x) && y' == SkipSeparators(y) && x' != [] && y' != []
    requires IsAlpha(x'[0]) && IsAlpha(y'[0]) && m == Run(x', false) && n == Run(y', false)
    requires Lexical(x'[..m], y'[..n]) == Less
    ensures CmpSegments(x, y) == Less
  {
  }

  lemma LastWord(u: string, s: string, t: string, u': string)
    requires u' != [] && SkipSeparators(u + s) == u' + s && SkipSeparators(u + t) == u' + t && IsAlpha(u'[0])
    requires Run(u' + s, false) == |u'| < Run(u' + t, false)
    ensures CmpSegments(u + s, u + t) == Less
  {
    var x', y' := u' + s, u' + t;
    var n := Run(y', false);
    assert x'[..|u'|] == u';
    assert y'[..n][..|u'|] == u';
    PrefixIsLess(u', y'[..n]);
    WordsDecide(u + s, u + t, x', y', |u'|, n);
  }

  /** The first run of a start that ends in a letter, whatever follows it. */
  lemma FirstTurn(u: string, s: string, t: string) returns (u': string, m: nat)
    requires u != [] && IsAlpha(u[|u| - 1]) && (s == [] || !IsAlpha(s[0])) && t != [] && IsAlpha(t[0])
    ensures u' != [] && |u'| <= |u| && SkipSeparators(u + s) == u' + s && SkipSeparators(u + t) == u' + t
    ensures 0 < m <= |u'| && Run(u' + s, IsDigit(u'[0])) == m && IsAlnum(u'[0])
    ensures m < |u'| ==>
      Run(u' + t, IsDigit(u'[0])) == m && IsAlpha(u'[m..][|u'| - m - 1])
    ensures m == |u'| ==> IsAlpha(u'[0]) && Run(u' + t, false) > m
  {
    SkipCat(u, s);
    SkipCat(u, t);
    SkipEnd(u);
    u' := SkipSeparators(u);
    var digits := IsDigit(u'[0]);
    m := Run(u', digits);
    RunCat(u', s, digits);
    RunCat(u', t, digits);
  }

  /** Of two words that start alike the longer one is greater, whatever stands before and after. */
  lemma {:induction false} LongerWordDecides(u: string, s: string, t: string)
    requires u != [] && IsAlpha(u[|u| - 1]) && (s == [] || !IsAlpha(s[0])) && t != [] && IsAlpha(t[0])
    ensures CmpSegments(u + s, u + t) == Less
    decreases |u|
  {
    var u', m := FirstTurn(u, s, t);
    if m == |u'| {
      LastWord(u, s, t, u');
    } else {
      SameTurn(u, s, t, u', IsDigit(u'[0]), m);
      LongerWordDecides(u'[m..], s, t);
    }
  }

  lemma {:induction false} SkipEnd(u: string)
    requires u != [] && IsAlnum(u[|u| - 1])
    ensures SkipSeparators(u) != [] && SkipSeparators(u)[|SkipSeparators(u)| - 1] == u[|u| - 1]
  {
    if !IsAlnum(u[0]) { SkipEnd(u[1..]); }
  }

  // ---- Tokens ----

  /** A version read run by run. `Apart` is a run of letters with separators before it. */
  datatype Token = Attached(run: string) | End | Apart(run: string) | Trailing | Number(n: nat) {
    function Rank(): nat {
      match this
      case Attached(_) => 0
      case End => 1
      case Apart(_) => 2
      case Trailing => 3
      case Number(_) => 4
    }
  }

  function CmpToken(t: Token, u: Token): Ordering {
    if t.Number? && u.Number? then Compare(t.n, u.n)
    else if (t.Attached? && u.Attached?) || (t.Apart? && u.Apart?) then Lexical(t.run, u.run)
    else Compare(t.Rank(), u.Rank())
  }

  function CmpTokens(a: seq<Token>, b: seq<Token>): Ordering {
    if a == [] || b == [] then Compare(|a|, |b|)
    else CmpToken(a[0], b[0]).Then(CmpTokens(a[1..], b[1..]))
  }

  lemma TokenChains(t: Token, u: Token, v: Token)
    ensures Chains(CmpToken(t, u), CmpToken(u, v), CmpToken(t, v))
  {
    if (t.Attached? || t.Apart?) && (u.Attached? || u.Apart?) && (v.Attached? || v.Apart?) {
      LexicalChains(t.run, u.run, v.run);
    }
  }

  lemma {:induction false} TokensChain(a: seq<Token>, b: seq<Token>, c: seq<Token>)
    ensures Chains(CmpTokens(a, b), CmpTokens(b, c), CmpTokens(a, c))
  {
    if a != [] && b != [] && c != [] {
      TokenChains(a[0], b[0], c[0]);
      TokensChain(a[1..], b[1..], c[1..]);
    }
  }

  function RunToken(run: string, digits: bool, apart: bool): Token
    requires digits ==> Digits(run)
  {
    if digits then Number(Value(run)) else if apart then Apart(run) else Attached(run)
  }

  function Tokens(x: string): seq<Token>
    decreases |x|
  {
    var x' := SkipSeparators(x);
    if x == [] then [End]
    else if x' == [] then [Trailing]
    else
      var digits := IsDigit(x'[0]);
      var m := Run(x', digits);
      [RunToken(x'[..m], digits, x' != x)] + Tokens(x'[m..])
  }

  // ---- Stray letters ----

  /** The letter at `j` stands apart, by the separators from `i` on, from a digit or from the start. */
  predicate Stray(x: string, afterLetters: bool, i: nat, j: nat) {
    && i < j < |x| && IsAlpha(x[j]) && (forall k :: i <= k < j ==> !IsAlnum(x[k]))
    && (if i == 0 then !afterLetters else IsDigit(x[i - 1]))
  }

  ghost predicate NoStray(x: string) {
    forall i: nat, j: nat :: !Stray(x, false, i, j)
  }

  /** The same, run by run: letters apart only ever follow letters. */
  predicate Tidy(x: string, afterLetters: bool)
    decreases |x|
  {
    var x' := SkipSeparators(x);
    x' == [] || (
      var digits := IsDigit(x'[0]);
      var m := Run(x', digits);
      (digits || x' == x || afterLetters) && Tidy(x'[m..], !digits))
  }

  lemma {:induction false} SkipIs(x: string)
    ensures |SkipSeparators(x)| <= |x| && x[|x| - |SkipSeparators(x)|..] == SkipSeparators(x)
    ensures forall k :: 0 <= k < |x| - |SkipSeparators(x)| ==> !IsAlnum(x[k])
  {
    if x != [] && !IsAlnum(x[0]) {
      SkipIs(x[1..]);
      assert forall k :: 1 <= k < |x| ==> x[k] == x[1..][k - 1];
    }
  }

  lemma StrayLater(x: string, afterLetters: bool, off: nat, i: nat, j: nat)
    requires 0 < off <= |x| && Stray(x[off..], !IsDigit(x[off - 1]), i, j)
    ensures Stray(x, afterLetters, off + i, off + j)
  {
    forall k | off + i <= k < off + j ensures !IsAlnum(x[k]) {
      assert x[k] == x[off..][k - off];
    }
  }

  lemma NoStrayLater(x: string, afterLetters: bool, off: nat, rest: string, letters: bool)
    requires forall i: nat, j: nat :: !Stray(x, afterLetters, i, j)
    requires 0 < off <= |x| && rest == x[off..] && letters == !IsDigit(x[off - 1])
    ensures forall i: nat, j: nat :: !Stray(rest, letters, i, j)
  {
    forall i: nat, j: nat ensures !Stray(rest, letters, i, j) {
      if Stray(rest, letters, i, j) { StrayLater(x, afterLetters, off, i, j); }
    }
  }

  /** Letters that come first after separators follow letters. */
  lemma FirstIsTidy(x: string, afterLetters: bool)
    requires forall i: nat, j: nat :: !Stray(x, afterLetters, i, j)
    requires SkipSeparators(x) != []
    ensures IsDigit(SkipSeparators(x)[0]) || SkipSeparators(x) == x || afterLetters
  {
    var x' := SkipSeparators(x);
    SkipIs(x);
    var off := |x| - |x'|;
    assert x[off] == x'[0];
    if off == 0 {
      assert x == x[off..];
    } else {
      assert !Stray(x, afterLetters, 0, off);
    }
  }

  /** The end of the first run, counted from the front. */
  lemma RunEnds(x: string, m: nat)
    requires SkipSeparators(x) != [] && m == Run(SkipSeparators(x), IsDigit(SkipSeparators(x)[0]))
    ensures var off := |x| - |SkipSeparators(x)|;
      && 0 < off + m <= |x| && x[off + m..] == SkipSeparators(x)[m..]
      && IsDigit(x[off + m - 1]) == IsDigit(SkipSeparators(x)[0])
  {
    SkipIs(x);
    var x', off := SkipSeparators(x), |x| - |SkipSeparators(x)|;
    assert x[off + m..] == x[off..][m..];
    assert x[off + m - 1] == x[off..][m - 1] == x'[m - 1];
  }

  lemma {:induction false} NoStrayTidy(x: string, afterLetters: bool)
    requires forall i: nat, j: nat :: !Stray(x, afterLetters, i, j)
    ensures Tidy(x, afterLetters)
    decreases |x|
  {
    var x' := SkipSeparators(x);
    if x' != [] {
      var digits := IsDigit(x'[0]);
      var m := Run(x', digits);
      FirstIsTidy(x, afterLetters);
      RunEnds(x, m);
      NoStrayLater(x, afterLetters, |x| - |x'| + m, x'[m..], !digits);
      NoStrayTidy(x'[m..], !digits);
    }
  }

  // ---- The comparison is the order of tokens ----

  /** One turn on two versions that go on with a run of the same kind. */
  lemma RunTurn(x: string, y: string, digits: bool)
    requires SkipSeparators(x) != [] && SkipSeparators(y) != []
    requires IsDigit(SkipSeparators(x)[0]) == IsDigit(SkipSeparators(y)[0]) == digits
    ensures var (x', y') := (SkipSeparators(x), SkipSeparators(y));
            var (m, n) := (Run(x', digits), Run(y', digits));
            CmpSegments(x, y)
            == (if digits then Compare(Value(x'[..m]), Value(y'[..n])) else Lexical(x'[..m], y'[..n]))
                 .Then(CmpSegments(x'[m..], y'[n..]))
  {
    var x', y' := SkipSeparators(x), SkipSeparators(y);
    if digits { NumericIsValue(x'[..Run(x', true)], y'[..Run(y', true)]); }
  }

  lemma TokenTurn(x: string, digits: bool)
    requires SkipSeparators(x) != [] && IsDigit(SkipSeparators(x)[0]) == digits
    ensures var x' := SkipSeparators(x);
            var m := Run(x', digits);
            Tokens(x) == [RunToken(x'[..m], digits, x' != x)] + Tokens(x'[m..])
  {
  }

  predicate InContext(x: string, afterLetters: bool) {
    Tidy(x, afterLetters) && (afterLetters ==> x == [] || !IsAlpha(x[0]))
  }

  /** Both sides go on with a run of the same kind. */
  predicate SameKind(x: string, y: string) {
    && SkipSeparators(x) != [] && SkipSeparators(y) != []
    && IsDigit(SkipSeparators(x)[0]) == IsDigit(SkipSeparators(y)[0])
  }

  /** Where the two sides do not go on alike, the first tokens decide. */
  lemma FirstTokens(x: string, y: string, afterLetters: bool)
    requires InContext(x, afterLetters) && InContext(y, afterLetters) && !SameKind(x, y)
    ensures CmpSegments(x, y) == CmpToken(Tokens(x)[0], Tokens(y)[0])
    ensures Tokens(x)[0].Rank() == Tokens(y)[0].Rank() ==> |Tokens(x)| == |Tokens(y)| == 1
  {
  }

  lemma {:induction false} CmpIsTokens(x: string, y: string, afterLetters: bool)
    requires InContext(x, afterLetters) && InContext(y, afterLetters)
    ensures CmpSegments(x, y) == CmpTokens(Tokens(x), Tokens(y))
    decreases |x|
  {
    if SameKind(x, y) {
      var x', y' := SkipSeparators(x), SkipSeparators(y);
      var digits := IsDigit(x'[0]);
      var m, n := Run(x', digits), Run(y', digits);
      RunTurn(x, y, digits);
      TokenTurn(x, digits);
      TokenTurn(y, digits);
      CmpIsTokens(x'[m..], y'[n..], !digits);
    } else {
      FirstTokens(x, y, afterLetters);
    }
  }

  /** Without stray letters the comparison is the order of tokens. */
  lemma SegmentsAreTokens(x: string, y: string)
    requires NoStray(x) && NoStray(y)
    ensures CmpSegments(x, y) == CmpTokens(Tokens(x), Tokens(y))
  {
    NoStrayTidy(x, false);
    NoStrayTidy(y, false);
    CmpIsTokens(x, y, false);
  }

  lemma SegmentsChain(x: string, y: string, z: string)
    requires NoStray(x) && NoStray(y) && NoStray(z)
    ensures Chains(CmpSegments(x, y), CmpSegments(y, z), CmpSegments(x, z))
  {
    SegmentsAreTokens(x, y);
    SegmentsAreTokens(y, z);
    SegmentsAreTokens(x, z);
    TokensChain(Tokens(x), Tokens(y), Tokens(z));
  }

  // ---- A stray letter breaks it ----

  predicate EndsNumber(u: string) { u == [] || IsDigit(u[|u| - 1]) }

  predicate NoDigitFirst(s: string) { s == [] || !IsDigit(s[0]) }

  lemma {:induction false} SkipPrefix(u: string, s: string)
    requires u != [] && IsDigit(u[|u| - 1])
    ensures SkipSeparators(u) != [] && SkipSeparators(u + s) == SkipSeparators(u) + s
    ensures SkipSeparators(u)[|SkipSeparators(u)| - 1] == u[|u| - 1]
  {
    if !IsAlnum(u[0]) {
      assert (u + s)[1..] == u[1..] + s;
      SkipPrefix(u[1..], s);
    }
  }

  lemma {:induction false} RunPrefix(u: string, s: string, digits: bool)
    requires u != [] && IsDigit(u[|u| - 1]) && NoDigitFirst(s)
    ensures Run(u + s, digits) == Run(u, digits)
  {
    if IsDigit(u[0]) == digits && IsAlnum(u[0]) {
      assert (u + s)[1..] == u[1..] + s;
      if |u| == 1 {
        assert u[1..] + s == s;
      } else {
        RunPrefix(u[1..], s, digits);
      }
    }
  }

  /** After the same start, up to a digit, what follows decides. */
  lemma {:induction false} SameStart(u: string, s: string, t: string)
    requires EndsNumber(u) && NoDigitFirst(s) && NoDigitFirst(t)
    ensures CmpSegments(u + s, u + t) == CmpSegments(s, t)
    decreases |u|
  {
    if u == [] {
      assert u + s == s && u + t == t;
    } else {
      SkipPrefix(u, s);
      SkipPrefix(u, t);
      var u' := SkipSeparators(u);
      var digits := IsDigit(u'[0]);
      var m := Run(u', digits);
      RunPrefix(u', s, digits);
      RunPrefix(u', t, digits);
      SameTurn(u, s, t, u', digits, m);
      SameStart(u'[m..], s, t);
    }
  }

  lemma SameTurn(u: string, s: string, t: string, u': string, digits: bool, m: nat)
    requires u' != [] && SkipSeparators(u + s) == u' + s && SkipSeparators(u + t) == u' + t && u != []
    requires digits == IsDigit(u'[0]) && 0 < m <= |u'| && Run(u' + s, digits) == m == Run(u' + t, digits)
    ensures CmpSegments(u + s, u + t) == CmpSegments(u'[m..] + s, u'[m..] + t)
  {
    var run := u'[..m];
    Cuts(u', s, m);
    Cuts(u', t, m);
    LexicalFlips(run, run);
    RunTurn(u + s, u + t, digits);
  }

  lemma Cuts(u: string, s: string, m: nat)
    requires m <= |u|
    ensures (u + s)[..m] == u[..m] && (u + s)[m..] == u[m..] + s
  {
  }

  /** Separators before a run change nothing while both sides have something left. */
  lemma {:induction false} SkipOver(seps: string, z: string)
    requires z != [] && IsAlnum(z[0]) && forall k :: 0 <= k < |seps| ==> !IsAlnum(seps[k])
    ensures SkipSeparators(seps + z) == z
  {
    if seps == [] {
      assert seps + z == z;
    } else {
      assert (seps + z)[1..] == seps[1..] + z;
      SkipOver(seps[1..], z);
    }
  }

  lemma ApartTies(seps: string, z: string)
    requires z != [] && IsAlnum(z[0]) && forall k :: 0 <= k < |seps| ==> !IsAlnum(seps[k])
    ensures CmpSegments(z, seps + z) == Equal
  {
    SkipOver(seps, z);
    SegmentsFlip(z, z);
    assert SkipSeparators(z) == z;
    assert CmpSegments(z, seps + z) == CmpSegments(z, z);
  }

  /** The version up to the separators, and the version without them. */
  function Before(x: string, i: nat): string
    requires i <= |x|
  {
    x[..i]
  }

  function Closed(x: string, i: nat, j: nat): string
    requires i <= j <= |x|
  {
    x[..i] + x[j..]
  }

  lemma Straddles(u: string, seps: string, z: string, w: string)
    requires EndsNumber(u) && seps != [] && Separators(seps) && z != [] && IsAlpha(z[0]) && w == seps + z
    ensures CmpSegments(u + z, u) == Less && CmpSegments(u, u + w) == Less && CmpSegments(u + z, u + w) == Equal
  {
    assert u + [] == u && w[0] == seps[0];
    SameStart(u, z, []);
    SameStart(u, [], w);
    SameStart(u, z, w);
    ApartTies(seps, z);
  }

  /**
   A stray letter breaks transitivity: closing the gap before it leaves the version equal,
   yet what stands before the gap lies strictly between the two.
   */
  lemma StrayBreaks(x: string, i: nat, j: nat)
    requires Stray(x, false, i, j)
    ensures CmpSegments(Closed(x, i, j), Before(x, i)) == Less
    ensures CmpSegments(Before(x, i), x) == Less
    ensures CmpSegments(Closed(x, i, j), x) == Equal
  {
    var u, seps, z := x[..i], x[i..j], x[j..];
    AtStray(x, i, j, u, seps, z);
    Straddles(u, seps, z, seps + z);
  }

  // ---- A stray letter breaks it among versions that have none ----

  /** The first letter that strays has none before it. */
  lemma {:induction false} FirstStray(x: string, i: nat, j: nat) returns (i': nat, j': nat)
    requires Stray(x, false, i, j)
    ensures Stray(x, false, i', j') && NoStray(x[..i'])
    decreases j
  {
    i', j' := i, j;
    if !NoStray(x[..i]) {
      var k: nat, l: nat :| Stray(x[..i], false, k, l);
      StrayOfPrefix(x, i, k, l);
      i', j' := FirstStray(x, k, l);
    }
  }

  lemma StrayOfPrefix(x: string, n: nat, i: nat, j: nat)
    requires n <= |x| && Stray(x[..n], false, i, j)
    ensures Stray(x, false, i, j) && j < n
  {
    forall k | i <= k < j ensures !IsAlnum(x[k]) {
      assert x[..n][k] == x[k];
    }
  }

  predicate Letters(s: string) { forall k :: 0 <= k < |s| ==> IsAlpha(s[k]) }

  /** Letters put straight behind a digit, or at the start, do not stray. */
  lemma AttachedStaysTidy(u: string, run: string)
    requires NoStray(u) && EndsNumber(u) && Letters(run)
    ensures NoStray(u + run)
  {
    var x := u + run;
    forall i: nat, j: nat ensures !Stray(x, false, i, j) {
      if Stray(x, false, i, j) {
        if j < |u| {
          StrayInPrefix(u, run, i, j);
        } else {
          assert x[j - 1] == if j == |u| then u[j - 1] else run[j - 1 - |u|];
          assert IsAlnum(x[j - 1]);
        }
      }
    }
  }

  lemma StrayInPrefix(u: string, s: string, i: nat, j: nat)
    requires Stray(u + s, false, i, j) && j < |u|
    ensures Stray(u, false, i, j)
  {
    forall k | i <= k < j ensures !IsAlnum(u[k]) {
      assert (u + s)[k] == u[k];
    }
  }

  lemma {:induction false} RunOfLetters(run: string, rest: string)
    requires Letters(run) && (rest == [] || !IsAlpha(rest[0]))
    ensures Run(run + rest, false) == |run|
  {
    if run == [] {
      assert run + rest == rest;
    } else {
      assert (run + rest)[1..] == run[1..] + rest;
      RunOfLetters(run[1..], rest);
    }
  }

  lemma {:induction false} LongerRun(run: string, c: char)
    ensures Lexical(run + [c], run) == Greater
  {
    if run != [] {
      assert (run + [c])[1..] == run[1..] + [c];
      LongerRun(run[1..], c);
    }
  }

  /** A longer run of letters is greater, separators before the other one or not. */
  lemma LongerRunDecides(run: string, seps: string, rest: string)
    requires run != [] && Letters(run) && (rest == [] || !IsAlpha(rest[0]))
    requires forall k :: 0 <= k < |seps| ==> !IsAlnum(seps[k])
    ensures CmpSegments(run + ['a'], seps + (run + rest)) == Greater
  {
    var x, y := run + ['a'], run + rest;
    assert x[0] == run[0] == y[0];
    SkipOver(seps, y);
    assert SkipSeparators(x) == x;
    RunOfLetters(run + ['a'], []);
    assert run + ['a'] + [] == x;
    RunOfLetters(run, rest);
    RunTurn(x, seps + y, false);
    assert x[..|x|] == x && y[..|run|] == run;
    LongerRun(run, 'a');
  }

  /** The letters a version begins with. */
  function FirstRun(z: string): (run: string)
    ensures Letters(run) && |run| <= |z| && z == run + z[|run|..]
    ensures |run| < |z| ==> !IsAlpha(z[|run|])
  {
    z[..Run(z, false)]
  }

  /** The version up to the gap, with the stray run attached there and one letter longer. */
  function Grown(x: string, i: nat, j: nat): string
    requires i <= j <= |x|
  {
    x[..i] + (FirstRun(x[j..]) + ['a'])
  }

  lemma GrownTidy(x: string, i: nat, j: nat)
    requires Stray(x, false, i, j) && NoStray(x[..i])
    ensures NoStray(Grown(x, i, j)) && NoStray(Before(x, i))
  {
    AttachedStaysTidy(x[..i], FirstRun(x[j..]) + ['a']);
  }

  predicate Separators(s: string) { forall k :: 0 <= k < |s| ==> !IsAlnum(s[k]) }

  /** A run attached is below the bare start; one letter longer, it is above the same run apart. */
  lemma AttachedAgainst(u: string, seps: string, run: string, rest: string)
    requires EndsNumber(u) && seps != [] && Separators(seps)
    requires run != [] && Letters(run) && (rest == [] || !IsAlpha(rest[0]))
    ensures CmpSegments(u + (run + ['a']), u) == Less
    ensures CmpSegments(u + (run + ['a']), u + (seps + (run + rest))) == Greater
  {
    var s, t := run + ['a'], seps + (run + rest);
    assert s[0] == run[0] && t[0] == seps[0] && u + [] == u;
    SameStart(u, s, []);
    SameStart(u, s, t);
    LongerRunDecides(run, seps, rest);
  }

  lemma ThreeParts(x: string, i: nat, j: nat)
    requires i <= j <= |x|
    ensures x == x[..i] + (x[i..j] + x[j..])
  {
  }

  /** A stray letter's version, cut at its gap. */
  lemma AtStray(x: string, i: nat, j: nat, u: string, seps: string, z: string)
    requires Stray(x, false, i, j) && u == x[..i] && seps == x[i..j] && z == x[j..]
    ensures x == u + (seps + z) && EndsNumber(u) && seps != [] && Separators(seps)
    ensures z != [] && IsAlpha(z[0]) && FirstRun(z) != []
  {
    ThreeParts(x, i, j);
  }

  /** Both neighbours are free of stray letters, yet no order has the three. */
  lemma TidyNeighboursBreak(x: string, i: nat, j: nat)
    requires Stray(x, false, i, j)
    ensures CmpSegments(Grown(x, i, j), Before(x, i)) == Less
    ensures CmpSegments(Before(x, i), x) == Less
    ensures CmpSegments(Grown(x, i, j), x) == Greater
  {
    var u, seps, z := x[..i], x[i..j], x[j..];
    AtStray(x, i, j, u, seps, z);
    StrayBreaks(x, i, j);
    var run := FirstRun(z);
    AttachedAgainst(u, seps, run, z[|run|..]);
  }

  // ---- Whole versions ----

  /** What splitting gives: a numeric epoch, and no dash where one would have split further. */
  predicate WellSplit(v: Version) {
    && v.epoch != [] && Digits(v.epoch)
    && (if v.rel.Some? then '-' !in v.rel.value else '-' !in v.ver)
  }

  lemma SplitsWell(v: string)
    ensures WellSplit(Split(v))
  {
  }

  function Join(v: Version): string {
    v.epoch + ":" + (if v.rel.Some? then v.ver + "-" + v.rel.value else v.ver)
  }

  lemma SplitJoin(v: Version)
    requires WellSplit(v)
    ensures Split(Join(v)) == v
  {
    if v.rel.Some? {
      SplitAt(v.epoch, v.ver, v.rel.value);
    } else {
      FindAt(v.epoch, ':', v.ver);
      var s := v.epoch + ":" + v.ver;
      assert s[..|v.epoch|] == v.epoch && s[|v.epoch| + 1..] == v.ver;
    }
  }

  lemma EpochSplits(e: string, v: string)
    requires e != [] && Digits(e) && ':' !in v
    ensures Split(v).epoch == "0" && Split(e + ":" + v) == Split(v).(epoch := e)
  {
    FindAt(e, ':', v);
    var s := e + ":" + v;
    assert s[..|e|] == e && s[|e| + 1..] == v;
  }

  /** A version without an epoch is at epoch zero, and a greater epoch beats all the rest. */
  lemma NoEpochIsZero(e: string, v: string)
    requires e != [] && Digits(e) && ':' !in v
    ensures Vercmp.Vercmp(e + ":" + v, v) == Compare(Value(e), 0)
  {
    EpochSplits(e, v);
    var x := Split(v);
    NumericIsValue(e, "0");
    assert Value("0") == 0;
    SegmentsFlip(x.ver, x.ver);
    if x.rel.Some? { SegmentsFlip(x.rel.value, x.rel.value); }
  }

  /** A version with a release and no stray letter. */
  ghost predicate Ordered(v: Version) {
    v.rel.Some? && NoStray(v.ver) && NoStray(v.rel.value)
  }

  lemma EpochChains(a: string, b: string, c: string)
    requires Digits(a) && Digits(b) && Digits(c)
    ensures Chains(CmpNumeric(a, b), CmpNumeric(b, c), CmpNumeric(a, c))
  {
    NumericIsValue(a, b);
    NumericIsValue(b, c);
    NumericIsValue(a, c);
  }

  function CmpReleases(a: Option<string>, b: Option<string>): Ordering {
    if a.Some? && b.Some? then CmpSegments(a.value, b.value) else Equal
  }

  lemma VersionsChain(a: Version, b: Version, c: Version)
    requires Digits(a.epoch) && Digits(b.epoch) && Digits(c.epoch)
    requires NoStray(a.ver) && NoStray(b.ver) && NoStray(c.ver)
    requires Chains(CmpReleases(a.rel, b.rel), CmpReleases(b.rel, c.rel), CmpReleases(a.rel, c.rel))
    ensures Chains(CmpVersions(a, b), CmpVersions(b, c), CmpVersions(a, c))
  {
    EpochChains(a.epoch, b.epoch, c.epoch);
    SegmentsChain(a.ver, b.ver, c.ver);
    ChainsThen(CmpNumeric(a.epoch, b.epoch), CmpNumeric(b.epoch, c.epoch), CmpNumeric(a.epoch, c.epoch),
               CmpSegments(a.ver, b.ver), CmpSegments(b.ver, c.ver), CmpSegments(a.ver, c.ver));
    ChainsThen(CmpNumeric(a.epoch, b.epoch).Then(CmpSegments(a.ver, b.ver)),
               CmpNumeric(b.epoch, c.epoch).Then(CmpSegments(b.ver, c.ver)),
               CmpNumeric(a.epoch, c.epoch).Then(CmpSegments(a.ver, c.ver)),
               CmpReleases(a.rel, b.rel), CmpReleases(b.rel, c.rel), CmpReleases(a.rel, c.rel));
  }

  /** On versions with a release and without stray letters, the comparison is an order. */
  lemma Transitive(a: string, b: string, c: string)
    requires Ordered(Split(a)) && Ordered(Split(b)) && Ordered(Split(c))
    ensures Chains(Vercmp.Vercmp(a, b), Vercmp.Vercmp(b, c), Vercmp.Vercmp(a, c))
  {
    SplitsWell(a);
    SplitsWell(b);
    SplitsWell(c);
    SegmentsChain(Split(a).rel.value, Split(b).rel.value, Split(c).rel.value);
    VersionsChain(Split(a), Split(b), Split(c));
  }

  /** And so it is on versions that all have none. */
  lemma TransitiveWithoutReleases(a: string, b: string, c: string)
    requires Split(a).rel == Split(b).rel == Split(c).rel == None
    requires NoStray(Split(a).ver) && NoStray(Split(b).ver) && NoStray(Split(c).ver)
    ensures Chains(Vercmp.Vercmp(a, b), Vercmp.Vercmp(b, c), Vercmp.Vercmp(a, c))
  {
    SplitsWell(a);
    SplitsWell(b);
    SplitsWell(c);
    VersionsChain(Split(a), Split(b), Split(c));
  }

  // ---- Every other version breaks it ----

  /** `v` and the two others are no part of any order. */
  predicate Breaks(u: string, v: string, w: string) {
    !Chains(Vercmp.Vercmp(u, v), Vercmp.Vercmp(v, w), Vercmp.Vercmp(u, w))
  }

  lemma SameBut(v: Version, w: Version)
    requires v.epoch == w.epoch
    ensures CmpVersions(v, w) == CmpSegments(v.ver, w.ver).Then(CmpReleases(v.rel, w.rel))
  {
    NumericFlips(v.epoch, v.epoch);
  }

  /** `v` as another version or another release of it. */
  function WithVersion(v: string, ver: string): string {
    Join(Split(v).(ver := ver, rel := Some("1")))
  }

  function WithRelease(v: string, rel: string): string {
    Join(Split(v).(rel := Some(rel)))
  }

  lemma OneIsTidy()
    ensures NoStray("1") && NoStray("2")
  {
  }

  lemma WithVersionIs(v: string, ver: string)
    ensures Split(WithVersion(v, ver)) == Split(v).(ver := ver, rel := Some("1"))
    ensures NoStray(ver) ==> Ordered(Split(WithVersion(v, ver)))
  {
    SplitsWell(v);
    SplitJoin(Split(v).(ver := ver, rel := Some("1")));
    OneIsTidy();
  }

  lemma WithReleaseIs(v: string, rel: string)
    requires '-' !in rel
    ensures Split(WithRelease(v, rel)) == Split(v).(rel := Some(rel))
    ensures NoStray(Split(v).ver) && NoStray(rel) ==> Ordered(Split(WithRelease(v, rel)))
  {
    SplitsWell(v);
    SplitJoin(Split(v).(rel := Some(rel)));
  }

  /** Where the version parts differ, the releases do not matter. */
  lemma VersionDecides(u: string, w: string)
    requires Split(u).epoch == Split(w).epoch && CmpSegments(Split(u).ver, Split(w).ver) != Equal
    ensures Vercmp.Vercmp(u, w) == CmpSegments(Split(u).ver, Split(w).ver)
  {
    SameBut(Split(u), Split(w));
  }

  lemma ReleaseDecides(u: string, w: string)
    requires Split(u).epoch == Split(w).epoch && Split(u).ver == Split(w).ver
    ensures Vercmp.Vercmp(u, w) == CmpReleases(Split(u).rel, Split(w).rel)
  {
    SameBut(Split(u), Split(w));
    SegmentsFlip(Split(u).ver, Split(u).ver);
  }

  lemma StrayVersionBreaks(v: string, i: nat, j: nat)
    requires Stray(Split(v).ver, false, i, j)
    ensures Breaks(WithVersion(v, Grown(Split(v).ver, i, j)), WithVersion(v, Before(Split(v).ver, i)), v)
  {
    var x := Split(v).ver;
    var u, w := WithVersion(v, Grown(x, i, j)), WithVersion(v, Before(x, i));
    WithVersionIs(v, Grown(x, i, j));
    WithVersionIs(v, Before(x, i));
    TidyNeighboursBreak(x, i, j);
    VersionDecides(u, w);
    VersionDecides(w, v);
    VersionDecides(u, v);
  }

  lemma StrayReleaseBreaks(v: string, i: nat, j: nat)
    requires Split(v).rel.Some? && Stray(Split(v).rel.value, false, i, j)
    ensures '-' !in Grown(Split(v).rel.value, i, j) && '-' !in Before(Split(v).rel.value, i)
    ensures Breaks(WithRelease(v, Grown(Split(v).rel.value, i, j)), WithRelease(v, Before(Split(v).rel.value, i)), v)
  {
    SplitsWell(v);
    var x := Split(v).rel.value;
    var u, w := WithRelease(v, Grown(x, i, j)), WithRelease(v, Before(x, i));
    WithReleaseIs(v, Grown(x, i, j));
    WithReleaseIs(v, Before(x, i));
    TidyNeighboursBreak(x, i, j);
    ReleaseDecides(u, w);
    ReleaseDecides(w, v);
    ReleaseDecides(u, v);
  }

  lemma OneBeforeTwo()
    ensures CmpSegments("1", "2") == Less
  {
    assert "1"[..1] == "1" && "2"[..1] == "2" && Run("1", true) == 1 && Run("2", true) == 1;
    assert TrimZeros("1") == "1" && TrimZeros("2") == "2";
    assert CmpNumeric("1", "2") == Less;
  }

  /** A version without a release equals every release of it. */
  lemma MissingReleaseTies(v: string, rel: string)
    requires Split(v).rel.None? && '-' !in rel
    ensures Vercmp.Vercmp(v, WithRelease(v, rel)) == Equal && Vercmp.Vercmp(WithRelease(v, rel), v) == Equal
  {
    WithReleaseIs(v, rel);
    ReleaseDecides(v, WithRelease(v, rel));
    ReleaseDecides(WithRelease(v, rel), v);
  }

  /** And so two releases that differ. */
  lemma MissingReleaseBreaks(v: string)
    requires Split(v).rel.None?
    ensures Vercmp.Vercmp(WithRelease(v, "2"), v) == Equal && Vercmp.Vercmp(v, WithRelease(v, "1")) == Equal
    ensures Vercmp.Vercmp(WithRelease(v, "2"), WithRelease(v, "1")) == Greater
    ensures Breaks(WithRelease(v, "2"), v, WithRelease(v, "1"))
  {
    MissingReleaseTies(v, "1");
    MissingReleaseTies(v, "2");
    WithReleaseIs(v, "1");
    WithReleaseIs(v, "2");
    ReleaseDecides(WithRelease(v, "2"), WithRelease(v, "1"));
    OneBeforeTwo();
    SegmentsFlip("1", "2");
  }

  // ---- The ordered versions are a greatest set on which the comparison is an order ----

  /** Together with any two ordered versions, `v` is in order wherever it stands among them. */
  ghost predicate Fits(v: string) {
    forall u, w :: Ordered(Split(u)) && Ordered(Split(w)) ==>
      !Breaks(v, u, w) && !Breaks(u, v, w) && !Breaks(u, w, v)
  }

  lemma StrayVersionUnfit(v: string)
    requires !NoStray(Split(v).ver)
    ensures !Fits(v)
  {
    var x := Split(v).ver;
    var i: nat, j: nat :| Stray(x, false, i, j);
    i, j := FirstStray(x, i, j);
    GrownTidy(x, i, j);
    WithVersionIs(v, Grown(x, i, j));
    WithVersionIs(v, Before(x, i));
    StrayVersionBreaks(v, i, j);
  }

  lemma StrayReleaseUnfit(v: string)
    requires Split(v).rel.Some? && NoStray(Split(v).ver) && !NoStray(Split(v).rel.value)
    ensures !Fits(v)
  {
    var x := Split(v).rel.value;
    var i: nat, j: nat :| Stray(x, false, i, j);
    i, j := FirstStray(x, i, j);
    GrownTidy(x, i, j);
    StrayReleaseBreaks(v, i, j);
    WithReleaseIs(v, Grown(x, i, j));
    WithReleaseIs(v, Before(x, i));
  }

  lemma MissingReleaseUnfit(v: string)
    requires Split(v).rel.None? && NoStray(Split(v).ver)
    ensures !Fits(v)
  {
    OneIsTidy();
    WithReleaseIs(v, "1");
    WithReleaseIs(v, "2");
    MissingReleaseBreaks(v);
  }

  /**
   The condition is exact: a version keeps the order with all ordered versions if and only
   if it is one of them.
   */
  lemma FitsExactly(v: string)
    ensures Fits(v) <==> Ordered(Split(v))
  {
    if Ordered(Split(v)) {
      forall u, w | Ordered(Split(u)) && Ordered(Split(w))
        ensures !Breaks(v, u, w) && !Breaks(u, v, w) && !Breaks(u, w, v)
      {
        Transitive(v, u, w);
        Transitive(u, v, w);
        Transitive(u, w, v);
      }
    } else if !NoStray(Split(v).ver) {
      StrayVersionUnfit(v);
    } else if Split(v).rel.None? {
      MissingReleaseUnfit(v);
    } else {
      StrayReleaseUnfit(v);
    }
  }

  /** So every other version breaks transitivity with some two ordered ones. */
  lemma OthersBreak(v: string)
    requires !Ordered(Split(v))
    ensures exists u, w ::
      && Ordered(Split(u)) && Ordered(Split(w))
      && (Breaks(v, u, w) || Breaks(u, v, w) || Breaks(u, w, v))
  {
    FitsExactly(v);
  }
}
