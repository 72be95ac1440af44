/** Version ordering: `[epoch:]pkgver[-pkgrel]`, compared run by run. */
module Vercmp {
  import opened Strings
  import opened Wrappers

  datatype Ordering = Less | Equal | Greater {
    function Flip(): Ordering {
      match this
      case Less => Greater
      case Equal => Equal
      case Greater => Less
    }

    function Then(next: Ordering): Ordering { if this == Equal then next else this }
  }

  function Compare(a: int, b: int): Ordering {
    if a < b then Less else if a == b then Equal else Greater
  }

  predicate IsDigit(c: char) { '0' <= c <= '9' }

  predicate IsAlpha(c: char) { 'a' <= c <= 'z' || 'A' <= c <= 'Z' }

  predicate IsAlnum(c: char) { IsDigit(c) || IsAlpha(c) }

  predicate Digits(s: string) { forall i :: 0 <= i < |s| ==> IsDigit(s[i]) }

  // ---- The pieces ----

  function TrimZeros(s: string): string {
    if s != [] && s[0] == '0' then TrimZeros(s[1..]) else s
  }

  method TrimZerosLoop(s: string) returns (t: string)
    ensures t == TrimZeros(s)
    ensures t == [] || t[0] != '0'
  {
    t := s;
    while t != [] && t[0] == '0'
      invariant TrimZeros(t) == TrimZeros(s)
      decreases |t|
    {
      t := t[1..];
    }
  }

  /** Lexicographic order of slices: the first difference decides, then length. */
  function Lexical(a: string, b: string): Ordering {
    if a == [] || b == [] then Compare(|a|, |b|)
    else Compare(a[0] as int, b[0] as int).Then(Lexical(a[1..], b[1..]))
  }

  function CmpNumeric(a: string, b: string): Ordering {
    var x, y := TrimZeros(a), TrimZeros(b);
    Compare(|x|, |y|).Then(Lexical(x, y))
  }

  /** Length of the leading run of digits, or of letters. */
  function Run(s: string, digits: bool): (n: nat)
    ensures n <= |s|
    ensures forall i :: 0 <= i < n ==> if digits then IsDigit(s[i]) else IsAlpha(s[i])
    ensures n < |s| ==> !(if digits then IsDigit(s[n]) else IsAlpha(s[n]))
  {
    if s != [] && (if digits then IsDigit(s[0]) else IsAlpha(s[0])) then 1 + Run(s[1..], digits) else 0
  }

  function SkipSeparators(s: string): (t: string)
    ensures |t| <= |s| && (t != [] ==> IsAlnum(t[0]))
  {
    if s != [] && !IsAlnum(s[0]) then SkipSeparators(s[1..]) else s
  }

  /** One side is exhausted: an attached letter ages its version, anything else advances it. */
  function Showdown(x: string, y: string): Ordering
    requires x == [] || y == []
  {
    if x == [] && y == [] then Equal
    else if y == [] then if IsAlpha(x[0]) then Less else Greater
    else if IsAlpha(y[0]) then Greater
    else Less
  }

  function CmpSegments(x: string, y: string): Ordering
    decreases |x|
  {
    var x', y' := SkipSeparators(x), SkipSeparators(y);
    if x == [] || y == [] then Showdown(x, y)
    else if x' == [] || y' == [] then Showdown(x', y')
    else if IsDigit(x'[0]) != IsDigit(y'[0]) then if IsDigit(x'[0]) then Greater else Less
    else
      var digits := IsDigit(x'[0]);
      var m, n := Run(x', digits), Run(y', digits);
      var ord := if digits then CmpNumeric(x'[..m], y'[..n]) else Lexical(x'[..m], y'[..n]);
      ord.Then(CmpSegments(x'[m..], y'[n..]))
  }

  method SkipLoop(s: string) returns (t: string)
    ensures t == SkipSeparators(s)
  {
    t := s;
    while t != [] && !IsAlnum(t[0])
      invariant SkipSeparators(t) == SkipSeparators(s)
      decreases |t|
    {
      t := t[1..];
    }
  }

  /** The comparison loop; it leaves with one side exhausted, so both leftovers at once cannot happen. */
  method CmpSegmentsLoop(a: string, b: string) returns (r: Ordering)
    ensures r == CmpSegments(a, b)
  {
    var x, y := a, b;
    while x != [] && y != []
      invariant CmpSegments(x, y) == CmpSegments(a, b)
      decreases |x|
    {
      var x' := SkipLoop(x);
      var y' := SkipLoop(y);
      if x' == [] || y' == [] {
        return Showdown(x', y');
      }
      var digits := IsDigit(x'[0]);
      if digits != IsDigit(y'[0]) {
        return if digits then Greater else Less;
      }
      var m, n := Run(x', digits), Run(y', digits);
      var ord := if digits then CmpNumeric(x'[..m], y'[..n]) else Lexical(x'[..m], y'[..n]);
      if ord != Equal {
        return ord;
      }
      x, y := x'[m..], y'[n..];
    }
    r := Showdown(x, y);
  }

  // ---- Splitting ----

  /** One past the last occurrence, or zero. */
  function AfterLast(s: string, c: char): (i: nat)
    ensures i <= |s| && (i > 0 ==> s[i - 1] == c) && forall j :: i <= j < |s| ==> s[j] != c
  {
    if s == [] then 0 else if s[|s| - 1] == c then |s| else AfterLast(s[..|s| - 1], c)
  }

  datatype Version = Version(epoch: string, ver: string, rel: Option<string>)

  function Split(v: string): Version {
    var i := Find(v, ':');
    var (epoch, rest) := if 0 < i < |v| && Digits(v[..i]) then (v[..i], v[i + 1..]) else ("0", v);
    var j := AfterLast(rest, '-');
    if j > 0 then Version(epoch, rest[..j - 1], Some(rest[j..])) else Version(epoch, rest, None)
  }

  function CmpVersions(a: Version, b: Version): Ordering {
    CmpNumeric(a.epoch, b.epoch)
      .Then(CmpSegments(a.ver, b.ver))
      .Then(if a.rel.Some? && b.rel.Some? then CmpSegments(a.rel.value, b.rel.value) else Equal)
  }

  function Vercmp(a: string, b: string): Ordering { CmpVersions(Split(a), Split(b)) }

  // ---- Antisymmetry and reflexivity, on all strings ----

  lemma {:induction false} LexicalFlips(a: string, b: string)
    ensures Lexical(b, a) == Lexical(a, b).Flip()
  {
    if a != [] && b != [] {
      LexicalFlips(a[1..], b[1..]);
    }
  }

  lemma NumericFlips(a: string, b: string)
    ensures CmpNumeric(b, a) == CmpNumeric(a, b).Flip()
  {
    LexicalFlips(TrimZeros(a), TrimZeros(b));
  }

  lemma {:induction false} SegmentsFlip(x: string, y: string)
    ensures CmpSegments(y, x) == CmpSegments(x, y).Flip()
    decreases |x|
  {
    var x', y' := SkipSeparators(x), SkipSeparators(y);
    if x != [] && y != [] && x' != [] && y' != [] && IsDigit(x'[0]) == IsDigit(y'[0]) {
      var digits := IsDigit(x'[0]);
      var m, n := Run(x', digits), Run(y', digits);
      NumericFlips(x'[..m], y'[..n]);
      LexicalFlips(x'[..m], y'[..n]);
      SegmentsFlip(x'[m..], y'[n..]);
    }
  }

  lemma Antisymmetric(a: string, b: string)
    ensures Vercmp(b, a) == Vercmp(a, b).Flip()
  {
    var u, v := Split(a), Split(b);
    NumericFlips(u.epoch, v.epoch);
    SegmentsFlip(u.ver, v.ver);
    if u.rel.Some? && v.rel.Some? {
      SegmentsFlip(u.rel.value, v.rel.value);
    }
  }

  lemma Reflexive(a: string)
    ensures Vercmp(a, a) == Equal
  {
    Antisymmetric(a, a);
  }

  // ---- Runs of digits are numbers ----

  function DigitOf(c: char): (d: nat)
    requires IsDigit(c)
    ensures d == 0 <==> c == '0'
  {
    c as int - '0' as int
  }

  function Value(s: string): nat
    requires Digits(s)
  {
    if s == [] then 0 else Value(s[..|s| - 1]) * 10 + DigitOf(s[|s| - 1])
  }

  function Pow10(n: nat): (r: nat)
    ensures r >= 1
  {
    if n == 0 then 1 else 10 * Pow10(n - 1)
  }

  /** Reading from the front: the first digit counts for a power of ten. */
  lemma {:induction false} ValueFront(s: string)
    requires Digits(s) && s != []
    ensures Value(s) == DigitOf(s[0]) * Pow10(|s| - 1) + Value(s[1..])
  {
    if |s| == 1 {
      assert s[..0] == [] && s[1..] == [];
    } else {
      var t := s[..|s| - 1];
      ValueFront(t);
      assert s[1..][..|s| - 2] == t[1..];
      assert Value(s[1..]) == Value(t[1..]) * 10 + DigitOf(s[|s| - 1]);
      ShiftDigit(DigitOf(s[0]), Pow10(|s| - 2), Value(t[1..]));
    }
  }

  lemma ShiftDigit(d: nat, p: nat, v: nat)
    ensures (d * p + v) * 10 == d * (10 * p) + v * 10
  {
  }

  lemma {:induction false} ValueBound(s: string)
    requires Digits(s)
    ensures Value(s) < Pow10(|s|)
  {
    if s != [] {
      ValueBound(s[..|s| - 1]);
    }
  }

  lemma {:induction false} TrimKeepsValue(s: string)
    requires Digits(s)
    ensures Digits(TrimZeros(s)) && Value(TrimZeros(s)) == Value(s)
    ensures TrimZeros(s) == [] || TrimZeros(s)[0] != '0'
  {
    if s != [] && s[0] == '0' {
      ValueFront(s);
      TrimKeepsValue(s[1..]);
    }
  }

  lemma {:induction false} LexicalIsValue(a: string, b: string)
    requires Digits(a) && Digits(b) && |a| == |b|
    ensures Lexical(a, b) == Compare(Value(a), Value(b))
  {
    if a != [] {
      ValueFront(a);
      ValueFront(b);
      ValueBound(a[1..]);
      ValueBound(b[1..]);
      LexicalIsValue(a[1..], b[1..]);
      FirstDigitDecides(DigitOf(a[0]), DigitOf(b[0]), Pow10(|a| - 1), Value(a[1..]), Value(b[1..]));
    }
  }

  lemma FirstDigitDecides(d: nat, e: nat, p: nat, u: nat, v: nat)
    requires u < p && v < p
    ensures d < e ==> d * p + u < e * p + v
    ensures e < d ==> e * p + v < d * p + u
  {
    if d < e {
      assert (d + 1) * p <= e * p;
    } else if e < d {
      assert (e + 1) * p <= d * p;
    }
  }

  lemma LongerIsGreater(a: string, b: string)
    requires Digits(a) && Digits(b) && |a| < |b| && b[0] != '0'
    ensures Value(a) < Value(b)
  {
    ValueFront(b);
    ValueBound(a);
    Pow10Grows(|a|, |b| - 1);
    FirstDigitDecides(0, DigitOf(b[0]), Pow10(|b| - 1), Pow10(|b| - 1) - 1, 0);
  }

  lemma {:induction false} Pow10Grows(m: nat, n: nat)
    requires m <= n
    ensures Pow10(m) <= Pow10(n)
    decreases n
  {
    if m < n {
      Pow10Grows(m, n - 1);
    }
  }

  /** Digit runs of any length, leading zeros and all, compare as the numbers they write. */
  lemma NumericIsValue(a: string, b: string)
    requires Digits(a) && Digits(b)
    ensures CmpNumeric(a, b) == Compare(Value(a), Value(b))
  {
    var x, y := TrimZeros(a), TrimZeros(b);
    TrimKeepsValue(a);
    TrimKeepsValue(b);
    if |x| == |y| {
      LexicalIsValue(x, y);
    } else if |x| < |y| {
      LongerIsGreater(x, y);
    } else {
      LongerIsGreater(y, x);
    }
  }

  // ---- Dotted-numeric versions ----

  predicate Parts(p: seq<string>) {
    forall i :: 0 <= i < |p| ==> p[i] != [] && Digits(p[i])
  }

  function Dotted(p: seq<string>): string {
    if p == [] then [] else p[0] + Rest(p[1..])
  }

  function Rest(p: seq<string>): string {
    if p == [] then [] else "." + p[0] + Rest(p[1..])
  }

  function Values(p: seq<string>): (v: seq<nat>)
    requires Parts(p)
    ensures |v| == |p|
  {
    if p == [] then [] else [Value(p[0])] + Values(p[1..])
  }

  /** Lexicographic order of lists of numbers; a proper prefix is smaller. */
  function CmpLists(a: seq<nat>, b: seq<nat>): Ordering {
    if a == [] || b == [] then Compare(|a|, |b|)
    else Compare(a[0], b[0]).Then(CmpLists(a[1..], b[1..]))
  }

  lemma {:induction false} RunOfPart(part: string, rest: string)
    requires Digits(part) && (rest == [] || !IsDigit(rest[0]))
    ensures Run(part + rest, true) == |part|
  {
    if part == [] {
      assert part + rest == rest;
    } else {
      assert (part + rest)[1..] == part[1..] + rest;
      RunOfPart(part[1..], rest);
    }
  }

  /** One turn of the loop on two runs of digits. */
  lemma DigitTurn(x: string, y: string)
    requires x != [] && y != [] && IsDigit(x[0]) && IsDigit(y[0])
    ensures var (m, n) := (Run(x, true), Run(y, true));
            CmpSegments(x, y) == CmpNumeric(x[..m], y[..n]).Then(CmpSegments(x[m..], y[n..]))
  {
  }

  /** One turn of the loop on two numeric components. */
  lemma OneComponent(p: string, u: string, q: string, v: string)
    requires p != [] && q != [] && Digits(p) && Digits(q)
    requires (u == [] || !IsDigit(u[0])) && (v == [] || !IsDigit(v[0]))
    ensures CmpSegments(p + u, q + v) == Compare(Value(p), Value(q)).Then(CmpSegments(u, v))
  {
    var x, y := p + u, q + v;
    assert x[0] == p[0] && y[0] == q[0];
    RunOfPart(p, u);
    RunOfPart(q, v);
    DigitTurn(x, y);
    assert x[..|p|] == p && x[|p|..] == u && y[..|q|] == q && y[|q|..] == v;
    NumericIsValue(p, q);
  }

  /** A separator before both sides changes nothing. */
  lemma Separated(x: string, y: string)
    requires x != [] && y != [] && IsAlnum(x[0]) && IsAlnum(y[0])
    ensures CmpSegments("." + x, "." + y) == CmpSegments(x, y)
  {
    assert ("." + x)[1..] == x && ("." + y)[1..] == y;
    assert SkipSeparators("." + x) == x && SkipSeparators("." + y) == y;
  }

  lemma RestTurn(p: string, u: string, q: string, v: string)
    requires p != [] && q != [] && Digits(p) && Digits(q)
    requires (u == [] || !IsDigit(u[0])) && (v == [] || !IsDigit(v[0]))
    ensures CmpSegments("." + (p + u), "." + (q + v)) == Compare(Value(p), Value(q)).Then(CmpSegments(u, v))
  {
    assert (p + u)[0] == p[0] && (q + v)[0] == q[0];
    Separated(p + u, q + v);
    OneComponent(p, u, q, v);
  }

  lemma RestShape(p: seq<string>)
    requires p != []
    ensures Rest(p) == "." + (p[0] + Rest(p[1..])) && Rest(p)[0] == '.'
  {
    Joins(".", p[0], Rest(p[1..]));
  }

  lemma {:induction false} RestIsLists(p: seq<string>, q: seq<string>)
    requires Parts(p) && Parts(q)
    ensures CmpSegments(Rest(p), Rest(q)) == CmpLists(Values(p), Values(q))
  {
    if p != [] && q != [] {
      RestShape(p);
      RestShape(q);
      RestTurn(p[0], Rest(p[1..]), q[0], Rest(q[1..]));
      RestIsLists(p[1..], q[1..]);
    }
  }

  /** On dotted-numeric versions the comparison is exactly the lexicographic order of the numbers. */
  lemma DottedIsLists(p: seq<string>, q: seq<string>)
    requires Parts(p) && Parts(q)
    ensures CmpSegments(Dotted(p), Dotted(q)) == CmpLists(Values(p), Values(q))
  {
    if p != [] && q != [] {
      OneComponent(p[0], Rest(p[1..]), q[0], Rest(q[1..]));
      RestIsLists(p[1..], q[1..]);
    }
  }

  // ---- Whole versions ----

  /** `epoch:1.2.3-4.5`, all numeric. */
  function Written(epoch: string, p: seq<string>, r: seq<string>): string {
    epoch + ":" + (Dotted(p) + "-" + Dotted(r))
  }

  lemma {:induction false} RestPlain(p: seq<string>)
    requires Parts(p)
    ensures '-' !in Rest(p) && ':' !in Rest(p)
  {
    if p != [] {
      RestPlain(p[1..]);
    }
  }

  lemma DottedPlain(p: seq<string>)
    requires Parts(p)
    ensures '-' !in Dotted(p) && ':' !in Dotted(p)
  {
    if p != [] {
      RestPlain(p[1..]);
    }
  }

  lemma FindAt(a: string, c: char, b: string)
    requires c !in a
    ensures Find(a + [c] + b, c) == |a|
  {
    var s := a + [c] + b;
    assert s[|a|] == c;
    assert forall j :: 0 <= j < |a| ==> s[j] == a[j];
  }

  lemma {:induction false} LastAt(a: string, c: char, b: string)
    requires c !in b
    ensures AfterLast(a + [c] + b, c) == |a| + 1
  {
    var s := a + [c] + b;
    if b == [] {
      assert s[|s| - 1] == c;
    } else {
      assert s[|s| - 1] == b[|b| - 1];
      assert s[..|s| - 1] == a + [c] + b[..|b| - 1];
      LastAt(a, c, b[..|b| - 1]);
    }
  }

  lemma SplitAt(epoch: string, ver: string, rel: string)
    requires epoch != [] && Digits(epoch) && '-' !in rel
    ensures Split(epoch + ":" + (ver + "-" + rel)) == Version(epoch, ver, Some(rel))
  {
    var rest := ver + "-" + rel;
    var v := epoch + ":" + rest;
    FindAt(epoch, ':', rest);
    assert v[..|epoch|] == epoch && v[|epoch| + 1..] == rest;
    LastAt(ver, '-', rel);
    assert rest[..|ver|] == ver && rest[|ver| + 1..] == rel;
  }

  /** A wholly numeric version splits back into its parts. */
  lemma SplitWritten(epoch: string, p: seq<string>, r: seq<string>)
    requires epoch != [] && Digits(epoch) && Parts(p) && Parts(r)
    ensures Split(Written(epoch, p, r)) == Version(epoch, Dotted(p), Some(Dotted(r)))
  {
    DottedPlain(r);
    SplitAt(epoch, Dotted(p), Dotted(r));
  }

  lemma ThreeOrders(a: Version, b: Version, epoch: Ordering, ver: Ordering, rel: Ordering)
    requires a.rel.Some? && b.rel.Some?
    requires CmpNumeric(a.epoch, b.epoch) == epoch && CmpSegments(a.ver, b.ver) == ver
    requires CmpSegments(a.rel.value, b.rel.value) == rel
    ensures CmpVersions(a, b) == epoch.Then(ver).Then(rel)
  {
  }

  lemma NumericOrder(a: string, b: string, e: string, p: seq<string>, r: seq<string>, e': string, p': seq<string>,
                     r': seq<string>)
    requires Digits(e) && Parts(p) && Parts(r) && Digits(e') && Parts(p') && Parts(r')
    requires Split(a) == Version(e, Dotted(p), Some(Dotted(r))) && Split(b) == Version(e', Dotted(p'), Some(Dotted(r')))
    ensures Vercmp(a, b)
            == Compare(Value(e), Value(e')).Then(CmpLists(Values(p), Values(p'))).Then(CmpLists(Values(r), Values(r')))
  {
    NumericIsValue(e, e');
    DottedIsLists(p, p');
    DottedIsLists(r, r');
    ThreeOrders(Split(a), Split(b), Compare(Value(e), Value(e')), CmpLists(Values(p), Values(p')),
        CmpLists(Values(r), Values(r')));
  }

  /** A wholly numeric version orders by epoch, then version, then release, each as numbers. */
  lemma NumericVersions(e: string, p: seq<string>, r: seq<string>, e': string, p': seq<string>, r': seq<string>)
    requires e != [] && Digits(e) && Parts(p) && Parts(r)
    requires e' != [] && Digits(e') && Parts(p') && Parts(r')
    ensures Vercmp(Written(e, p, r), Written(e', p', r'))
            == Compare(Value(e), Value(e')).Then(CmpLists(Values(p), Values(p'))).Then(CmpLists(Values(r), Values(r')))
  {
    SplitWritten(e, p, r);
    SplitWritten(e', p', r');
    NumericOrder(Written(e, p, r), Written(e', p', r'), e, p, r, e', p', r');
  }
}
