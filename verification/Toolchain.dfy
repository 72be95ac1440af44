/** The tool-name rewriter, on one line: the find loop, and what it does to the line's words. */
module Toolchain {
  import opened Strings

  predicate IsWord(c: char) {
    'a' <= c <= 'z' || 'A' <= c <= 'Z' || '0' <= c <= '9' || c == '_' || c == '-' || c == '+' || c == '.'
  }

  predicate Word(s: string) { s != [] && forall i :: 0 <= i < |s| ==> IsWord(s[i]) }

  predicate IsBlank(c: char) { c == ' ' || c == '\t' }

  predicate OpensCommand(c: char) { c == '|' || c == ';' || c == '&' || c == '(' || c == '`' }

  // ---- The find loop ----

  predicate Occurs(line: string, from: string, i: nat) {
    i + |from| <= |line| && line[i..i + |from|] == from
  }

  /** The first occurrence at or after `at`, or one past the line's length. */
  function FindFrom(line: string, from: string, at: nat): (i: nat)
    requires at <= |line|
    ensures at <= i <= |line| + 1
    ensures i <= |line| ==> i + |from| <= |line|
    decreases |line| - at
  {
    if Occurs(line, from, at) then at
    else if at == |line| then |line| + 1
    else FindFrom(line, from, at + 1)
  }

  lemma {:induction false} FindFromIs(line: string, from: string, at: nat)
    requires at <= |line|
    ensures FindFrom(line, from, at) <= |line| ==> Occurs(line, from, FindFrom(line, from, at))
    ensures forall k: nat {:trigger Occurs(line, from, k)} :: at <= k < FindFrom(line, from, at) ==>
      !Occurs(line, from, k)
    decreases |line| - at
  {
    if !Occurs(line, from, at) && at < |line| {
      FindFromIs(line, from, at + 1);
    }
  }

  function TrimBlanks(s: string): string {
    if s != [] && IsBlank(s[|s| - 1]) then TrimBlanks(s[..|s| - 1]) else s
  }

  predicate CommandLead(before: string) {
    var lead := TrimBlanks(before);
    lead == [] || OpensCommand(lead[|lead| - 1])
  }

  predicate BeforeOk(line: string, i: nat, command: bool)
    requires i <= |line|
  {
    i == 0 || (!IsWord(line[i - 1]) && (!command || CommandLead(line[..i])))
  }

  predicate AfterOk(line: string, j: nat, command: bool)
    requires j <= |line|
  {
    if j == |line| then !command else !IsWord(line[j]) && (!command || IsBlank(line[j]))
  }

  predicate Match(line: string, from: string, command: bool, i: nat) {
    Occurs(line, from, i) && BeforeOk(line, i, command) && AfterOk(line, i + |from|, command)
  }

  /** What one turn of the loop appends: the text up to an occurrence, and the occurrence or its replacement. */
  function Piece(line: string, from: string, to: string, command: bool, at: nat, p: nat): string
    requires at <= p <= |line|
  {
    line[at..p] + (if Match(line, from, command, p) then to else from)
  }

  /** What the loop appends from cursor `at` on. */
  function Replaced(line: string, from: string, to: string, command: bool, at: nat): string
    requires from != [] && at <= |line|
    decreases |line| - at
  {
    var p := FindFrom(line, from, at);
    if p > |line| then line[at..]
    else Piece(line, from, to, command, at, p) + Replaced(line, from, to, command, p + |from|)
  }

  method ReplaceTurn(line: string, from: string, to: string, command: bool, consumed: nat, out: string,
                     ghost whole: string)
    returns (consumed': nat, out': string)
    requires Done(line, from, to, command, consumed, out, whole) && FindFrom(line, from, consumed) <= |line|
    ensures Done(line, from, to, command, consumed', out', whole) && consumed' > consumed
  {
    var p := FindFrom(line, from, consumed);
    Turn(line, from, to, command, consumed, out, whole);
    out' := out + Piece(line, from, to, command, consumed, p);
    consumed' := p + |from|;
  }

  method ReplaceTool(line: string, from: string, to: string, command: bool) returns (out: string)
    requires from != []
    ensures out == Replaced(line, from, to, command, 0)
  {
    out := [];
    var consumed: nat := 0;
    ghost var whole := Replaced(line, from, to, command, consumed);
    while FindFrom(line, from, consumed) <= |line|
      invariant Done(line, from, to, command, consumed, out, whole)
      decreases |line| - consumed
    {
      consumed, out := ReplaceTurn(line, from, to, command, consumed, out, whole);
    }
    out := out + line[consumed..];
  }

  /** `out` is all of the result up to cursor `at`. */
  predicate Done(line: string, from: string, to: string, command: bool, at: nat, out: string, whole: string) {
    at <= |line| && from != [] && out + Replaced(line, from, to, command, at) == whole
  }

  lemma {:induction false} Turn(line: string, from: string, to: string, command: bool, at: nat, out: string,
                            whole: string)
    requires Done(line, from, to, command, at, out, whole) && FindFrom(line, from, at) <= |line|
    ensures var p := FindFrom(line, from, at);
            p + |from| <= |line| && Done(line, from, to, command, p + |from|,
                out + Piece(line, from, to, command, at, p), whole)
  {
    var p := FindFrom(line, from, at);
    Joins(out, Piece(line, from, to, command, at, p), Replaced(line, from, to, command, p + |from|));
  }

  /** Reading left to right, replacing every match met. */
  function Scan(line: string, from: string, to: string, command: bool, i: nat): string
    requires from != [] && i <= |line|
    decreases |line| - i
  {
    if i == |line| then []
    else if Match(line, from, command, i) then to + Scan(line, from, to, command, i + |from|)
    else [line[i]] + Scan(line, from, to, command, i + 1)
  }

  lemma ScanOver(line: string, from: string, to: string, command: bool, i: nat)
    requires from != [] && i < |line| && !Match(line, from, command, i)
    ensures Scan(line, from, to, command, i) == [line[i]] + Scan(line, from, to, command, i + 1)
  {
  }

  lemma SliceCons(line: string, i: nat, p: nat)
    requires i < p <= |line|
    ensures line[i..p] == [line[i]] + line[i + 1..p]
  {
  }

  lemma {:induction false} ScanSkips(line: string, from: string, to: string, command: bool, i: nat, p: nat)
    requires from != [] && i <= p <= |line|
    requires forall k: nat {:trigger Match(line, from, command, k)} :: i <= k < p ==> !Match(line, from, command, k)
    ensures Scan(line, from, to, command, i) == line[i..p] + Scan(line, from, to, command, p)
    decreases p - i
  {
    if i == p {
      assert line[i..p] == [];
    } else {
      ScanOver(line, from, to, command, i);
      ScanSkips(line, from, to, command, i + 1, p);
      SliceCons(line, i, p);
      Joins([line[i]], line[i + 1..p], Scan(line, from, to, command, p));
    }
  }

  /** Inside an occurrence no other match starts: its characters are all word characters. */
  lemma NoMatchInside(line: string, from: string, command: bool, p: nat, k: nat)
    requires Word(from) && Occurs(line, from, p) && p < k < p + |from|
    ensures !Match(line, from, command, k)
  {
    assert line[p..p + |from|][k - 1 - p] == line[k - 1];
  }

  lemma ScanMiss(line: string, from: string, to: string, command: bool, p: nat)
    requires Word(from) && Occurs(line, from, p) && !Match(line, from, command, p)
    ensures Scan(line, from, to, command, p) == from + Scan(line, from, to, command, p + |from|)
  {
    forall k: nat | p <= k < p + |from| ensures !Match(line, from, command, k) {
      if k > p { NoMatchInside(line, from, command, p, k); }
    }
    ScanSkips(line, from, to, command, p, p + |from|);
  }

  lemma {:induction false} ScanPiece(line: string, from: string, to: string, command: bool, at: nat)
    requires Word(from) && at <= |line| && FindFrom(line, from, at) <= |line|
    ensures var p := FindFrom(line, from, at);
            Scan(line, from, to, command, at)
            == Piece(line, from, to, command, at, p) + Scan(line, from, to, command, p + |from|)
  {
    var p := FindFrom(line, from, at);
    FindFromIs(line, from, at);
    NoMatchBefore(line, from, command, at);
    ScanSkips(line, from, to, command, at, p);
    var hit := if Match(line, from, command, p) then to else from;
    if !Match(line, from, command, p) {
      ScanMiss(line, from, to, command, p);
    }
    assert Scan(line, from, to, command, p) == hit + Scan(line, from, to, command, p + |from|);
    Joins(line[at..p], hit, Scan(line, from, to, command, p + |from|));
  }

  lemma NoMatchBefore(line: string, from: string, command: bool, at: nat)
    requires at <= |line|
    ensures forall k: nat {:trigger Match(line, from, command, k)} :: at <= k < FindFrom(line, from, at) ==>
      !Match(line, from, command, k)
  {
    FindFromIs(line, from, at);
  }

  lemma ScanTail(line: string, from: string, to: string, command: bool, at: nat)
    requires Word(from) && at <= |line| && FindFrom(line, from, at) > |line|
    ensures Scan(line, from, to, command, at) == line[at..]
  {
    NoMatchBefore(line, from, command, at);
    ScanSkips(line, from, to, command, at, |line|);
    assert line[at..|line|] == line[at..];
  }

  lemma ReplacedPiece(line: string, from: string, to: string, command: bool, at: nat)
    requires from != [] && at <= |line| && FindFrom(line, from, at) <= |line|
    ensures var p := FindFrom(line, from, at);
            Replaced(line, from, to, command, at)
            == Piece(line, from, to, command, at, p) + Replaced(line, from, to, command, p + |from|)
  {
  }

  lemma LoopStep(line: string, from: string, to: string, command: bool, at: nat, tail: string)
    requires Word(from) && at <= |line| && FindFrom(line, from, at) <= |line|
    requires tail == Replaced(line, from, to, command, FindFrom(line, from, at) + |from|)
    requires tail == Scan(line, from, to, command, FindFrom(line, from, at) + |from|)
    ensures Replaced(line, from, to, command, at) == Scan(line, from, to, command, at)
  {
    ReplacedPiece(line, from, to, command, at);
    ScanPiece(line, from, to, command, at);
  }

  /** The loop that skips from occurrence to occurrence misses no match. */
  lemma {:induction false} LoopIsScan(line: string, from: string, to: string, command: bool, at: nat)
    requires Word(from) && at <= |line|
    ensures Replaced(line, from, to, command, at) == Scan(line, from, to, command, at)
    decreases |line| - at
  {
    if FindFrom(line, from, at) > |line| {
      ScanTail(line, from, to, command, at);
    } else {
      var end := FindFrom(line, from, at) + |from|;
      LoopIsScan(line, from, to, command, end);
      LoopStep(line, from, to, command, at, Replaced(line, from, to, command, end));
    }
  }

  // ---- A line as words and separators ----

  datatype Token = W(s: string) | Sep(c: char) {
    function Text(): string { if W? then s else [c] }
  }

  function Flatten(ts: seq<Token>): string {
    if ts == [] then [] else ts[0].Text() + Flatten(ts[1..])
  }

  predicate TokenOk(ts: seq<Token>, i: nat) {
    i < |ts| ==>
      && (ts[i].W? ==> Word(ts[i].s) && (i + 1 < |ts| ==> ts[i + 1].Sep?))
      && (ts[i].Sep? ==> !IsWord(ts[i].c))
  }

  /** Words are maximal: no two stand together. */
  ghost predicate Canonical(ts: seq<Token>) {
    forall i: nat {:trigger TokenOk(ts, i)} :: TokenOk(ts, i)
  }

  function WordLen(s: string): (n: nat)
    ensures n <= |s|
  {
    if s != [] && IsWord(s[0]) then 1 + WordLen(s[1..]) else 0
  }

  /** The leading word is all word characters, and ends where they do. */
  lemma {:induction false} WordLenIs(s: string)
    ensures forall i :: 0 <= i < WordLen(s) ==> IsWord(s[i])
    ensures WordLen(s) < |s| ==> !IsWord(s[WordLen(s)])
  {
    if s != [] && IsWord(s[0]) {
      WordLenIs(s[1..]);
      assert forall i :: 1 <= i < WordLen(s) ==> s[i] == s[1..][i - 1];
    }
  }

  function Tokens(line: string): seq<Token>
    decreases |line|
  {
    if line == [] then []
    else if !IsWord(line[0]) then [Sep(line[0])] + Tokens(line[1..])
    else [W(line[..WordLen(line)])] + Tokens(line[WordLen(line)..])
  }

  /** The first word or separator of a line. */
  function FirstToken(line: string): Token
    requires line != []
  {
    if IsWord(line[0]) then W(line[..WordLen(line)]) else Sep(line[0])
  }

  lemma TokensFirst(line: string)
    requires line != []
    ensures var (t, n) := (FirstToken(line), |FirstToken(line).Text()|);
            && 0 < n <= |line| && t.Text() == line[..n] && Tokens(line) == [t] + Tokens(line[n..])
            && (t.W? ==> Word(t.s) && (n < |line| ==> !IsWord(line[n])))
            && (t.Sep? ==> !IsWord(t.c)) && (t.W? <==> IsWord(line[0]))
  {
    WordLenIs(line);
  }

  lemma CanonicalCons(t: Token, rest: seq<Token>)
    requires Canonical(rest) && (t.W? ==> Word(t.s) && (rest != [] ==> rest[0].Sep?)) && (t.Sep? ==> !IsWord(t.c))
    ensures Canonical([t] + rest)
  {
    var ts := [t] + rest;
    forall i: nat ensures TokenOk(ts, i) {
      assert i > 0 ==> TokenOk(rest, i - 1);
    }
  }

  lemma FlattenCons(t: Token, rest: seq<Token>)
    ensures Flatten([t] + rest) == t.Text() + Flatten(rest)
  {
    assert ([t] + rest)[1..] == rest;
  }

  /** `ts` spells `line` in maximal words. */
  ghost predicate Spells(ts: seq<Token>, line: string) {
    Canonical(ts) && Flatten(ts) == line && (line != [] ==> ts != [] && (ts[0].W? <==> IsWord(line[0])))
  }

  lemma SpellsCons(t: Token, rest: seq<Token>, line: string, n: nat)
    requires 0 < n <= |line| && t.Text() == line[..n] && Spells(rest, line[n..])
    requires t.W? ==> Word(t.s) && (n < |line| ==> !IsWord(line[n]))
    requires (t.Sep? ==> !IsWord(t.c)) && (t.W? <==> IsWord(line[0]))
    ensures Spells([t] + rest, line)
  {
    assert n < |line| ==> line[n..][0] == line[n];
    assert n == |line| ==> Flatten(rest) == [];
    NothingLeft(rest);
    CanonicalCons(t, rest);
    FlattenCons(t, rest);
    assert line == line[..n] + line[n..];
  }

  lemma NothingLeft(ts: seq<Token>)
    requires Canonical(ts)
    ensures Flatten(ts) == [] ==> ts == []
  {
    assert TokenOk(ts, 0);
  }

  /** Every line is spelt by its own words and separators. */
  lemma {:induction false} TokensFlatten(line: string)
    ensures Spells(Tokens(line), line)
    decreases |line|
  {
    if line != [] {
      TokensFirst(line);
      var t := FirstToken(line);
      var n := |t.Text()|;
      TokensFlatten(line[n..]);
      SpellsCons(t, Tokens(line[n..]), line, n);
    }
  }

  lemma {:induction false} FlattenAppend(a: seq<Token>, b: seq<Token>)
    ensures Flatten(a + b) == Flatten(a) + Flatten(b)
  {
    if a == [] {
      assert a + b == b;
    } else {
      assert (a + b)[1..] == a[1..] + b;
      FlattenAppend(a[1..], b);
    }
  }

  /** These tokens end where a command may begin, but for blanks. */
  predicate Leads(ts: seq<Token>) {
    if ts == [] then true
    else
      var last := ts[|ts| - 1];
      && last.Sep?
      && (|| last.c == '|' || last.c == ';' || last.c == '&' || last.c == '(' || last.c == '`'
          || ((last.c == ' ' || last.c == '\t') && Leads(ts[..|ts| - 1])))
  }

  /** Whether a rule applies to the word at `i`, going by the separators around it. */
  predicate Fires(ts: seq<Token>, i: nat, command: bool)
    requires i < |ts|
  {
    !command || (Leads(ts[..i]) && i + 1 < |ts| && (ts[i + 1] == Sep(' ') || ts[i + 1] == Sep('\t')))
  }

  function Rule(ts: seq<Token>, from: string, to: string, command: bool): (us: seq<Token>)
    ensures |us| == |ts|
    ensures forall i :: 0 <= i < |ts| ==> us[i] == if ts[i] == W(from) && Fires(ts, i, command) then W(to) else ts[i]
  {
    seq(|ts|, i requires 0 <= i < |ts| => if ts[i] == W(from) && Fires(ts, i, command) then W(to) else ts[i])
  }

  lemma LeadSnoc(s: string, c: char)
    ensures CommandLead(s + [c]) <==> if IsBlank(c) then CommandLead(s) else OpensCommand(c)
  {
    assert (s + [c])[..|s|] == s && (s + [c])[|s|] == c;
  }

  lemma LeadWord(s: string, w: string)
    requires Word(w)
    ensures !CommandLead(s + w)
  {
    assert s + w == (s + w[..|w| - 1]) + [w[|w| - 1]];
    LeadSnoc(s + w[..|w| - 1], w[|w| - 1]);
  }

  lemma {:induction false} LeadIs(ts: seq<Token>)
    requires Canonical(ts)
    ensures CommandLead(Flatten(ts)) <==> Leads(ts)
  {
    if ts != [] {
      var init, last := ts[..|ts| - 1], ts[|ts| - 1];
      assert ts == init + [last] && Flatten([last]) == last.Text();
      FlattenAppend(init, [last]);
      assert TokenOk(ts, |ts| - 1);
      CanonicalPrefix(ts, |ts| - 1);
      LeadIs(init);
      if last.Sep? {
        LeadSnoc(Flatten(init), last.c);
      } else {
        LeadWord(Flatten(init), last.s);
      }
    }
  }

  lemma CanonicalPrefix(ts: seq<Token>, n: nat)
    requires Canonical(ts) && n <= |ts|
    ensures Canonical(ts[..n])
  {
    forall i: nat ensures TokenOk(ts[..n], i) {
      assert TokenOk(ts, i);
    }
  }

  // ---- The rewriter replaces whole words ----

  lemma OccursAt(line: string, from: string, i: nat, k: nat)
    ensures Occurs(line, from, i) && k < |from| ==> line[i + k] == from[k]
  {
    if Occurs(line, from, i) && k < |from| {
      assert line[i..i + |from|][k] == line[i + k];
    }
  }

  lemma Chars(a: string, w: string, b: string, k: nat)
    ensures k < |w| ==> (a + w + b)[|a| + k] == w[k]
    ensures k == |w| && b != [] ==> (a + w + b)[|a| + k] == b[0]
  {
  }

  /** At a separator nothing matches. */
  lemma SepNoMatch(a: string, c: char, b: string, from: string, command: bool)
    requires Word(from) && !IsWord(c)
    ensures !Match(a + [c] + b, from, command, |a|)
  {
    OccursAt(a + [c] + b, from, |a|, 0);
    Chars(a, [c], b, 0);
  }

  lemma OccurrenceIsWord(a: string, w: string, b: string, from: string, command: bool)
    requires Word(w) && Word(from) && (b == [] || !IsWord(b[0]))
    requires Match(a + w + b, from, command, |a|)
    ensures |from| == |w|
  {
    OccursAt(a + w + b, from, |a|, |w|);
    Chars(a, w, b, |w|);
    Chars(a, w, b, |from|);
  }

  /** Where a maximal word starts, an occurrence that ends at a boundary is the word. */
  lemma WordMatch(a: string, w: string, b: string, from: string, command: bool)
    requires Word(w) && Word(from) && (b == [] || !IsWord(b[0]))
    ensures var line := a + w + b;
            Match(line, from, command, |a|) <==>
              w == from && BeforeOk(line, |a|, command) && AfterOk(line, |a| + |w|, command)
  {
    var line := a + w + b;
    assert line[|a|..|a| + |w|] == w;
    if Match(line, from, command, |a|) {
      OccurrenceIsWord(a, w, b, from, command);
    }
  }

  lemma NoMatchInWord(a: string, w: string, b: string, from: string, command: bool, k: nat)
    requires Word(w) && |a| < k < |a| + |w|
    ensures !Match(a + w + b, from, command, k)
  {
    Chars(a, w, b, k - 1 - |a|);
  }

  lemma FlattenSnoc(ts: seq<Token>, i: nat)
    requires i < |ts|
    ensures Flatten(ts[..i + 1]) == Flatten(ts[..i]) + ts[i].Text()
  {
    TakeDrop(ts[..i + 1], i);
    assert ts[..i + 1][..i] == ts[..i] && ts[..i + 1][i..] == [ts[i]];
    FlattenAppend(ts[..i], [ts[i]]);
    FlattenOne(ts[i]);
  }

  lemma TakeDrop(ts: seq<Token>, n: nat)
    requires n <= |ts|
    ensures ts == ts[..n] + ts[n..]
  {
  }

  lemma SplitAt(ts: seq<Token>, i: nat)
    requires i < |ts|
    ensures Flatten(ts) == Flatten(ts[..i]) + ts[i].Text() + Flatten(ts[i + 1..])
  {
    TakeDrop(ts, i + 1);
    FlattenAppend(ts[..i + 1], ts[i + 1..]);
    FlattenSnoc(ts, i);
  }

  lemma FlattenOne(t: Token)
    ensures Flatten([t]) == t.Text()
  {
  }

  /** Before a word stands nothing, or a separator. */
  lemma BeforeWord(ts: seq<Token>, i: nat)
    requires Canonical(ts) && i < |ts| && ts[i].W?
    ensures var a := Flatten(ts[..i]); a == [] || !IsWord(a[|a| - 1])
  {
    if i > 0 {
      assert TokenOk(ts, i - 1);
      SplitAt(ts, i - 1);
      FlattenSnoc(ts, i - 1);
    }
  }

  /** After a word stands nothing, or a separator. */
  lemma AfterWord(ts: seq<Token>, i: nat)
    requires Canonical(ts) && i < |ts| && ts[i].W?
    ensures var b := Flatten(ts[i + 1..]);
            if i + 1 == |ts| then b == [] else ts[i + 1].Sep? && b != [] && b[0] == ts[i + 1].c && !IsWord(b[0])
  {
    assert TokenOk(ts, i);
    assert TokenOk(ts, i + 1);
  }

  lemma BeforeOkIs(a: string, rest: string, command: bool)
    requires a == [] || !IsWord(a[|a| - 1])
    ensures BeforeOk(a + rest, |a|, command) <==> !command || CommandLead(a)
  {
    assert (a + rest)[..|a|] == a;
    assert a != [] ==> (a + rest)[|a| - 1] == a[|a| - 1];
  }

  lemma AfterOkIs(a: string, w: string, b: string, command: bool)
    requires b == [] || !IsWord(b[0])
    ensures AfterOk(a + w + b, |a| + |w|, command) <==> !command || (b != [] && IsBlank(b[0]))
  {
    Chars(a, w, b, |w|);
  }

  lemma WordMatches(a: string, w: string, b: string, from: string, command: bool)
    requires Word(w) && Word(from) && (b == [] || !IsWord(b[0])) && (a == [] || !IsWord(a[|a| - 1]))
    ensures Match(a + w + b, from, command, |a|)
            <==> w == from && (!command || (CommandLead(a) && b != [] && IsBlank(b[0])))
  {
    WordMatch(a, w, b, from, command);
    assert a + w + b == a + (w + b);
    BeforeOkIs(a, w + b, command);
    AfterOkIs(a, w, b, command);
  }

  /** A word matches a rule just when it is the rule's word and the separators around it allow. */
  lemma WordFires(ts: seq<Token>, i: nat, from: string, command: bool)
    requires Canonical(ts) && i < |ts| && ts[i].W? && Word(from)
    ensures Match(Flatten(ts), from, command, |Flatten(ts[..i])|) <==> ts[i].s == from && Fires(ts, i, command)
  {
    SplitAt(ts, i);
    BeforeWord(ts, i);
    AfterWord(ts, i);
    assert TokenOk(ts, i);
    WordMatches(Flatten(ts[..i]), ts[i].s, Flatten(ts[i + 1..]), from, command);
    CanonicalPrefix(ts, i);
    LeadIs(ts[..i]);
  }

  /** From `start` the scan appends `text` and goes on at `end`. */
  predicate Scans(line: string, from: string, to: string, command: bool, start: nat, text: string, end: nat)
    requires from != [] && start <= |line| && end <= |line|
  {
    Scan(line, from, to, command, start) == text + Scan(line, from, to, command, end)
  }

  lemma ScanSep(a: string, c: char, b: string, from: string, to: string, command: bool)
    requires Word(from) && !IsWord(c)
    ensures Scans(a + [c] + b, from, to, command, |a|, [c], |a| + 1)
  {
    SepNoMatch(a, c, b, from, command);
    assert (a + [c] + b)[|a|] == c;
  }

  lemma ScanWord(a: string, w: string, b: string, from: string, to: string, command: bool)
    requires Word(from) && Word(w) && (b == [] || !IsWord(b[0]))
    ensures Scans(a + w + b, from, to, command, |a|, if Match(a + w + b, from, command, |a|) then to else w, |a| + |w|)
  {
    var line := a + w + b;
    WordMatch(a, w, b, from, command);
    if !Match(line, from, command, |a|) {
      forall k: nat | |a| <= k < |a| + |w| ensures !Match(line, from, command, k) {
        if k > |a| { NoMatchInWord(a, w, b, from, command, k); }
      }
      ScanSkips(line, from, to, command, |a|, |a| + |w|);
      assert line[|a|..|a| + |w|] == w;
    }
  }

  lemma TokenEnd(ts: seq<Token>, i: nat)
    requires i < |ts|
    ensures |Flatten(ts[..i])| + |ts[i].Text()| == |Flatten(ts[..i + 1])| <= |Flatten(ts)|
  {
    SplitAt(ts, i);
    FlattenSnoc(ts, i);
  }

  /** A token's text after the rule. */
  function Spelled(ts: seq<Token>, i: nat, from: string, to: string, command: bool): string
    requires i < |ts|
  {
    if ts[i].Sep? then [ts[i].c] else if ts[i].s == from && Fires(ts, i, command) then to else ts[i].s
  }

  /** The scan appends the rule's text of token `i`, which stands from `start` to `end`, and goes on behind it. */
  predicate TokenScanned(ts: seq<Token>, i: nat, from: string, to: string, command: bool, line: string, start: nat,
                         end: nat) {
    && i < |ts| && from != [] && start <= |line| && end <= |line|
    && Scans(line, from, to, command, start, Spelled(ts, i, from, to, command), end)
  }

  lemma {:induction false} ScanTokenSep(ts: seq<Token>, i: nat, from: string, to: string, command: bool, line: string,
                            start: nat, end: nat)
    requires Canonical(ts) && i < |ts| && Word(from) && ts[i].Sep?
    requires line == Flatten(ts) && start == |Flatten(ts[..i])| && start + 1 == end <= |line|
    ensures TokenScanned(ts, i, from, to, command, line, start, end)
  {
    SplitAt(ts, i);
    assert TokenOk(ts, i);
    ScanSep(Flatten(ts[..i]), ts[i].c, Flatten(ts[i + 1..]), from, to, command);
  }

  lemma {:induction false} ScanTokenWord(ts: seq<Token>, i: nat, from: string, to: string, command: bool, line: string,
                            start: nat, end: nat)
    requires Canonical(ts) && i < |ts| && Word(from) && ts[i].W?
    requires line == Flatten(ts) && start == |Flatten(ts[..i])| && start + |ts[i].s| == end <= |line|
    ensures TokenScanned(ts, i, from, to, command, line, start, end)
  {
    SplitAt(ts, i);
    assert TokenOk(ts, i);
    AfterWord(ts, i);
    WordFires(ts, i, from, command);
    ScanWord(Flatten(ts[..i]), ts[i].s, Flatten(ts[i + 1..]), from, to, command);
  }

  lemma {:induction false} ScanToken(ts: seq<Token>, i: nat, from: string, to: string, command: bool, line: string,
                            start: nat, end: nat)
    requires Canonical(ts) && i < |ts| && Word(from)
    requires line == Flatten(ts) && start == |Flatten(ts[..i])| && start + |ts[i].Text()| == end <= |line|
    ensures TokenScanned(ts, i, from, to, command, line, start, end)
  {
    if ts[i].Sep? {
      ScanTokenSep(ts, i, from, to, command, line, start, end);
    } else {
      ScanTokenWord(ts, i, from, to, command, line, start, end);
    }
  }

  lemma RuleText(ts: seq<Token>, i: nat, from: string, to: string, command: bool)
    requires i < |ts|
    ensures Rule(ts, from, to, command)[i].Text() == Spelled(ts, i, from, to, command)
  {
  }

  lemma FlattenFrom(us: seq<Token>, i: nat)
    requires i < |us|
    ensures Flatten(us[i..]) == us[i].Text() + Flatten(us[i + 1..])
  {
    assert us[i..][0] == us[i] && us[i..][1..] == us[i + 1..];
  }

  lemma {:induction false} ScanIsRule(ts: seq<Token>, i: nat, from: string, to: string, command: bool, line: string,
                            start: nat)
    requires Canonical(ts) && i <= |ts| && Word(from)
    requires line == Flatten(ts) && start == |Flatten(ts[..i])| <= |line|
    ensures Scan(line, from, to, command, start) == Flatten(Rule(ts, from, to, command)[i..])
    decreases |ts| - i
  {
    var us := Rule(ts, from, to, command);
    if i == |ts| {
      assert ts[..i] == ts;
    } else {
      TokenEnd(ts, i);
      var end := start + |ts[i].Text()|;
      ScanToken(ts, i, from, to, command, line, start, end);
      ScanIsRule(ts, i + 1, from, to, command, line, end);
      RuleText(ts, i, from, to, command);
      FlattenFrom(us, i);
    }
  }

  /**
   The find loop replaces exactly the maximal words equal to the tool's name, and for the
   command-position rules exactly those at the start of a command with arguments after them.
   */
  lemma LoopIsRule(ts: seq<Token>, from: string, to: string, command: bool)
    requires Canonical(ts) && Word(from)
    ensures Replaced(Flatten(ts), from, to, command, 0) == Flatten(Rule(ts, from, to, command))
  {
    assert ts[..0] == [];
    LoopIsScan(Flatten(ts), from, to, command, 0);
    ScanIsRule(ts, 0, from, to, command, Flatten(ts), 0);
    assert Rule(ts, from, to, command)[0..] == Rule(ts, from, to, command);
  }
}
