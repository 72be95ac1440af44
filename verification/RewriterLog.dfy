/** What the rewriter's log says: an entry for each rule that found its tool on a line, in order, and no other. */
module RewriterLog {
  import opened Strings
  import opened Wrappers
  import opened Toolchain
  import opened Rewriter

  /** Rule `k` finds its tool among these words. */
  predicate Asks(ts: seq<Token>, k: nat)
    requires k < |RULES|
  {
    exists i :: 0 <= i < |ts| && ts[i] == W(RULES[k].from) && Fires(ts, i, RULES[k].command)
  }

  lemma {:induction false} RuleChangesExactly(ts: seq<Token>, from: string, to: string, command: bool)
    requires Canonical(ts) && |from| < |to|
    ensures Flatten(Rule(ts, from, to, command)) != Flatten(ts) <==>
      exists i :: 0 <= i < |ts| && ts[i] == W(from) && Fires(ts, i, command)
  {
    var us := Rule(ts, from, to, command);
    FlattenGrows(ts, us);
    if i :| 0 <= i < |ts| && ts[i] == W(from) && Fires(ts, i, command) {
      assert us[i] == W(to) && us[i] != ts[i];
    } else {
      assert us == ts;
    }
  }

  /** Earlier rules neither make nor take a later rule's tool. */
  lemma {:induction false} ToolsApart(t: Token, k: nat, fires: bool)
    requires k < |RULES|
    ensures SwapFirst(t, k, fires) == W(RULES[k].from) <==> t == W(RULES[k].from)
  {
    assert "clang"[0] != "strip"[0] && "clang"[0] != "ar"[0] && "clang"[0] != "g++"[0];
    assert "llvm-ar"[0] != "strip"[0] && "gcc"[0] != "strip"[0] && "ar"[0] != "strip"[0];
    assert k > 0 ==> SwapFirst(t, 1, fires) == Swap(t, RULES[0], fires);
    assert k > 1 ==> SwapFirst(t, 2, fires) == Swap(SwapFirst(t, 1, fires), RULES[1], fires);
    assert k > 2 ==> SwapFirst(t, 3, fires) == Swap(SwapFirst(t, 2, fires), RULES[2], fires);
  }

  lemma {:induction false} SameAsk(ts: seq<Token>, us: seq<Token>, k: nat, i: nat)
    requires Canonical(ts) && k < |RULES| && us == RuleFirst(ts, k) && i < |ts|
    ensures (us[i] == W(RULES[k].from) && Fires(us, i, RULES[k].command)) <==>
      (ts[i] == W(RULES[k].from) && Fires(ts, i, RULES[k].command))
  {
    RulesPointwise(ts, k, i);
    ToolsApart(ts[i], k, Fires(ts, i, true));
    RuleFirstKeeps(ts, k);
    ShapeFires(ts, us, i, RULES[k].command);
  }

  lemma {:induction false} RuleAsks(ts: seq<Token>, us: seq<Token>, k: nat)
    requires Canonical(ts) && k < |RULES| && us == RuleFirst(ts, k)
    ensures Flatten(Rule(us, RULES[k].from, RULES[k].to, RULES[k].command)) != Flatten(us) <==> Asks(ts, k)
  {
    RuleFirstKeeps(ts, k);
    RulesOk(k);
    RuleChangesExactly(us, RULES[k].from, RULES[k].to, RULES[k].command);
    if i :| 0 <= i < |us| && us[i] == W(RULES[k].from) && Fires(us, i, RULES[k].command) {
      SameAsk(ts, us, k, i);
    }
    if i :| 0 <= i < |ts| && ts[i] == W(RULES[k].from) && Fires(ts, i, RULES[k].command) {
      SameAsk(ts, us, k, i);
    }
  }

  lemma {:induction false} ChangesTokens(ts: seq<Token>, k: nat)
    requires Canonical(ts) && k < |RULES|
    ensures ApplyFirst(Flatten(ts), k + 1) != ApplyFirst(Flatten(ts), k) <==> Asks(ts, k)
  {
    var us := RuleFirst(ts, k);
    ApplyIsRules(ts, k);
    ApplyIsRules(ts, k + 1);
    RuleAsks(ts, us, k);
  }

  /** A rule changes a line if and only if the line, as it was to begin with, asks for it. */
  lemma {:induction false} ChangesExactly(line: string, k: nat)
    requires k < |RULES|
    ensures ApplyFirst(line, k + 1) != ApplyFirst(line, k) <==> Asks(Tokens(line), k)
  {
    TokensFlatten(line);
    ChangesTokens(Tokens(line), k);
  }

  /** The entry rule `k` leaves about line number `n`: the line as it came, and as that rule left it. */
  function EntryOf(n: nat, line: string, k: nat): Entry
    requires k < |RULES|
  {
    Entry(n, k, line, ApplyFirst(line, k + 1))
  }

  lemma {:induction false} FirstHas(n: nat, line: string, m: nat, e: Entry)
    requires m <= |RULES|
    ensures e in LogFirst(n, line, m) <==> e.rule < m && Asks(Tokens(line), e.rule) && e == EntryOf(n, line, e.rule)
  {
    if m > 0 {
      FirstHas(n, line, m - 1, e);
      ChangesExactly(line, m - 1);
    }
  }

  lemma {:induction false} LineHas(n: nat, line: string, e: Entry)
    ensures e in LineLog(n, line) <==>
      !IsComment(line) && e.rule < |RULES| && Asks(Tokens(line), e.rule) && e == EntryOf(n, line, e.rule)
  {
    FirstHas(n, line, |RULES|, e);
  }

  lemma {:induction false} ConcatHas(logs: seq<seq<Entry>>, e: Entry)
    ensures e in Concat(logs) <==> exists i :: 0 <= i < |logs| && e in logs[i]
  {
    if logs != [] {
      ConcatHas(logs[1..], e);
      assert forall i :: 0 <= i < |logs[1..]| ==> logs[1..][i] == logs[i + 1];
      if i :| 0 <= i < |logs| && e in logs[i] {
        if i > 0 { assert logs[1..][i - 1] == logs[i]; }
      }
    }
  }

  /** Line `i` is no comment and asks for the rule the entry names, which is what the entry says. */
  predicate Reports(lines: seq<string>, i: nat, e: Entry) {
    && i < |lines| && !IsComment(lines[i]) && e.rule < |RULES| && Asks(Tokens(lines[i]), e.rule)
    && e == Entry(i + 1, e.rule, lines[i], ApplyFirst(lines[i], e.rule + 1))
  }

  lemma {:induction false} LineReports(lines: seq<string>, i: nat, e: Entry)
    requires i < |lines|
    ensures e in LineLogs(lines)[i] <==> Reports(lines, i, e)
  {
    LineHas(i + 1, lines[i], e);
  }

  lemma {:induction false} LogFrom(lines: seq<string>, e: Entry) returns (i: nat)
    requires e in Concat(LineLogs(lines))
    ensures Reports(lines, i, e)
  {
    ConcatHas(LineLogs(lines), e);
    i :| 0 <= i < |lines| && e in LineLogs(lines)[i];
    LineReports(lines, i, e);
  }

  lemma {:induction false} LogTo(lines: seq<string>, i: nat, e: Entry)
    requires Reports(lines, i, e)
    ensures e in Concat(LineLogs(lines))
  {
    LineReports(lines, i, e);
    ConcatHas(LineLogs(lines), e);
  }

  /** The log has an entry exactly for each line and each rule that line asks for. */
  lemma {:induction false} LogExactly(lines: seq<string>, e: Entry)
    ensures e in Concat(LineLogs(lines)) <==> exists i: nat :: Reports(lines, i, e)
  {
    if e in Concat(LineLogs(lines)) {
      var i := LogFrom(lines, e);
    }
    if i: nat :| Reports(lines, i, e) {
      LogTo(lines, i, e);
    }
  }

  // ---- Its order ----

  predicate Earlier(d: Entry, e: Entry) {
    d.line < e.line || (d.line == e.line && d.rule < e.rule)
  }

  predicate InOrder(log: seq<Entry>) {
    forall p, q :: 0 <= p < q < |log| ==> Earlier(log[p], log[q])
  }

  lemma {:induction false} FirstInOrder(n: nat, line: string, m: nat)
    requires m <= |RULES|
    ensures InOrder(LogFirst(n, line, m)) && forall e :: e in LogFirst(n, line, m) ==> e.line == n && e.rule < m
  {
    if m > 0 { FirstInOrder(n, line, m - 1); }
  }

  predicate OfLine(log: seq<Entry>, n: nat) {
    InOrder(log) && forall e :: e in log ==> e.line == n
  }

  lemma {:induction false} LogInOrderFrom(logs: seq<seq<Entry>>, n: nat)
    requires forall i :: 0 <= i < |logs| ==> OfLine(logs[i], n + i)
    ensures InOrder(Concat(logs)) && forall e :: e in Concat(logs) ==> e.line >= n
    decreases |logs|
  {
    if logs != [] {
      var rest := logs[1..];
      assert forall i :: 0 <= i < |rest| ==> rest[i] == logs[i + 1];
      LogInOrderFrom(rest, n + 1);
      var a, b := logs[0], Concat(rest);
      forall p, q | 0 <= p < q < |a + b| ensures Earlier((a + b)[p], (a + b)[q]) {
        if p < |a| <= q {
          assert a[p] in logs[0] && b[q - |a|] in b;
        }
      }
    }
  }

  lemma {:induction false} LineInOrder(n: nat, line: string)
    ensures OfLine(LineLog(n, line), n)
  {
    FirstInOrder(n, line, |RULES|);
  }

  /** Lines in order, and the rules of a line in order; so no entry twice. */
  lemma {:induction false} LogInOrder(lines: seq<string>)
    ensures InOrder(Concat(LineLogs(lines)))
  {
    var logs := LineLogs(lines);
    forall i | 0 <= i < |logs| ensures OfLine(logs[i], 1 + i) {
      LineInOrder(i + 1, lines[i]);
    }
    LogInOrderFrom(logs, 1);
  }

  // ---- Comments ----

  /** A comment is a line whose first character that is no white space is a hash sign. */
  lemma {:induction false} CommentExactly(line: string)
    ensures IsComment(line) <==>
      exists i :: 0 <= i < |line| && line[i] == '#' && forall j :: 0 <= j < i ==> IsSpace(line[j])
  {
    if line != [] {
      var rest := line[1..];
      CommentExactly(rest);
      assert forall i :: 0 <= i < |rest| ==> rest[i] == line[i + 1];
      if i :| 0 <= i < |line| && line[i] == '#' && forall j :: 0 <= j < i ==> IsSpace(line[j]) {
        if i > 0 { assert rest[i - 1] == '#' && forall j :: 0 <= j < i - 1 ==> IsSpace(rest[j]); }
      }
      if IsComment(rest) && IsSpace(line[0]) {
        var i :| 0 <= i < |rest| && rest[i] == '#' && forall j :: 0 <= j < i ==> IsSpace(rest[j]);
        forall j | 0 <= j < i + 1 ensures IsSpace(line[j]) {
          if j > 0 { assert line[j] == rest[j - 1]; }
        }
        assert line[i + 1] == '#';
      }
    }
  }
}
