/** The whole rewrite: four rules a line, a log entry for each that changed it, and the text put back together. */
module Rewriter {
  import opened Strings
  import opened Wrappers
  import opened Toolchain

  datatype ToolRule = ToolRule(from: string, to: string, command: bool)

  const RULES: seq<ToolRule> := [
    ToolRule("gcc", "clang", false),
    ToolRule("g++", "clang++", false),
    ToolRule("ar", "llvm-ar", true),
    ToolRule("strip", "llvm-strip", true)]

  predicate RuleOk(r: ToolRule) { Word(r.from) && Word(r.to) && |r.from| < |r.to| }

  lemma RulesOk(k: nat)
    requires k < |RULES|
    ensures RuleOk(RULES[k])
  {
  }

  function Apply(line: string, r: ToolRule): string {
    if r.from == [] then line else Replaced(line, r.from, r.to, r.command, 0)
  }

  /** The first `k` rules, one after the other. */
  function ApplyFirst(line: string, k: nat): string
    requires k <= |RULES|
  {
    if k == 0 then line else Apply(ApplyFirst(line, k - 1), RULES[k - 1])
  }

  /** White space, as the standard library's `trim_start` has it. */
  predicate IsSpace(c: char) {
    var n := c as int;
    9 <= n <= 13 || n == 32 || n == 0x85 || n == 0xa0 || n == 0x1680 || 0x2000 <= n <= 0x200a
    || n == 0x2028 || n == 0x2029 || n == 0x202f || n == 0x205f || n == 0x3000
  }

  predicate IsComment(line: string) {
    line != [] && (line[0] == '#' || (IsSpace(line[0]) && IsComment(line[1..])))
  }

  function RewriteLine(line: string): string {
    if IsComment(line) then line else ApplyFirst(line, |RULES|)
  }

  // ---- On words ----

  function RuleFirst(ts: seq<Token>, k: nat): (us: seq<Token>)
    requires k <= |RULES|
    ensures |us| == |ts|
  {
    if k == 0 then ts else Rule(RuleFirst(ts, k - 1), RULES[k - 1].from, RULES[k - 1].to, RULES[k - 1].command)
  }

  /** Separators where separators were, and the same ones. */
  predicate SameShape(ts: seq<Token>, us: seq<Token>) {
    && |ts| == |us|
    && forall i {:trigger ts[i]} {:trigger us[i]} :: 0 <= i < |ts| ==>
         ts[i].W? == us[i].W? && (ts[i].Sep? ==> us[i] == ts[i])
  }

  lemma {:induction false} ShapeLeads(ts: seq<Token>, us: seq<Token>)
    requires SameShape(ts, us)
    ensures Leads(ts) == Leads(us)
  {
    if ts != [] {
      assert ts[|ts| - 1].W? == us[|us| - 1].W?;
      ShapeLeads(ts[..|ts| - 1], us[..|us| - 1]);
    }
  }

  lemma ShapeFires(ts: seq<Token>, us: seq<Token>, i: nat, command: bool)
    requires SameShape(ts, us) && i < |ts|
    ensures Fires(ts, i, command) == Fires(us, i, command)
  {
    ShapeLeads(ts[..i], us[..i]);
    assert i + 1 < |ts| ==> ts[i + 1].W? == us[i + 1].W?;
  }

  lemma RuleKeeps(ts: seq<Token>, from: string, to: string, command: bool)
    requires Canonical(ts) && Word(to)
    ensures Canonical(Rule(ts, from, to, command)) && SameShape(ts, Rule(ts, from, to, command))
  {
    var us := Rule(ts, from, to, command);
    forall i: nat ensures TokenOk(us, i) {
      assert TokenOk(ts, i);
      assert i + 1 < |ts| ==> us[i + 1].Sep? == ts[i + 1].Sep?;
    }
  }

  lemma {:induction false} RuleFirstKeeps(ts: seq<Token>, k: nat)
    requires Canonical(ts) && k <= |RULES|
    ensures Canonical(RuleFirst(ts, k)) && SameShape(ts, RuleFirst(ts, k))
  {
    if k > 0 {
      RuleFirstKeeps(ts, k - 1);
      RulesOk(k - 1);
      RuleKeeps(RuleFirst(ts, k - 1), RULES[k - 1].from, RULES[k - 1].to, RULES[k - 1].command);
    }
  }

  /** The rules, each a find loop over the whole line, are together a map over the line's words. */
  lemma {:induction false} ApplyIsRules(ts: seq<Token>, k: nat)
    requires Canonical(ts) && k <= |RULES|
    ensures ApplyFirst(Flatten(ts), k) == Flatten(RuleFirst(ts, k))
  {
    if k > 0 {
      ApplyIsRules(ts, k - 1);
      RuleFirstKeeps(ts, k - 1);
      RulesOk(k - 1);
      LoopIsRule(RuleFirst(ts, k - 1), RULES[k - 1].from, RULES[k - 1].to, RULES[k - 1].command);
    }
  }

  /** What one rule does to a word. */
  function Swap(t: Token, r: ToolRule, fires: bool): Token {
    if t == W(r.from) && (!r.command || fires) then W(r.to) else t
  }

  function SwapFirst(t: Token, k: nat, fires: bool): Token
    requires k <= |RULES|
  {
    if k == 0 then t else Swap(SwapFirst(t, k - 1, fires), RULES[k - 1], fires)
  }

  lemma {:induction false} RulesPointwise(ts: seq<Token>, k: nat, i: nat)
    requires Canonical(ts) && k <= |RULES| && i < |ts|
    ensures RuleFirst(ts, k)[i] == SwapFirst(ts[i], k, Fires(ts, i, true))
  {
    if k > 0 {
      RulesPointwise(ts, k - 1, i);
      RuleFirstKeeps(ts, k - 1);
      ShapeFires(ts, RuleFirst(ts, k - 1), i, true);
    }
  }

  /** No rule's result is another rule's word. */
  lemma SwapSettles(t: Token, fires: bool)
    ensures SwapFirst(SwapFirst(t, |RULES|, fires), |RULES|, fires) == SwapFirst(t, |RULES|, fires)
  {
    WordBecomes(t, fires);
    WordBecomes(SwapFirst(t, |RULES|, fires), fires);
    assert "clang"[0] != "strip"[0];
  }

  lemma WordBecomes(t: Token, fires: bool)
    ensures SwapFirst(t, |RULES|, fires)
            == if t == W("gcc") then W("clang")
               else if t == W("g++") then W("clang++")
               else if t == W("ar") && fires then W("llvm-ar")
               else if t == W("strip") && fires then W("llvm-strip")
               else t
  {
    assert SwapFirst(t, 1, fires) == Swap(t, RULES[0], fires);
    assert SwapFirst(t, 2, fires) == Swap(SwapFirst(t, 1, fires), RULES[1], fires);
    assert SwapFirst(t, 3, fires) == Swap(SwapFirst(t, 2, fires), RULES[2], fires);
    assert "clang"[0] != "strip"[0];
  }

  lemma RulesSettle(ts: seq<Token>)
    requires Canonical(ts)
    ensures RuleFirst(RuleFirst(ts, |RULES|), |RULES|) == RuleFirst(ts, |RULES|)
  {
    var us := RuleFirst(ts, |RULES|);
    RuleFirstKeeps(ts, |RULES|);
    forall i | 0 <= i < |ts| ensures RuleFirst(us, |RULES|)[i] == us[i] {
      RulesPointwise(ts, |RULES|, i);
      RulesPointwise(us, |RULES|, i);
      ShapeFires(ts, us, i, true);
      SwapSettles(ts[i], Fires(ts, i, true));
    }
  }

  predicate CommentTokens(ts: seq<Token>) {
    ts != [] && ts[0].Sep? && (ts[0].c == '#' || (IsSpace(ts[0].c) && CommentTokens(ts[1..])))
  }

  lemma {:induction false} CommentIs(ts: seq<Token>)
    requires Canonical(ts)
    ensures IsComment(Flatten(ts)) <==> CommentTokens(ts)
  {
    if ts != [] {
      assert TokenOk(ts, 0);
      var line := Flatten(ts);
      assert line[0] == ts[0].Text()[0];
      if ts[0].Sep? {
        assert line[1..] == Flatten(ts[1..]);
        CanonicalTail(ts);
        CommentIs(ts[1..]);
      }
    }
  }

  lemma CanonicalTail(ts: seq<Token>)
    requires Canonical(ts) && ts != []
    ensures Canonical(ts[1..])
  {
    forall i: nat ensures TokenOk(ts[1..], i) {
      assert TokenOk(ts, i + 1);
    }
  }

  lemma {:induction false} ShapeComment(ts: seq<Token>, us: seq<Token>)
    requires SameShape(ts, us)
    ensures CommentTokens(ts) == CommentTokens(us)
  {
    if ts != [] {
      assert ts[0].W? == us[0].W?;
      ShapeComment(ts[1..], us[1..]);
    }
  }

  /** Rewriting a line again changes nothing. */
  lemma LineIdempotent(line: string)
    ensures RewriteLine(RewriteLine(line)) == RewriteLine(line)
  {
    if !IsComment(line) {
      var ts := Tokens(line);
      TokensFlatten(line);
      RuleFirstKeeps(ts, |RULES|);
      ApplyIsRules(ts, |RULES|);
      var us := RuleFirst(ts, |RULES|);
      CommentIs(ts);
      CommentIs(us);
      ShapeComment(ts, us);
      ApplyIsRules(us, |RULES|);
      RulesSettle(ts);
    }
  }

  // ---- What a rewrite keeps of a line ----

  /** Each token kept, or replaced by a longer one. */
  predicate Longer(ts: seq<Token>, us: seq<Token>) {
    |ts| == |us| && forall i :: 0 <= i < |ts| ==> us[i] == ts[i] || |us[i].Text()| > |ts[i].Text()|
  }

  lemma {:induction false} FlattenGrows(ts: seq<Token>, us: seq<Token>)
    requires Longer(ts, us)
    ensures |Flatten(us)| >= |Flatten(ts)| && (|Flatten(us)| == |Flatten(ts)| ==> us == ts)
  {
    if ts != [] {
      assert us[0] == ts[0] || |us[0].Text()| > |ts[0].Text()|;
      FlattenGrows(ts[1..], us[1..]);
      assert ts == [ts[0]] + ts[1..] && us == [us[0]] + us[1..];
    }
  }

  /** A rule that changes a line lengthens it. */
  lemma ApplyGrows(line: string, r: ToolRule)
    requires RuleOk(r)
    ensures |Apply(line, r)| >= |line| && (|Apply(line, r)| == |line| ==> Apply(line, r) == line)
  {
    var ts := Tokens(line);
    TokensFlatten(line);
    LoopIsRule(ts, r.from, r.to, r.command);
    FlattenGrows(ts, Rule(ts, r.from, r.to, r.command));
  }

  lemma {:induction false} FirstGrow(line: string, j: nat, k: nat)
    requires j <= k <= |RULES|
    ensures |ApplyFirst(line, k)| >= |ApplyFirst(line, j)|
    ensures |ApplyFirst(line, k)| == |ApplyFirst(line, j)| ==> ApplyFirst(line, k) == ApplyFirst(line, j)
    decreases k
  {
    if j < k {
      FirstGrow(line, j, k - 1);
      RulesOk(k - 1);
      ApplyGrows(ApplyFirst(line, k - 1), RULES[k - 1]);
    }
  }

  function Count(s: string, c: char): nat { multiset(s)[c] }

  lemma CountJoin(a: string, b: string, c: char)
    ensures Count(a + b, c) == Count(a, c) + Count(b, c)
  {
  }

  lemma WordCount(w: string, c: char)
    requires Word(w) && !IsWord(c)
    ensures Count(w, c) == 0
  {
    assert c !in w;
  }

  lemma {:induction false} FlattenCount(ts: seq<Token>, us: seq<Token>, c: char)
    requires Canonical(ts) && Canonical(us) && SameShape(ts, us) && !IsWord(c)
    ensures Count(Flatten(ts), c) == Count(Flatten(us), c)
  {
    if ts != [] {
      assert TokenOk(ts, 0) && TokenOk(us, 0) && ts[0].W? == us[0].W?;
      CanonicalTail(ts);
      CanonicalTail(us);
      FlattenCount(ts[1..], us[1..], c);
      CountJoin(ts[0].Text(), Flatten(ts[1..]), c);
      CountJoin(us[0].Text(), Flatten(us[1..]), c);
      if ts[0].W? {
        WordCount(ts[0].s, c);
        WordCount(us[0].s, c);
      }
    }
  }

  lemma {:induction false} FlattenLast(ts: seq<Token>)
    requires Canonical(ts) && ts != []
    ensures var (line, last) := (Flatten(ts), ts[|ts| - 1].Text());
            line != [] && last != [] && line[|line| - 1] == last[|last| - 1]
  {
    assert TokenOk(ts, 0);
    if |ts| > 1 {
      CanonicalTail(ts);
      FlattenLast(ts[1..]);
    } else {
      assert ts[1..] == [];
    }
  }

  predicate EndsCr(s: string) { s != [] && s[|s| - 1] == '\r' }

  /** The words a line is rewritten to, in the places of its own. */
  lemma LineTokens(line: string) returns (ts: seq<Token>, us: seq<Token>)
    ensures Canonical(ts) && Canonical(us) && SameShape(ts, us)
    ensures Flatten(ts) == line && Flatten(us) == RewriteLine(line)
  {
    ts := Tokens(line);
    TokensFlatten(line);
    us := ts;
    if !IsComment(line) {
      RuleFirstKeeps(ts, |RULES|);
      ApplyIsRules(ts, |RULES|);
      us := RuleFirst(ts, |RULES|);
    }
  }

  /** A rewrite keeps every separator, and so every carriage return and line feed. */
  lemma LineCounts(line: string, c: char)
    requires !IsWord(c)
    ensures Count(RewriteLine(line), c) == Count(line, c)
  {
    var ts, us := LineTokens(line);
    FlattenCount(ts, us, c);
  }

  lemma LineEnd(line: string)
    ensures EndsCr(RewriteLine(line)) <==> EndsCr(line)
  {
    var ts, us := LineTokens(line);
    if ts != [] {
      FlattenLast(ts);
      FlattenLast(us);
      assert TokenOk(ts, |ts| - 1) && TokenOk(us, |us| - 1) && ts[|ts| - 1].W? == us[|us| - 1].W?;
    }
  }

  lemma LineGrows(line: string)
    ensures |RewriteLine(line)| >= |line|
  {
    FirstGrow(line, 0, |RULES|);
  }

  // ---- The log ----

  datatype Entry = Entry(line: nat, rule: nat, before: string, after: string)

  function LogFirst(n: nat, line: string, k: nat): seq<Entry>
    requires k <= |RULES|
  {
    if k == 0 then []
    else
      var after := ApplyFirst(line, k);
      LogFirst(n, line, k - 1) + (if after != ApplyFirst(line, k - 1) then [Entry(n, k - 1, line, after)] else [])
  }

  function LineLog(n: nat, line: string): seq<Entry> {
    if IsComment(line) then [] else LogFirst(n, line, |RULES|)
  }

  lemma {:induction false} LogFirstEmpty(n: nat, line: string, k: nat)
    requires k <= |RULES|
    ensures LogFirst(n, line, k) == [] <==> ApplyFirst(line, k) == line
  {
    if k > 0 {
      LogFirstEmpty(n, line, k - 1);
      FirstGrow(line, 0, k - 1);
      FirstGrow(line, k - 1, k);
    }
  }

  function Concat(logs: seq<seq<Entry>>): seq<Entry> {
    if logs == [] then [] else logs[0] + Concat(logs[1..])
  }

  /** Each line's own entries; lines count from one. */
  function LineLogs(lines: seq<string>): (logs: seq<seq<Entry>>)
    ensures |logs| == |lines| && forall i :: 0 <= i < |lines| ==> logs[i] == LineLog(i + 1, lines[i])
  {
    seq(|lines|, i requires 0 <= i < |lines| => LineLog(i + 1, lines[i]))
  }

  function RewriteLines(lines: seq<string>): (out: seq<string>)
    ensures |out| == |lines| && forall i :: 0 <= i < |lines| ==> out[i] == RewriteLine(lines[i])
  {
    if lines == [] then [] else [RewriteLine(lines[0])] + RewriteLines(lines[1..])
  }

  lemma {:induction false} ConcatEmpty(logs: seq<seq<Entry>>)
    ensures Concat(logs) == [] <==> forall i :: 0 <= i < |logs| ==> logs[i] == []
  {
    if logs != [] {
      ConcatEmpty(logs[1..]);
      assert forall i :: 0 <= i < |logs[1..]| ==> logs[1..][i] == logs[i + 1];
    }
  }

  lemma LineLogEmpty(n: nat, line: string)
    ensures LineLog(n, line) == [] <==> RewriteLine(line) == line
  {
    LogFirstEmpty(n, line, |RULES|);
  }

  /** The log is empty exactly when no line changed: no rule undoes another. */
  lemma LogEmptyExactly(lines: seq<string>)
    ensures Concat(LineLogs(lines)) == [] <==> RewriteLines(lines) == lines
  {
    ConcatEmpty(LineLogs(lines));
    forall i | 0 <= i < |lines| ensures LineLogs(lines)[i] == [] <==> RewriteLines(lines)[i] == lines[i] {
      LineLogEmpty(i + 1, lines[i]);
    }
  }

  // ---- The text ----

  function Chomp(s: string): string { if EndsCr(s) then s[..|s| - 1] else s }

  /** The standard library's lines: cut at line feeds, one carriage return dropped before each. */
  function Lines(text: string): seq<string>
    decreases |text|
  {
    var i := Find(text, '\n');
    if text == [] then []
    else if i == |text| then [text]
    else [Chomp(text[..i])] + Lines(text[i + 1..])
  }

  predicate EndsLf(text: string) { text != [] && text[|text| - 1] == '\n' }

  /** Lines joined by line feeds, with one at the end if `final`. */
  function Assemble(lines: seq<string>, final: bool): string {
    if lines == [] then []
    else if |lines| == 1 then lines[0] + (if final then "\n" else "")
    else lines[0] + "\n" + Assemble(lines[1..], final)
  }

  function Rewrite(text: string): string { Assemble(RewriteLines(Lines(text)), EndsLf(text)) }

  function RewriteLog(text: string): seq<Entry> { Concat(LineLogs(Lines(text))) }

  /** One line under the rules in turn, each change logged. */
  method RewriteOne(n: nat, line: string) returns (current: string, log: seq<Entry>)
    ensures current == RewriteLine(line) && log == LineLog(n, line)
  {
    current, log := line, [];
    if IsComment(line) {
      return;
    }
    for k := 0 to |RULES|
      invariant current == ApplyFirst(line, k) && log == LogFirst(n, line, k)
    {
      RulesOk(k);
      var rewritten := ReplaceTool(current, RULES[k].from, RULES[k].to, RULES[k].command);
      assert rewritten == ApplyFirst(line, k + 1);
      if rewritten != current {
        log := log + [Entry(n, k, line, rewritten)];
        current := rewritten;
      }
    }
  }

  /** `log` covers the lines before `idx`. */
  predicate Logged(logs: seq<seq<Entry>>, idx: nat, log: seq<Entry>) {
    idx <= |logs| && log + Concat(logs[idx..]) == Concat(logs)
  }

  lemma LogTurn(logs: seq<seq<Entry>>, idx: nat, log: seq<Entry>)
    requires idx < |logs| && Logged(logs, idx, log)
    ensures Logged(logs, idx + 1, log + logs[idx])
  {
    assert logs[idx..][0] == logs[idx] && logs[idx..][1..] == logs[idx + 1..];
    var rest := Concat(logs[idx + 1..]);
    assert (log + logs[idx]) + rest == log + (logs[idx] + rest);
  }

  /** The lines before `idx` are rewritten and logged. */
  predicate Done(outs: seq<string>, logs: seq<seq<Entry>>, idx: nat, outLines: seq<string>, log: seq<Entry>) {
    idx <= |outs| && outLines == outs[..idx] && Logged(logs, idx, log)
  }

  lemma DoneTurn(outs: seq<string>, logs: seq<seq<Entry>>, idx: nat, outLines: seq<string>, log: seq<Entry>)
    requires idx < |outs| == |logs| && Done(outs, logs, idx, outLines, log)
    ensures Done(outs, logs, idx + 1, outLines + [outs[idx]], log + logs[idx])
  {
    LogTurn(logs, idx, log);
  }

  lemma DoneAll(outs: seq<string>, logs: seq<seq<Entry>>, outLines: seq<string>, log: seq<Entry>)
    requires |outs| == |logs| && Done(outs, logs, |outs|, outLines, log)
    ensures outLines == outs && log == Concat(logs)
  {
    assert logs[|logs|..] == [];
    assert Concat(logs[|logs|..]) == [];
  }

  method RewriteEach(lines: seq<string>) returns (outLines: seq<string>, log: seq<Entry>)
    ensures outLines == RewriteLines(lines) && log == Concat(LineLogs(lines))
  {
    outLines, log := [], [];
    ghost var outs, logs := RewriteLines(lines), LineLogs(lines);
    assert logs[0..] == logs;
    for idx := 0 to |lines|
      invariant Done(outs, logs, idx, outLines, log)
    {
      var current, entries := RewriteOne(idx + 1, lines[idx]);
      assert current == outs[idx] && entries == logs[idx];
      DoneTurn(outs, logs, idx, outLines, log);
      log := log + entries;
      outLines := outLines + [current];
    }
    DoneAll(outs, logs, outLines, log);
  }

  method RewriteText(text: string) returns (out: string, log: seq<Entry>)
    ensures out == Rewrite(text) && log == RewriteLog(text)
  {
    var outLines;
    outLines, log := RewriteEach(Lines(text));
    out := Assemble(outLines, EndsLf(text));
  }
}
