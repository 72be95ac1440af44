/** What the rewrite does to line endings, and so when a text comes back unchanged. */
module RewriterText {
  import opened Strings
  import opened Toolchain
  import opened Rewriter

  predicate CrLfAt(text: string, j: nat) { j + 1 < |text| && text[j] == '\r' && text[j + 1] == '\n' }

  predicate CrCrLfAt(text: string, j: nat) { j + 2 < |text| && text[j] == '\r' && CrLfAt(text, j + 1) }

  ghost predicate HasCrLf(text: string) { exists j: nat :: CrLfAt(text, j) }

  ghost predicate HasCrCrLf(text: string) { exists j: nat :: CrCrLfAt(text, j) }

  predicate NoLf(s: string) { '\n' !in s }

  // ---- Cutting at the first line feed ----

  lemma CrLfCut(t: string, rest: string)
    requires NoLf(t)
    ensures HasCrLf(t + "\n" + rest) <==> EndsCr(t) || HasCrLf(rest)
  {
    var text := t + "\n" + rest;
    assert text[|t|] == '\n';
    assert forall j :: 0 <= j < |t| ==> text[j] == t[j];
    assert forall j :: 0 <= j < |rest| ==> text[|t| + 1 + j] == rest[j];
    if EndsCr(t) {
      assert CrLfAt(text, |t| - 1);
    }
    if HasCrLf(rest) {
      var j: nat :| CrLfAt(rest, j);
      assert CrLfAt(text, |t| + 1 + j);
    }
    if HasCrLf(text) {
      var j: nat :| CrLfAt(text, j);
      if j + 1 > |t| {
        assert CrLfAt(rest, j - |t| - 1);
      }
    }
  }

  lemma CrCrLfCut(t: string, rest: string)
    requires NoLf(t)
    ensures HasCrCrLf(t + "\n" + rest) <==> EndsCr(Chomp(t)) || HasCrCrLf(rest)
  {
    var text := t + "\n" + rest;
    assert text[|t|] == '\n';
    assert forall j :: 0 <= j < |t| ==> text[j] == t[j];
    assert forall j :: 0 <= j < |rest| ==> text[|t| + 1 + j] == rest[j];
    if EndsCr(Chomp(t)) {
      assert CrCrLfAt(text, |t| - 2);
    }
    if HasCrCrLf(rest) {
      var j: nat :| CrCrLfAt(rest, j);
      assert CrCrLfAt(text, |t| + 1 + j);
    }
    if HasCrCrLf(text) {
      var j: nat :| CrCrLfAt(text, j);
      if j + 2 > |t| {
        assert CrCrLfAt(rest, j - |t| - 1);
      }
    }
  }

  lemma NoneWithoutLf(text: string)
    requires NoLf(text)
    ensures !HasCrLf(text) && !HasCrCrLf(text)
  {
  }

  lemma Cut(text: string) returns (t: string, rest: string)
    requires !NoLf(text)
    ensures text == t + "\n" + rest && NoLf(t) && |rest| < |text|
    ensures Lines(text) == [Chomp(t)] + Lines(rest)
    ensures EndsLf(text) <==> rest == [] || EndsLf(rest)
  {
    var i := Find(text, '\n');
    assert text[..|text|] == text;
    t, rest := text[..i], text[i + 1..];
  }

  lemma AssembleCons(p: string, rest: string, final: bool)
    requires final <==> rest == [] || EndsLf(rest)
    ensures Assemble([p] + Lines(rest), final) == p + "\n" + Assemble(Lines(rest), EndsLf(rest))
  {
    assert ([p] + Lines(rest))[1..] == Lines(rest);
    if rest != [] {
      LinesSome(rest);
    }
  }

  lemma LinesSome(text: string)
    requires text != []
    ensures Lines(text) != []
  {
  }

  // ---- Lines put back together ----

  /** Splitting and joining loses exactly the carriage returns before line feeds. */
  lemma {:induction false} RestoredExactly(text: string)
    ensures |Assemble(Lines(text), EndsLf(text))| <= |text|
    ensures Assemble(Lines(text), EndsLf(text)) == text <==> !HasCrLf(text)
    ensures |Assemble(Lines(text), EndsLf(text))| == |text| ==> !HasCrLf(text)
    decreases |text|
  {
    if NoLf(text) {
      NoneWithoutLf(text);
      WholeLine(text);
    } else {
      var t, rest := Cut(text);
      RestoredExactly(rest);
      AssembleCons(Chomp(t), rest, EndsLf(text));
      CrLfCut(t, rest);
    }
  }

  lemma WholeLine(text: string)
    requires NoLf(text)
    ensures Lines(text) == (if text == [] then [] else [text]) && !EndsLf(text)
    ensures Assemble(Lines(text), EndsLf(text)) == text
  {
    var i := Find(text, '\n');
    assert i == |text|;
  }

  /** A text the log is silent about comes back unchanged exactly when it has no line ending in CR LF. */
  lemma SilentExactly(text: string)
    requires RewriteLog(text) == []
    ensures Rewrite(text) == text <==> !HasCrLf(text)
  {
    LogEmptyExactly(Lines(text));
    RestoredExactly(text);
  }

  // ---- Rewriting twice ----

  /** What cutting a joined text gives back: each terminated line loses a trailing carriage return. */
  function Chomped(ps: seq<string>, final: bool): seq<string> {
    if ps == [] then []
    else if |ps| == 1 then [if final then Chomp(ps[0]) else ps[0]]
    else [Chomp(ps[0])] + Chomped(ps[1..], final)
  }

  predicate Lined(ps: seq<string>, final: bool) {
    (forall i :: 0 <= i < |ps| ==> NoLf(ps[i])) && (ps != [] && !final ==> ps[|ps| - 1] != [])
  }

  lemma FindJoined(p: string, rest: string)
    requires NoLf(p)
    ensures Find(p + "\n" + rest, '\n') == |p|
  {
    var s := p + "\n" + rest;
    var i := Find(s, '\n');
    assert s[|p|] == '\n';
    assert forall j :: 0 <= j < |p| ==> s[j] == p[j];
  }

  lemma LinesJoined(p: string, rest: string)
    requires NoLf(p)
    ensures Lines(p + "\n" + rest) == [Chomp(p)] + Lines(rest)
    ensures EndsLf(p + "\n" + rest) <==> rest == [] || EndsLf(rest)
  {
    var s := p + "\n" + rest;
    FindJoined(p, rest);
    assert s[..|p|] == p && s[|p| + 1..] == rest;
    assert rest != [] ==> s[|s| - 1] == rest[|rest| - 1];
  }

  lemma {:induction false} LinesAssemble(ps: seq<string>, final: bool)
    requires Lined(ps, final)
    ensures Lines(Assemble(ps, final)) == Chomped(ps, final)
    ensures EndsLf(Assemble(ps, final)) <==> final && ps != []
    ensures ps != [] ==> Assemble(ps, final) != []
  {
    if |ps| == 1 {
      if final {
        assert ps[0] + "\n" == ps[0] + "\n" + "";
        LinesJoined(ps[0], "");
      } else {
        assert ps[0] + "" == ps[0];
        WholeLine(ps[0]);
      }
    } else if |ps| > 1 {
      LinesAssemble(ps[1..], final);
      LinesJoined(ps[0], Assemble(ps[1..], final));
    }
  }

  lemma {:induction false} LinesLined(text: string)
    ensures Lined(Lines(text), EndsLf(text))
    decreases |text|
  {
    if NoLf(text) {
      WholeLine(text);
    } else {
      var t, rest := Cut(text);
      LinesLined(rest);
    }
  }

  lemma RewriteLined(ps: seq<string>, final: bool)
    requires Lined(ps, final)
    ensures Lined(RewriteLines(ps), final)
  {
    forall i | 0 <= i < |ps| ensures NoLf(RewriteLines(ps)[i]) {
      LineCounts(ps[i], '\n');
    }
    if ps != [] {
      LineGrows(ps[|ps| - 1]);
    }
  }

  /** Every terminated line free of a trailing carriage return. */
  predicate Tidy(ps: seq<string>, final: bool) {
    if ps == [] then true
    else if |ps| == 1 then final ==> !EndsCr(ps[0])
    else !EndsCr(ps[0]) && Tidy(ps[1..], final)
  }

  function Crs(ps: seq<string>): nat {
    if ps == [] then 0 else Count(ps[0], '\r') + Crs(ps[1..])
  }

  lemma ChompCount(p: string)
    ensures Count(Chomp(p), '\r') == Count(p, '\r') - (if EndsCr(p) then 1 else 0)
  {
    if EndsCr(p) {
      assert p == Chomp(p) + ['\r'];
    }
  }

  lemma {:induction false} ChompedCrs(ps: seq<string>, final: bool)
    ensures Crs(Chomped(ps, final)) <= Crs(ps)
    ensures Tidy(ps, final) ==> Chomped(ps, final) == ps
    ensures !Tidy(ps, final) ==> Crs(Chomped(ps, final)) < Crs(ps)
  {
    if ps != [] {
      ChompCount(ps[0]);
      if |ps| > 1 {
        ChompedCrs(ps[1..], final);
        assert Chomped(ps, final)[1..] == Chomped(ps[1..], final);
      }
    }
  }

  lemma {:induction false} AssembleCrs(ps: seq<string>, final: bool)
    ensures Count(Assemble(ps, final), '\r') == Crs(ps)
  {
    if |ps| == 1 {
      CountJoin(ps[0], if final then "\n" else "", '\r');
    } else if |ps| > 1 {
      AssembleCrs(ps[1..], final);
      CountJoin(ps[0] + "\n", Assemble(ps[1..], final), '\r');
      CountJoin(ps[0], "\n", '\r');
    }
  }

  lemma {:induction false} RewriteCrs(ps: seq<string>)
    ensures Crs(RewriteLines(ps)) == Crs(ps)
  {
    if ps != [] {
      LineCounts(ps[0], '\r');
      RewriteCrs(ps[1..]);
      assert RewriteLines(ps)[1..] == RewriteLines(ps[1..]);
    }
  }

  lemma {:induction false} RewriteTidy(ps: seq<string>, final: bool)
    ensures Tidy(RewriteLines(ps), final) <==> Tidy(ps, final)
  {
    if ps != [] {
      LineEnd(ps[0]);
      RewriteTidy(ps[1..], final);
      assert RewriteLines(ps)[1..] == RewriteLines(ps[1..]);
    }
  }

  lemma RewriteLinesTwice(ps: seq<string>)
    ensures RewriteLines(RewriteLines(ps)) == RewriteLines(ps)
  {
    forall i | 0 <= i < |ps| ensures RewriteLines(RewriteLines(ps))[i] == RewriteLines(ps)[i] {
      LineIdempotent(ps[i]);
    }
  }

  lemma {:induction false} TidyText(text: string)
    ensures Tidy(Lines(text), EndsLf(text)) <==> !HasCrCrLf(text)
    decreases |text|
  {
    if NoLf(text) {
      NoneWithoutLf(text);
      WholeLine(text);
    } else {
      var t, rest := Cut(text);
      TidyText(rest);
      CrCrLfCut(t, rest);
      assert Lines(text)[1..] == Lines(rest);
      if rest != [] {
        LinesSome(rest);
      }
    }
  }

  lemma Twice(text: string)
    ensures var ps := RewriteLines(Lines(text));
            Rewrite(Rewrite(text)) == Assemble(RewriteLines(Chomped(ps, EndsLf(text))), EndsLf(text))
  {
    LinesLined(text);
    RewriteLined(Lines(text), EndsLf(text));
    LinesAssemble(RewriteLines(Lines(text)), EndsLf(text));
    if text != [] {
      LinesSome(text);
    }
  }

  /** Rewriting a rewritten text changes nothing exactly when no line of it ended in CR CR LF. */
  lemma IdempotentExactly(text: string)
    ensures Rewrite(Rewrite(text)) == Rewrite(text) <==> !HasCrCrLf(text)
  {
    var ps, final := RewriteLines(Lines(text)), EndsLf(text);
    Twice(text);
    TidyText(text);
    RewriteTidy(Lines(text), final);
    ChompedCrs(ps, final);
    RewriteLinesTwice(Lines(text));
    AssembleCrs(ps, final);
    AssembleCrs(RewriteLines(Chomped(ps, final)), final);
    RewriteCrs(Chomped(ps, final));
  }

  /** Two carriage returns before a line feed: the second rewrite drops another. */
  lemma NotIdempotent()
    ensures Rewrite(Rewrite("\r\r\n")) != Rewrite("\r\r\n")
  {
    assert CrCrLfAt("\r\r\n", 0);
    IdempotentExactly("\r\r\n");
  }

  lemma EmptyLine()
    ensures RewriteLine("") == ""
  {
    var ts, us := LineTokens("");
    if ts != [] {
      FlattenLast(ts);
    }
  }

  /** An empty line ending in CR LF changes and nothing is logged. */
  lemma SilentChange()
    ensures RewriteLog("\r\n") == [] && Rewrite("\r\n") != "\r\n"
  {
    var text := "\r\n";
    FindJoined("\r", "");
    assert text == "\r" + "\n" + "";
    LinesJoined("\r", "");
    assert Chomp("\r") == "" && Lines(text) == [""];
    EmptyLine();
    LogEmptyExactly([""]);
    assert CrLfAt(text, 0);
    SilentExactly(text);
  }
}
