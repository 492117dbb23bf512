/** The brace checker of the MQL5 sanity check: a stack matching, the grammar of balanced
    braces, and a one-pass counter that decides both. */
module Mql5Braces {
  import opened Mql5Strip

  /** Depth at the end of the file is not zero; a closing brace at `line` has no opener. */
  datatype BraceError = Imbalance(depth: int) | StrayClose(line: nat)

  // ---------------------------------------------------------------- stack matching

  /** Positions of the openers still on the stack and of the closers that found it empty. */
  datatype Matching = Matching(open: seq<nat>, stray: seq<nat>)

  function Push(m: Matching, c: char, pos: nat): Matching {
    if c == '{' then m.(open := m.open + [pos])
    else if c == '}' then
      if m.open == [] then m.(stray := m.stray + [pos]) else m.(open := m.open[..|m.open| - 1])
    else m
  }

  function Match(s: string): (m: Matching)
    ensures forall p | p in m.stray :: p < |s|
  {
    if s == [] then Matching([], []) else Push(Match(s[..|s| - 1]), s[|s| - 1], |s| - 1)
  }

  function CountBreaks(s: string): nat {
    if s == [] then 0 else CountBreaks(s[..|s| - 1]) + if s[|s| - 1] == '\n' then 1 else 0
  }

  /** One-based line of position `pos`. */
  function LineOf(s: string, pos: nat): nat
    requires pos <= |s|
  {
    1 + CountBreaks(s[..pos])
  }

  // ---------------------------------------------------------------- grammar of balanced braces

  /** S -> empty | { S } S */
  datatype Tree = Leaf | Node(inner: Tree, rest: Tree)

  function Yield(t: Tree): string {
    match t case Leaf => [] case Node(i, r) => ['{'] + Yield(i) + ['}'] + Yield(r)
  }

  ghost predicate Balanced(w: string) { exists t :: Yield(t) == w }

  function Braces(s: string): string {
    if s == [] then []
    else Braces(s[..|s| - 1]) + if s[|s| - 1] == '{' || s[|s| - 1] == '}' then [s[|s| - 1]] else []
  }

  // ---------------------------------------------------------------- the counter

  function LastStrayLine(s: string): nat
    requires Match(s).stray != []
  {
    var m := Match(s);
    assert m.stray[|m.stray| - 1] in m.stray;
    LineOf(s, m.stray[|m.stray| - 1])
  }

  /** An imbalance reports unmatched openers minus unmatched closers; a stray closer reports the
      line of the last one. */
  function Reports(s: string): seq<BraceError> {
    var m := Match(s);
    (if |m.open| != |m.stray| then [Imbalance(|m.open| - |m.stray|)] else [])
    + (if m.stray != [] then [StrayClose(LastStrayLine(s))] else [])
  }

  method CheckBraceBalance(stripped: string) returns (errors: seq<BraceError>, ghost minDepth: int)
    ensures errors == Reports(stripped)
    ensures minDepth == -|Match(stripped).stray|
  {
    hide Match, LineOf, LastStrayLine;
    var depth, min, minLine, curLine := 0, 0, 0, 1;
    PrefixStart(stripped);
    for i := 0 to |stripped|
      invariant var m := Match(stripped[..i]);
        && min == -|m.stray| && depth - min == |m.open|
        && (m.stray != [] ==> minLine == LastStrayLine(stripped[..i]))
      invariant curLine == LineOf(stripped, i)
    {
      var ch := stripped[i];
      PrefixStep(stripped, i);
      if ch == '\n' {
        curLine := curLine + 1;
      } else if ch == '{' {
        depth := depth + 1;
      } else if ch == '}' {
        depth := depth - 1;
        if depth < min {
          min := depth;
          minLine := curLine;
        }
      }
    }
    assert stripped[..|stripped|] == stripped;
    minDepth := min;
    errors := [];
    if depth != 0 { errors := errors + [Imbalance(depth)]; }
    if min < 0 { errors := errors + [StrayClose(minLine)]; }
  }

  lemma PrefixStart(s: string)
    ensures Match(s[..0]) == Matching([], []) && LineOf(s, 0) == 1
  {
  }

  lemma PrefixStep(s: string, i: nat)
    requires i < |s|
    ensures var m, m' := Match(s[..i]), Match(s[..i + 1]);
            && m' == Push(m, s[i], i)
            && (m'.stray == m.stray != [] ==> LastStrayLine(s[..i + 1]) == LastStrayLine(s[..i]))
            && (m'.stray != m.stray ==> m'.stray != [] && LastStrayLine(s[..i + 1]) == LineOf(s, i))
    ensures LineOf(s, i + 1) == LineOf(s, i) + if s[i] == '\n' then 1 else 0
  {
    assert s[..i + 1][..i] == s[..i];
    var m, m' := Match(s[..i]), Match(s[..i + 1]);
    if m'.stray != [] {
      var p := m'.stray[|m'.stray| - 1];
      assert p in m'.stray;
      assert p <= i && s[..i + 1][..p] == s[..p];
      if p < i { assert s[..i][..p] == s[..p]; }
      if m'.stray == m.stray { assert p in m.stray; }
    }
  }

  function CountOf(s: string, c: char): nat {
    if s == [] then 0 else CountOf(s[..|s| - 1], c) + if s[|s| - 1] == c then 1 else 0
  }

  /** Matching removes one opener and one closer at a time. */
  lemma {:induction false} MatchCounts(s: string)
    ensures |Match(s).open| - |Match(s).stray| == CountOf(s, '{') - CountOf(s, '}')
  {
    if s != [] { MatchCounts(s[..|s| - 1]); }
  }

  /** The reported depth is the openers less the closers, and it is reported unless it is zero; the
      other error is reported exactly when some prefix has more closers than openers. */
  lemma ReportedDepth(s: string)
    ensures forall d :: Imbalance(d) in Reports(s) <==> d == CountOf(s, '{') - CountOf(s, '}') && d != 0
    ensures (exists line :: StrayClose(line) in Reports(s))
            <==> exists i: nat :: i <= |s| && CountOf(s[..i], '}') > CountOf(s[..i], '{')
  {
    hide Match, CountOf, Reports;
    MatchCounts(s);
    StrayIffPrefix(s);
    ReportShape(s);
  }

  lemma ReportShape(s: string)
    ensures forall d :: Imbalance(d) in Reports(s) <==> d == |Match(s).open| - |Match(s).stray| && d != 0
    ensures (exists line :: StrayClose(line) in Reports(s)) <==> Match(s).stray != []
  {
    hide Match, LastStrayLine;
    var imbalance: seq<BraceError> := if |Match(s).open| != |Match(s).stray|
                                      then [Imbalance(|Match(s).open| - |Match(s).stray|)] else [];
    var stray: seq<BraceError> := if Match(s).stray != [] then [StrayClose(LastStrayLine(s))] else [];
    assert Reports(s) == imbalance + stray;
    forall e
      ensures e in Reports(s) <==> e in imbalance || e in stray
    {
    }
    if Match(s).stray != [] { assert StrayClose(LastStrayLine(s)) in stray; }
  }

  /** A closer is unmatched exactly when up to somewhere the closers outnumber the openers. */
  lemma {:induction false} StrayIffPrefix(s: string)
    ensures Match(s).stray != []
            <==> exists i: nat :: i <= |s| && CountOf(s[..i], '}') > CountOf(s[..i], '{')
  {
    hide CountOf;
    MatchCounts(s);
    if s != [] {
      var n := |s| - 1;
      StrayIffPrefix(s[..n]);
      forall i: nat | i <= n
        ensures s[..n][..i] == s[..i]
      {
      }
      assert s[..|s|] == s;
    } else {
      NothingCounted();
    }
  }

  /** Closers less openers. */
  function Excess(s: string): int { CountOf(s, '}') - CountOf(s, '{') }

  lemma ExcessGrows(s: string, n: nat)
    requires n < |s|
    ensures Excess(s[..n + 1]) == Excess(s[..n]) + if s[n] == '}' then 1 else if s[n] == '{' then -1 else 0
  {
    assert s[..n + 1][..n] == s[..n];
  }

  /** The closer at `p` takes the excess higher than it has been before. */
  ghost predicate IsRecord(s: string, p: nat) {
    p < |s| && s[p] == '}' && forall i: nat | i <= p :: Excess(s[..i]) < Excess(s[..p + 1])
  }

  /** The number of unmatched closers is the highest excess of any prefix. */
  lemma {:induction false} StrayIsHighest(s: string)
    ensures forall i: nat | i <= |s| :: Excess(s[..i]) <= |Match(s).stray|
    ensures exists i: nat :: i <= |s| && Excess(s[..i]) == |Match(s).stray|
  {
    hide CountOf, Excess;
    if s == [] {
      NoExcess();
      assert s[..0] == [];
    } else {
      var n := |s| - 1;
      StrayIsHighest(s[..n]);
      forall i: nat | i <= n
        ensures s[..n][..i] == s[..i]
      {
      }
      ExcessGrows(s, n);
      OpenIsRest(s[..n]);
      assert s[..n + 1] == s;
      var i: nat :| i <= n && Excess(s[..n][..i]) == |Match(s[..n]).stray|;
      assert Excess(s[..i]) == |Match(s[..n]).stray|;
    }
  }

  lemma OpenIsRest(s: string)
    ensures |Match(s).open| == |Match(s).stray| - Excess(s)
  {
    MatchCounts(s);
  }

  lemma NoExcess()
    ensures Excess([]) == 0
  {
  }

  /** The unmatched closers are exactly the records, so the line reported is that of the last one. */
  lemma {:induction false} StrayIffRecord(s: string, p: nat)
    ensures p in Match(s).stray <==> IsRecord(s, p)
  {
    hide CountOf, Excess;
    if s != [] {
      var n := |s| - 1;
      if p < n {
        StrayIffRecord(s[..n], p);
        forall i: nat | i <= p + 1
          ensures s[..n][..i] == s[..i]
        {
        }
      } else if p == n {
        StrayIsHighest(s[..n]);
        OpenIsRest(s[..n]);
        ExcessGrows(s, n);
        forall i: nat | i <= n
          ensures s[..n][..i] == s[..i]
        {
        }
        assert n !in Match(s[..n]).stray;
      }
    }
  }

  lemma {:induction false} StrayAscends(s: string)
    ensures forall k, l | 0 <= k < l < |Match(s).stray| :: Match(s).stray[k] < Match(s).stray[l]
  {
    if s != [] {
      var n := |s| - 1;
      StrayAscends(s[..n]);
      var before := Match(s[..n]).stray;
      forall k | 0 <= k < |before|
        ensures before[k] < n
      {
        assert before[k] in before;
      }
    }
  }

  /** A reported stray closer stands on the line of the last record, lines counted from one. */
  lemma ReportedLine(s: string, line: nat)
    requires StrayClose(line) in Reports(s)
    ensures exists p: nat :: IsRecord(s, p) && (forall q: nat | q > p :: !IsRecord(s, q))
                             && line == 1 + CountOf(s[..p], '\n')
  {
    var stray := Match(s).stray;
    LineReported(s, line);
    hide Match, Reports, IsRecord;
    var k := |stray| - 1;
    var p := stray[k];
    assert p in stray;
    StrayIffRecord(s, p);
    StrayAscends(s);
    forall q: nat | q > p
      ensures !IsRecord(s, q)
    {
      StrayIffRecord(s, q);
      NotAfterLast(stray, q);
    }
    BreaksCounted(s[..p]);
  }

  lemma LineReported(s: string, line: nat)
    requires StrayClose(line) in Reports(s)
    ensures Match(s).stray != [] && line == LastStrayLine(s)
  {
    hide Match, LastStrayLine;
  }

  lemma NotAfterLast(stray: seq<nat>, q: nat)
    requires stray != [] && q > stray[|stray| - 1]
    requires forall k, l | 0 <= k < l < |stray| :: stray[k] < stray[l]
    ensures q !in stray
  {
  }

  lemma {:induction false} BreaksCounted(s: string)
    ensures CountBreaks(s) == CountOf(s, '\n')
  {
    if s != [] { BreaksCounted(s[..|s| - 1]); }
  }

  lemma NothingCounted()
    ensures forall c :: CountOf([], c) == 0
  {
  }

  // ---------------------------------------------------------------- matching against the grammar

  /** Where the positions do not matter, a matching is two counts. */
  lemma MatchAppend(w: string, c: char)
    ensures Match(w + [c]) == Push(Match(w), c, |w|)
  {
    assert (w + [c])[..|w|] == w;
  }

  lemma {:induction false} MatchBraces(s: string)
    ensures |Match(Braces(s)).open| == |Match(s).open| && |Match(Braces(s)).stray| == |Match(s).stray|
  {
    if s != [] {
      var n := |s| - 1;
      MatchBraces(s[..n]);
      if s[n] == '{' || s[n] == '}' {
        assert Braces(s) == Braces(s[..n]) + [s[n]];
        MatchAppend(Braces(s[..n]), s[n]);
      } else {
        assert Braces(s) == Braces(s[..n]);
      }
    }
  }

  ghost predicate SameCounts(a: Matching, b: Matching) { |a.open| == |b.open| && |a.stray| == |b.stray| }

  /** A balanced word leaves the stack as it found it. */
  lemma {:induction false} YieldMatches(w: string, t: Tree)
    ensures SameCounts(Match(w + Yield(t)), Match(w))
    decreases t
  {
    hide Match;
    match t
    case Leaf =>
      assert w + Yield(t) == w;
    case Node(i, r) =>
      var w1 := w + ['{'];
      var w2 := w1 + Yield(i);
      var w3 := w2 + ['}'];
      MatchAppend(w, '{');
      YieldMatches(w1, i);
      MatchAppend(w2, '}');
      YieldMatches(w3, r);
      assert w + Yield(t) == w3 + Yield(r);
  }

  function Append(t: Tree, u: Tree): Tree {
    match t case Leaf => u case Node(i, r) => Node(i, Append(r, u))
  }

  lemma Regroup(a: string, b: string, c: string)
    ensures a + (b + c) == (a + b) + c
  {
  }

  lemma {:induction false} YieldAppend(t: Tree, u: Tree)
    ensures Yield(Append(t, u)) == Yield(t) + Yield(u)
  {
    match t
    case Leaf =>
    case Node(i, r) =>
      var head := ['{'] + Yield(i) + ['}'];
      calc {
        Yield(Append(t, u));
        head + Yield(Append(r, u));
        { YieldAppend(r, u); }
        head + (Yield(r) + Yield(u));
        { Regroup(head, Yield(r), Yield(u)); }
        (head + Yield(r)) + Yield(u);
      }
  }

  /** Balanced words with one unmatched opener between each two. */
  function Spine(ts: seq<Tree>): string
    requires ts != []
  {
    var n := |ts| - 1;
    if n == 0 then Yield(ts[0]) else Spine(ts[..n]) + ['{'] + Yield(ts[n])
  }

  lemma SpineEmpty()
    ensures Spine([Leaf]) == [] && Match([]) == Matching([], [])
  {
  }

  lemma SpineOpens(ts: seq<Tree>)
    requires ts != []
    ensures Spine(ts + [Leaf]) == Spine(ts) + ['{']
  {
    assert (ts + [Leaf])[..|ts|] == ts;
  }

  lemma SpineCloses(ts: seq<Tree>) returns (us: seq<Tree>)
    requires |ts| >= 2
    ensures |us| == |ts| - 1 && Spine(us) == Spine(ts) + ['}']
  {
    var k := |ts| - 1;
    var inner, outer := ts[k], ts[k - 1];
    var joined := Append(outer, Node(inner, Leaf));
    YieldAppend(outer, Node(inner, Leaf));
    assert Yield(joined) == Yield(outer) + (['{'] + Yield(inner) + ['}']);
    us := ts[..k - 1] + [joined];
    assert ts[..k][..k - 1] == ts[..k - 1] == us[..k - 1];
  }

  /** A word of braces without a stray closer is a spine: its openers left on the stack cut it
      into balanced words. */
  lemma {:induction false} SpineOf(w: string) returns (ts: seq<Tree>)
    requires forall k | 0 <= k < |w| :: w[k] == '{' || w[k] == '}'
    requires Match(w).stray == []
    ensures |ts| == |Match(w).open| + 1 && Spine(ts) == w
    decreases |w|
  {
    hide Spine, Match;
    SpineEmpty();
    if w == [] {
      ts := [Leaf];
    } else {
      var n := |w| - 1;
      assert w == w[..n] + [w[n]];
      MatchAppend(w[..n], w[n]);
      ts := SpineOf(w[..n]);
      if w[n] == '{' {
        SpineOpens(ts);
        ts := ts + [Leaf];
      } else {
        ts := SpineCloses(ts);
      }
    }
  }

  lemma {:induction false} OnlyBraces(s: string)
    ensures forall k | 0 <= k < |Braces(s)| :: Braces(s)[k] == '{' || Braces(s)[k] == '}'
  {
    if s != [] { OnlyBraces(s[..|s| - 1]); }
  }

  /** Every brace is matched exactly when the braces derive from the grammar. */
  lemma MatchedIffBalanced(s: string)
    ensures Match(s) == Matching([], []) <==> Balanced(Braces(s))
  {
    MatchBraces(s);
    if Match(s) == Matching([], []) {
      OnlyBraces(s);
      var ts := SpineOf(Braces(s));
      assert Yield(ts[0]) == Braces(s);
    }
    if Balanced(Braces(s)) {
      var t :| Yield(t) == Braces(s);
      YieldMatches([], t);
      assert [] + Yield(t) == Braces(s);
    }
  }

  /** The checker reports nothing exactly when the braces derive from the grammar. */
  lemma NoErrorsIffBalanced(s: string)
    ensures Reports(s) == [] <==> Balanced(Braces(s))
  {
    MatchedIffBalanced(s);
  }

  // ---------------------------------------------------------------- after stripping

  /** The braces that are code: those that are plain tokens. */
  ghost function CodeBraces(text: string, i: nat, tokens: seq<Token>): string
    requires Lexes(text, i, tokens)
    decreases |tokens|
  {
    if tokens == [] then []
    else
      (if tokens[0].kind == Plain then Braces([text[i]]) else [])
      + CodeBraces(text, tokens[0].end, tokens[1..])
  }

  lemma {:induction false} BracesAppend(a: string, b: string)
    ensures Braces(a + b) == Braces(a) + Braces(b)
    decreases |b|
  {
    if b == [] {
      assert a + b == a;
    } else {
      var n := |b| - 1;
      BracesAppend(a, b[..n]);
      assert (a + b)[..|a + b| - 1] == a + b[..n];
    }
  }

  lemma {:induction false} NoBraces(s: string)
    requires forall k | 0 <= k < |s| :: s[k] != '{' && s[k] != '}'
    ensures Braces(s) == []
  {
    if s != [] { NoBraces(s[..|s| - 1]); }
  }

  lemma BlankBraces(text: string, i: nat)
    requires i < |text|
    ensures var t := TokenAt(text, i);
            Braces(Blank(text, i, t)) == if t.kind == Plain then Braces([text[i]]) else []
  {
    hide Braces;
    var t := TokenAt(text, i);
    var b := Blank(text, i, t);
    if t.kind == Plain { assert b == [text[i]]; } else { NoBraces(b); }
  }

  /** Checking the stripped text looks at code only: braces in comments and literals never count. */
  lemma {:induction false} StrippedBracesAreCode(text: string, i: nat, tokens: seq<Token>)
    requires i <= |text| && Lexes(text, i, tokens)
    ensures Braces(StripFrom(text, i)) == CodeBraces(text, i, tokens)
    decreases |tokens|
  {
    hide IsToken, TokenAt;
    if tokens != [] {
      var t := tokens[0];
      TokenUnique(text, i, t);
      StrippedBracesAreCode(text, t.end, tokens[1..]);
      BlankBraces(text, i);
      hide Blank;
      BracesAppend(Blank(text, i, t), StripFrom(text, t.end));
    }
  }
}
