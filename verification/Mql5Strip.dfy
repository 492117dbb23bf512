/** The comment and literal stripper of the MQL5 sanity check: a token grammar, the stripper
    that follows it, and what its output never contains. */
module Mql5Strip {
  import opened Common

  // ---------------------------------------------------------------- grammar

  /** A plain character, a closed and an unterminated block comment, a line comment, and a
      string or character literal (closed, or running to the end of the file). */
  datatype Kind = Plain | Block | OpenBlock | Line | Literal

  datatype Token = Token(kind: Kind, end: nat)

  predicate IsQuote(c: char) { c == '"' || c == '\'' }

  predicate At(text: string, i: int, a: char, b: char) {
    0 <= i && i + 1 < |text| && text[i] == a && text[i + 1] == b
  }

  predicate OpensComment(text: string, i: int) { At(text, i, '/', '*') || At(text, i, '/', '/') }

  /** One piece of a literal's body: a backslash with the character it escapes, or a character
      that is neither the quote nor, unless it ends the file, a backslash. */
  predicate IsPiece(text: string, q: char, from: nat, to: nat) {
    && from < to <= |text|
    && if text[from] == '\\' && from + 1 < |text| then to == from + 2 else to == from + 1 && text[from] != q
  }

  /** `cuts` divide the text between its first and its last element into pieces. */
  ghost predicate IsCut(text: string, q: char, cuts: seq<nat>) {
    cuts != [] && forall k, l | 0 <= k && l == k + 1 < |cuts| :: IsPiece(text, q, cuts[k], cuts[l])
  }

  /** Pieces fill the body from `j`; it ends just after a bare quote, or unclosed with the file. */
  ghost predicate IsLiteralBody(text: string, q: char, j: nat, end: nat, cuts: seq<nat>) {
    && IsCut(text, q, cuts) && cuts[0] == j
    && var last := cuts[|cuts| - 1];
       if last < |text| then text[last] == q && end == last + 1
       else last == |text| == end
  }

  ghost predicate LiteralBody(text: string, q: char, j: nat, end: nat) {
    exists cuts :: IsLiteralBody(text, q, j, end, cuts)
  }

  /** `t` is a token of `text` at `i`, taking as much as its kind allows. */
  ghost predicate IsToken(text: string, i: nat, t: Token) {
    && i < t.end <= |text|
    && match t.kind
       case Plain => t.end == i + 1 && !IsQuote(text[i]) && !OpensComment(text, i)
       case Block =>
         && At(text, i, '/', '*') && i + 4 <= t.end && At(text, t.end - 2, '*', '/')
         && forall k | i + 2 <= k < t.end - 2 :: !At(text, k, '*', '/')
       case OpenBlock =>
         At(text, i, '/', '*') && t.end == |text| && forall k | i + 2 <= k < |text| :: !At(text, k, '*', '/')
       case Line =>
         && At(text, i, '/', '/') && (forall k | i <= k < t.end :: text[k] != '\n')
         && (t.end == |text| || text[t.end] == '\n')
       case Literal => IsQuote(text[i]) && LiteralBody(text, text[i], i + 1, t.end)
  }

  /** `tokens` cut `text` from `i` to its end. */
  ghost predicate Lexes(text: string, i: nat, tokens: seq<Token>)
    decreases |tokens|
  {
    if tokens == [] then i == |text|
    else IsToken(text, i, tokens[0]) && Lexes(text, tokens[0].end, tokens[1..])
  }

  /** The characters that stand for one token: itself, or blanks that keep line breaks unless
      the token is an unterminated comment. */
  function Blank(text: string, i: nat, t: Token): string
    requires i <= t.end <= |text|
  {
    seq(t.end - i, p requires 0 <= p < t.end - i =>
      if t.kind == Plain || (text[i + p] == '\n' && t.kind != OpenBlock) then text[i + p] else ' ')
  }

  ghost function Blanked(text: string, i: nat, tokens: seq<Token>): string
    requires Lexes(text, i, tokens)
    decreases |tokens|
  {
    if tokens == [] then [] else Blank(text, i, tokens[0]) + Blanked(text, tokens[0].end, tokens[1..])
  }

  // ---------------------------------------------------------------- the scanner's choice of token

  /** First close of a block comment at or after `from`. */
  function FindClose(text: string, from: nat): (j: Option<nat>)
    ensures j.None? ==> forall k | from <= k < |text| :: !At(text, k, '*', '/')
    ensures j.Some? ==> from <= j.value && At(text, j.value, '*', '/')
                        && forall k | from <= k < j.value :: !At(text, k, '*', '/')
    decreases |text| - from
  {
    if from >= |text| then None
    else if At(text, from, '*', '/') then Some(from)
    else FindClose(text, from + 1)
  }

  /** First line break at or after `from`, or the end of the text. */
  function LineEnd(text: string, from: nat): (j: nat)
    requires from <= |text|
    ensures from <= j <= |text| && (forall k | from <= k < j :: text[k] != '\n') && (j < |text| ==> text[j] == '\n')
    decreases |text| - from
  {
    if from == |text| || text[from] == '\n' then from else LineEnd(text, from + 1)
  }

  function LiteralEnd(text: string, q: char, j: nat): (end: nat)
    requires j <= |text|
    ensures j <= end <= |text|
    decreases |text| - j
  {
    if j >= |text| then |text|
    else if text[j] == '\\' && j + 1 < |text| then LiteralEnd(text, q, j + 2)
    else if text[j] == q then j + 1
    else LiteralEnd(text, q, j + 1)
  }

  function TokenAt(text: string, i: nat): (t: Token)
    requires i < |text|
    ensures i < t.end <= |text| && (t.kind == OpenBlock ==> t.end == |text|)
  {
    if At(text, i, '/', '*') then
      var close := FindClose(text, i + 2);
      if close.Some? then Token(Block, close.value + 2) else Token(OpenBlock, |text|)
    else if At(text, i, '/', '/') then Token(Line, LineEnd(text, i))
    else if IsQuote(text[i]) then Token(Literal, LiteralEnd(text, text[i], i + 1))
    else Token(Plain, i + 1)
  }

  /** What the scanner takes is a body, and no other end is possible. */
  lemma {:induction false} LiteralEndIsBody(text: string, q: char, j: nat) returns (cuts: seq<nat>)
    requires j <= |text| && IsQuote(q)
    ensures IsLiteralBody(text, q, j, LiteralEnd(text, q, j), cuts)
    decreases |text| - j
  {
    if j < |text| && text[j] != q {
      var next := if text[j] == '\\' && j + 1 < |text| then j + 2 else j + 1;
      var rest := LiteralEndIsBody(text, q, next);
      cuts := [j] + rest;
    } else {
      cuts := [j];
    }
  }

  lemma {:induction false} LiteralBodyEnds(text: string, q: char, j: nat, end: nat, cuts: seq<nat>)
    requires IsQuote(q) && IsLiteralBody(text, q, j, end, cuts)
    ensures j <= |text| && end == LiteralEnd(text, q, j)
    decreases |cuts|
  {
    if |cuts| > 1 {
      assert IsPiece(text, q, cuts[0], cuts[1]);
      LiteralBodyEnds(text, q, cuts[1], end, cuts[1..]);
    }
  }

  lemma TokenAtIsToken(text: string, i: nat)
    requires i < |text|
    ensures IsToken(text, i, TokenAt(text, i))
  {
    if TokenAt(text, i).kind == Literal {
      var cuts := LiteralEndIsBody(text, text[i], i + 1);
    }
  }

  function LexFrom(text: string, i: nat): (tokens: seq<Token>)
    requires i <= |text|
    ensures Lexes(text, i, tokens)
    decreases |text| - i
  {
    if i == |text| then []
    else
      TokenAtIsToken(text, i);
      var t := TokenAt(text, i);
      [t] + LexFrom(text, t.end)
  }

  function StripFrom(text: string, i: nat): (out: string)
    requires i <= |text|
    ensures |out| == |text| - i
    decreases |text| - i
  {
    if i == |text| then []
    else
      var t := TokenAt(text, i);
      Blank(text, i, t) + StripFrom(text, t.end)
  }

  function Strip(text: string): string { StripFrom(text, 0) }

  // ---------------------------------------------------------------- the scanner follows the grammar

  lemma TokenUnique(text: string, i: nat, t: Token)
    requires IsToken(text, i, t)
    ensures i < |text| && t == TokenAt(text, i)
  {
    var u := TokenAt(text, i);
    TokenAtIsToken(text, i);
    if t.kind == Literal {
      var cuts :| IsLiteralBody(text, text[i], i + 1, t.end, cuts);
      LiteralBodyEnds(text, text[i], i + 1, t.end, cuts);
    }
    if t.kind == Block {
      assert At(text, t.end - 2, '*', '/');
      assert u.kind == Block && At(text, u.end - 2, '*', '/');
    }
  }

  /** A text has exactly one cut into tokens, and stripping is blanking those tokens. */
  lemma {:induction false} StripMeetsGrammar(text: string, i: nat, tokens: seq<Token>)
    requires i <= |text| && Lexes(text, i, tokens)
    ensures tokens == LexFrom(text, i)
    ensures StripFrom(text, i) == Blanked(text, i, tokens)
    decreases |tokens|
  {
    if tokens != [] {
      TokenUnique(text, i, tokens[0]);
      StripMeetsGrammar(text, tokens[0].end, tokens[1..]);
    }
  }

  // ---------------------------------------------------------------- what is left

  /** Nothing that opens a literal or a comment. */
  ghost predicate Clean(s: string) {
    && (forall k | 0 <= k < |s| :: s[k] != '"' && s[k] != '\'')
    && (forall k, l | 0 <= k && l == k + 1 < |s| :: s[k] == '/' ==> s[l] != '/' && s[l] != '*')
  }

  lemma CleanIff(s: string)
    ensures Clean(s) <==> forall k | 0 <= k < |s| :: !IsQuote(s[k]) && !OpensComment(s, k)
  {
    if Clean(s) {
      forall k | 0 <= k < |s|
        ensures !IsQuote(s[k]) && !OpensComment(s, k)
      {
        if k + 1 < |s| { assert s[k] == '/' ==> s[k + 1] != '/' && s[k + 1] != '*'; }
      }
    }
    if forall k | 0 <= k < |s| :: !IsQuote(s[k]) && !OpensComment(s, k) {
      forall k, l | 0 <= k && l == k + 1 < |s| && s[k] == '/'
        ensures s[l] != '/' && s[l] != '*'
      {
        assert !OpensComment(s, k);
      }
    }
  }

  lemma FirstChar(text: string, i: nat)
    requires i < |text|
    ensures StripFrom(text, i)[0] in {text[i], ' ', '\n'}
  {
  }

  lemma CleanJoin(a: string, b: string)
    requires Clean(a) && Clean(b)
    requires a != [] && b != [] && a[|a| - 1] == '/' ==> b[0] !in {'/', '*'}
    ensures Clean(a + b)
  {
    CleanIff(a);
    CleanIff(b);
    CleanIff(a + b);
    forall k | 0 <= k < |a + b|
      ensures !IsQuote((a + b)[k]) && !OpensComment(a + b, k)
    {
      if k < |a| {
        assert !OpensComment(a, k);
      } else {
        assert !OpensComment(b, k - |a|) && !IsQuote(b[k - |a|]);
      }
    }
  }

  lemma BlankIsClean(text: string, i: nat)
    requires i < |text|
    ensures var t := TokenAt(text, i); var b := Blank(text, i, t);
            && Clean(b) && b != []
            && (b[|b| - 1] == '/' ==> t.end == i + 1 && !OpensComment(text, i) && text[i] == '/')
  {
    CleanIff(Blank(text, i, TokenAt(text, i)));
  }

  lemma {:induction false} OutputIsClean(text: string, i: nat)
    requires i <= |text|
    ensures Clean(StripFrom(text, i))
    decreases |text| - i
  {
    if i < |text| {
      BlankIsClean(text, i);
      var t := TokenAt(text, i);
      OutputIsClean(text, t.end);
      if t.end < |text| { FirstChar(text, t.end); }
      hide TokenAt, Clean, Blank;
      CleanJoin(Blank(text, i, t), StripFrom(text, t.end));
    }
  }

  lemma CleanToken(s: string, i: nat)
    requires i < |s| && Clean(s)
    ensures TokenAt(s, i) == Token(Plain, i + 1) && Blank(s, i, Token(Plain, i + 1)) == [s[i]]
  {
    CleanIff(s);
    assert !IsQuote(s[i]) && !OpensComment(s, i);
  }

  lemma {:induction false} CleanIsFixed(s: string, i: nat)
    requires i <= |s| && Clean(s)
    ensures StripFrom(s, i) == s[i..]
    decreases |s| - i
  {
    hide TokenAt, Blank, Clean;
    if i < |s| {
      CleanToken(s, i);
      CleanIsFixed(s, i + 1);
    }
  }

  /** Same length, nothing left to strip, and stripping again changes nothing. */
  lemma StripIdempotent(text: string)
    ensures |Strip(text)| == |text| && Clean(Strip(text)) && Strip(Strip(text)) == Strip(text)
  {
    OutputIsClean(text, 0);
    CleanIsFixed(Strip(text), 0);
  }

  // ---------------------------------------------------------------- line breaks

  /** Where the unterminated block comment starts, if there is one. */
  function OpenBlockStart(text: string, i: nat): (s: Option<nat>)
    requires i <= |text|
    ensures s.Some? ==> i <= s.value < |text|
    decreases |text| - i
  {
    if i == |text| then None
    else
      var t := TokenAt(text, i);
      if t.kind == OpenBlock then Some(i) else OpenBlockStart(text, t.end)
  }

  lemma StripSplits(text: string, i: nat, p: nat)
    requires i <= p < |text|
    ensures var t := TokenAt(text, i);
            StripFrom(text, i)[p - i] ==
            if p < t.end then Blank(text, i, t)[p - i] else StripFrom(text, t.end)[p - t.end]
  {
    hide TokenAt, Blank;
  }

  /** Line breaks stay where they were up to the unterminated comment; inside it they vanish. */
  lemma {:induction false} BreaksBefore(text: string, i: nat, p: nat)
    requires i <= p < |text|
    ensures var start := OpenBlockStart(text, i);
            StripFrom(text, i)[p - i] == '\n' <==> text[p] == '\n' && (start.None? || p < start.value)
    decreases |text| - i
  {
    hide TokenAt;
    StripSplits(text, i, p);
    if p >= TokenAt(text, i).end { BreaksBefore(text, TokenAt(text, i).end, p); }
  }

  /** Line breaks are kept exactly when no unterminated block comment swallows one. */
  lemma LineBreaksKeptIff(text: string)
    ensures (forall p | 0 <= p < |text| :: Strip(text)[p] == '\n' <==> text[p] == '\n')
            <==> (var start := OpenBlockStart(text, 0); start.None? || '\n' !in text[start.value..])
  {
    hide StripFrom, OpenBlockStart;
    var start := OpenBlockStart(text, 0);
    forall p: nat | p < |text|
      ensures Strip(text)[p] == '\n' <==> text[p] == '\n' && (start.None? || p < start.value)
    {
      BreaksBefore(text, 0, p);
    }
    if start.Some? && '\n' in text[start.value..] {
      var k :| 0 <= k < |text| - start.value && text[start.value..][k] == '\n';
      assert text[start.value + k] == '\n' && Strip(text)[start.value + k] != '\n';
    }
    if start.Some? && '\n' !in text[start.value..] {
      forall p | start.value <= p < |text|
        ensures text[p] != '\n'
      {
        assert text[p] == text[start.value..][p - start.value];
      }
    }
  }

  /** A line break inside an unterminated comment is lost. */
  lemma OpenCommentLosesBreak()
    ensures Strip("/*\n")[2] == ' '
  {
    BreaksBefore("/*\n", 0, 2);
    assert FindClose("/*\n", 2).None?;
    assert TokenAt("/*\n", 0) == Token(OpenBlock, 3);
  }

  // ---------------------------------------------------------------- texts and what is left of them

  /** `out` is what is left of the text from `i` on. */
  ghost predicate Leaves(text: string, i: nat, out: string) {
    exists tokens :: LeavesBy(text, i, tokens, out)
  }

  ghost predicate LeavesBy(text: string, i: nat, tokens: seq<Token>, out: string) {
    Lexes(text, i, tokens) && Blanked(text, i, tokens) == out
  }

  lemma LeavesNothing(text: string)
    ensures Leaves(text, |text|, "")
  {
    assert LeavesBy(text, |text|, [], "");
  }

  /** One token in front. */
  lemma LeavesMore(text: string, i: nat, t: Token, blank: string, out: string, whole: string)
    requires IsToken(text, i, t) && Leaves(text, t.end, out)
    requires blank == Blank(text, i, t) && whole == blank + out
    ensures Leaves(text, i, whole)
  {
    var rest :| LeavesBy(text, t.end, rest, out);
    hide IsToken, Blank;
    assert ([t] + rest)[1..] == rest && ([t] + rest)[0] == t;
    assert LeavesBy(text, i, [t] + rest, whole);
  }

  lemma LeavesStrip(text: string, out: string)
    requires Leaves(text, 0, out)
    ensures Strip(text) == out
  {
    var tokens :| LeavesBy(text, 0, tokens, out);
    StripMeetsGrammar(text, 0, tokens);
  }

  /** A literal of either quote, with an escaped quote inside, ends at its first bare quote. */
  lemma LiteralsEnd(q: char)
    requires q == '"' || q == '\''
    ensures Strip([q, '\\', q, '}', q, 'c']) == "     c"
  {
    var text := [q, '\\', q, '}', q, 'c'];
    assert IsPiece(text, q, 1, 3) && IsPiece(text, q, 3, 4);
    assert IsLiteralBody(text, q, 1, 5, [1, 3, 4]);
    assert IsToken(text, 0, Token(Literal, 5)) && IsToken(text, 5, Token(Plain, 6));
    assert Blank(text, 0, Token(Literal, 5)) == "     " && Blank(text, 5, Token(Plain, 6)) == "c";
    hide Leaves, IsToken, Blank, Strip;
    LeavesNothing(text);
    LeavesMore(text, 5, Token(Plain, 6), "c", "", "c");
    LeavesMore(text, 0, Token(Literal, 5), "     ", "c", "     c");
    LeavesStrip(text, "     c");
  }

  /** A block comment goes, its line breaks stay; the star that opens it does not close it. */
  lemma BlocksGo()
    ensures Strip("/*/\n*/}") == "   \n  }"
  {
    var text := "/*/\n*/}";
    assert At(text, 4, '*', '/') && forall k | 2 <= k < 4 :: !At(text, k, '*', '/');
    assert IsToken(text, 0, Token(Block, 6)) && IsToken(text, 6, Token(Plain, 7));
    assert Blank(text, 0, Token(Block, 6)) == "   \n  " && Blank(text, 6, Token(Plain, 7)) == "}";
    hide Leaves, IsToken, Blank, Strip;
    LeavesNothing(text);
    LeavesMore(text, 6, Token(Plain, 7), "}", "", "}");
    LeavesMore(text, 0, Token(Block, 6), "   \n  ", "}", "   \n  }");
    LeavesStrip(text, "   \n  }");
  }

  /** A line comment goes up to its line break. */
  lemma LinesGo()
    ensures Strip("//}\n}") == "   \n}"
  {
    var text := "//}\n}";
    assert IsToken(text, 0, Token(Line, 3)) && IsToken(text, 3, Token(Plain, 4)) && IsToken(text, 4, Token(Plain, 5));
    assert Blank(text, 0, Token(Line, 3)) == "   ";
    assert Blank(text, 3, Token(Plain, 4)) == "\n" && Blank(text, 4, Token(Plain, 5)) == "}";
    hide Leaves, IsToken, Blank, Strip;
    LeavesNothing(text);
    LeavesMore(text, 4, Token(Plain, 5), "}", "", "}");
    LeavesMore(text, 3, Token(Plain, 4), "\n", "}", "\n}");
    LeavesMore(text, 0, Token(Line, 3), "   ", "\n}", "   \n}");
    LeavesStrip(text, "   \n}");
  }

  // ---------------------------------------------------------------- the scanner

  /** Copy line breaks and blank everything else in text[i..end]. */
  method BlankOut(text: string, i: nat, end: nat) returns (out: string)
    requires i <= end <= |text|
    ensures forall kind | kind == Block || kind == Literal :: out == Blank(text, i, Token(kind, end))
  {
    out := [];
    for k := i to end
      invariant out == Blank(text, i, Token(Block, k))
    {
      out := out + [if text[k] == '\n' then '\n' else ' '];
    }
  }

  method ScanLiteral(text: string, i: nat, q: char) returns (end: nat)
    requires i < |text|
    ensures end == LiteralEnd(text, q, i + 1)
  {
    var j := i + 1;
    while j < |text|
      invariant i + 1 <= j <= |text| && LiteralEnd(text, q, j) == LiteralEnd(text, q, i + 1)
    {
      if text[j] == '\\' && j + 1 < |text| {
        j := j + 2;
      } else {
        if text[j] == q { break; }
        j := j + 1;
      }
    }
    end := if j + 1 <= |text| then j + 1 else |text|;
  }

  /** One pass of the scan loop: where the token at `i` ends, and what replaces it. */
  method ScanToken(text: string, i: nat) returns (end: nat, blank: string)
    requires i < |text|
    ensures end == TokenAt(text, i).end && blank == Blank(text, i, TokenAt(text, i))
  {
    var n, ch := |text|, text[i];
    if ch == '/' && i + 1 < n && text[i + 1] == '*' {
      var j := FindClose(text, i + 2);
      if j.None? {
        return n, seq(n - i, _ => ' ');
      }
      end := j.value + 2;
      blank := BlankOut(text, i, end);
      return;
    }
    if ch == '/' && i + 1 < n && text[i + 1] == '/' {
      end := LineEnd(text, i);
      blank := seq(end - i, _ => ' ');
      return;
    }
    if ch == '"' || ch == '\'' {
      end := ScanLiteral(text, i, ch);
      blank := BlankOut(text, i, end);
      return;
    }
    return i + 1, [ch];
  }

  method StripStringsAndComments(text: string) returns (out: string)
    ensures out == Strip(text)
  {
    hide TokenAt, Blank;
    out := [];
    var i, n := 0, |text|;
    while i < n
      invariant 0 <= i <= n && out + StripFrom(text, i) == Strip(text)
    {
      var end, blank := ScanToken(text, i);
      out := out + blank;
      i := end;
    }
  }
}
