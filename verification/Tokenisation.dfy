/** What the tokens of a line are, said of its characters, and that the scanner's is the only way to read it. */
module Tokenisation {
  import opened Lexer

  // ----- characters -----

  const LOWER := "abcdefghijklmnopqrstuvwxyz"
  const UPPER := "ABCDEFGHIJKLMNOPQRSTUVWXYZ"
  const DIGITS := "0123456789"
  const BLANKS := " \t\n\U{B}\U{C}\r"

  /** The characters of a class. */
  lemma ClassIff(k: CharClass, c: char)
    ensures Is(k, c) <==>
      match k
      case Space => c in BLANKS
      case IdentifierChar => c in LOWER || c in UPPER || c in DIGITS || c in "_."
      case NumberChar => c in LOWER || c in UPPER || c in DIGITS || c in "-.+"
      case Letter => c in LOWER || c in UPPER
      case NotQuote => c != '"'
  {
    LowerIff(c);
    UpperIff(c);
    DigitIff(c);
    BlankIff(c);
    assert "_."[0] == '_' && "_."[1] == '.';
    assert "-.+"[0] == '-' && "-.+"[1] == '.' && "-.+"[2] == '+';
    hide IsDigit, IsSpace;
  }

  lemma LowerIff(c: char)
    ensures 'a' <= c <= 'z' <==> c in LOWER
  {
    if 'a' <= c <= 'z' { assert LOWER[c as int - 'a' as int] == c; }
  }

  lemma UpperIff(c: char)
    ensures 'A' <= c <= 'Z' <==> c in UPPER
  {
    if 'A' <= c <= 'Z' { assert UPPER[c as int - 'A' as int] == c; }
  }

  lemma DigitIff(c: char)
    ensures IsDigit(c) <==> c in DIGITS
  {
    if '0' <= c <= '9' { assert DIGITS[c as int - '0' as int] == c; }
  }

  lemma BlankIff(c: char)
    ensures IsSpace(c) <==> c in BLANKS
  {
    if '\t' <= c <= '\r' { assert BLANKS[1 + (c as int - '\t' as int)] == c; }
    assert BLANKS[0] == ' ';
  }

  lemma CommentIff(c: char)
    ensures StartsComment(c) <==> c in "#;"
  {
    assert "#;"[0] == '#' && "#;"[1] == ';';
  }

  // ----- what tokens spell -----

  /** The characters from `a` to `e` are of class `k`. */
  predicate Run(k: CharClass, line: string, a: nat, e: nat) {
    a <= e <= |line| && forall i | a <= i < e :: Is(k, line[i])
  }

  /** No longer run starts at `a`. */
  predicate MaximalRun(k: CharClass, line: string, a: nat, e: nat) {
    Run(k, line, a, e) && (e == |line| || !Is(k, line[e]))
  }

  predicate IsIdentifier(line: string, a: nat, e: nat) {
    a < e && MaximalRun(IdentifierChar, line, a, e) && (IsLetter(line[a]) || line[a] == '_')
  }

  /** A string opens at `a`, and the next quote, if there is one, is at `e`. */
  predicate Quoted(line: string, a: nat, e: nat) {
    a < e && a < |line| && line[a] == '"' && MaximalRun(NotQuote, line, a + 1, e)
  }

  predicate Punctuation(t: Lexed, line: string, c: char)
    requires t.start < t.end <= |line|
  {
    t.end == t.start + 1 && line[t.start] == c && t.text == [c]
  }

  /** A character that starts no token. */
  predicate StartsNothing(c: char) {
    && !IsLetter(c) && c != '_' && !IsDigit(c) && c != '-' && c != '"' && c != '.' && c != ',' && c != '(' && c != ')'
    && !IsSpace(c) && !StartsComment(c)
  }

  /** The token has the kind and the text that its part of the line has: a word is an identifier without a colon behind
      it, a label one with a colon and without a dot, a number a run that starts with a digit or a minus sign, a
      directive a run of letters behind a dot, a string what stands between two quotes. What is none of these is bad: a
      label with a dot, a string that is not closed, and the rest of the line behind any other character. */
  predicate Spells(t: Lexed, line: string) {
    t.start < t.end <= |line| &&
    match t.kind
    case Word =>
      && IsIdentifier(line, t.start, t.end) && (t.end == |line| || line[t.end] != ':')
      && t.text == line[t.start..t.end]
    case LabelName =>
      && IsIdentifier(line, t.start, t.end - 1) && line[t.end - 1] == ':' && t.text == line[t.start..t.end - 1]
      && '.' !in t.text
    case Number =>
      && MaximalRun(NumberChar, line, t.start, t.end) && (IsDigit(line[t.start]) || line[t.start] == '-')
      && t.text == line[t.start..t.end]
    case DirectiveName =>
      line[t.start] == '.' && MaximalRun(Letter, line, t.start + 1, t.end) && t.text == line[t.start + 1..t.end]
    case StringText =>
      Quoted(line, t.start, t.end - 1) && line[t.end - 1] == '"' && t.text == line[t.start + 1..t.end - 1]
    case Comma => Punctuation(t, line, ',')
    case LParen => Punctuation(t, line, '(')
    case RParen => Punctuation(t, line, ')')
    case Bad =>
      || (IsIdentifier(line, t.start, t.end - 1) && line[t.end - 1] == ':' && t.text == line[t.start..t.end - 1]
          && '.' in t.text)
      || (Quoted(line, t.start, t.end) && t.end == |line| && t.text == "")
      || (StartsNothing(line[t.start]) && t.end == |line| && t.text == "")
    case EndOfFile => false
  }

  /** A run ends where scanning for it stops. */
  lemma {:induction false} RunEnds(k: CharClass, line: string, a: nat, e: nat)
    requires MaximalRun(k, line, a, e)
    ensures Scan(k, line, a) == e
    decreases e - a
  {
    hide Is;
    if a < e { RunEnds(k, line, a + 1, e); }
  }

  lemma ScanIsRun(k: CharClass, line: string, a: nat)
    requires a <= |line|
    ensures MaximalRun(k, line, a, Scan(k, line, a))
  {
    hide Is;
  }

  /** A run without its first character. */
  lemma RunTail(k: CharClass, line: string, a: nat, e: nat)
    requires a < |line| && Is(k, line[a])
    ensures a < e && MaximalRun(k, line, a, e) <==> a + 1 <= e && MaximalRun(k, line, a + 1, e)
  {
    hide Is;
  }

  lemma IdentifierSpells(line: string, number: nat, p: nat)
    requires p < |line| && (IsLetter(line[p]) || line[p] == '_')
    ensures Spells(IdentifierAt(line, number, p), line)
  {
    hide Scan, MaximalRun;
    ScanIsRun(IdentifierChar, line, p + 1);
    RunTail(IdentifierChar, line, p, Scan(IdentifierChar, line, p + 1));
  }

  lemma NumberSpells(line: string, number: nat, p: nat)
    requires p < |line| && (IsDigit(line[p]) || line[p] == '-')
    ensures Spells(NumberAt(line, number, p), line)
  {
    hide Scan, MaximalRun;
    ScanIsRun(NumberChar, line, p + 1);
    RunTail(NumberChar, line, p, Scan(NumberChar, line, p + 1));
  }

  lemma StringSpells(line: string, number: nat, p: nat)
    requires p < |line| && line[p] == '"'
    ensures Spells(StringAt(line, number, p), line)
  {
    hide Scan, MaximalRun;
    ScanIsRun(NotQuote, line, p + 1);
    QuoteEnds(line, p + 1);
  }

  lemma TokenSpells(line: string, number: nat, p: nat)
    requires p < |line| && !IsSpace(line[p]) && !StartsComment(line[p])
    ensures Spells(TokenAt(line, number, p), line)
  {
    var c := line[p];
    hide Scan, MaximalRun, IsSpace, IdentifierAt, NumberAt, StringAt;
    ScanIsRun(Letter, line, p + 1);
    if IsLetter(c) || c == '_' { IdentifierSpells(line, number, p); }
    else if IsDigit(c) || c == '-' { NumberSpells(line, number, p); }
    else if c == '"' { StringSpells(line, number, p); }
  }

  lemma QuoteEnds(line: string, a: nat)
    requires a <= |line|
    ensures var e := Scan(NotQuote, line, a); e < |line| ==> line[e] == '"'
  {}

  /** Only one token can be spelled by the characters from its start on. */
  lemma SpelledIsToken(line: string, t: Lexed)
    requires Spells(t, line)
    ensures !IsSpace(line[t.start]) && !StartsComment(line[t.start]) && t == TokenAt(line, t.line, t.start)
  {
    hide Scan, MaximalRun;
    var p, c := t.start, line[t.start];
    if IsLetter(c) || c == '_' { IdentifierSpelled(line, t); }
    else if IsDigit(c) || c == '-' { NumberSpelled(line, t); }
    else if c == '"' { StringSpelled(line, t); }
    else if c == '.' { DirectiveSpelled(line, t); }
  }

  lemma IdentifierSpelled(line: string, t: Lexed)
    requires Spells(t, line) && (IsLetter(line[t.start]) || line[t.start] == '_')
    ensures t == IdentifierAt(line, t.line, t.start)
  {
    var e := if t.kind == Word then t.end else t.end - 1;
    assert IsIdentifier(line, t.start, e);
    hide Scan, MaximalRun;
    RunTail(IdentifierChar, line, t.start, e);
    RunEnds(IdentifierChar, line, t.start + 1, e);
  }

  lemma NumberSpelled(line: string, t: Lexed)
    requires Spells(t, line) && (IsDigit(line[t.start]) || line[t.start] == '-')
    ensures t == NumberAt(line, t.line, t.start)
  {
    assert t.kind == Number;
    hide Scan, MaximalRun;
    RunTail(NumberChar, line, t.start, t.end);
    RunEnds(NumberChar, line, t.start + 1, t.end);
  }

  lemma StringSpelled(line: string, t: Lexed)
    requires Spells(t, line) && line[t.start] == '"'
    ensures t == StringAt(line, t.line, t.start)
  {
    var e := if t.kind == StringText then t.end - 1 else t.end;
    assert Quoted(line, t.start, e);
    hide Scan, MaximalRun;
    RunEnds(NotQuote, line, t.start + 1, e);
  }

  lemma DirectiveSpelled(line: string, t: Lexed)
    requires Spells(t, line) && line[t.start] == '.'
    ensures t == DirectiveAt(line, t.line, t.start)
  {
    assert t.kind == DirectiveName;
    hide Scan, MaximalRun;
    RunEnds(Letter, line, t.start + 1, t.end);
  }

  // ----- whole lines -----

  /** From `pos` on the line is `ts`, with nothing but spaces between the tokens, and behind them spaces and perhaps a
      comment. */
  predicate Reads(line: string, number: nat, pos: nat, ts: seq<Lexed>)
    decreases |ts|
  {
    if ts == [] then exists c | pos <= c <= |line| :: EndsBlank(line, pos, c)
    else
      && ts[0].line == number && Run(Space, line, pos, ts[0].start) && Spells(ts[0], line)
      && Reads(line, number, ts[0].end, ts[1..])
  }

  /** Only spaces up to `c`, where the line ends or a comment starts. */
  predicate EndsBlank(line: string, pos: nat, c: nat) {
    Run(Space, line, pos, c) && (c == |line| || StartsComment(line[c]))
  }

  /** The scanner's tokens are the line's, and no other sequence of tokens is. */
  lemma {:induction false} TokensIff(line: string, number: nat, pos: nat, ts: seq<Lexed>)
    requires pos <= |line|
    ensures Reads(line, number, pos, ts) <==> ts == LineTokens(line, number, pos)
    decreases |line| - pos
  {
    ScanIsRun(Space, line, pos);
    hide Spells, TokenAt, Scan, IsSpace, StartsComment;
    var p := NextStart(line, pos);
    if p.None? { NoToken(line, number, pos, ts); }
    else {
      var t := TokenAt(line, number, p.value);
      TokenSpells(line, number, p.value);
      TokensIff(line, number, t.end, LineTokens(line, number, t.end));
      assert [t] + LineTokens(line, number, t.end) == LineTokens(line, number, pos);
      if Reads(line, number, pos, ts) {
        FirstToken(line, number, pos, ts);
        TokensIff(line, number, t.end, ts[1..]);
      }
    }
  }

  lemma NoToken(line: string, number: nat, pos: nat, ts: seq<Lexed>)
    requires pos <= |line| && NextStart(line, pos).None?
    ensures Reads(line, number, pos, ts) <==> ts == []
  {
    var c := Scan(Space, line, pos);
    hide Scan, Spells, TokenAt, IsSpace, StartsComment;
    assert EndsBlank(line, pos, c);
    if ts != [] && Reads(line, number, pos, ts) {
      SpelledIsToken(line, ts[0]);
      SpacesEnd(line, pos, ts[0].start);
    }
  }

  lemma SpacesEnd(line: string, pos: nat, c: nat)
    requires pos <= c <= |line| && Run(Space, line, pos, c) && (c == |line| || !IsSpace(line[c]))
    ensures Scan(Space, line, pos) == c
  {
    RunEnds(Space, line, pos, c);
  }

  lemma FirstToken(line: string, number: nat, pos: nat, ts: seq<Lexed>)
    requires pos <= |line| && NextStart(line, pos).Some? && Reads(line, number, pos, ts)
    ensures ts != [] && ts[0] == TokenAt(line, number, NextStart(line, pos).value)
  {
    hide Spells, TokenAt, Scan, StartsComment, IsSpace;
    if ts == [] {
      var c :| pos <= c <= |line| && EndsBlank(line, pos, c);
      if c < |line| { CommentIsNoSpace(line[c]); }
      SpacesEnd(line, pos, c);
    } else {
      SpelledIsToken(line, ts[0]);
      SpacesEnd(line, pos, ts[0].start);
    }
  }

  lemma CommentIsNoSpace(c: char)
    requires StartsComment(c)
    ensures !IsSpace(c)
  {}

  /** The tokens of a file are those of its lines, one line after the other. */
  lemma {:induction false} FileIsLines(lines: seq<string>, k: nat)
    requires k < |lines|
    ensures FileTokens(lines[..k]) + LineTokens(lines[k], k + 1, 0) <= FileTokens(lines)
    decreases |lines|
  {
    hide LineTokens;
    var n := |lines| - 1;
    if k < n {
      FileIsLines(lines[..n], k);
      assert lines[..n][..k] == lines[..k];
    }
  }
}
