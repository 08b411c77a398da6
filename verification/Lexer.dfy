/** The scanner (src/assembler/lexer.cpp): where tokens begin and end. Looking a word up in the tables of opcodes,
    registers and rounding modes, and reading a number, is left to its user. */
module Lexer {
  import opened Wrappers

  datatype CharClass = Space | IdentifierChar | NumberChar | Letter | NotQuote

  predicate IsLetter(c: char) { 'a' <= c <= 'z' || 'A' <= c <= 'Z' }

  predicate IsDigit(c: char) { '0' <= c <= '9' }

  predicate IsSpace(c: char) { c == ' ' || '\t' <= c <= '\r' }

  predicate Is(k: CharClass, c: char) {
    match k
    case Space => IsSpace(c)
    case IdentifierChar => IsLetter(c) || IsDigit(c) || c == '_' || c == '.'
    case NumberChar => IsDigit(c) || IsLetter(c) || c == '-' || c == '.' || c == '+'
    case Letter => IsLetter(c)
    case NotQuote => c != '"'
  }

  /** The end of the run of `k` characters from `pos` on. */
  function Scan(k: CharClass, line: string, pos: nat): (end: nat)
    requires pos <= |line|
    ensures pos <= end <= |line|
    ensures forall i | pos <= i < end :: Is(k, line[i])
    ensures end < |line| ==> !Is(k, line[end])
    decreases |line| - pos
  {
    if pos < |line| && Is(k, line[pos]) then Scan(k, line, pos + 1) else pos
  }

  datatype Kind = Word | LabelName | Number | DirectiveName | StringText | Comma | LParen | RParen | Bad | EndOfFile

  /** A token with the part of its line that it takes up. */
  datatype Lexed = Lexed(kind: Kind, text: string, line: nat, start: nat, end: nat)

  predicate StartsComment(c: char) { c == '#' || c == ';' }

  /** An identifier, or a label if a colon follows; a label with a dot in it is invalid. */
  function IdentifierAt(line: string, number: nat, p: nat): Lexed
    requires p < |line|
  {
    var e := Scan(IdentifierChar, line, p + 1);
    if e < |line| && line[e] == ':'
      then Lexed(if '.' in line[p..e] then Bad else LabelName, line[p..e], number, p, e + 1)
    else Lexed(Word, line[p..e], number, p, e)
  }

  function NumberAt(line: string, number: nat, p: nat): Lexed
    requires p < |line|
  {
    var e := Scan(NumberChar, line, p + 1);
    Lexed(Number, line[p..e], number, p, e)
  }

  /** A string literal; one that is not closed is invalid. */
  function StringAt(line: string, number: nat, p: nat): Lexed
    requires p < |line|
  {
    var e := Scan(NotQuote, line, p + 1);
    if e == |line| then Lexed(Bad, "", number, p, e) else Lexed(StringText, line[p + 1..e], number, p, e + 1)
  }

  function DirectiveAt(line: string, number: nat, p: nat): Lexed
    requires p < |line|
  {
    var e := Scan(Letter, line, p + 1);
    Lexed(DirectiveName, line[p + 1..e], number, p, e)
  }

  /** The token that starts at `p`, which is not a space. */
  function TokenAt(line: string, number: nat, p: nat): (t: Lexed)
    requires p < |line| && !IsSpace(line[p]) && !StartsComment(line[p])
    ensures t.start == p < t.end <= |line| && t.line == number && t.kind != EndOfFile
  {
    var c := line[p];
    if IsLetter(c) || c == '_' then IdentifierAt(line, number, p)
    else if IsDigit(c) || c == '-' then NumberAt(line, number, p)
    else if c == ',' then Lexed(Comma, ",", number, p, p + 1)
    else if c == '"' then StringAt(line, number, p)
    else if c == '(' then Lexed(LParen, "(", number, p, p + 1)
    else if c == ')' then Lexed(RParen, ")", number, p, p + 1)
    else if c == '.' then DirectiveAt(line, number, p)
    else Lexed(Bad, "", number, p, |line|)
  }

  /** The start of the next token from `pos` on; None at a comment or the end of the line. */
  function NextStart(line: string, pos: nat): (r: Option<nat>)
    requires pos <= |line|
    ensures r.Some? ==> pos <= r.value < |line| && !IsSpace(line[r.value]) && !StartsComment(line[r.value])
  {
    var p := Scan(Space, line, pos);
    if p == |line| || StartsComment(line[p]) then None else Some(p)
  }

  function LineTokens(line: string, number: nat, pos: nat): seq<Lexed>
    requires pos <= |line|
    decreases |line| - pos
  {
    var p := NextStart(line, pos);
    if p.None? then [] else
      var t := TokenAt(line, number, p.value);
      [t] + LineTokens(line, number, t.end)
  }

  /** Lines count from 1. */
  function FileTokens(lines: seq<string>): seq<Lexed>
    decreases |lines|
  {
    if lines == [] then []
    else FileTokens(lines[..|lines| - 1]) + LineTokens(lines[|lines| - 1], |lines|, 0)
  }

  class Lexer {
    const input: seq<string>
    var currentLine: string
    var lineNumber: nat
    var pos: nat
    var tokens: seq<Lexed>

    constructor (input: seq<string>)
      ensures this.input == input && lineNumber == 0 && tokens == []
    {
      this.input, currentLine, lineNumber, pos, tokens := input, "", 0, 0, [];
    }

    /** The scanning loops. */
    method Skip(k: CharClass)
      requires pos <= |currentLine|
      modifies this`pos
      ensures pos == Scan(k, currentLine, old(pos))
    {
      while pos < |currentLine| && Is(k, currentLine[pos])
        invariant pos <= |currentLine| && Scan(k, currentLine, pos) == Scan(k, currentLine, old(pos))
      {
        pos := pos + 1;
      }
    }

    method Identifier() returns (t: Lexed)
      requires pos < |currentLine| && Is(IdentifierChar, currentLine[pos])
      modifies this`pos
      ensures t == IdentifierAt(currentLine, lineNumber, old(pos)) && pos == t.end
    {
      var start := pos;
      Skip(IdentifierChar);
      var value := currentLine[start..pos];
      if pos < |currentLine| && currentLine[pos] == ':' {
        pos := pos + 1;
        return Lexed(if '.' in value then Bad else LabelName, value, lineNumber, start, pos);
      }
      t := Lexed(Word, value, lineNumber, start, pos);
    }

    method NumberToken() returns (t: Lexed)
      requires pos < |currentLine| && Is(NumberChar, currentLine[pos])
      modifies this`pos
      ensures t == NumberAt(currentLine, lineNumber, old(pos)) && pos == t.end
    {
      var start := pos;
      Skip(NumberChar);
      t := Lexed(Number, currentLine[start..pos], lineNumber, start, pos);
    }

    method StringLiteral() returns (t: Lexed)
      requires pos < |currentLine|
      modifies this`pos
      ensures t == StringAt(currentLine, lineNumber, old(pos)) && pos == t.end
    {
      var start := pos;
      pos := pos + 1;
      Skip(NotQuote);
      if pos == |currentLine| { return Lexed(Bad, "", lineNumber, start, pos); }
      t := Lexed(StringText, currentLine[start + 1..pos], lineNumber, start, pos + 1);
      pos := pos + 1;
    }

    method DirectiveToken() returns (t: Lexed)
      requires pos < |currentLine|
      modifies this`pos
      ensures t == DirectiveAt(currentLine, lineNumber, old(pos)) && pos == t.end
    {
      var start := pos;
      pos := pos + 1;
      Skip(Letter);
      t := Lexed(DirectiveName, currentLine[start + 1..pos], lineNumber, start, pos);
    }

    /** `getNextToken`; None is its end-of-file token. */
    method GetNextToken() returns (t: Option<Lexed>)
      requires pos <= |currentLine|
      modifies this`pos
      ensures var p := NextStart(currentLine, old(pos));
        if p.None? then t.None? && pos == |currentLine|
        else t == Some(TokenAt(currentLine, lineNumber, p.value)) && pos == t.value.end
    {
      hide Scan, IsLetter, IsDigit, IdentifierAt, NumberAt, StringAt, DirectiveAt;
      Skip(Space);
      if pos >= |currentLine| { return None; }
      var c := currentLine[pos];
      if StartsComment(c) {
        pos := |currentLine|;
        return None;
      }
      var token: Lexed;
      if IsLetter(c) || c == '_' { token := Identifier(); }
      else if IsDigit(c) || c == '-' { token := NumberToken(); }
      else if c == '"' { token := StringLiteral(); }
      else if c == '.' { token := DirectiveToken(); }
      else if c == ',' || c == '(' || c == ')' {
        token := Lexed(if c == ',' then Comma else if c == '(' then LParen else RParen, [c], lineNumber, pos, pos + 1);
        pos := pos + 1;
      } else {
        token := Lexed(Bad, "", lineNumber, pos, |currentLine|);
        pos := |currentLine|;
      }
      t := Some(token);
    }

    /** The tokens of the current line. */
    method LexLine()
      requires pos == 0
      modifies this`pos, this`tokens
      ensures tokens == old(tokens) + LineTokens(currentLine, lineNumber, 0)
    {
      hide NextStart, TokenAt;
      while pos < |currentLine|
        invariant pos <= |currentLine|
        invariant tokens + LineTokens(currentLine, lineNumber, pos)
          == old(tokens) + LineTokens(currentLine, lineNumber, 0)
        decreases |currentLine| - pos
      {
        ghost var was := pos;
        var t := GetNextToken();
        AtEnd(currentLine, lineNumber);
        if t.Some? {
          assert LineTokens(currentLine, lineNumber, was) == [t.value] + LineTokens(currentLine, lineNumber, pos);
          tokens := tokens + [t.value];
        }
      }
      AtEnd(currentLine, lineNumber);
    }

    lemma AtEnd(line: string, number: nat)
      ensures LineTokens(line, number, |line|) == []
    {}

    /** `getTokenList`: every line's tokens, and one end-of-file token. */
    method GetTokenList() returns (r: seq<Lexed>)
      requires lineNumber == 0 && tokens == []
      modifies this
      ensures |r| == |FileTokens(input)| + 1 && r[..|r| - 1] == FileTokens(input)
      ensures r[|r| - 1].kind == EndOfFile && r[|r| - 1].line == |input|
    {
      hide LineTokens;
      for k := 0 to |input|
        invariant lineNumber == k && tokens == FileTokens(input[..k])
      {
        assert input[..k + 1][..k] == input[..k];
        currentLine, pos, lineNumber := input[k], 0, lineNumber + 1;
        LexLine();
      }
      assert input[..|input|] == input;
      var e := Lexed(EndOfFile, "", lineNumber, pos, pos);
      tokens := tokens + [e];
      r := tokens;
    }
  }

  // ----- what the tokens are -----

  /** Position `i` of the line lies in token `k`. */
  predicate Holds(ts: seq<Lexed>, k: nat, i: nat) { k < |ts| && ts[k].start <= i < ts[k].end }

  /** The comment at the end of a line, if it has one, starts at `c`. */
  predicate CommentFrom(line: string, ts: seq<Lexed>, c: nat) {
    c < |line| && StartsComment(line[c]) && forall k | 0 <= k < |ts| :: ts[k].end <= c
  }

  /** Tokens of one line from `pos` on, in order and apart. */
  predicate Spaced(ts: seq<Lexed>, line: string, number: nat, pos: nat) {
    && (forall k | 0 <= k < |ts| ::
      pos <= ts[k].start < ts[k].end <= |line| && ts[k].line == number && ts[k].kind != EndOfFile)
    && (forall j, k | 0 <= j < k < |ts| :: ts[j].end <= ts[k].start)
  }

  lemma SpacedCons(t: Lexed, rest: seq<Lexed>, line: string, number: nat, pos: nat)
    requires pos <= t.start < t.end <= |line| && t.line == number && t.kind != EndOfFile
      && Spaced(rest, line, number, t.end)
    ensures Spaced([t] + rest, line, number, pos)
  {
    var ts := [t] + rest;
    assert forall k | 0 < k < |ts| :: ts[k] == rest[k - 1];
  }

  lemma {:induction false} LineIsSpaced(line: string, number: nat, pos: nat)
    requires pos <= |line|
    ensures Spaced(LineTokens(line, number, pos), line, number, pos)
    decreases |line| - pos
  {
    hide TokenAt, NextStart, Spaced;
    var p := NextStart(line, pos);
    if p.Some? {
      var t := TokenAt(line, number, p.value);
      LineIsSpaced(line, number, t.end);
      SpacedCons(t, LineTokens(line, number, t.end), line, number, pos);
    } else {
      NoTokens(line, number, pos);
    }
  }

  lemma NoTokens(line: string, number: nat, pos: nat)
    ensures Spaced([], line, number, pos)
  {}

  /** Position `i` is a space, in a token, or in a comment that starts between `pos` and it. */
  predicate CharCovered(line: string, ts: seq<Lexed>, pos: nat, i: nat)
    requires i < |line|
  {
    IsSpace(line[i]) || (exists k | 0 <= k < |ts| :: Holds(ts, k, i)) || exists c | pos <= c <= i ::
      CommentFrom(line, ts, c)
  }

  /** The tokens of a line leave out only spaces and a comment at its end: every other character is in a token. */
  lemma {:induction false} TokensCoverLine(line: string, number: nat, pos: nat, i: nat)
    requires pos <= i < |line|
    ensures CharCovered(line, LineTokens(line, number, pos), pos, i)
    decreases |line| - pos
  {
    hide TokenAt, IsSpace, StartsComment, Scan;
    var p, ts := NextStart(line, pos), LineTokens(line, number, pos);
    if p.Some? {
      var t := TokenAt(line, number, p.value);
      var rest := LineTokens(line, number, t.end);
      assert ts == [t] + rest;
      if i < p.value {
        assert Is(Space, line[i]);
      } else if i < t.end {
        assert Holds(ts, 0, i);
      } else {
        TokensCoverLine(line, number, t.end, i);
        CoveredCons(line, t, rest, pos, i);
      }
    } else {
      var c := Scan(Space, line, pos);
      if i < c { assert Is(Space, line[i]); } else { assert CommentFrom(line, ts, c); }
    }
  }

  lemma CoveredCons(line: string, t: Lexed, rest: seq<Lexed>, pos: nat, i: nat)
    requires pos <= t.end <= i < |line| && CharCovered(line, rest, t.end, i)
    ensures CharCovered(line, [t] + rest, pos, i)
  {
    hide IsSpace, StartsComment;
    var ts := [t] + rest;
    assert forall k | 0 < k < |ts| :: ts[k] == rest[k - 1];
    if k :| 0 <= k < |rest| && Holds(rest, k, i) { assert Holds(ts, k + 1, i); }
    else if c :| t.end <= c <= i && CommentFrom(line, rest, c) { assert CommentFrom(line, ts, c); }
  }

  predicate InOrder(ts: seq<Lexed>, lines: nat) {
    && (forall k | 0 <= k < |ts| :: 1 <= ts[k].line <= lines && ts[k].kind != EndOfFile)
    && (forall j, k | 0 <= j < k < |ts| :: ts[j].line <= ts[k].line)
  }

  /** Line numbers do not decrease, and there is no end-of-file token before the last. */
  lemma {:induction false} FileTokensInOrder(lines: seq<string>)
    ensures InOrder(FileTokens(lines), |lines|)
    decreases |lines|
  {
    hide LineTokens;
    if lines != [] {
      var n := |lines| - 1;
      FileTokensInOrder(lines[..n]);
      LineIsSpaced(lines[n], n + 1, 0);
      InOrderAppend(FileTokens(lines[..n]), LineTokens(lines[n], n + 1, 0), lines[n], n);
    }
  }

  lemma InOrderAppend(before: seq<Lexed>, last: seq<Lexed>, line: string, n: nat)
    requires InOrder(before, n) && Spaced(last, line, n + 1, 0)
    ensures InOrder(before + last, n + 1)
  {
    var ts := before + last;
    assert forall k | |before| <= k < |ts| :: ts[k] == last[k - |before|];
  }
}
