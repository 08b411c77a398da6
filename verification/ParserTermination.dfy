/** The first pass of the parser ends exactly on the token lists in which no live label is named after a section. */
module ParserTermination {
  import opened Tokens
  import opened ParserSpec
  import opened ParserProof

  /** The state after at most `k` turns of the first loop. */
  function Turns(ts: seq<Token>, k: nat): (s: State)
    ensures s.pos <= |ts|
  {
    if k == 0 then INITIAL
    else
      var s := Turns(ts, k - 1);
      if Current(ts, s).lexeme.Eof? then s else FirstStep(ts, s)
  }

  predicate EndsAfter(ts: seq<Token>, k: nat) { Current(ts, Turns(ts, k)).lexeme.Eof? }

  lemma {:induction false} TurnsAdvance(ts: seq<Token>, k: nat)
    requires Terminates(ts)
    ensures Live(ts, Turns(ts, k).pos) && (EndsAfter(ts, k) || Turns(ts, k).pos >= k)
  {
    hide FirstStep, Terminates, Live;
    if k == 0 { NothingPassed(ts); }
    else {
      TurnsAdvance(ts, k - 1);
      var s := Turns(ts, k - 1);
      if !Current(ts, s).lexeme.Eof? {
        FirstStepLives(ts, s);
        Advances(ts, s);
      }
    }
  }

  lemma NothingPassed(ts: seq<Token>)
    ensures Live(ts, 0)
  {}

  /** A label named after a section stops operand lists and data directives. */
  lemma {:induction false} OperandsStop(ts: seq<Token>, s: State, k: DataKind, i: nat)
    requires s.pos <= i < |ts| && ts[i].lexeme.Label?
    ensures OperandList(ts, s, k).pos <= i
    decreases |ts| - s.pos
  {
    hide Operand;
    var t := Current(ts, s);
    if t.lexeme.Comma? { OperandsStop(ts, Next(s), k, i); }
    else if IsOperand(k, t) { OperandsStop(ts, Next(Operand(s, k, t)), k, i); }
  }

  lemma {:induction false} DataDirectiveStops(ts: seq<Token>, s: State, i: nat)
    requires s.pos <= i < |ts| && Sticks(ts[i])
    ensures DataDirective(ts, s).pos <= i
    decreases |ts| - s.pos
  {
    hide KindOf, DataLabel, OperandList;
    var t := Current(ts, s);
    if !EndsSection(t) {
      hide Spells;
      if !t.lexeme.Label? && KindOf(t).Some? { OperandsStop(ts, Next(s), KindOf(t).value, i); }
      DataDirectiveStops(ts, DataStep(ts, s), i);
    }
  }

  lemma FirstStepStops(ts: seq<Token>, s: State, i: nat)
    requires s.pos <= i < |ts| && Sticks(ts[i])
    ensures FirstStep(ts, s).pos <= i
  {
    hide DataDirective;
    var t := Current(ts, s);
    assert StopsSkip(SkipBss, ts[i]) && StopsSkip(SkipText, ts[i]);
    hide StopsSkip;
    if s.pos < i && IsDirective(t, KwData) { DataDirectiveStops(ts, Next(s), i); }
  }

  lemma {:induction false} TurnsStop(ts: seq<Token>, i: nat, k: nat)
    requires i < |ts| && Sticks(ts[i]) && forall j | 0 <= j < i :: !ts[j].lexeme.Eof?
    ensures Turns(ts, k).pos <= i && !EndsAfter(ts, k)
  {
    hide FirstStep;
    if k > 0 {
      TurnsStop(ts, i, k - 1);
      FirstStepStops(ts, Turns(ts, k - 1), i);
    }
  }

  /** The first pass reaches the end of the file exactly if every label named data, section or bss comes after an
      end-of-file token. */
  lemma FirstPassEndsIff(ts: seq<Token>)
    ensures (exists k :: EndsAfter(ts, k)) <==> Terminates(ts)
  {
    if Terminates(ts) {
      TurnsAdvance(ts, |ts|);
      assert EndsAfter(ts, |ts|);
    } else {
      var i :| 0 <= i < |ts| && Sticks(ts[i]) && forall j | 0 <= j < i :: !ts[j].lexeme.Eof?;
      forall k ensures !EndsAfter(ts, k) { TurnsStop(ts, i, k); }
    }
  }

  /** When it ends, the turns arrive at the state that the first pass is specified to reach. */
  lemma {:induction false} TurnsArrive(ts: seq<Token>, k: nat)
    requires Terminates(ts)
    ensures Live(ts, Turns(ts, k).pos) && FirstPass(ts, Turns(ts, k)) == FirstPass(ts, INITIAL)
  {
    hide FirstStep, Terminates, Live;
    TurnsAdvance(ts, k);
    if k > 0 {
      TurnsArrive(ts, k - 1);
      var s := Turns(ts, k - 1);
      if !Current(ts, s).lexeme.Eof? { FirstStepLives(ts, s); }
    }
  }
}
