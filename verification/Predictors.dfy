/** What the branch predictors answer after any history of branches (src/vm/rv5s/branch_prediction). */
module Predictors {
  import opened Words
  import opened Pipeline

  /** A branch that was resolved. */
  datatype Resolved = Resolved(pc: U64, taken: bool)

  function Trained(p: Predictor, history: seq<Resolved>): Predictor
    decreases |history|
  {
    if history == [] then p
    else
      var last := history[|history| - 1];
      Learn(Trained(p, history[..|history| - 1]), last.pc, last.taken)
  }

  /** The outcomes of the branch at `pc`. */
  function Outcomes(history: seq<Resolved>, pc: U64): seq<bool>
    decreases |history|
  {
    if history == [] then []
    else
      var last := history[|history| - 1];
      Outcomes(history[..|history| - 1], pc) + if last.pc == pc then [last.taken] else []
  }

  /** A count from 0 to 3 that goes up on taken branches and down on the others. */
  function Level(outcomes: seq<bool>): (n: nat)
    ensures n <= 3
    decreases |outcomes|
  {
    if outcomes == [] then 0
    else
      var n := Level(outcomes[..|outcomes| - 1]);
      if outcomes[|outcomes| - 1] then (if n < 3 then n + 1 else 3) else (if n > 0 then n - 1 else 0)
  }

  function LevelOf(c: Counter): nat {
    match c
    case TwoNotTaken => 0
    case OneNotTaken => 1
    case OneTaken => 2
    case TwoTaken => 3
  }

  /** The one-bit predictor answers what the branch did last time, and not taken at first. */
  lemma {:induction false} OneBitRepeats(history: seq<Resolved>, pc: U64)
    ensures Trained(OneBit(map[]), history).OneBit?
    ensures var outcomes := Outcomes(history, pc);
      Predicts(Trained(OneBit(map[]), history), pc) <==> outcomes != [] && outcomes[|outcomes| - 1]
    decreases |history|
  {
    if history != [] { OneBitRepeats(history[..|history| - 1], pc); }
  }

  lemma {:induction false} TwoBitCounts(history: seq<Resolved>, pc: U64)
    ensures var p := Trained(TwoBit(map[]), history);
      p.TwoBit? && LevelOf(if pc in p.counters then p.counters[pc] else TwoNotTaken) == Level(Outcomes(history, pc))
    decreases |history|
  {
    if history != [] {
      var init, last := history[..|history| - 1], history[|history| - 1];
      TwoBitCounts(init, pc);
      var before := Outcomes(init, pc);
      assert (before + [last.taken])[..|before|] == before;
      assert before + [] == before;
    }
  }

  /** The two-bit predictor answers taken exactly if its count of the branch's outcomes has reached 2. */
  lemma TwoBitAnswers(history: seq<Resolved>, pc: U64)
    ensures Predicts(Trained(TwoBit(map[]), history), pc) <==> Level(Outcomes(history, pc)) >= 2
  {
    hide Trained, Outcomes, Level;
    TwoBitCounts(history, pc);
  }

  /** Two equal outcomes in a row decide the count, and after three a single other one does not change the answer. */
  lemma TwoDecide(outcomes: seq<bool>, b: bool)
    ensures Level(outcomes + [b, b]) >= 2 <==> b
    ensures Level(outcomes + [b, b, b, !b]) >= 2 <==> b
  {
    var two, three, four := outcomes + [b, b], outcomes + [b, b, b], outcomes + [b, b, b, !b];
    assert two[..|two| - 1] == outcomes + [b] && (outcomes + [b])[..|outcomes|] == outcomes;
    assert three[..|three| - 1] == two && four[..|four| - 1] == three;
  }

  /** The static predictors never change their answer. */
  lemma {:induction false} StaticStays(p: Predictor, history: seq<Resolved>)
    requires p.StaticTaken? || p.StaticNotTaken?
    ensures Trained(p, history) == p
    decreases |history|
  {
    if history != [] { StaticStays(p, history[..|history| - 1]); }
  }
}
