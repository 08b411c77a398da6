/** Programs that do not notice that their words are read early: exactly those that the pipeline executes one
    instruction after the other. */
module CurrentWords {
  import opened Words
  import opened ImmGenerator
  import opened FlatMemory
  import opened Datapath
  import opened Pipeline
  import opened Sequential
  import opened EarlyFetch
  import PipelineProof

  // ----- the exact condition -----

  /** The front end as it is after `k` instructions of the sequential machine. */
  ghost function FrontAt(a: Arch, predictor: Predictor, v: Machine, k: nat): FrontEnd {
    if k == 0 then StartFront(a.mem, predictor) else
    var f, s := FrontAt(a, predictor, v, k - 1), Run(a, v, k - 1);
    if Stopped(s, v) then f else Advance(f, s, v)
  }

  /** The word read early for instruction `k`. */
  ghost function EarlyWord(a: Arch, predictor: Predictor, v: Machine, k: nat): U32 {
    Word(FrontAt(a, predictor, v, k), Run(a, v, k).pc)
  }

  /** Instruction `k`, if there is one, does the same with the word `w` as with the one that memory holds. */
  ghost predicate SameWith(a: Arch, v: Machine, k: nat, w: U32) {
    Stopped(Run(a, v, k), v) || Perform(Run(a, v, k), w, v) == Run(a, v, k + 1)
  }

  ghost predicate ReadsCurrent(a: Arch, predictor: Predictor, v: Machine) {
    forall k: nat :: SameWith(a, v, k, EarlyWord(a, predictor, v, k))
  }

  /** Early fetches make no difference. */
  ghost predicate EarlyAgrees(a: Arch, predictor: Predictor, v: Machine) {
    forall k: nat :: RunEarly(a, predictor, v, k).arch == Run(a, v, k)
  }

  lemma {:induction false} EarlyIsRun(a: Arch, predictor: Predictor, v: Machine, n: nat)
    requires forall k: nat :: k < n ==> SameWith(a, v, k, EarlyWord(a, predictor, v, k))
    ensures RunEarly(a, predictor, v, n) == Early(Run(a, v, n), FrontAt(a, predictor, v, n))
  {
    hide Perform, Advance, Stopped, Word;
    if n > 0 {
      EarlyIsRun(a, predictor, v, n - 1);
      assert SameWith(a, v, n - 1, EarlyWord(a, predictor, v, n - 1));
    }
  }

  lemma {:induction false} FrontIsEarly(a: Arch, predictor: Predictor, v: Machine, n: nat)
    requires EarlyAgrees(a, predictor, v)
    ensures RunEarly(a, predictor, v, n).front == FrontAt(a, predictor, v, n)
  {
    hide Perform, Advance, Stopped, Run, Word;
    if n > 0 {
      FrontIsEarly(a, predictor, v, n - 1);
      assert RunEarly(a, predictor, v, n - 1).arch == Run(a, v, n - 1);
    }
  }

  lemma RunIsEarly(a: Arch, predictor: Predictor, v: Machine, n: nat)
    requires EarlyAgrees(a, predictor, v)
    ensures SameWith(a, v, n, EarlyWord(a, predictor, v, n))
  {
    hide Perform, Advance, Stopped, Run, FrontAt, Word;
    FrontIsEarly(a, predictor, v, n);
    assert RunEarly(a, predictor, v, n).arch == Run(a, v, n);
    assert RunEarly(a, predictor, v, n + 1).arch == Run(a, v, n + 1);
  }

  /** That is so exactly if every word read early does what the current one does. */
  lemma EarlyAgreesIff(a: Arch, predictor: Predictor, v: Machine)
    ensures EarlyAgrees(a, predictor, v) <==> ReadsCurrent(a, predictor, v)
  {
    hide RunEarly, Run, SameWith, EarlyWord;
    if ReadsCurrent(a, predictor, v) {
      forall k: nat ensures RunEarly(a, predictor, v, k).arch == Run(a, v, k) { EarlyIsRun(a, predictor, v, k); }
    }
    if EarlyAgrees(a, predictor, v) {
      forall k: nat ensures SameWith(a, v, k, EarlyWord(a, predictor, v, k)) { RunIsEarly(a, predictor, v, k); }
    }
  }

  // ----- fetches in range -----

  /** No instruction lies across the end of memory. */
  ghost predicate Fits(a: Arch, v: Machine) { forall k: nat :: !Lost(Run(a, v, k).pc, v) }

  ghost predicate EarlyFits(a: Arch, predictor: Predictor, v: Machine) {
    forall k: nat :: !Lost(RunEarly(a, predictor, v, k).arch.pc, v)
  }

  lemma FitsEarly(a: Arch, predictor: Predictor, v: Machine)
    requires ReadsCurrent(a, predictor, v)
    ensures Fits(a, v) <==> EarlyFits(a, predictor, v)
  {
    hide RunEarly, Run, ReadsCurrent, Lost;
    EarlyAgreesIff(a, predictor, v);
    if Fits(a, v) {
      forall k: nat ensures !Lost(RunEarly(a, predictor, v, k).arch.pc, v) { assert !Lost(Run(a, v, k).pc, v); }
    }
    if EarlyFits(a, predictor, v) {
      forall k: nat ensures !Lost(Run(a, v, k).pc, v) { assert !Lost(RunEarly(a, predictor, v, k).arch.pc, v); }
    }
  }

  /** Three bytes behind the text are enough, and whole words in memory are if no instruction is off them. */
  lemma RoomSuffices(pc: U64, v: Machine)
    requires v.size + 3 <= v.memorySize || (v.size <= v.memorySize && v.size % 4 == 0 && pc % 4 == 0)
    ensures !Lost(pc, v)
  {}

  // ----- a condition for every predictor, forwarding or stalling -----

  function Back(k: nat, j: nat): nat { if j <= k then k - j else 0 }

  /** The word that memory holds for instruction `k` once `j` instructions are executed. */
  ghost function WordAfter(a: Arch, v: Machine, k: nat, j: nat): U32 { LoadLE(Run(a, v, j).mem, Run(a, v, k).pc, 4) }

  /** Neither of the last two instructions has changed the word of instruction `k`. */
  ghost predicate Unchanged(a: Arch, v: Machine, k: nat) {
    WordAfter(a, v, k, k) == WordAfter(a, v, k, Back(k, 1)) == WordAfter(a, v, k, Back(k, 2))
  }

  /** Every word executed has been in memory since two instructions before, or control was transferred to it: it is safe
      to store code and jump to it. */
  ghost predicate KeepsNext(a: Arch, v: Machine) {
    forall k: nat :: !Stopped(Run(a, v, k), v) ==> KeptAt(a, v, k)
  }

  ghost predicate KeptAt(a: Arch, v: Machine, k: nat) {
    k == 0 || TakenBy(Run(a, v, k - 1), WordAfter(a, v, k - 1, k - 1)) || Unchanged(a, v, k)
  }

  /** Transfers, loads and instructions that fault leave memory alone. */
  lemma StoresNothing(s: Arch, w: U32, v: Machine)
    requires Branches(w) || Control(w).memRead || Perform(s, w, v).fault
    ensures Perform(s, w, v).mem == s.mem
  {
    PipelineProof.ControlIsSane(w);
    hide Control, SourceA, SourceB, Immediate, Rd, AluResult, Taken, Target, Loaded, StoreLE, ReadGpr, WriteBack,
      Faults;
  }

  lemma BeforeAt(a: Arch, predictor: Predictor, v: Machine, k: nat)
    requires !Stopped(Run(a, v, k), v)
    ensures FrontAt(a, predictor, v, k).before == Run(a, v, Back(k, 1)).mem
    ensures k > 0 ==> !Stopped(Run(a, v, k - 1), v)
    ensures k > 0 ==> FrontAt(a, predictor, v, k) == Advance(FrontAt(a, predictor, v, k - 1), Run(a, v, k - 1), v)
  {
    hide Perform, IsClose, Leaves, Word, TakenBy, Branches, Learn;
  }

  /** What the early word of instruction `k` is read from. */
  lemma SourceAt(a: Arch, predictor: Predictor, v: Machine, k: nat)
    requires k > 0 && !Stopped(Run(a, v, k), v)
    ensures var (f, s) := (FrontAt(a, predictor, v, k - 1), Run(a, v, k - 1));
      && var w := EarlyWord(a, predictor, v, k - 1);
      && var now := Leaves(w, s, f.predictor) || !IsClose(w, f, v.forwarding);
      && EarlyWord(a, predictor, v, k) == WordAfter(a, v, k, if now then k - 1 else Back(k, 2))
  {
    hide FrontAt, Run, Perform, IsClose, Leaves, TakenBy, Branches, Learn, LoadLE, Stopped;
    BeforeAt(a, predictor, v, k);
    BeforeAt(a, predictor, v, k - 1);
  }

  lemma {:induction false} KeptIsCurrent(a: Arch, predictor: Predictor, v: Machine, k: nat)
    requires KeepsNext(a, v) && !Stopped(Run(a, v, k), v)
    ensures EarlyWord(a, predictor, v, k) == WordAfter(a, v, k, k)
  {
    hide Run, Perform, IsClose, LoadLE, TakenBy, Stopped;
    if k == 0 { StartsCurrent(a, predictor, v); return; }
    BeforeAt(a, predictor, v, k);
    SourceAt(a, predictor, v, k);
    KeptIsCurrent(a, predictor, v, k - 1);
    var s, w := Run(a, v, k - 1), WordAfter(a, v, k - 1, k - 1);
    assert KeptAt(a, v, k);
    if TakenBy(s, w) {
      TakenLeaves(s, w, FrontAt(a, predictor, v, k - 1).predictor);
      StoresNothing(s, w, v);
      StepIs(a, v, k - 1);
    }
  }

  lemma TakenLeaves(s: Arch, w: U32, predictor: Predictor)
    requires TakenBy(s, w)
    ensures Leaves(w, s, predictor) && Branches(w)
  {
    hide Control;
  }

  lemma StartsCurrent(a: Arch, predictor: Predictor, v: Machine)
    ensures EarlyWord(a, predictor, v, 0) == WordAfter(a, v, 0, 0)
  {
    hide LoadLE;
  }

  lemma StepIs(a: Arch, v: Machine, k: nat)
    requires !Stopped(Run(a, v, k), v)
    ensures Run(a, v, k + 1) == Perform(Run(a, v, k), WordAfter(a, v, k, k), v)
  {
    hide Perform, LoadLE;
    assert Run(a, v, k + 1) == Step(Run(a, v, k), v);
  }

  /** Such programs do not notice early fetches, whatever the configuration. */
  lemma KeepsNextSuffices(a: Arch, predictor: Predictor, v: Machine)
    requires KeepsNext(a, v)
    ensures ReadsCurrent(a, predictor, v)
  {
    hide Run, Perform, KeepsNext, EarlyWord, WordAfter, Stopped;
    forall k: nat ensures SameWith(a, v, k, EarlyWord(a, predictor, v, k)) {
      if !Stopped(Run(a, v, k), v) {
        KeptIsCurrent(a, predictor, v, k);
        StepIs(a, v, k);
      }
    }
  }

  /** Address `b` holds a byte of some instruction that is executed. */
  ghost predicate Reached(a: Arch, v: Machine, b: nat) {
    exists k: nat :: !Stopped(Run(a, v, k), v) && Run(a, v, k).pc <= b < Run(a, v, k).pc + 4
  }

  /** A program that never changes an instruction that it executes is one. */
  lemma KeepingTextSuffices(a: Arch, v: Machine)
    requires forall k: nat, b: nat :: Reached(a, v, b) ==> Run(a, v, k).mem[b] == a.mem[b]
    ensures KeepsNext(a, v)
  {
    hide LoadLE, Run, Reached;
    forall k: nat | !Stopped(Run(a, v, k), v) ensures Unchanged(a, v, k) {
      WordKeeps(a, v, k, k);
      WordKeeps(a, v, k, Back(k, 1));
      WordKeeps(a, v, k, Back(k, 2));
    }
  }

  lemma WordKeeps(a: Arch, v: Machine, k: nat, j: nat)
    requires forall k: nat, b: nat :: Reached(a, v, b) ==> Run(a, v, k).mem[b] == a.mem[b]
    requires !Stopped(Run(a, v, k), v)
    ensures WordAfter(a, v, k, j) == LoadLE(a.mem, Run(a, v, k).pc, 4)
  {
    hide LoadLE, Run;
    var pc := Run(a, v, k).pc;
    forall b: nat | pc <= b < pc + 4 ensures Run(a, v, j).mem[b] == a.mem[b] { assert Reached(a, v, b); }
    LoadSame(Run(a, v, j).mem, a.mem, pc, 4);
  }

  // ----- forwarding, and predicting no branch taken -----

  /** What is read for instruction `k` when nothing but a load delays an instruction: memory as two instructions before,
      or, behind a taken transfer, as it is. */
  ghost function WordRead(a: Arch, v: Machine, k: nat): U32 {
    WordAfter(a, v, k, if k > 0 && TakenBy(Run(a, v, k - 1), WordRead(a, v, k - 1)) then k else Back(k, 2))
  }

  ghost predicate NeverPredictsTaken(a: Arch, predictor: Predictor, v: Machine) {
    forall k: nat :: !Predicts(FrontAt(a, predictor, v, k).predictor, Run(a, v, k).pc)
  }

  /** A hazard behind the last instruction, with forwarding, means that it is a load. */
  lemma HeldByLoad(w: U32, f: FrontEnd)
    requires Held(w, f, true)
    ensures Control(f.last).memRead
  {
    hide Control, SourceA, SourceB, Rd;
  }

  /** A word read only when the last instruction was executed, though it was no transfer: nothing had been stored. */
  lemma DelayedUnstored(a: Arch, predictor: Predictor, v: Machine, k: nat)
    requires k > 1 && v.forwarding && !Stopped(Run(a, v, k - 1), v)
    requires SameWith(a, v, k - 2, EarlyWord(a, predictor, v, k - 2))
    requires !IsClose(EarlyWord(a, predictor, v, k - 1), FrontAt(a, predictor, v, k - 1), true)
    ensures Run(a, v, k - 1).mem == Run(a, v, k - 2).mem
  {
    BeforeAt(a, predictor, v, k - 1);
    var f, g, w := FrontAt(a, predictor, v, k - 1), FrontAt(a, predictor, v, k - 2), EarlyWord(a, predictor, v, k - 2);
    hide FrontAt, Run, Perform, Control, Held, LoadLE, Stopped;
    if f.near { HeldByLoad(EarlyWord(a, predictor, v, k - 1), f); }
    StoresNothing(Run(a, v, k - 2), w, v);
  }

  lemma {:induction false} ReadIsEarly(a: Arch, predictor: Predictor, v: Machine, k: nat)
    requires v.forwarding && NeverPredictsTaken(a, predictor, v) && !Stopped(Run(a, v, k), v)
    requires forall j: nat :: j < k ==> SameWith(a, v, j, EarlyWord(a, predictor, v, j))
    ensures EarlyWord(a, predictor, v, k) == WordRead(a, v, k)
  {
    hide Run, Perform, IsClose, LoadLE, Stopped, Predicts, Control, FrontAt;
    if k == 0 { StartsCurrent(a, predictor, v); return; }
    BeforeAt(a, predictor, v, k);
    SourceAt(a, predictor, v, k);
    ReadIsEarly(a, predictor, v, k - 1);
    var s, w := Run(a, v, k - 1), EarlyWord(a, predictor, v, k - 1);
    assert SameWith(a, v, k - 1, w);
    assert !Predicts(FrontAt(a, predictor, v, k - 1).predictor, s.pc);
    if TakenBy(s, w) { StoresNothing(s, w, v); }
    else if k > 1 && !IsClose(w, FrontAt(a, predictor, v, k - 1), v.forwarding) {
      assert SameWith(a, v, k - 2, EarlyWord(a, predictor, v, k - 2));
      DelayedUnstored(a, predictor, v, k);
    }
  }

  /** The exact condition, in terms of the sequential machine alone. */
  ghost predicate ReadsWell(a: Arch, v: Machine) { forall k: nat :: SameWith(a, v, k, WordRead(a, v, k)) }

  lemma {:induction false} ReadsWellAt(a: Arch, predictor: Predictor, v: Machine, n: nat)
    requires v.forwarding && NeverPredictsTaken(a, predictor, v) && ReadsWell(a, v)
    ensures forall k: nat :: k < n ==> SameWith(a, v, k, EarlyWord(a, predictor, v, k))
  {
    hide NeverPredictsTaken, EarlyWord, WordRead, Perform, Run, Stopped;
    if n > 0 {
      ReadsWellAt(a, predictor, v, n - 1);
      assert SameWith(a, v, n - 1, WordRead(a, v, n - 1));
      if !Stopped(Run(a, v, n - 1), v) { ReadIsEarly(a, predictor, v, n - 1); }
    }
  }

  lemma ForwardingReadsIff(a: Arch, predictor: Predictor, v: Machine)
    requires v.forwarding && NeverPredictsTaken(a, predictor, v)
    ensures ReadsCurrent(a, predictor, v) <==> ReadsWell(a, v)
  {
    hide NeverPredictsTaken, EarlyWord, WordRead, Perform, Run, Stopped;
    if ReadsCurrent(a, predictor, v) {
      forall k: nat ensures SameWith(a, v, k, WordRead(a, v, k)) {
        assert SameWith(a, v, k, EarlyWord(a, predictor, v, k));
        if !Stopped(Run(a, v, k), v) { ReadIsEarly(a, predictor, v, k); }
      }
    }
    if ReadsWell(a, v) {
      forall k: nat ensures SameWith(a, v, k, EarlyWord(a, predictor, v, k)) { ReadsWellAt(a, predictor, v, k + 1); }
    }
  }

  lemma {:induction false} StaticStays(a: Arch, v: Machine, k: nat)
    ensures FrontAt(a, StaticTaken, v, k).predictor == StaticTaken
  {
    hide Perform, IsClose, Leaves, Word, TakenBy, Branches;
    if k > 0 { StaticStays(a, v, k - 1); }
  }

  /** The predictor called StaticTaken is one. */
  lemma StaticNeverTaken(a: Arch, v: Machine)
    ensures NeverPredictsTaken(a, StaticTaken, v)
  {
    hide FrontAt, Run;
    forall k: nat ensures !Predicts(FrontAt(a, StaticTaken, v, k).predictor, Run(a, v, k).pc) { StaticStays(a, v, k); }
  }
}
