/** Properties of `run`'s loop: how fuel composes, that the loop stops on
    exactly the first cycle that halts or raises, that pc always advances by
    the opcode's operand count plus one, that the loop cannot run forever,
    and what `run` does with the dispatch display as written. */
module RunLaws {
  import opened PyRuntime
  import opened Machine
  import opened Control

  /** Continue from status `r` with `fuel` more steps. */
  function Resume(step: State -> Status, r: Status, fuel: nat): Status {
    if r.Running? then Loop(step, r.state, fuel) else r
  }

  /** A loop with fuel executes one step and resumes from its outcome. */
  lemma LoopUnfold(step: State -> Status, s: State, fuel: nat)
    requires fuel > 0
    ensures Loop(step, s, fuel) == Resume(step, step(s), fuel - 1)
  {
  }

  /** Running for `a + b` steps is running for `a`, then for `b` more. */
  lemma {:induction false} LoopSplit(step: State -> Status, s: State, a: nat, b: nat)
    ensures Loop(step, s, a + b) == Resume(step, Loop(step, s, a), b)
    decreases a
  {
    if a > 0 {
      LoopUnfold(step, s, a + b);
      LoopUnfold(step, s, a);
      if step(s).Running? {
        LoopSplit(step, step(s).state, a - 1, b);
      }
    }
  }

  /** One more unit of fuel runs one more step, unless the loop has stopped. */
  lemma LoopOneMore(step: State -> Status, s: State, k: nat)
    ensures Loop(step, s, k + 1) ==
      if Loop(step, s, k).Running? then step(Loop(step, s, k).state) else Loop(step, s, k)
  {
    LoopSplit(step, s, k, 1);
  }

  /** Once the loop has stopped, more fuel changes nothing: no further
      cycle executes after HLT or an exception. */
  lemma StopIsFinal(step: State -> Status, s: State, f: nat, g: nat)
    requires f <= g && !Loop(step, s, f).Running?
    ensures Loop(step, s, g) == Loop(step, s, f)
  {
    LoopSplit(step, s, f, g - f);
  }

  /** Step `k` of the loop starts from a running state and ends with `r`. */
  predicate EndsAt(step: State -> Status, s: State, k: nat, r: Status) {
    Loop(step, s, k).Running? && step(Loop(step, s, k).state) == r
  }

  /** The loop ends with `r` (halted or faulted) exactly when some step `k`
      within the fuel started from a running state and ended with `r`. */
  lemma {:induction false} StopsAtFirstStoppingStep(step: State -> Status, s: State, fuel: nat, r: Status)
    requires !r.Running?
    ensures Loop(step, s, fuel) == r <==> exists k :: 0 <= k < fuel && EndsAt(step, s, k, r)
    decreases fuel
  {
    if fuel > 0 {
      var n := fuel - 1;
      StopsAtFirstStoppingStep(step, s, n, r);
      LoopOneMore(step, s, n);
      if Loop(step, s, fuel) == r && Loop(step, s, n).Running? {
        assert EndsAt(step, s, n, r);
      }
      if exists k :: 0 <= k < fuel && EndsAt(step, s, k, r) {
        var k :| 0 <= k < fuel && EndsAt(step, s, k, r);
        if k < n {
          LoopOneMore(step, s, k);
          StopIsFinal(step, s, k + 1, n);
        }
      }
    }
  }

  /** A loop still running after `fuel` steps was running after every
      earlier step: no handler has returned False and nothing has raised. */
  lemma RunningThroughout(step: State -> Status, s: State, fuel: nat, k: nat)
    requires Loop(step, s, fuel).Running? && k <= fuel
    ensures Loop(step, s, k).Running?
  {
    if !Loop(step, s, k).Running? {
      StopIsFinal(step, s, k, fuel);
    }
  }

  /** From a non-negative pc, a step that continues did so from inside RAM
      and moved pc strictly forward, keeping RAM's size. */
  ghost predicate Progresses(step: State -> Status) {
    forall u :: step(u).Running? && 0 <= u.pc ==>
      u.pc < |u.ram| && u.pc < step(u).state.pc && |step(u).state.ram| == |u.ram|
  }

  /** A loop over a progressing step halts or raises within |ram| - pc + 1
      steps. */
  lemma {:induction false} LoopStops(step: State -> Status, s: State)
    requires Progresses(step)
    requires 0 <= s.pc <= |s.ram|
    ensures !Loop(step, s, |s.ram| - s.pc + 1).Running?
    decreases |s.ram| - s.pc
  {
    LoopUnfold(step, s, |s.ram| - s.pc + 1);
    if step(s).Running? {
      var t := step(s).state;
      var fuel := |s.ram| - s.pc;
      if t.pc <= |t.ram| {
        LoopStops(step, t);
        StopIsFinal(step, t, |t.ram| - t.pc + 1, fuel);
      } else {
        LoopUnfold(step, t, 1);
        StopIsFinal(step, t, 1, fuel);
      }
    }
  }

  /** With non-negative opcodes only, every cycle that continues moves pc
      forward: a pc past RAM raises, and the step of a non-negative opcode
      is at least one. */
  lemma CyclesProgress(table: Table)
    requires forall op :: op in table ==> 0 <= op
    ensures Progresses(CycleOf(table))
  {
  }

  /** An opcode missing from the table aborts the run on the spot with
      KeyError: no handler runs, nothing changes, no further cycle executes. */
  lemma UnknownOpcodeAborts(table: Table, s: State, fuel: nat)
    requires HasOperand(s, 0) && Opcode(s) !in table && fuel > 0
    ensures Run(table, s, fuel) == Faulted(s, KeyError(Opcode(s)))
  {
  }

  /** A display binding `prn` builds, since the class defines it, but
      dispatching to it raises TypeError: `prn` expects an operand the
      dispatch call does not pass. */
  lemma PrnBindsButRaises(s: State, fuel: nat)
    requires HasOperand(s, 0) && Opcode(s) == PRN && fuel > 0
    ensures BuildTable([(PRN, "prn")]) == Success(map[PRN := Prn])
    ensures Run(map[PRN := Prn], s, fuel) == Faulted(s, TypeError("prn"))
  {
    var entries := [(PRN, "prn")];
    assert (set i | 0 <= i < |entries| :: entries[i].0) == {PRN} by {
      assert entries[0].0 == PRN;
    }
    assert ResolveHandler(entries[0].1) == Success(Prn);
    assert LastBinding(entries, 0);
    var r := BuildTable(entries);
    assert r.value.Keys == {PRN} && r.value[PRN] == Prn;
    assert r.value == map[PRN := Prn];
    CycleSpec(map[PRN := Prn], s);
    LoopUnfold(CycleOf(map[PRN := Prn]), s, fuel);
  }

  /** `run`'s loop cannot run forever when every opcode in the table is
      non-negative: from pc at most |ram|, |ram| - pc + 1 cycles suffice to
      halt or raise. */
  lemma RunStops(table: Table, s: State)
    requires forall op :: op in table ==> 0 <= op
    requires 0 <= s.pc <= |s.ram|
    ensures !Run(table, s, |s.ram| - s.pc + 1).Running?
  {
    CyclesProgress(table);
    LoopStops(CycleOf(table), s);
  }

  /** With the main table, the Python loop always ends: from boot it halts
      or raises within 257 cycles. */
  lemma MainRunStopsFromBoot(prog: seq<int>)
    requires |prog| <= RamSize
    ensures !Run(MainTable, Load(Boot(), prog).value, RamSize + 1).Running?
  {
    RunStops(MainTable, Load(Boot(), prog).value);
  }

  /** The cycle of the main table {HLT: hlt, LDI: ldi}: HLT stops with pc
      advanced by one and nothing else changed; LDI sets one register and
      advances pc by three; every other opcode, MUL included, raises
      KeyError and leaves the state as it was. */
  lemma MainCycleCases(s: State)
    requires HasOperand(s, 0)
    ensures Opcode(s) == HLT ==> Cycle(MainTable, s) == Halted(s.(pc := s.pc + 1))
    ensures Opcode(s) == LDI && ExecLdi(s).Success? ==>
      Cycle(MainTable, s) == Running(s.(
        registers := s.registers[Slot(|s.registers|, Operand(s, 1)) := Operand(s, 2)],
        pc := s.pc + 3))
    ensures Opcode(s) == LDI && ExecLdi(s).Failure? ==> Cycle(MainTable, s) == Faulted(s, ExecLdi(s).error)
    ensures Opcode(s) != HLT && Opcode(s) != LDI ==> Cycle(MainTable, s) == Faulted(s, KeyError(Opcode(s)))
  {
  }

  /** Under the table `build_alu_ops` stores, MUL multiplies register
      `ram[pc+1]` by register `ram[pc+2]` and advances pc by three. */
  lemma AluTableCycle(s: State)
    requires HasOperand(s, 0) && Opcode(s) == MUL && ExecMul(s).Success?
    ensures Cycle(BuildAluOps(s).aluOps.value, s).Running?
    ensures Cycle(BuildAluOps(s).aluOps.value, s).state.pc == s.pc + 3
    ensures SetsOnlyRegister(s, Cycle(BuildAluOps(s).aluOps.value, s).state.(pc := s.pc),
                             Operand(s, 1), Reg(s, Operand(s, 1)) * Reg(s, Operand(s, 2)))
  {
  }

  /** A run of the main table that halted stopped just past a HLT byte: the
      final HLT advanced pc by one like any other instruction. */
  lemma HaltedJustPastHlt(s: State, fuel: nat, t: State)
    requires Run(MainTable, s, fuel) == Halted(t)
    ensures HasOperand(t, -1) && Operand(t, -1) == HLT
  {
    var step := CycleOf(MainTable);
    StopsAtFirstStoppingStep(step, s, fuel, Halted(t));
    var k :| 0 <= k < fuel && EndsAt(step, s, k, Halted(t));
    var u := Loop(step, s, k).state;
    CycleSpec(MainTable, u);
    assert t.pc - 1 == u.pc && t.ram == u.ram;
  }

  /** `run` as written never reaches its loop: a program that fits raises
      AttributeError for `self.halt` while the dispatch dict is built, and a
      longer one raises IndexError while loading. */
  lemma AsWrittenNeverRuns(s: State, prog: seq<int>, fuel: nat)
    ensures RunAsWritten(s, prog, fuel).Failure?
    ensures |prog| <= |s.ram| ==> RunAsWritten(s, prog, fuel) == Failure(AttributeError("halt"))
    ensures |prog| > |s.ram| ==> RunAsWritten(s, prog, fuel) == Failure(IndexError(Ram, |s.ram|))
  {
  }

  /** `run` with `hlt` bound to HLT loads the program and then loops over
      the main table. */
  lemma IntendedReachesLoop(s: State, prog: seq<int>, fuel: nat)
    requires |prog| <= |s.ram|
    ensures RunIntended(s, prog, fuel) == Success(Run(MainTable, Load(s, prog).value, fuel))
  {
    IntendedTableBuilds();
  }
}
