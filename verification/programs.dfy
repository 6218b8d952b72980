/** Whole runs of small LS-8 programs from boot, under `run` with HLT bound
    to `hlt`. */
module Programs {
  import opened PyRuntime
  import opened Machine
  import opened Control
  import opened RunLaws

  /** LDI R0,8; LDI R1,9; HLT */
  const LoadTwo: seq<int> := [LDI, 0, 8, LDI, 1, 9, HLT]

  /** LDI R0,8; LDI R1,9; MUL R0,R1; PRN R0; HLT */
  const MultiplyAndPrint: seq<int> := [LDI, 0, 8, LDI, 1, 9, MUL, 0, 1, 0x47, 0, HLT]

  /** The main-table loop over a loaded image whose first six bytes are
      LDI R0,8; LDI R1,9: after two cycles R0 = 8, R1 = 9 and pc = 6. */
  lemma TwoLoads(prog: seq<int>)
    requires 6 <= |prog| <= RamSize && prog[..6] == [LDI, 0, 8, LDI, 1, 9]
    ensures Run(MainTable, Load(Boot(), prog).value, 2) ==
      Running(Load(Boot(), prog).value.(registers := [8, 9, 0, 0, 0, 0, 0, StackStart], pc := 6))
  {
    var s0 := Load(Boot(), prog).value;
    assert prog[0] == LDI && prog[1] == 0 && prog[2] == 8 by { assert prog[..6][0] == LDI; }
    assert prog[3] == LDI && prog[4] == 1 && prog[5] == 9 by { assert prog[..6][3] == LDI; }
    MainCycleCases(s0);
    var s1 := s0.(registers := s0.registers[0 := 8], pc := 3);
    MainCycleCases(s1);
    var s2 := s1.(registers := s1.registers[1 := 9], pc := 6);
    assert s2.registers == [8, 9, 0, 0, 0, 0, 0, StackStart];
    var step := CycleOf(MainTable);
    LoopUnfold(step, s0, 2);
    LoopUnfold(step, s1, 1);
  }

  /** Two loads and a halt: R0 = 8, R1 = 9, every other register as booted,
      pc one past the HLT byte, and the loop stops after the third cycle. */
  lemma LoadTwoHalts(fuel: nat)
    requires fuel >= 3
    ensures RunIntended(Boot(), LoadTwo, fuel) ==
      Success(Halted(Load(Boot(), LoadTwo).value.(registers := [8, 9, 0, 0, 0, 0, 0, StackStart], pc := 7)))
  {
    var s0 := Load(Boot(), LoadTwo).value;
    var s2 := s0.(registers := [8, 9, 0, 0, 0, 0, 0, StackStart], pc := 6);
    var step := CycleOf(MainTable);
    TwoLoads(LoadTwo);
    assert s2.ram[6] == HLT;
    MainCycleCases(s2);
    LoopSplit(step, s0, 2, 1);
    LoopUnfold(step, s2, 1);
    StopIsFinal(step, s0, 3, fuel);
    IntendedReachesLoop(Boot(), LoadTwo, fuel);
  }

  /** The multiply program does not reach its PRN: `run` never consults the
      ALU table, so the MUL byte at address 6 raises KeyError, with R0 and R1
      already loaded and pc left on the MUL. */
  lemma MultiplyFaultsOnMul(fuel: nat)
    requires fuel >= 3
    ensures RunIntended(Boot(), MultiplyAndPrint, fuel) ==
      Success(Faulted(Load(Boot(), MultiplyAndPrint).value.(registers := [8, 9, 0, 0, 0, 0, 0, StackStart], pc := 6),
                      KeyError(MUL)))
  {
    var s0 := Load(Boot(), MultiplyAndPrint).value;
    var s2 := s0.(registers := [8, 9, 0, 0, 0, 0, 0, StackStart], pc := 6);
    var step := CycleOf(MainTable);
    TwoLoads(MultiplyAndPrint);
    assert s2.ram[6] == MUL;
    MainCycleCases(s2);
    LoopSplit(step, s0, 2, 1);
    LoopUnfold(step, s2, 1);
    StopIsFinal(step, s0, 3, fuel);
    IntendedReachesLoop(Boot(), MultiplyAndPrint, fuel);
  }
}
