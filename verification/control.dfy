/** The control unit of `ls8/cpu.py`: the dispatch dicts built from
    (opcode, handler attribute) entries, one fetch–execute–advance cycle of
    `run`, the loop bounded by a fuel count, and `run` as a whole (load the
    image, build the table, loop). */
module Control {
  import opened PyRuntime
  import opened Machine

  const HLT: int := 0x01
  const LDI: int := 0x82
  const MUL: int := 0xA2
  const PRN: int := 0x47

  /** The instruction handlers the CPU class defines. */
  const HandlerNames: set<string> := {"hlt", "ldi", "mul", "prn"}

  /** `self.<name>` in a dispatch display: one of the handler methods, or
      AttributeError. The class's other attributes are never named in a
      display and count as missing here. */
  function ResolveHandler(name: string): (r: Result<Handler>)
    ensures r.Failure? ==> r.error == AttributeError(name)
  {
    if name == "hlt" then Success(Hlt)
    else if name == "ldi" then Success(Ldi)
    else if name == "mul" then Success(Mul)
    else if name == "prn" then Success(Prn)
    else Failure(AttributeError(name))
  }

  /** A name resolves exactly when it is one of the handler methods, and
      then to the handler defined under that name. */
  lemma ResolvesHandlerNames(name: string)
    ensures ResolveHandler(name).Success? <==> name in HandlerNames
    ensures ResolveHandler(name).Success? ==> Name(ResolveHandler(name).value) == name
  {
  }

  /** Every handler is found under its own name. */
  lemma ResolvesOwnName(h: Handler)
    ensures ResolveHandler(Name(h)) == Success(h)
  {
  }

  /** The name of every entry before position `i` resolves under `resolve`. */
  predicate ResolvesBefore(resolve: string -> Result<Handler>, entries: seq<(int, string)>, i: int)
    requires i <= |entries|
  {
    forall j :: 0 <= j < i ==> resolve(entries[j].1).Success?
  }

  /** No entry after position `i` rebinds the opcode of entry `i`. */
  predicate LastBinding(entries: seq<(int, string)>, i: int)
    requires 0 <= i < |entries|
  {
    forall j :: i < j < |entries| ==> entries[j].0 != entries[i].0
  }

  /** A dict display `{op: self.name, ...}` evaluated left to right on top of
      `acc`, with `resolve` looking up each `self.name`: the first lookup that
      raises aborts the display with its error; otherwise every opcode is
      bound, to the handler of its last entry. */
  function BuildFrom(resolve: string -> Result<Handler>, acc: Table, entries: seq<(int, string)>): (r: Result<Table>)
    ensures r.Success? <==> ResolvesBefore(resolve, entries, |entries|)
    ensures r.Failure? ==>
      exists i :: 0 <= i < |entries| && ResolvesBefore(resolve, entries, i) && resolve(entries[i].1) == Failure(r.error)
    ensures r.Success? ==> r.value.Keys == acc.Keys + set i | 0 <= i < |entries| :: entries[i].0
    ensures r.Success? ==>
      forall i :: 0 <= i < |entries| && LastBinding(entries, i) ==> r.value[entries[i].0] == resolve(entries[i].1).value
    ensures r.Success? ==>
      forall op :: op in acc && (forall i :: 0 <= i < |entries| ==> entries[i].0 != op) ==> r.value[op] == acc[op]
    decreases |entries|
  {
    if |entries| == 0 then Success(acc)
    else
      var h :- resolve(entries[0].1);
      var tail := entries[1..];
      var r := BuildFrom(resolve, acc[entries[0].0 := h], tail);
      assert forall i :: 1 <= i < |entries| ==> entries[i] == tail[i - 1];
      ResolvesBeforeCons(resolve, entries, |tail|);
      assert r.Failure? ==> exists i :: 0 <= i < |entries| && ResolvesBefore(resolve, entries, i) && resolve(entries[i].1) == Failure(r.error) by {
        if r.Failure? {
          var j :| 0 <= j < |tail| && ResolvesBefore(resolve, tail, j) && resolve(tail[j].1) == Failure(r.error);
          ResolvesBeforeCons(resolve, entries, j);
        }
      }
      assert r.Success? ==> forall i :: 0 <= i < |entries| && LastBinding(entries, i) ==>
        r.value[entries[i].0] == resolve(entries[i].1).value by {
        if r.Success? {
          forall i | 0 <= i < |entries| && LastBinding(entries, i)
            ensures r.value[entries[i].0] == resolve(entries[i].1).value
          {
            LastBindingCons(entries, i);
          }
        }
      }
      OpcodesCons(entries);
      r
  }

  /** With the first name resolved, the names before `j + 1` resolve exactly
      when the rest's names before `j` do. */
  lemma ResolvesBeforeCons(resolve: string -> Result<Handler>, entries: seq<(int, string)>, j: nat)
    requires j < |entries| && resolve(entries[0].1).Success?
    ensures ResolvesBefore(resolve, entries, j + 1) <==> ResolvesBefore(resolve, entries[1..], j)
  {
  }

  /** The last binding of a later entry is its last binding in the rest; the
      first entry's last binding is not rebound by the rest. */
  lemma LastBindingCons(entries: seq<(int, string)>, i: nat)
    requires i < |entries| && LastBinding(entries, i)
    ensures i == 0 ==> forall j :: 0 <= j < |entries| - 1 ==> entries[1..][j].0 != entries[0].0
    ensures i > 0 ==> LastBinding(entries[1..], i - 1)
  {
  }

  /** The opcodes of a non-empty display are its first opcode and those of the rest. */
  lemma OpcodesCons(entries: seq<(int, string)>)
    requires |entries| > 0
    ensures (set i | 0 <= i < |entries| :: entries[i].0) ==
      {entries[0].0} + set i | 0 <= i < |entries| - 1 :: entries[1..][i].0
  {
    var all := set i | 0 <= i < |entries| :: entries[i].0;
    var tail := set i | 0 <= i < |entries| - 1 :: entries[1..][i].0;
    forall op | op in all ensures op in {entries[0].0} + tail {
      var i :| 0 <= i < |entries| && entries[i].0 == op;
      if i > 0 { assert entries[1..][i - 1].0 == op; }
    }
  }

  /** Builds a dispatch dict from its display, looking the names up on the
      CPU object. */
  function BuildTable(entries: seq<(int, string)>): (r: Result<Table>)
    ensures r.Success? <==> ResolvesBefore(ResolveHandler, entries, |entries|)
    ensures r.Failure? ==> r.error.AttributeError?
  {
    BuildFrom(ResolveHandler, map[], entries)
  }

  /** The display at line 95 as written: HLT is bound to `self.halt`. */
  const WrittenEntries: seq<(int, string)> := [(HLT, "halt"), (LDI, "ldi")]
  /** The same display with the handler the class actually defines. */
  const IntendedEntries: seq<(int, string)> := [(HLT, "hlt"), (LDI, "ldi")]
  /** The display in `build_alu_ops`. */
  const AluEntries: seq<(int, string)> := [(MUL, "mul")]

  /** The table `run` dispatches through (with `hlt` for HLT). */
  const MainTable: Table := map[HLT := Hlt, LDI := Ldi]
  /** The table `build_alu_ops` stores. */
  const AluTable: Table := map[MUL := Mul]

  /** `build_alu_ops`: stores the ALU dict and changes nothing else. */
  function BuildAluOps(s: State): (t: State)
    ensures t == s.(aluOps := t.aluOps)
    ensures t.aluOps.Some? && BuildTable(AluEntries) == Success(t.aluOps.value)
  {
    AluTableBuilds();
    s.(aluOps := Some(AluTable))
  }

  /** The ALU display evaluates to the ALU table. */
  lemma AluTableBuilds()
    ensures BuildTable(AluEntries) == Success(AluTable)
  {
    var r := BuildTable(AluEntries);
    assert ResolveHandler(AluEntries[0].1) == Success(Mul);
    assert LastBinding(AluEntries, 0);
    assert r.value.Keys == {MUL} by {
      assert (set i | 0 <= i < |AluEntries| :: AluEntries[i].0) == {MUL} by {
        assert AluEntries[0].0 == MUL;
      }
    }
    assert r.value[MUL] == Mul;
    assert r.value == AluTable;
  }

  /** Line 95 as written raises AttributeError for `halt` when the dict is built. */
  lemma WrittenTableFails()
    ensures BuildTable(WrittenEntries) == Failure(AttributeError("halt"))
  {
  }

  /** With `hlt` in place of `halt`, the display evaluates to the main table. */
  lemma IntendedTableBuilds()
    ensures BuildTable(IntendedEntries) == Success(MainTable)
  {
    var r := BuildTable(IntendedEntries);
    assert ResolveHandler(IntendedEntries[0].1) == Success(Hlt);
    assert ResolveHandler(IntendedEntries[1].1) == Success(Ldi);
    assert ResolvesBefore(ResolveHandler, IntendedEntries, 2);
    assert LastBinding(IntendedEntries, 0) && LastBinding(IntendedEntries, 1);
    assert r.value.Keys == {HLT, LDI} by {
      var keys := set i | 0 <= i < |IntendedEntries| :: IntendedEntries[i].0;
      assert IntendedEntries[0].0 == HLT && IntendedEntries[1].0 == LDI;
      assert keys == {HLT, LDI};
    }
    assert r.value[HLT] == Hlt && r.value[LDI] == Ldi;
    assert r.value == MainTable;
  }

  /** Where the loop stands: still running, stopped by a handler that
      returned False, or aborted by an exception. */
  datatype Status =
    | Running(state: State)
    | Halted(state: State)
    | Faulted(state: State, error: Error)

  /** Only registers and pc differ between `s` and `t`, and the register
      file keeps its size. */
  predicate KeepsFrame(s: State, t: State) {
    t == s.(registers := t.registers, pc := t.pc) && |t.registers| == |s.registers|
  }

  /** The pc step after executing `opcode`: its top two bits (the operand
      count) plus one. */
  function Advance(opcode: int): (n: int)
    ensures 0 <= opcode < 256 ==> 1 <= n <= 4
    ensures 0 <= opcode < 256 ==> n - 1 == ((opcode as bv8) >> 6) as int
    ensures 0 <= opcode ==> 1 <= n
  {
    ShiftRight6(opcode) + 1
  }

  /** The opcode under pc. */
  function Opcode(s: State): int
    requires HasOperand(s, 0)
  {
    Operand(s, 0)
  }

  /** One iteration of `run`'s loop: fetch `ram[pc]`, look it up in `table`,
      call the handler, then advance pc by the step of the opcode re-read at
      pc. Only registers and pc can change. */
  function Cycle(table: Table, s: State): (r: Status)
    ensures KeepsFrame(s, r.state)
  {
    match RamRead(s, s.pc)
    case Failure(e) => Faulted(s, e)
    case Success(opcode) =>
      if opcode !in table then Faulted(s, KeyError(opcode))
      else
        match Execute(table[opcode], s)
        case Failure(e) => Faulted(s, e)
        case Success((running, t)) =>
          // the advance re-reads ram[pc] after the handler has run
          var next := t.(pc := t.pc + Advance(t.ram[Slot(|t.ram|, t.pc)]));
          if running then Running(next) else Halted(next)
  }

  /** What a cycle does: it raises exactly when pc is out of range, the
      opcode is not in the table or the handler raises, and then leaves the
      state as it was; it halts exactly when the opcode is bound to `hlt`;
      otherwise pc advances by the step of the opcode fetched before the
      handler ran, and the handler's register file is kept. */
  lemma CycleSpec(table: Table, s: State)
    ensures Cycle(table, s).Faulted? <==>
      || !HasOperand(s, 0)
      || Opcode(s) !in table
      || Execute(table[Opcode(s)], s).Failure?
    ensures Cycle(table, s).Faulted? ==> Cycle(table, s).state == s
    ensures !HasOperand(s, 0) ==> Cycle(table, s).error == IndexError(Ram, s.pc)
    ensures HasOperand(s, 0) && Opcode(s) !in table ==> Cycle(table, s).error == KeyError(Opcode(s))
    ensures Cycle(table, s).Halted? <==> HasOperand(s, 0) && Opcode(s) in table && table[Opcode(s)] == Hlt
    ensures !Cycle(table, s).Faulted? ==>
      && Cycle(table, s).state.pc == s.pc + Advance(Opcode(s))
      && Cycle(table, s).state.registers == Execute(table[Opcode(s)], s).value.1.registers
  {
  }

  /** A cycle under `table`, as a step `Loop` can iterate. */
  function CycleOf(table: Table): State -> Status {
    s => Cycle(table, s)
  }

  /** At most `fuel` iterations of `step`, stopping at the first one that
      halts or faults. When every step keeps the frame, so does the loop. */
  function Loop(step: State -> Status, s: State, fuel: nat): (r: Status)
    ensures (forall u :: KeepsFrame(u, step(u).state)) ==> KeepsFrame(s, r.state)
    decreases fuel
  {
    if fuel == 0 then Running(s)
    else
      match step(s)
      case Running(t) => Loop(step, t, fuel - 1)
      case stopped => stopped
  }

  /** At most `fuel` iterations of `run`'s loop over `table`. The loop never
      writes RAM, fl, ir or the ALU table and never resizes the register
      file. */
  function Run(table: Table, s: State, fuel: nat): (r: Status)
    ensures KeepsFrame(s, r.state)
  {
    assert forall u :: KeepsFrame(u, CycleOf(table)(u).state);
    Loop(CycleOf(table), s, fuel)
  }

  /** `run` with the dispatch display `entries`: load the program, build the
      dict, then loop for at most `fuel` cycles. An exception raised before
      the loop starts is a `Failure`. */
  function RunCpu(entries: seq<(int, string)>, s: State, prog: seq<int>, fuel: nat): (r: Result<Status>)
    ensures |prog| > |s.ram| ==> r == Failure(IndexError(Ram, |s.ram|))
    ensures |prog| <= |s.ram| ==> (r.Success? <==> ResolvesBefore(ResolveHandler, entries, |entries|))
    ensures |prog| <= |s.ram| && r.Failure? ==> r.error.AttributeError?
    ensures r.Success? ==> r.value.state.ram == Load(s, prog).value.ram
  {
    var loaded :- Load(s, prog);
    var table :- BuildTable(entries);
    Success(Run(table, loaded, fuel))
  }

  /** `run` exactly as written. */
  function RunAsWritten(s: State, prog: seq<int>, fuel: nat): Result<Status> {
    RunCpu(WrittenEntries, s, prog, fuel)
  }

  /** `run` with HLT bound to `hlt`. */
  function RunIntended(s: State, prog: seq<int>, fuel: nat): Result<Status> {
    RunCpu(IntendedEntries, s, prog, fuel)
  }
}
