/** The LS-8 CPU's state and the operations of `ls8/cpu.py` that act on it:
    boot, RAM access, loading a program image, the instruction handlers
    `hlt`, `ldi` and `mul`, and the two-operation `alu`.

    Cells and registers hold Python integers: nothing is reduced modulo 256,
    exactly as in the source. Every subscript goes through Python's list
    indexing, so a negative index designates a cell counted from the end and
    an index outside the list raises IndexError. */
module Machine {
  import opened PyRuntime

  /** The handler methods an opcode can be bound to. */
  datatype Handler = Hlt | Ldi | Mul | Prn

  /** The method name each handler is defined under. */
  function Name(h: Handler): string {
    match h
    case Hlt => "hlt"
    case Ldi => "ldi"
    case Mul => "mul"
    case Prn => "prn"
  }

  /** A dispatch dict from opcode to bound handler. */
  type Table = map<int, Handler>

  /** The attributes `CPU.__init__` creates. `aluOps` is `None` until
      `build_alu_ops` runs. */
  datatype State = State(
    ram: seq<int>,
    registers: seq<int>,
    pc: int,
    ir: int,
    fl: int,
    aluOps: Option<Table>)

  const RamSize: nat := 256
  const RegisterCount: nat := 8
  /** The value R7 is booted with. */
  const StackStart: int := 0xF4

  /** The list lengths the CPU is built with; no operation resizes them. */
  predicate Valid(s: State) {
    |s.ram| == RamSize && |s.registers| == RegisterCount
  }

  /** `CPU.__init__`: zeroed RAM and registers except R7, pc, ir and fl zero,
      no ALU table. */
  function Boot(): (s: State)
    ensures Valid(s)
    ensures forall a :: 0 <= a < RamSize ==> s.ram[a] == 0
    ensures forall k :: 0 <= k < RegisterCount - 1 ==> s.registers[k] == 0
    ensures s.registers[7] == StackStart
    ensures s.pc == 0 && s.ir == 0 && s.fl == 0 && s.aluOps == None
  {
    State(seq(RamSize, _ => 0), seq(RegisterCount, k => if k == 7 then StackStart else 0), 0, 0, 0, None)
  }

  // ---------------------------------------------------------------------
  // RAM access

  /** `ram_read(mar)`: the cell `mar` designates, counting back from the
      end for a negative `mar`, or IndexError. */
  function RamRead(s: State, mar: int): (r: Result<int>)
    ensures r.Success? <==> Addressable(|s.ram|, mar)
    ensures r.Success? ==> r.value == s.ram[Slot(|s.ram|, mar)]
    ensures r.Failure? ==> r.error == IndexError(Ram, mar)
  {
    Get(s.ram, mar, Ram)
  }

  /** `ram_write(mar, mdr)`: only RAM changes, and only in the cell `mar` designates. */
  function RamWrite(s: State, mar: int, mdr: int): (r: Result<State>)
    ensures r.Success? <==> Addressable(|s.ram|, mar)
    ensures r.Success? ==> r.value == s.(ram := r.value.ram) && |r.value.ram| == |s.ram|
    ensures r.Failure? ==> r.error == IndexError(Ram, mar)
  {
    var ram :- Put(s.ram, mar, mdr, Ram);
    Success(s.(ram := ram))
  }

  /** The write loop of `load`: the already-parsed program bytes `prog`
      are written to consecutive addresses from 0. A program longer than RAM
      raises IndexError at the first address past the end. */
  function Load(s: State, prog: seq<int>): (r: Result<State>)
    ensures r.Success? <==> |prog| <= |s.ram|
    ensures r.Failure? ==> r.error == IndexError(Ram, |s.ram|)
    ensures r.Success? ==> r.value == s.(ram := r.value.ram) && |r.value.ram| == |s.ram|
    ensures r.Success? ==> forall a :: 0 <= a < |prog| ==> r.value.ram[a] == prog[a]
    ensures r.Success? ==> forall a :: |prog| <= a < |s.ram| ==> r.value.ram[a] == s.ram[a]
  {
    LoadFrom(s, prog, 0)
  }

  /** The iterations of `load`'s loop from `address` on. */
  function LoadFrom(s: State, prog: seq<int>, address: nat): (r: Result<State>)
    requires address <= |prog| && address <= |s.ram|
    ensures r.Success? <==> |prog| <= |s.ram|
    ensures r.Failure? ==> r.error == IndexError(Ram, |s.ram|)
    ensures r.Success? ==> r.value == s.(ram := r.value.ram) && |r.value.ram| == |s.ram|
    ensures r.Success? ==> forall a :: address <= a < |prog| ==> r.value.ram[a] == prog[a]
    ensures r.Success? ==> forall a :: 0 <= a < |s.ram| && !(address <= a < |prog|) ==> r.value.ram[a] == s.ram[a]
    decreases |prog| - address
  {
    if address == |prog| then Success(s)
    else
      var t :- RamWrite(s, address, prog[address]);
      LoadFrom(t, prog, address + 1)
  }

  // ---------------------------------------------------------------------
  // Operands and registers as the handlers see them

  /** `self.ram[self.pc + offset]` does not raise. */
  predicate HasOperand(s: State, offset: int) {
    Addressable(|s.ram|, s.pc + offset)
  }

  /** The byte at `pc + offset`. */
  function Operand(s: State, offset: int): int
    requires HasOperand(s, offset)
  {
    s.ram[Slot(|s.ram|, s.pc + offset)]
  }

  /** `self.registers[i]`. */
  function Reg(s: State, i: int): int
    requires Addressable(|s.registers|, i)
  {
    s.registers[Slot(|s.registers|, i)]
  }

  /** `t` is `s` with register `i` set to `v` and nothing else changed. */
  predicate SetsOnlyRegister(s: State, t: State, i: int, v: int) {
    && Addressable(|s.registers|, i)
    && t == s.(registers := t.registers)
    && |t.registers| == |s.registers|
    && Reg(t, i) == v
    && forall k :: 0 <= k < |s.registers| && k != Slot(|s.registers|, i) ==> t.registers[k] == s.registers[k]
  }

  // ---------------------------------------------------------------------
  // Instruction handlers. Each returns whether the run loop keeps going,
  // together with the state it leaves.

  /** `hlt`: stop the loop, change nothing. */
  function ExecHlt(s: State): (r: Result<(bool, State)>)
    ensures r.Success? && !r.value.0 && r.value.1 == s
  {
    Success((false, s))
  }

  /** `ldi`: register `ram[pc+1]` receives the immediate `ram[pc+2]`.
      Python evaluates the right-hand side of the assignment first, so the
      immediate is fetched before the register number. */
  function ExecLdi(s: State): (r: Result<(bool, State)>)
    ensures r.Success? <==> HasOperand(s, 1) && HasOperand(s, 2) && Addressable(|s.registers|, Operand(s, 1))
    ensures r.Success? ==> r.value.0 && SetsOnlyRegister(s, r.value.1, Operand(s, 1), Operand(s, 2))
    ensures !HasOperand(s, 2) ==> r == Failure(IndexError(Ram, s.pc + 2))
    ensures r.Failure? ==> r.error.IndexError?
  {
    var value :- RamRead(s, s.pc + 2);
    var target :- RamRead(s, s.pc + 1);
    var registers :- Put(s.registers, target, value, Registers);
    Success((true, s.(registers := registers)))
  }

  /** `mul`: `registers[a] *= registers[b]` with `a = ram[pc+1]`,
      `b = ram[pc+2]`; an unbounded product. */
  function ExecMul(s: State): (r: Result<(bool, State)>)
    ensures r.Success? <==>
      && HasOperand(s, 1) && HasOperand(s, 2)
      && Addressable(|s.registers|, Operand(s, 1)) && Addressable(|s.registers|, Operand(s, 2))
    ensures r.Success? ==>
      && r.value.0
      && SetsOnlyRegister(s, r.value.1, Operand(s, 1), Reg(s, Operand(s, 1)) * Reg(s, Operand(s, 2)))
    ensures r.Failure? ==> r.error.IndexError?
  {
    var a :- RamRead(s, s.pc + 1);
    var b :- RamRead(s, s.pc + 2);
    var x :- Get(s.registers, a, Registers);
    var y :- Get(s.registers, b, Registers);
    // registers[a] was just read, so storing into it cannot raise
    Success((true, s.(registers := s.registers[Slot(|s.registers|, a) := x * y])))
  }

  /** Calls the bound handler `h`. No handler writes RAM, pc, ir, fl or the
      ALU table, and only `hlt` stops the loop. */
  function Execute(h: Handler, s: State): (r: Result<(bool, State)>)
    ensures r.Success? ==> (r.value.0 <==> !h.Hlt?)
    ensures r.Success? ==> r.value.1 == s.(registers := r.value.1.registers)
    ensures r.Success? ==> |r.value.1.registers| == |s.registers|
    ensures h.Hlt? ==> r.Success?
    ensures h.Prn? ==> r == Failure(TypeError("prn"))
  {
    match h
    case Hlt => ExecHlt(s)
    case Ldi => ExecLdi(s)
    case Mul => ExecMul(s)
    // `prn(self, op)` needs an operand the dispatch call `handler()` does not pass.
    case Prn => Failure(TypeError("prn"))
  }

  // ---------------------------------------------------------------------
  // ALU

  /** `alu(op, reg_a, reg_b)`: "ADD" and "MUL" combine `registers[reg_a]`
      with `registers[reg_b]` into `registers[reg_a]`, without reduction;
      any other operation raises before touching a register. */
  function Alu(s: State, op: string, regA: int, regB: int): (r: Result<State>)
    ensures r.Success? <==>
      (op == "ADD" || op == "MUL") && Addressable(|s.registers|, regA) && Addressable(|s.registers|, regB)
    ensures op != "ADD" && op != "MUL" ==> r == Failure(AluError(op))
    ensures r.Success? && op == "ADD" ==> SetsOnlyRegister(s, r.value, regA, Reg(s, regA) + Reg(s, regB))
    ensures r.Success? && op == "MUL" ==> SetsOnlyRegister(s, r.value, regA, Reg(s, regA) * Reg(s, regB))
    ensures r.Failure? && (op == "ADD" || op == "MUL") ==> r.error.IndexError? && r.error.container == Registers
  {
    if op == "ADD" || op == "MUL" then
      var x :- Get(s.registers, regA, Registers);
      var y :- Get(s.registers, regB, Registers);
      var v := if op == "ADD" then x + y else x * y;
      // registers[regA] was just read, so storing into it cannot raise
      Success(s.(registers := s.registers[Slot(|s.registers|, regA) := v]))
    else
      Failure(AluError(op))
  }
}
