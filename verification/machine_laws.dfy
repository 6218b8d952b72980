/** Properties of RAM access, program loading and the register
    instructions, each relating two operations of `Machine`. */
module MachineLaws {
  import opened PyRuntime
  import opened Machine

  /** `ram_read` after `ram_write` returns the written value at the written
      address; every other cell reads as before. */
  lemma ReadAfterWrite(s: State, a: int, v: int, b: int)
    requires RamWrite(s, a, v).Success?
    ensures RamRead(RamWrite(s, a, v).value, a) == Success(v)
    ensures !Addressable(|s.ram|, b) || Slot(|s.ram|, b) != Slot(|s.ram|, a) ==>
      RamRead(RamWrite(s, a, v).value, b) == RamRead(s, b)
  {
  }

  /** `ram_write` raises exactly where `ram_read` raises. */
  lemma WriteFailsIffReadFails(s: State, a: int, v: int)
    ensures RamWrite(s, a, v).Failure? <==> RamRead(s, a).Failure?
    ensures RamWrite(s, a, v).Failure? ==> RamWrite(s, a, v).error == RamRead(s, a).error
  {
  }

  /** Writing back the value just read changes nothing. */
  lemma WriteBackIsIdentity(s: State, a: int)
    requires RamRead(s, a).Success?
    ensures RamWrite(s, a, RamRead(s, a).value) == Success(s)
  {
    var k := Slot(|s.ram|, a);
    assert s.ram[k := s.ram[k]] == s.ram;
  }

  /** Of two writes to the same address, the second wins. */
  lemma LastWriteWins(s: State, a: int, v: int, w: int)
    requires RamWrite(s, a, v).Success?
    ensures RamWrite(RamWrite(s, a, v).value, a, w) == RamWrite(s, a, w)
  {
    var k := Slot(|s.ram|, a);
    assert s.ram[k := v][k := w] == s.ram[k := w];
  }

  /** A negative address reads the cell that far back from the end of RAM. */
  lemma NegativeAddressAliases(s: State, k: int)
    requires 0 < k <= |s.ram|
    ensures RamRead(s, -k) == RamRead(s, |s.ram| - k)
  {
  }

  /** Loading a program image that fits into freshly booted RAM leaves RAM
      equal to the image followed by zeros; a longer image raises
      IndexError at address 256. */
  lemma LoadIntoBoot(prog: seq<int>)
    ensures |prog| <= RamSize ==>
      Load(Boot(), prog) == Success(Boot().(ram := prog + seq(RamSize - |prog|, _ => 0)))
    ensures |prog| > RamSize ==> Load(Boot(), prog) == Failure(IndexError(Ram, RamSize))
  {
    if |prog| <= RamSize {
      var t := Load(Boot(), prog).value;
      var image := prog + seq(RamSize - |prog|, _ => 0);
      assert forall a :: 0 <= a < RamSize ==> t.ram[a] == image[a];
      assert t.ram == image;
    }
  }

  /** `mul` is `alu("MUL", ram[pc+1], ram[pc+2])` reporting that the loop
      keeps going. */
  lemma MulIsAluMul(s: State)
    requires HasOperand(s, 1) && HasOperand(s, 2)
    ensures ExecMul(s).Success? <==> Alu(s, "MUL", Operand(s, 1), Operand(s, 2)).Success?
    ensures ExecMul(s).Success? ==> ExecMul(s).value == (true, Alu(s, "MUL", Operand(s, 1), Operand(s, 2)).value)
  {
  }

  /** `ldi` and then `alu("ADD", r, r)` doubles the loaded immediate, leaving
      every other register as it was before the load. */
  lemma LdiThenAddDoubles(s: State)
    requires ExecLdi(s).Success?
    ensures Alu(ExecLdi(s).value.1, "ADD", Operand(s, 1), Operand(s, 1)).Success?
    ensures SetsOnlyRegister(s, Alu(ExecLdi(s).value.1, "ADD", Operand(s, 1), Operand(s, 1)).value, Operand(s, 1), 2 * Operand(s, 2))
  {
  }

  /** Every handler keeps RAM at 256 cells and the register file at 8. */
  lemma HandlersPreserveValid(h: Handler, s: State)
    requires Valid(s) && Execute(h, s).Success?
    ensures Valid(Execute(h, s).value.1)
  {
  }
}
