/** The slice of Python's runtime behaviour the emulator depends on: list
    subscripts (with negative indices counting from the end), the `>>`
    operator on unbounded integers, `None`, and the exceptions that abort a
    run. Every exception becomes an `Error` value carried by `Result`. */
module PyRuntime {

  /** Python's `None`, for attributes that may not have been set yet. */
  datatype Option<+T> = None | Some(value: T)

  /** The two lists the CPU indexes. */
  datatype Container = Ram | Registers

  /** The exceptions the modelled code can raise. */
  datatype Error =
    | IndexError(container: Container, index: int)  // list subscript out of range
    | KeyError(key: int)                            // opcode missing from a dispatch dict
    | AttributeError(name: string)                  // `self.<name>` is not defined
    | AluError(op: string)                          // `alu` given an operation it does not know
    | TypeError(name: string)                       // method `<name>` called with too few arguments

  /** A value, or the exception raised while computing it. Usable with `:-`. */
  datatype Result<+T> = Success(value: T) | Failure(error: Error) {

    predicate IsFailure() {
      Failure?
    }

    function PropagateFailure<U>(): Result<U>
      requires Failure?
    {
      Failure(error)
    }

    function Extract(): T
      requires Success?
    {
      value
    }
  }

  /** `l[i]` on a Python list of length `n` does not raise IndexError. */
  predicate Addressable(n: nat, i: int) {
    -(n as int) <= i < n
  }

  /** The cell that `l[i]` designates: negative indices count back from the end. */
  function Slot(n: nat, i: int): (k: nat)
    requires Addressable(n, i)
    ensures k < n
    ensures (k - i) % n == 0
    ensures 0 <= i ==> k == i
  {
    if i < 0 then i + n else i
  }

  /** Python's `l[i]`. */
  function Get<T>(l: seq<T>, i: int, c: Container): Result<T> {
    if Addressable(|l|, i) then Success(l[Slot(|l|, i)]) else Failure(IndexError(c, i))
  }

  /** Python's `l[i] = v`, as the list it leaves behind. */
  function Put<T>(l: seq<T>, i: int, v: T, c: Container): Result<seq<T>> {
    if Addressable(|l|, i) then Success(l[Slot(|l|, i) := v]) else Failure(IndexError(c, i))
  }

  /** Python's `x >> 6`: an arithmetic shift, i.e. division by 64 rounded
      towards minus infinity, on integers of any size and sign. */
  function ShiftRight6(x: int): (q: int)
    ensures 64 * q <= x < 64 * q + 64
  {
    x / 64
  }
}
