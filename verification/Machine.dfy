/** Fixed-width integers, result types and a few facts shared by every other module. */
module Machine {
  type byte = x: int | 0 <= x < 0x100
  type u32 = x: int | 0 <= x < 0x1_0000_0000
  type u64 = x: int | 0 <= x < 0x1_0000_0000_0000_0000
  type i64 = x: int | -0x8000_0000_0000_0000 <= x < 0x8000_0000_0000_0000

  const TWO_TO_THE_32 := 0x1_0000_0000
  const TWO_TO_THE_64 := 0x1_0000_0000_0000_0000

  type Bytes32 = s: seq<byte> | |s| == 32 witness seq(32, _ => 0)
  type Bytes64 = s: seq<byte> | |s| == 64 witness seq(64, _ => 0)

  /** `n >> (8 * i)`. */
  function ShiftRight8(n: nat, i: nat): nat {
    if i == 0 then n else ShiftRight8(n, i - 1) / 0x100
  }

  lemma {:induction false} ShiftStep(n: nat, i: nat)
    ensures ShiftRight8(n, i + 1) == ShiftRight8(n / 0x100, i)
  {
    if i != 0 {
      ShiftStep(n, i - 1);
    }
  }

  /** `isspace` in the C locale. */
  predicate IsSpace(c: char) {
    c == ' ' || '\t' <= c <= '\r'
  }

  lemma AddModulo(m: nat, n: nat)
    ensures (m % TWO_TO_THE_64 + n) % TWO_TO_THE_64 == (m + n) % TWO_TO_THE_64
  {
  }

  function Distance(a: nat, b: nat): nat {
    if a > b then a - b else b - a
  }

  lemma Assoc<T>(a: seq<T>, b: seq<T>, c: seq<T>)
    ensures (a + b) + c == a + (b + c)
  {
  }

  datatype Option<+T> = None | Some(value: T) {
    predicate IsFailure() {
      None?
    }

    function PropagateFailure<U>(): Option<U>
      requires None?
    {
      None
    }

    function Extract(): T
      requires Some?
    {
      value
    }
  }

  datatype Result<+T, +E> = Ok(value: T) | Err(error: E) {
    predicate IsFailure() {
      Err?
    }

    function PropagateFailure<U>(): Result<U, E>
      requires Err?
    {
      Err(error)
    }

    function Extract(): T
      requires Ok?
    {
      value
    }
  }
}
