/** SHA-256 as shift registers: the rounds and the message schedule without a name for each place, and words and bytes
    as numbers. */
module Sha256Registers {
  import opened Machine
  import opened Radix
  import opened Stream
  import opened Sha256

  // ---- The rounds ----

  /** The eight words of a state are two runs of four: `A` holds what goes in at the front, `E` in the middle. */
  function A(s: State, k: seq<u32>, w: seq<u32>, n: nat): u32
    requires n < |k| + 4 && n < |w| + 4
    decreases n, 1
  {
    if n == 0 then s.d
    else if n == 1 then s.c
    else if n == 2 then s.b
    else if n == 3 then s.a
    else
      Add(T(s, k, w, n - 4),
          Add(BigSigma0(A(s, k, w, n - 1)), Majority(A(s, k, w, n - 1), A(s, k, w, n - 2), A(s, k, w, n - 3))))
  }

  function E(s: State, k: seq<u32>, w: seq<u32>, n: nat): u32
    requires n < |k| + 4 && n < |w| + 4
    decreases n, 1
  {
    if n == 0 then s.h
    else if n == 1 then s.g
    else if n == 2 then s.f
    else if n == 3 then s.e
    else Add(A(s, k, w, n - 4), T(s, k, w, n - 4))
  }

  function T(s: State, k: seq<u32>, w: seq<u32>, n: nat): u32
    requires n < |k| && n < |w|
    decreases n + 4, 0
  {
    var e := E(s, k, w, n + 3);
    Add(Add(Add(Add(E(s, k, w, n), BigSigma1(e)), Choose(e, E(s, k, w, n + 2), E(s, k, w, n + 1))), k[n]), w[n])
  }

  lemma OneRound(s: State, k: u32, w: u32, t: u32)
    requires t == Add(Add(Add(Add(s.h, BigSigma1(s.e)), Choose(s.e, s.f, s.g)), k), w)
    ensures Round(s, k, w)
         == State(Add(t, Add(BigSigma0(s.a), Majority(s.a, s.b, s.c))), s.a, s.b, s.c, Add(s.d, t), s.e, s.f, s.g)
  {
  }

  lemma NextWords(s: State, k: seq<u32>, w: seq<u32>, n: nat)
    requires n < |k| && n < |w|
    ensures A(s, k, w, n + 4)
         == Add(T(s, k, w, n),
                Add(BigSigma0(A(s, k, w, n + 3)), Majority(A(s, k, w, n + 3), A(s, k, w, n + 2), A(s, k, w, n + 1))))
    ensures E(s, k, w, n + 4) == Add(A(s, k, w, n), T(s, k, w, n))
  {
  }

  /** The last four words of each run. */
  function Registers(s: State, k: seq<u32>, w: seq<u32>, n: nat): State
    requires n <= |k| && n <= |w|
  {
    State(A(s, k, w, n + 3), A(s, k, w, n + 2), A(s, k, w, n + 1), A(s, k, w, n),
          E(s, k, w, n + 3), E(s, k, w, n + 2), E(s, k, w, n + 1), E(s, k, w, n))
  }

  lemma RegistersTurn(s: State, k: seq<u32>, w: seq<u32>, n: nat)
    requires n < |k| && n < |w|
    ensures Registers(s, k, w, n + 1) == Round(Registers(s, k, w, n), k[n], w[n])
  {
    NextWords(s, k, w, n);
    OneRound(Registers(s, k, w, n), k[n], w[n], T(s, k, w, n));
  }

  lemma RoundsTurn(s: State, k: seq<u32>, w: seq<u32>, n: nat, r: State)
    requires n < |k| && n < |w| && Rounds(s, k, w, n) == r
    ensures Rounds(s, k, w, n + 1) == Round(r, k[n], w[n])
  {
  }

  /** After `n` rounds the state holds the last four words of each run. */
  lemma {:induction false} RoundsAreRegisters(s: State, k: seq<u32>, w: seq<u32>, n: nat)
    requires n <= |k| && n <= |w|
    ensures Rounds(s, k, w, n) == Registers(s, k, w, n)
  {
    if n == 0 {
      NoRounds(s, k, w);
    } else {
      RoundsAreRegisters(s, k, w, n - 1);
      RoundsTurn(s, k, w, n - 1, Registers(s, k, w, n - 1));
      RegistersTurn(s, k, w, n - 1);
    }
  }

  lemma NoRounds(s: State, k: seq<u32>, w: seq<u32>)
    ensures Registers(s, k, w, 0) == s
  {
  }

  // ---- Words as numbers ----

  lemma {:induction false} OrZero(x: nat, n: nat)
    requires x < Pow(2, n)
    ensures Bits(Or, x, 0, n) == x
    decreases n
  {
    if n > 0 {
      OrZero(x / 2, n - 1);
    }
  }

  /** Numbers without a common bit. */
  lemma {:induction false} OrSum(q: nat, y: nat, k: nat, n: nat)
    requires y < Pow(2, k) && q * Pow(2, k) < Pow(2, n) && k <= n
    ensures Bits(Or, q * Pow(2, k), y, n) == q * Pow(2, k) + y
    decreases k
  {
    var x := q * Pow(2, k);
    if k == 0 {
      OrZero(x, n);
    } else {
      var half := q * Pow(2, k - 1);
      assert x == 2 * half;
      OrSum(q, y / 2, k - 1, n - 1);
    }
  }

  lemma DoubleFits(x: nat, p: nat)
    requires p > 0 && x * (2 * p) < TWO_TO_THE_32
    ensures 2 * x * p == x * (2 * p) && x * 2 % TWO_TO_THE_32 == 2 * x < TWO_TO_THE_32
  {
    MulLe(1, p, 2 * x);
  }

  lemma {:induction false} ShiftLeftValue(x: u32, n: nat, p: nat)
    requires p == Pow(2, n) && x * p < TWO_TO_THE_32
    ensures ShiftLeft(x, n) == x * p
    decreases n
  {
    if n > 0 {
      PowPositive(2, n - 1);
      DoubleFits(x, Pow(2, n - 1));
      ShiftLeftValue(2 * x, n - 1, Pow(2, n - 1));
    }
  }

  lemma ByteShifts()
    ensures Pow(2, 8) == 0x100 && Pow(2, 16) == 0x1_0000 && Pow(2, 24) == 0x100_0000
  {
    PowAdd(2, 4, 4);
    PowAdd(2, 8, 8);
    PowAdd(2, 16, 8);
  }

  /** Four bytes are a word, the first being the highest. */
  lemma BigEndianWordIs(b0: byte, b1: byte, b2: byte, b3: byte)
    ensures BigEndianWord(b0, b1, b2, b3) == Value(0x100, [b0, b1, b2, b3])
  {
    ByteShifts();
    ShiftLeftValue(b0, 24, 0x100_0000);
    ShiftLeftValue(b1, 16, 0x1_0000);
    ShiftLeftValue(b2, 8, 0x100);
    ThreeOrs(b0 * 0x100_0000, b1 * 0x1_0000, b2 * 0x100, b0, b1, b2, b3);
    FourDigits(b0, b1, b2, b3);
  }

  lemma ThreeOrs(x0: u32, x1: u32, x2: u32, b0: byte, b1: byte, b2: byte, b3: byte)
    requires x0 == b0 * 0x100_0000 && x1 == b1 * 0x1_0000 && x2 == b2 * 0x100
    ensures Bitwise(Or, Bitwise(Or, Bitwise(Or, x0, x1), x2), b3) == x0 + x1 + x2 + b3
  {
    ByteShifts();
    OrIsSum(x0, x1, b0, 24, 0x100_0000);
    OrIsSum(x0 + x1, x2, b0 * 0x100 + b1, 16, 0x1_0000);
    OrIsSum(x0 + x1 + x2, b3, b0 * 0x1_0000 + b1 * 0x100 + b2, 8, 0x100);
  }

  lemma OrIsSum(x: u32, y: u32, q: nat, k: nat, p: nat)
    requires k <= 32 && p == Pow(2, k) && x == q * p && y < p
    ensures Bitwise(Or, x, y) == x + y
  {
    Pow32();
    OrSum(q, y, k, 32);
  }

  lemma OneDigitMore(ds: seq<nat>, d: nat)
    ensures Value(0x100, ds + [d]) == Value(0x100, ds) * 0x100 + d
  {
    assert (ds + [d])[..|ds|] == ds;
  }

  lemma FourDigits(b0: nat, b1: nat, b2: nat, b3: nat)
    ensures Value(0x100, [b0, b1, b2, b3]) == b0 * 0x100_0000 + b1 * 0x1_0000 + b2 * 0x100 + b3
  {
    ValueSingle(0x100, b0);
    OneDigitMore([b0], b1);
    OneDigitMore([b0, b1], b2);
    OneDigitMore([b0, b1, b2], b3);
    assert [b0] + [b1] == [b0, b1] && [b0, b1] + [b2] == [b0, b1, b2] && [b0, b1, b2] + [b3] == [b0, b1, b2, b3];
  }

  lemma {:induction false} ShiftTwice(x: u32, m: nat, n: nat)
    ensures ShiftRight(x, m + n) == ShiftRight(ShiftRight(x, m), n)
    decreases m
  {
    if m > 0 {
      ShiftTwice(x / 2, m - 1, n);
    }
  }

  lemma ShiftFour(x: u32)
    ensures ShiftRight(x, 4) == x / 16
  {
    ShiftTwice(x, 1, 3);
    ShiftTwice(x / 2, 1, 2);
    ShiftTwice(x / 4, 1, 1);
    ShiftOne(x);
    ShiftOne(x / 2);
    ShiftOne(x / 4);
    ShiftOne(x / 8);
  }

  lemma ShiftOne(x: u32)
    ensures ShiftRight(x, 1) == x / 2
  {
    assert ShiftRight(x / 2, 0) == x / 2;
  }

  lemma ShiftByte(x: u32)
    ensures ShiftRight(x, 8) == x / 0x100
  {
    ShiftTwice(x, 4, 4);
    ShiftFour(x);
    ShiftFour(x / 16);
  }

  lemma ByteOf(x: u32, a: u32, b: u32, c: u32)
    requires a == x / 0x100 && b == a / 0x100 && c == b / 0x100
    ensures WordByte(x, 0) == c && WordByte(x, 1) == b % 0x100
    ensures WordByte(x, 2) == a % 0x100 && WordByte(x, 3) == x % 0x100
  {
    ShiftByte(x);
    ShiftByte(a);
    ShiftByte(b);
    ShiftTwice(x, 8, 8);
    ShiftTwice(x, 16, 8);
    assert ShiftRight(x, 0) == x;
  }

  lemma FourBytes(x: nat, a: nat, b: nat, c: nat)
    requires a == x / 0x100 && b == a / 0x100 && c == b / 0x100
    ensures c * 0x100_0000 + b % 0x100 * 0x1_0000 + a % 0x100 * 0x100 + x % 0x100 == x
  {
    assert x == a * 0x100 + x % 0x100 && a == b * 0x100 + a % 0x100 && b == c * 0x100 + b % 0x100;
  }

  /** A word is written as its four bytes, the highest first. */
  lemma WordBytes(x: u32)
    ensures Value(0x100, [WordByte(x, 0), WordByte(x, 1), WordByte(x, 2), WordByte(x, 3)]) == x
  {
    var a := x / 0x100;
    var b := a / 0x100;
    ByteOf(x, a, b, b / 0x100);
    FourBytes(x, a, b, b / 0x100);
    FourDigits(WordByte(x, 0), WordByte(x, 1), WordByte(x, 2), WordByte(x, 3));
  }

  /** Bytes `4 * q` to `4 * q + 3` of the output are word `q` of the state. */
  lemma OutputIsWords(s: State, q: nat)
    requires q < 8
    ensures Value(0x100, StateBytes(s)[4 * q..4 * q + 4]) == StateWord(s, q)
  {
    OutputByte(s, q, 0);
    OutputByte(s, q, 1);
    OutputByte(s, q, 2);
    OutputByte(s, q, 3);
    OutputOf(StateBytes(s), 4 * q, StateWord(s, q));
  }

  lemma OutputOf(bytes: seq<byte>, k: nat, x: u32)
    requires k + 4 <= |bytes| && bytes[k] == WordByte(x, 0) && bytes[k + 1] == WordByte(x, 1)
    requires bytes[k + 2] == WordByte(x, 2) && bytes[k + 3] == WordByte(x, 3)
    ensures Value(0x100, bytes[k..k + 4]) == x
  {
    FourOf(bytes, k, WordByte(x, 0), WordByte(x, 1), WordByte(x, 2), WordByte(x, 3));
    WordBytes(x);
  }

  lemma FourOf(bytes: seq<byte>, k: nat, b0: byte, b1: byte, b2: byte, b3: byte)
    requires k + 4 <= |bytes| && bytes[k] == b0 && bytes[k + 1] == b1 && bytes[k + 2] == b2 && bytes[k + 3] == b3
    ensures bytes[k..k + 4] == [b0, b1, b2, b3]
  {
  }

  lemma OutputByte(s: State, q: nat, j: nat)
    requires q < 8 && j < 4
    ensures StateBytes(s)[4 * q + j] == WordByte(StateWord(s, q), j)
  {
    assert (4 * q + j) / 4 == q && (4 * q + j) % 4 == j;
  }

  // ---- The message schedule ----

  function Sum(a: u32, b: u32, c: u32, d: u32): u32 {
    (a + b + c + d) % TWO_TO_THE_32
  }

  function NextSum(a: u32, b: u32, c: u32, d: u32): u32 {
    Sum(a, SmallSigma0(b), c, SmallSigma1(d))
  }

  /** Sixteen words of the schedule, moved on by one. */
  function Slide(w: seq<u32>): (next: seq<u32>)
    requires |w| == 16
    ensures |next| == 16
  {
    w[1..] + [NextSum(w[0], w[1], w[9], w[14])]
  }

  function BlockWords(block: Block64): (words: seq<u32>)
    ensures |words| == 16 && forall i :: 0 <= i < 16 ==> words[i] == Value(0x100, block[4 * i..4 * i + 4])
  {
    BlockWordsFit(block);
    seq(16, i requires 0 <= i < 16 => Value(0x100, block[4 * i..4 * i + 4]) as u32)
  }

  /** A window over the schedule: at first the words of the block. */
  function Window(block: Block64, n: nat): (window: seq<u32>)
    ensures |window| == 16
    decreases n, block
  {
    if n == 0 then BlockWords(block) else Slide(Window(block, n - 1))
  }

  lemma BlockWordsFit(block: Block64)
    ensures forall i :: 0 <= i < 16 ==> Value(0x100, block[4 * i..4 * i + 4]) < TWO_TO_THE_32
  {
    forall i | 0 <= i < 16
      ensures Value(0x100, block[4 * i..4 * i + 4]) < TWO_TO_THE_32
    {
      ValueBound(0x100, block[4 * i..4 * i + 4]);
      PowAdd(0x100, 2, 2);
    }
  }

  lemma WindowStart(block: Block64, i: nat)
    requires i < 16
    ensures Window(block, 0)[i] == Schedule(block, i)
  {
    BigEndianWordIs(block[4 * i], block[4 * i + 1], block[4 * i + 2], block[4 * i + 3]);
    assert block[4 * i..4 * i + 4] == [block[4 * i], block[4 * i + 1], block[4 * i + 2], block[4 * i + 3]];
  }

  /** The window over place `n` shows the words of the schedule from there on. */
  lemma {:induction false} WindowIs(block: Block64, n: nat, i: nat)
    requires i < 16
    ensures Window(block, n)[i] == Schedule(block, n + i)
    decreases n, i
  {
    if n == 0 {
      WindowStart(block, i);
    } else {
      if i < 15 {
        WindowIs(block, n - 1, i + 1);
        SlideMoves(Window(block, n - 1), i);
      } else {
        WindowEnd(block, n);
      }
    }
  }

  lemma SlideMoves(w: seq<u32>, i: nat)
    requires |w| == 16 && i < 15
    ensures Slide(w)[i] == w[i + 1]
  {
  }

  lemma SlideEnds(w: seq<u32>, a: u32, b: u32, c: u32, d: u32, next: u32)
    requires |w| == 16 && w[0] == a && w[1] == b && w[9] == c && w[14] == d && NextSum(a, b, c, d) == next
    ensures Slide(w)[15] == next
  {
  }

  lemma WindowShows(block: Block64, n: nat, w: seq<u32>)
    requires w == Window(block, n)
    ensures |w| == 16 && w[0] == Schedule(block, n) && w[1] == Schedule(block, n + 1)
    ensures w[9] == Schedule(block, n + 9) && w[14] == Schedule(block, n + 14)
    decreases n, 15
  {
    WindowIs(block, n, 0);
    WindowIs(block, n, 1);
    WindowIs(block, n, 9);
    WindowIs(block, n, 14);
  }

  lemma WindowEnd(block: Block64, n: nat)
    requires n > 0
    ensures Window(block, n)[15] == Schedule(block, n + 15)
    decreases n - 1, 16
  {
    var w := Window(block, n - 1);
    WindowShows(block, n - 1, w);
    LastWord(block, n, w[0], w[1], w[9], w[14]);
    SlideEnds(w, w[0], w[1], w[9], w[14], Schedule(block, n + 15));
  }

  lemma LastWord(block: Block64, n: nat, a: u32, b: u32, c: u32, d: u32)
    requires n > 0 && Schedule(block, n - 1) == a && Schedule(block, n) == b
    requires Schedule(block, n + 8) == c && Schedule(block, n + 13) == d
    ensures NextSum(a, b, c, d) == Schedule(block, n + 15)
  {
    ScheduleStep(block, n + 15);
    NextWordIs(a, b, c, d);
  }

  lemma NextWordIs(a: u32, b: u32, c: u32, d: u32)
    ensures NextWord(a, b, c, d) == NextSum(a, b, c, d)
  {
    var p, q := SmallSigma0(b), SmallSigma1(d);
    SumOfFour(a, p, c, q);
    calc {
      NextWord(a, b, c, d);
      Add(Add(Add(a, p), c), q);
      Sum(a, p, c, q);
      NextSum(a, b, c, d);
    }
  }

  lemma SumOfFour(a: u32, b: u32, c: u32, d: u32)
    ensures Add(Add(Add(a, b), c), d) == Sum(a, b, c, d)
  {
    AddReduced(a + b, c);
    AddReduced(a + b + c, d);
  }

  lemma AddReduced(x: nat, y: nat)
    ensures (x % TWO_TO_THE_32 + y) % TWO_TO_THE_32 == (x + y) % TWO_TO_THE_32
  {
  }

  // ---- One block ----

  lemma {:induction false} ExpandedAre(block: Block64, w: seq<u32>, n: nat)
    requires n <= |w| && forall i :: 0 <= i < n ==> w[i] == Window(block, i)[0]
    ensures Expand(block, n) == w[..n]
  {
    forall i | 0 <= i < n
      ensures w[i] == Schedule(block, i)
    {
      WindowIs(block, i, 0);
    }
    ExpandIs(block, w, n);
  }

  lemma CompressAdds(s: State, block: Block64, k: seq<u32>, w: seq<u32>, n: nat, r: State)
    requires n == 64 && k == K && |k| == n && Expand(block, n) == w && Rounds(s, k, w, n) == r
    ensures Compress(s, block) == AddStates(s, r)
  {
  }

  /** The state `r` is what `n` turns of the two runs leave. */
  ghost predicate Turned(s: State, k: seq<u32>, w: seq<u32>, n: nat, r: State) {
    n <= |k| && n <= |w| && Registers(s, k, w, n) == r
  }

  lemma TurnedIs(s: State, k: seq<u32>, w: seq<u32>, n: nat, r: State)
    requires Turned(s, k, w, n, r)
    ensures n <= |k| && n <= |w| && Rounds(s, k, w, n) == r
  {
    RoundsAreRegisters(s, k, w, n);
  }

  lemma SumOfWords(x: State, y: State, q: nat)
    requires q < 8
    ensures StateWord(AddStates(x, y), q) == (StateWord(x, q) + StateWord(y, q)) % TWO_TO_THE_32
  {
  }

  /** Compressing a block adds to each word the one that 64 turns of the two runs leave, with the words that the window
      shows first. */
  lemma CompressIs(s: State, block: Block64, k: seq<u32>, w: seq<u32>, n: nat, r: State, q: nat)
    requires n == 64 && k == K && |k| == |w| == n && forall i :: 0 <= i < n ==> w[i] == Window(block, i)[0]
    requires Turned(s, k, w, n, r) && q < 8
    ensures StateWord(Compress(s, block), q) == (StateWord(s, q) + StateWord(r, q)) % TWO_TO_THE_32
  {
    ExpandedAre(block, w, n);
    assert w[..n] == w;
    TurnedIs(s, k, w, n, r);
    CompressAdds(s, block, k, w, n, r);
    SumOfWords(s, r, q);
  }
}
