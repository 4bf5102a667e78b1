/**
  The benchmark program fib.c: a naive recursive Fibonacci function on C
  `int`, and a `main` that insists on one command-line argument.

  `Fib` is the mathematical function the C code computes on unbounded
  integers; `FibInt32` evaluates the same recursion in 32-bit signed
  arithmetic and answers `None` where an addition would leave the range of
  `int` (signed overflow is undefined behaviour in C).
 */
module Fibonacci {

  const IntMin: int := -0x8000_0000
  const IntMax: int := 0x7fff_ffff

  predicate InInt32(x: int) {
    IntMin <= x <= IntMax
  }

  datatype Option<T> = None | Some(value: T)

  /** `fib`: arguments below 2, negative ones included, are returned unchanged. */
  function Fib(n: int): (f: int)
    decreases if n < 2 then 0 else n
  {
    if n < 2 then n else Fib(n - 1) + Fib(n - 2)
  }

  /** From 0 on, Fibonacci numbers are non-negative and never decrease. */
  lemma {:induction false} FibNonNegativeAndGrowing(n: int)
    requires n >= 0
    ensures 0 <= Fib(n) <= Fib(n + 1)
    decreases n
  {
    if n >= 2 {
      FibNonNegativeAndGrowing(n - 1);
      FibNonNegativeAndGrowing(n - 2);
    }
  }

  /** Monotonicity over any distance. */
  lemma {:induction false} FibMonotone(m: int, n: int)
    requires 0 <= m <= n
    ensures Fib(m) <= Fib(n)
    decreases n - m
  {
    if m < n {
      FibNonNegativeAndGrowing(m);
      FibMonotone(m + 1, n);
    }
  }

  /** Fibonacci numbers up to 24, each obtained by unfolding the recurrence once. */
  lemma FibUpTo24()
    ensures Fib(23) == 28657 && Fib(24) == 46368
  {
    assert Fib(2) == 1;
    assert Fib(3) == 2;
    assert Fib(4) == 3;
    assert Fib(5) == 5;
    assert Fib(6) == 8;
    assert Fib(7) == 13;
    assert Fib(8) == 21;
    assert Fib(9) == 34;
    assert Fib(10) == 55;
    assert Fib(11) == 89;
    assert Fib(12) == 144;
    assert Fib(13) == 233;
    assert Fib(14) == 377;
    assert Fib(15) == 610;
    assert Fib(16) == 987;
    assert Fib(17) == 1597;
    assert Fib(18) == 2584;
    assert Fib(19) == 4181;
    assert Fib(20) == 6765;
    assert Fib(21) == 10946;
    assert Fib(22) == 17711;
    assert Fib(23) == 28657;
    assert Fib(24) == 46368;
  }

  /** The two values around the limit of 32-bit `int`. */
  lemma FibLimit()
    ensures Fib(46) == 1836311903
    ensures Fib(47) == 2971215073
  {
    FibUpTo24();
    assert Fib(25) == 75025;
    assert Fib(26) == 121393;
    assert Fib(27) == 196418;
    assert Fib(28) == 317811;
    assert Fib(29) == 514229;
    assert Fib(30) == 832040;
    assert Fib(31) == 1346269;
    assert Fib(32) == 2178309;
    assert Fib(33) == 3524578;
    assert Fib(34) == 5702887;
    assert Fib(35) == 9227465;
    assert Fib(36) == 14930352;
    assert Fib(37) == 24157817;
    assert Fib(38) == 39088169;
    assert Fib(39) == 63245986;
    assert Fib(40) == 102334155;
    assert Fib(41) == 165580141;
    assert Fib(42) == 267914296;
    assert Fib(43) == 433494437;
    assert Fib(44) == 701408733;
    assert Fib(45) == 1134903170;
    assert Fib(46) == 1836311903;
    assert Fib(47) == 2971215073;
  }

  /** For an `int` argument, the result fits in `int` exactly when the argument is at most 46. */
  lemma FibFitsIff(n: int)
    requires InInt32(n)
    ensures InInt32(Fib(n)) <==> n <= 46
  {
    FibLimit();
    if n < 0 {
    } else if n <= 46 {
      FibMonotone(n, 46);
      FibNonNegativeAndGrowing(n);
    } else {
      FibMonotone(47, n);
    }
  }

  /** `fib` evaluated in 32-bit `int`: `None` when some addition on the way overflows. */
  function FibInt32(n: int): (r: Option<int>)
    decreases if n < 2 then 0 else n
  {
    if n < 2 then Some(n)
    else
      match (FibInt32(n - 1), FibInt32(n - 2))
      case (Some(a), Some(b)) => if InInt32(a + b) then Some(a + b) else None
      case _ => None
  }

  /**
    The 32-bit evaluation never overflows up to 46, where it agrees with
    `Fib`, and always overflows from 47 on.
   */
  lemma {:induction false} FibInt32Agrees(n: int)
    requires InInt32(n)
    ensures n <= 46 ==> FibInt32(n) == Some(Fib(n))
    ensures n > 46 ==> FibInt32(n) == None
    decreases if n < 2 then 0 else n
  {
    if n >= 2 {
      FibInt32Agrees(n - 1);
      FibInt32Agrees(n - 2);
      if n <= 46 {
        FibFitsIff(n);
      } else if n == 47 {
        FibLimit();
      }
    }
  }

  /** What `main` of fib.c does: print a usage line, print an answer, or overflow. */
  datatype Run = Usage | Answer(value: int) | Overflow {
    /** The process exit status; an overflowing run has none that C defines. */
    function Status(): Option<int> {
      match this
      case Usage => Some(1)
      case Answer(_) => Some(0)
      case Overflow => None
    }
  }

  /**
    `main` of fib.c with `argc` arguments; `n` is what `atoi` made of the
    first one. Fewer than two arguments exit with status 1 without computing.
   */
  function FibMain(argc: int, n: int): (r: Run)
    requires InInt32(n)
    ensures argc < 2 <==> r == Usage
    ensures r.Status() == Some(1) <==> argc < 2
    ensures argc >= 2 && n <= 46 ==> r == Answer(Fib(n)) && r.Status() == Some(0)
    ensures argc >= 2 && n > 46 ==> r == Overflow
  {
    FibInt32Agrees(n);
    if argc < 2 then Usage
    else
      match FibInt32(n)
      case Some(v) => Answer(v)
      case None => Overflow
  }
}
