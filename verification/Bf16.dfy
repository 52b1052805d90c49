/** The bf16 format: a sign, eight bits of exponent and seven of fraction, rounded to the nearest value with
    halves to the even code. Values are whole numbers of the smallest step, so no powers appear. */
module Bf16 {
  import Rows = RowReductions

  function Two(n: nat): (p: real)
    ensures p >= 1.0
  {
    if n == 0 then 1.0 else 2.0 * Two(n - 1)
  }

  /** The distance between neighbours near zero, two to the power of -133. */
  const STEP := 1.0 / Two(133)

  /** Codes without a sign that stand for numbers; the others are the infinity and what is no number. */
  const FINITE := 32640

  /** The steps a code stands for: up to the second binade one per code, and twice as many a binade up. */
  function Steps(code: nat): (n: nat)
    ensures code >= 128 ==> n >= 128
  {
    if code < 256 then code else 2 * Steps(code - 128)
  }

  /** The code of a number of steps. */
  function Round(y: real): (code: nat)
    requires y >= 0.0
    decreases y.Floor
  {
    if y < 256.0 then Rows.Rint(y) else 128 + Round(y / 2.0)
  }

  /** A step more or less never costs more than half a step, or one part in 256. */
  lemma {:induction false} RoundLoss(y: real)
    requires y >= 0.0
    ensures Rows.Abs(Steps(Round(y)) as real - y) <= Rows.Max(0.5, y / 256.0)
    decreases y.Floor
  {
    if y < 256.0 {
      Rows.RintIsNear(y);
    } else {
      RoundLoss(y / 2.0);
      assert Rows.Max(0.5, y / 2.0 / 256.0) == y / 512.0;
    }
  }

  /** What a code stands for gets that code back. */
  lemma {:induction false} RoundBack(code: nat)
    ensures Round(Steps(code) as real) == code
  {
    if code >= 256 {
      RoundBack(code - 128);
      assert Steps(code) as real / 2.0 == Steps(code - 128) as real;
    }
  }

  lemma RoundSteps(y: real)
    requires y >= 0.0
    ensures Steps(Round(y)) == if y < 256.0 then Rows.Rint(y) else 2 * Steps(Round(y / 2.0))
  {
    if y < 256.0 {
      assert Steps(256) == 2 * Steps(128);
    }
  }

  /** No number of steps is closer than the one whose code is taken. */
  lemma {:induction false} RoundIsNearest(y: real, code: nat)
    requires y >= 0.0
    ensures Rows.Abs(Steps(Round(y)) as real - y) <= Rows.Abs(Steps(code) as real - y)
    decreases y.Floor
  {
    RoundSteps(y);
    if y < 256.0 {
      NearestInt(y, Steps(code));
    } else {
      var c := if code < 256 then 128 else code - 128;
      RoundIsNearest(y / 2.0, c);
      Doubled(Steps(Round(y / 2.0)), Steps(c), y);
      Farther(Steps(code), 2 * Steps(c), y);
    }
  }

  lemma Farther(m: int, n: int, y: real)
    requires m == n || (m <= n && n as real <= y)
    ensures Rows.Abs(n as real - y) <= Rows.Abs(m as real - y)
  {
  }

  lemma NearestInt(y: real, n: int)
    ensures Rows.Abs(Rows.Rint(y) as real - y) <= Rows.Abs(n as real - y)
  {
    if n <= y.Floor {
    } else {
      assert n as real >= (y.Floor + 1) as real;
    }
  }

  lemma Doubled(m: int, n: int, y: real)
    requires Rows.Abs(m as real - y / 2.0) <= Rows.Abs(n as real - y / 2.0)
    ensures Rows.Abs((2 * m) as real - y) <= Rows.Abs((2 * n) as real - y)
  {
    assert (2 * m) as real - y == 2.0 * (m as real - y / 2.0);
    assert (2 * n) as real - y == 2.0 * (n as real - y / 2.0);
  }

  lemma TieInt(y: real, n: int)
    requires n != Rows.Rint(y) && Rows.Abs(Rows.Rint(y) as real - y) == Rows.Abs(n as real - y)
    ensures Rows.Rint(y) % 2 == 0
  {
    Rows.RintIsNear(y);
    assert n <= Rows.Rint(y) - 1 || n >= Rows.Rint(y) + 1;
  }

  lemma TieSmall(y: real, code: nat)
    requires 0.0 <= y < 256.0 && code != Round(y)
    requires Rows.Abs(Steps(Round(y)) as real - y) == Rows.Abs(Steps(code) as real - y)
    ensures Round(y) % 2 == 0
  {
    RoundSteps(y);
    Rows.RintIsNear(y);
    StepsSame(code, Rows.Rint(y));
    TieInt(y, Steps(code));
  }

  /** Where two numbers of steps are equally close, the even code is taken; induction on `bound`. */
  lemma {:induction false} RoundTies(y: real, code: nat, bound: nat)
    requires 0.0 <= y < bound as real && code != Round(y)
    requires Rows.Abs(Steps(Round(y)) as real - y) == Rows.Abs(Steps(code) as real - y)
    ensures Round(y) % 2 == 0
    decreases bound
  {
    if y < 256.0 {
      TieSmall(y, code);
    } else if code < 256 {
      TooSmall(y, code);
    } else {
      TieBelow(y, code);
      RoundTies(y / 2.0, code - 128, bound - 1);
    }
  }

  /** The tie is one of the binade below, too. */
  lemma TieBelow(y: real, code: nat)
    requires y >= 256.0 && code >= 256 && code != Round(y)
    requires Rows.Abs(Steps(Round(y)) as real - y) == Rows.Abs(Steps(code) as real - y)
    ensures code - 128 != Round(y / 2.0) && Round(y) == 128 + Round(y / 2.0)
    ensures Rows.Abs(Steps(Round(y / 2.0)) as real - y / 2.0) == Rows.Abs(Steps(code - 128) as real - y / 2.0)
  {
    RoundSteps(y);
    Halved(Steps(Round(y / 2.0)), Steps(code - 128), y);
  }

  /** Codes below 256 are farther than 256 from what is beyond. */
  lemma TooSmall(y: real, code: nat)
    requires y >= 256.0 && code < 256
    ensures Rows.Abs(Steps(Round(y)) as real - y) < Rows.Abs(Steps(code) as real - y)
  {
    RoundIsNearest(y, 256);
    StepsSame(256, 256);
  }

  lemma Halved(m: int, n: int, y: real)
    requires Rows.Abs((2 * m) as real - y) == Rows.Abs((2 * n) as real - y)
    ensures Rows.Abs(m as real - y / 2.0) == Rows.Abs(n as real - y / 2.0)
  {
    assert (2 * m) as real - y == 2.0 * (m as real - y / 2.0);
    assert (2 * n) as real - y == 2.0 * (n as real - y / 2.0);
  }

  /** Up to 256 steps there is one code for each number. */
  lemma StepsSame(code: nat, n: nat)
    requires n <= 256
    ensures Steps(code) == n <==> code == n
  {
    if code > 256 {
      StepsReach(code - 128);
    }
    assert Steps(256) == 2 * Steps(128);
  }

  lemma StepsReach(code: nat)
    ensures if code < 256 then Steps(code) == code else Steps(code) >= 256
  {
  }

  /** What is not above the value of a code does not get a greater code. */
  lemma {:induction false} RoundBelow(y: real, code: nat)
    requires 0.0 <= y <= Steps(code) as real
    ensures Round(y) <= code
    decreases y.Floor
  {
    if y >= 256.0 {
      RoundBelow(y / 2.0, code - 128);
    }
  }

  lemma {:induction false} StepsGrow(a: nat, b: nat)
    requires a <= b
    ensures Steps(a) <= Steps(b)
  {
    if a >= 256 {
      StepsGrow(a - 128, b - 128);
    } else if b >= 256 {
      StepsReach(b);
    }
  }

  /** Binades up from a code of the second one. */
  lemma {:induction false} StepsDouble(code: nat, n: nat)
    requires 128 <= code < 256
    ensures Steps(code + 128 * n) as real == Two(n) * code as real
  {
    if n > 0 {
      StepsDouble(code, n - 1);
      assert code + 128 * n - 128 == code + 128 * (n - 1);
    }
  }

  lemma {:induction false} TwoGrows(m: nat, n: nat)
    requires m <= n
    ensures Two(m) <= Two(n)
  {
    if m < n {
      TwoGrows(m, n - 1);
    }
  }

  // ---------------------------------------------------------------------------------------------
  // Values
  // ---------------------------------------------------------------------------------------------

  /** The number a code without a sign stands for; what is no number is read as zero here. */
  function Value(code: nat): real {
    if code < FINITE then Rows.Mul(Steps(code) as real, STEP) else 0.0
  }

  /** Two to a power that may be negative. */
  function Power(n: int): real {
    if n < 0 then 1.0 / Two(-n) else Two(n)
  }

  lemma PowerDoubles(n: int)
    ensures Power(n + 1) == 2.0 * Power(n)
  {
    if n < 0 {
      Half(Two(-n - 1), Two(-n));
    }
  }

  lemma Half(a: real, b: real)
    requires a > 0.0 && b == 2.0 * a
    ensures 1.0 / a == 2.0 * (1.0 / b)
  {
    var x, y := 1.0 / a, 1.0 / b;
    assert x * a == 1.0 && y * b == 1.0;
    assert (2.0 * y) * a == 1.0;
    Cancel(x, 2.0 * y, a);
  }

  lemma Cancel(x: real, y: real, a: real)
    requires a > 0.0 && x * a == y * a
    ensures x == y
  {
  }

  lemma SevenUp(n: int)
    ensures Power(n + 7) == 128.0 * Power(n)
  {
    PowerDoubles(n);
    PowerDoubles(n + 1);
    PowerDoubles(n + 2);
    PowerDoubles(n + 3);
    PowerDoubles(n + 4);
    PowerDoubles(n + 5);
    PowerDoubles(n + 6);
  }

  lemma {:induction false} TwoSteps(n: nat)
    ensures Rows.Mul(Two(n), STEP) == Power(n - 133)
  {
    if n > 0 {
      TwoSteps(n - 1);
      PowerDoubles(n - 1 - 133);
      Pull(Two(n - 1), STEP);
    }
  }

  lemma Pull(a: real, step: real)
    ensures Rows.Mul(2.0 * a, step) == 2.0 * Rows.Mul(a, step)
  {
  }

  lemma SmallIs(fraction: nat, low: int)
    requires fraction < 128 && low == -126
    ensures Value(fraction) == fraction as real / 128.0 * Power(low)
  {
    SevenUp(low - 7);
    TwoSteps(0);
    Parts(fraction as real, STEP, Power(low));
  }

  lemma ValueSteps(exponent: nat, fraction: nat, two: real)
    requires 0 < exponent < 255 && fraction < 128 && two == Two(exponent - 1)
    ensures Value(128 * exponent + fraction) == Rows.Mul(Rows.Mul(two, (128 + fraction) as real), STEP)
  {
    StepsDouble(128 + fraction, exponent - 1);
    assert 128 + fraction + 128 * (exponent - 1) == 128 * exponent + fraction;
  }

  lemma NormalIs(exponent: nat, fraction: nat) returns (two: real, unit: real)
    requires 0 < exponent < 255 && fraction < 128
    ensures Value(128 * exponent + fraction) == Rows.Mul(Rows.Mul(two, (128 + fraction) as real), STEP)
    ensures Rows.Mul(two, STEP) == unit && Power(exponent - 127) == 128.0 * unit
  {
    two, unit := Two(exponent - 1), Power(exponent - 134);
    ValueSteps(exponent, fraction, two);
    TwoSteps(exponent - 1);
    SevenUp(exponent - 134);
  }

  /** A code is eight bits of exponent and seven of fraction: `1.fraction` times two to the exponent less
      127. With exponent zero it is `0.fraction` times two to the power of -126 (`SmallIs`), and the last
      exponent is for what is no number. */
  lemma ValueIs(exponent: nat, fraction: nat, power: real)
    requires 0 < exponent < 255 && fraction < 128 && power == Power(exponent - 127)
    ensures Value(128 * exponent + fraction) == (1.0 + fraction as real / 128.0) * power
    ensures Value(128 * 255 + fraction) == 0.0
  {
    var two, unit := NormalIs(exponent, fraction);
    Shares(Value(128 * exponent + fraction), (128 + fraction) as real, fraction as real, two, STEP, unit, power);
  }

  lemma Parts(f: real, step: real, p: real)
    requires 128.0 * step == p
    ensures Rows.Mul(f, step) == f / 128.0 * p
  {
  }

  lemma Shares(v: real, n: real, f: real, two: real, step: real, unit: real, p: real)
    requires v == Rows.Mul(Rows.Mul(two, n), step) && n == 128.0 + f
    requires Rows.Mul(two, step) == unit && p == 128.0 * unit
    ensures v == (1.0 + f / 128.0) * p
  {
    assert two * n * step == n * (two * step);
    assert (1.0 + f / 128.0) * (128.0 * unit) == n * unit;
  }

  /** The largest number. */
  function Largest(): real {
    Value(FINITE - 1)
  }

  /** The smallest number that has all bits of its fraction, two to the power of -126. */
  function Normal(): real {
    Value(128)
  }

  lemma StepIs()
    ensures 0.0 < STEP <= 1.0 && Rows.Mul(Two(133), STEP) == 1.0
  {
  }

  lemma ValueBounds(code: nat)
    ensures 0.0 <= Value(code) <= Largest()
  {
    StepIs();
    if code < FINITE {
      StepsGrow(code, FINITE - 1);
      Times(Steps(code) as real, Steps(FINITE - 1) as real, STEP);
      Times(0.0, Steps(code) as real, STEP);
    } else {
      Times(0.0, Steps(FINITE - 1) as real, STEP);
    }
  }

  lemma Times(a: real, b: real, x: real)
    requires a <= b && x >= 0.0
    ensures Rows.Mul(a, x) <= Rows.Mul(b, x)
  {
  }

  lemma LargestIsLarge()
    ensures Largest() >= 1.0
  {
    StepIs();
    StepsDouble(255, 253);
    TwoGrows(133, 253);
    Times(Two(133), Steps(FINITE - 1) as real, STEP);
  }

  /** The code of a number without its sign; beyond the largest number that of the infinity. */
  function Magnitude(x: real): (code: nat)
    ensures code <= FINITE
  {
    StepIs();
    var c := Round(Rows.Abs(x) / STEP);
    if c < FINITE then c else FINITE
  }

  function Encode(x: real): (int, int) {
    (Magnitude(x) % 256, Magnitude(x) / 256 + if x < 0.0 then 128 else 0)
  }

  function Decode(lo: int, hi: int): real
    requires 0 <= lo < 256 && 0 <= hi < 256
  {
    if hi < 128 then Value(256 * hi + lo) else -Value(256 * (hi - 128) + lo)
  }

  /** The low byte first; the highest bit is the sign. */
  lemma DecodeIs(lo: int, hi: int)
    requires 0 <= lo < 256 && 0 <= hi < 256
    ensures var bits := lo + 256 * hi;
      Decode(lo, hi) == if bits >= 32768 then -Value(bits - 32768) else Value(bits)
  {
  }

  lemma EncodeBytes(x: real)
    ensures 0 <= Encode(x).0 < 256 && 0 <= Encode(x).1 < 256
    ensures Decode(Encode(x).0, Encode(x).1) == if x < 0.0 then -Value(Magnitude(x)) else Value(Magnitude(x))
  {
    var c := Magnitude(x);
    assert c == 256 * (c / 256) + c % 256 && c / 256 < 128;
  }

  /** A number up to the largest one is read back up to half a step or one part in 256. */
  lemma StoreLoss(x: real)
    requires 0.0 < x <= Largest()
    ensures 0 <= Encode(x).0 < 256 && 0 <= Encode(x).1 < 256
    ensures Rows.Abs(Decode(Encode(x).0, Encode(x).1) - x) <= Rows.Max(Rows.Mul(0.5, STEP), x / 256.0)
  {
    StepIs();
    EncodeBytes(x);
    var y := x / STEP;
    Whole(x, STEP, Steps(FINITE - 1) as real);
    RoundBelow(y, FINITE - 1);
    RoundLoss(y);
    LossInSteps(x, STEP, y, Steps(Round(y)) as real);
  }

  lemma Whole(x: real, step: real, most: real)
    requires step > 0.0 && 0.0 < x <= Rows.Mul(most, step)
    ensures 0.0 < x / step <= most && Rows.Mul(x / step, step) == x
  {
    var q := x / step;
    assert Rows.Mul(q, step) == x;
    Rows.MulOrder(q, most, step);
    Rows.MulOrder(q, 0.0, step);
  }

  lemma LossInSteps(x: real, step: real, y: real, n: real)
    requires step > 0.0 && Rows.Mul(y, step) == x && Rows.Abs(n - y) <= Rows.Max(0.5, y / 256.0)
    ensures Rows.Abs(Rows.Mul(n, step) - x) <= Rows.Max(Rows.Mul(0.5, step), x / 256.0)
  {
    Rows.MulMinus(n, y, step);
    var most := Rows.Max(0.5, y / 256.0);
    Rows.MulOrder(n - y, most, step);
    Rows.MulOrder(-most, n - y, step);
    assert Rows.Mul(y / 256.0, step) == x / 256.0;
  }

  /** No number is closer to it than what is read back. */
  lemma StoreNearest(x: real, code: nat)
    requires 0.0 < x <= Largest() && code < FINITE
    ensures Rows.Abs(Value(Magnitude(x)) - x) <= Rows.Abs(Value(code) - x)
  {
    StepIs();
    var y := x / STEP;
    Whole(x, STEP, Steps(FINITE - 1) as real);
    RoundBelow(y, FINITE - 1);
    RoundIsNearest(y, code);
    Scaled(Steps(Round(y)) as real, Steps(code) as real, y, STEP);
  }

  lemma Scaled(m: real, n: real, y: real, step: real)
    requires step > 0.0 && Rows.Abs(m - y) <= Rows.Abs(n - y)
    ensures Rows.Abs(Rows.Mul(m, step) - Rows.Mul(y, step)) <= Rows.Abs(Rows.Mul(n, step) - Rows.Mul(y, step))
  {
    AbsScaled(m, y, step);
    AbsScaled(n, y, step);
    Times(Rows.Abs(m - y), Rows.Abs(n - y), step);
  }

  lemma AbsScaled(n: real, y: real, step: real)
    requires step > 0.0
    ensures Rows.Abs(Rows.Mul(n, step) - Rows.Mul(y, step)) == Rows.Mul(Rows.Abs(n - y), step)
  {
    Rows.MulMinus(n, y, step);
    Rows.MulOrder(0.0, n - y, step);
    Rows.MulMinus(0.0, n - y, step);
  }

  /** A positive number is read back as zero exactly if it is no more than half a step. */
  lemma StoredZero(x: real)
    requires 0.0 < x <= Largest()
    ensures 0 <= Encode(x).0 < 256 && 0 <= Encode(x).1 < 256
    ensures Decode(Encode(x).0, Encode(x).1) == 0.0 <==> x <= Rows.Mul(0.5, STEP)
  {
    StepIs();
    EncodeBytes(x);
    var y := x / STEP;
    Whole(x, STEP, Steps(FINITE - 1) as real);
    RoundBelow(y, FINITE - 1);
    Rows.MulOrder(y, 0.5, STEP);
    assert Round(y) == 0 <==> y <= 0.5;
    Rows.MulOrder(Steps(Round(y)) as real, 0.0, STEP);
  }

  /** A number that is stored is read back as it was. */
  lemma StoreBack(code: nat)
    requires code < FINITE
    ensures Decode(Encode(Value(code)).0, Encode(Value(code)).1) == Value(code)
  {
    StepIs();
    ValueBounds(code);
    EncodeBytes(Value(code));
    RoundBack(code);
    Undo(Steps(code) as real, STEP);
  }

  lemma Undo(n: real, step: real)
    requires step > 0.0
    ensures Rows.Mul(n, step) / step == n
  {
  }
}
