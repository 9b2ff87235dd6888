/** A folded constant is the program's value, at every node, exactly when every operation fits. */
module ConstFoldTheorem {
  import opened Wrappers
  import opened ConstFold

  /** The folded operation on the words of two values is the operation on the values. */
  predicate OpRight(op: Op, t: IntType, x: int, y: int)
    requires Word(x) >= 0 && Word(y) >= 0 && FoldOp(op, Word(x), Word(y)).Some?
  {
    var v := RunOp(op, t, x, y);
    v.Some? && FoldOp(op, Word(x), Word(y)).value == Word(v.value)
  }

  predicate Operands(op: Op, t: IntType, x: int, y: int) {
    && InRange(t, x)
    && (if IsShift(op) then Min(IntType(true, W64)) <= y < WORD else InRange(t, y))
    && FoldOp(op, Word(x), Word(y)).Some?
  }

  lemma AddRight(t: IntType, x: int, y: int)
    requires Operands(Add, t, x, y)
    ensures OpRight(Add, t, x, y) <==> FitsOp(Add, t, x, y)
  {
  }

  lemma SubRight(t: IntType, x: int, y: int)
    requires Operands(Sub, t, x, y)
    ensures OpRight(Sub, t, x, y) <==> FitsOp(Sub, t, x, y)
  {
  }

  lemma ProductGrows(a: int, b: int, c: int)
    requires a <= b && c >= 0
    ensures a * c <= b * c
  {
  }

  lemma SmallProduct(a: nat, b: nat)
    requires b == 0 || a <= (WORD - 1) / b
    ensures a * b < WORD
  {
    if b > 0 { ProductGrows(a, (WORD - 1) / b, b); }
  }

  /** A negative operand has a word of half the range or more, so the other is 0 or 1. */
  lemma OtherIsSmall(a: nat, b: nat)
    requires a * b < WORD && a >= WORD / 2
    ensures b <= 1
  {
    if b >= 2 { ProductGrows(2, b, a); }
  }

  lemma MulRight(t: IntType, x: int, y: int)
    requires Operands(Mul, t, x, y)
    ensures OpRight(Mul, t, x, y) <==> FitsOp(Mul, t, x, y)
  {
    var a, b := Word(x), Word(y);
    SmallProduct(a, b);
    if x < 0 {
      OtherIsSmall(a, b);
    } else if y < 0 {
      OtherIsSmall(b, a);
    }
  }

  lemma DivRight(t: IntType, x: int, y: int)
    requires Operands(Div, t, x, y)
    ensures OpRight(Div, t, x, y) <==> FitsOp(Div, t, x, y)
  {
    var a, b := Word(x), Word(y);
    if y > 0 {
      if x < 0 { NegativeOverPositive(x, y); }
    } else if x >= 0 {
      // the word of `y` is larger than that of `x`
      QuotientOf(a, b, 0);
      if x < -y { QuotientOf(x, -y, 0); } else { QuotientAtLeastOne(x, -y); }
    } else {
      BothNegative(x, y);
    }
  }

  lemma QuotientOf(a: nat, b: nat, q: nat)
    requires b > 0 && q * b <= a < q * b + b
    ensures a / b == q && a % b == a - q * b
  {
    var r := a / b;
    assert a == r * b + a % b;
    if r < q {
      ProductGrows(r + 1, q, b);
    } else if r > q {
      ProductGrows(q + 1, r, b);
    }
  }

  lemma QuotientAtLeastOne(a: nat, b: nat)
    requires 0 < b <= a
    ensures 1 <= a / b <= a
  {
    var r := a / b;
    assert a == r * b + a % b;
    ProductGrows(1, b, r);
  }

  /** A negative value over a positive one: only division by one survives. */
  lemma NegativeOverPositive(x: int, y: int)
    requires -(WORD / 2) <= x < 0 < y < WORD / 2
    ensures y > 1 ==> 0 < (x + WORD) / y < WORD / 2
    ensures 0 <= -x / y <= -x
  {
    QuotientAtLeastOne(x + WORD, y);
    if y > 1 { QuotientBelow(x + WORD, y, WORD / 2); }
    if -x < y { QuotientOf(-x, y, 0); } else { QuotientAtLeastOne(-x, y); }
  }

  lemma BothNegative(x: int, y: int)
    requires -(WORD / 2) <= x < 0 && -(WORD / 2) <= y < 0
    ensures (x + WORD) / (y + WORD) == if x >= y then 1 else 0
    ensures (x + WORD) % (y + WORD) == if x >= y then x - y else x + WORD
    ensures x > y ==> -x / -y == 0
    ensures x == y ==> -x / -y == 1
    ensures x < y ==> 1 <= -x / -y <= -x
  {
    QuotientOf(x + WORD, y + WORD, if x >= y then 1 else 0);
    if x >= y { QuotientOf(-x, -y, if x == y then 1 else 0); } else { QuotientAtLeastOne(-x, -y); }
  }

  // ----- remainders -----

  lemma Split(a: int, y: nat)
    requires y > 0
    ensures a == a / y * y + a % y && 0 <= a % y < y
  {
  }

  lemma RemainderUnique(z: int, y: nat, s: int)
    requires s == z * y && 0 - y < s < y
    ensures s == 0
  {
    if z > 0 {
      ProductGrows(1, z, y);
    } else if z < 0 {
      ProductGrows(1, -z, y);
    }
  }

  /** Adding a multiple does not change a remainder. */
  lemma SameRemainder(a: int, q: int, y: nat)
    requires y > 0
    ensures (a + q * y) % y == a % y
  {
    var b := a + q * y;
    Split(a, y);
    Split(b, y);
    var i, j := a / y, b / y;
    assert (j - i - q) * y == j * y - i * y - q * y;
    RemainderUnique(j - i - q, y, a % y - b % y);
  }

  /** What is left of a negative value, going by its magnitude. */
  lemma NegativeRemainder(x: int, y: nat, m: nat, k: nat)
    requires y > 0 && x == 0 - m * y - k && k < y
    ensures k == 0 <==> x % y == 0
    ensures k == 0 ==> (x + WORD) % y == WORD % y
  {
    SameRemainder(x, m, y);
    assert (0 - k) % y == x % y;
    if k > 0 {
      SameRemainder(0 - k, 1, y);
      SmallRemainder(y - k, y);
    } else {
      SameRemainder(x + WORD, m, y);
      SmallRemainder(0, y);
    }
  }

  lemma SmallRemainder(a: nat, y: nat)
    requires a < y
    ensures a % y == a
  {
  }

  lemma RemRight(t: IntType, x: int, y: int)
    requires Operands(Rem, t, x, y)
    ensures OpRight(Rem, t, x, y) <==> FitsOp(Rem, t, x, y)
  {
    if y > 0 {
      if x >= 0 { RemPositive(t, x, y); } else { RemNegative(t, x, y); }
    } else if x >= 0 {
      RemByNegative(t, x, y);
    } else {
      RemBothNegative(t, x, y);
    }
  }

  /** C's remainder: the magnitudes' remainder, with the dividend's sign. */
  lemma RemainderIs(x: int, y: int)
    requires y != 0
    ensures Remainder(x, y) == if x < 0 then 0 - Abs(x) % Abs(y) else Abs(x) % Abs(y)
  {
    var q := Abs(x) / Abs(y);
    Split(Abs(x), Abs(y));
    if (x < 0) == (y < 0) {
      assert y * q == if y < 0 then 0 - q * Abs(y) else q * Abs(y);
    } else {
      assert y * (0 - q) == if y < 0 then q * Abs(y) else 0 - q * Abs(y);
    }
  }

  lemma RemPositive(t: IntType, x: int, y: int)
    requires Operands(Rem, t, x, y) && x >= 0 && y > 0
    ensures OpRight(Rem, t, x, y)
  {
    hide Remainder;
    RemainderIs(x, y);
  }

  lemma RemNegative(t: IntType, x: int, y: int)
    requires Operands(Rem, t, x, y) && x < 0 < y
    ensures OpRight(Rem, t, x, y) <==> FitsOp(Rem, t, x, y)
  {
    hide Remainder;
    RemainderIs(x, y);
    NegativeCases(x, y);
  }

  /** A remainder below zero has a word no positive divisor leaves. */
  lemma NegativeCases(x: int, y: int)
    requires -(WORD / 2) <= x < 0 < y < WORD / 2
    ensures (x + WORD) % y == Word(0 - -x % y) <==> x % y == 0 && WORD % y == 0
  {
    var m, k := -x / y, -x % y;
    Split(-x, y);
    NegativeRemainder(x, y, m, k);
    Split(x + WORD, y);
  }

  lemma RemByNegative(t: IntType, x: int, y: int)
    requires Operands(Rem, t, x, y) && y < 0 <= x
    ensures OpRight(Rem, t, x, y) <==> FitsOp(Rem, t, x, y)
  {
    hide Remainder;
    RemainderIs(x, y);
    SmallRemainder(x, y + WORD);
    Split(x, -y);
    if x < -y { SmallRemainder(x, -y); }
  }

  lemma RemBothNegative(t: IntType, x: int, y: int)
    requires Operands(Rem, t, x, y) && x < 0 && y < 0
    ensures OpRight(Rem, t, x, y) <==> FitsOp(Rem, t, x, y)
  {
    hide Remainder;
    RemainderIs(x, y);
    BothNegative(x, y);
    Split(-x, -y);
    if x > y { SmallRemainder(-x, -y); }
    if x == y { QuotientOf(-x, -y, 1); }
  }

  // ----- shifts -----

  lemma {:induction false} PowGrows(n: nat, m: nat)
    requires n <= m
    ensures Pow2(n) <= Pow2(m)
  {
    if n < m { PowGrows(n, m - 1); }
  }

  lemma WrapInRange(t: IntType, v: int)
    ensures InRange(t, Wrap(t, v))
    ensures InRange(t, v) ==> Wrap(t, v) == v
  {
    if InRange(t, v) && v < 0 { SameRemainder(v, 1, Span(t.width)); }
  }

  lemma WordOfWrap(t: IntType, v: int)
    requires t.width.W64?
    ensures Word(Wrap(t, v)) == v % WORD
  {
  }

  /** The shifted word, before and after reduction to 64 bits. */
  lemma ShiftedWord(x: int, p: nat)
    requires -(WORD / 2) <= x
    ensures Word(x) * p % WORD == x * p % WORD
  {
    if x < 0 {
      assert Word(x) * p == x * p + p * WORD;
      SameRemainder(x * p, p, WORD);
    }
  }

  lemma ShlRight(t: IntType, x: int, y: int)
    requires Operands(Shl, t, x, y)
    ensures OpRight(Shl, t, x, y) <==> FitsOp(Shl, t, x, y)
  {
    assert 0 <= y < 64;
    if y < Bits(t.width) {
      ShiftedWord(x, Pow2(y));
      if !t.width.W64? { NarrowShift(t, x, y); }
      ShlWord(t, x * Pow2(y));
    }
  }

  lemma ShlWord(t: IntType, z: int)
    requires t.width.W64? || -(WORD / 2) < z < WORD / 2
    ensures z % WORD == Word(Wrap(t, z)) <==> t.width.W64? || InRange(t, z)
  {
    if t.width.W64? {
      WordOfWrap(t, z);
    } else {
      WrapInRange(t, z);
      if z < 0 { SameRemainder(z, 1, WORD); }
    }
  }

  /** Up to 32 bits, a shifted value is well inside a 64-bit word. */
  lemma NarrowShift(t: IntType, x: int, y: int)
    requires !t.width.W64? && InRange(t, x) && 0 <= y < Bits(t.width)
    ensures -(WORD / 2) < x * Pow2(y) < WORD / 2
  {
    PowGrows(y, 31);
    PowersOfTwo();
    BoundedProduct(x, Pow2(y));
  }

  lemma BoundedProduct(x: int, p: nat)
    requires -0x8000_0000 <= x <= 0xffff_ffff && p <= 0x8000_0000
    ensures -(WORD / 2) < x * p < WORD / 2
  {
    ProductGrows(x, 0xffff_ffff, p);
    ProductGrows(-0x8000_0000, x, p);
  }

  lemma PowersOfTwo()
    ensures Pow2(31) == 0x8000_0000
  {
    assert Pow2(4) == 16;
    assert Pow2(8) == 0x100;
    assert Pow2(12) == 0x1000;
    assert Pow2(16) == 0x1_0000;
    assert Pow2(20) == 0x10_0000;
    assert Pow2(24) == 0x100_0000;
    assert Pow2(28) == 0x1000_0000;
  }

  lemma ShrRight(t: IntType, x: int, y: int)
    requires Operands(Shr, t, x, y)
    ensures OpRight(Shr, t, x, y) <==> FitsOp(Shr, t, x, y)
  {
    assert 0 <= y < 64;
    var p := Pow2(y);
    if 0 < y < Bits(t.width) && x < 0 {
      QuotientBelow(x + WORD, p, WORD / 2);
      NegativeQuotient(x, p);
    }
  }

  lemma QuotientBelow(a: nat, p: nat, half: nat)
    requires p >= 2 && a < 2 * half
    ensures a / p < half
  {
    Split(a, p);
    ProductGrows(2, p, a / p);
  }

  lemma NegativeQuotient(x: int, p: nat)
    requires x < 0 < p
    ensures x <= x / p < 0
  {
    Split(x, p);
    QuotientSign(x, p, x / p, x % p);
  }

  lemma QuotientSign(x: int, p: nat, q: int, r: nat)
    requires x == q * p + r && r < p && x < 0
    ensures x <= q < 0
  {
    if q < 0 {
      ProductGrows(1, p, -q);
      assert p * -q == 0 - q * p;
      assert q * p + p > x;
      QuotientMagnitude(p, -q, 0 - x);
    } else {
      ProductGrows(0, q, p);
    }
  }

  /** Rounding away from zero does not pass the value itself. */
  lemma QuotientMagnitude(p: nat, n: nat, m: nat)
    requires p > 0 && n > 0 && n * p - p < m
    ensures n <= m
  {
    ProductGrows(1, p, n - 1);
    assert (n - 1) * p == n * p - p;
  }

  // ----- whole expressions -----

  lemma FoldedOp(op: Op, t: IntType, x: int, y: int)
    requires Operands(op, t, x, y)
    ensures OpRight(op, t, x, y) <==> FitsOp(op, t, x, y)
  {
    hide OpRight, FitsOp, FoldOp;
    match op
    case Add => AddRight(t, x, y);
    case Sub => SubRight(t, x, y);
    case Mul => MulRight(t, x, y);
    case Div => DivRight(t, x, y);
    case Rem => RemRight(t, x, y);
    case Shl => ShlRight(t, x, y);
    case Shr => ShrRight(t, x, y);
  }

  lemma WidenInRange(src: IntType, dst: IntType, v: int)
    requires Widens(src, dst) && InRange(src, v)
    ensures InRange(dst, v)
  {
  }

  lemma ReadWord(t: IntType, v: int)
    requires InRange(t, v)
    ensures 0 <= Word(v) < WORD && Read(t, Word(v)) == v
  {
  }

  lemma QuotientInRange(t: IntType, x: int, y: int)
    requires InRange(t, x) && InRange(t, y) && y != 0 && !(t.signed && x == Min(t) && y == -1)
    ensures InRange(t, Quotient(x, y)) && InRange(t, Remainder(x, y))
  {
    hide Remainder;
    RemainderIs(x, y);
    Split(Abs(x), Abs(y));
    if Abs(x) >= Abs(y) { QuotientAtLeastOne(Abs(x), Abs(y)); } else { QuotientOf(Abs(x), Abs(y), 0); }
    if Abs(y) > 1 { QuotientBelow(Abs(x), Abs(y), Abs(x) / 2 + 1); }
  }

  lemma ShiftInRange(t: IntType, x: int, p: nat)
    requires InRange(t, x) && p > 0
    ensures InRange(t, x / p)
  {
    if x < 0 {
      NegativeQuotient(x, p);
    } else if x >= p {
      QuotientAtLeastOne(x, p);
    } else {
      QuotientOf(x, p, 0);
    }
  }

  lemma OpInRange(op: Op, t: IntType, x: int, y: int)
    requires InRange(t, x) && (IsShift(op) || InRange(t, y)) && RunOp(op, t, x, y).Some?
    ensures InRange(t, RunOp(op, t, x, y).value)
  {
    hide Quotient, Remainder, Wrap, Pow2;
    match op
    case Div => QuotientInRange(t, x, y);
    case Rem => QuotientInRange(t, x, y);
    case Shl => WrapInRange(t, x * Pow2(y));
    case Shr => ShiftInRange(t, x, Pow2(y));
    case _ =>
  }

  lemma {:induction false} RunInRange(e: Num)
    requires Typed(e) && Run(e).Some?
    ensures InRange(e.ty, Run(e).value)
  {
    hide RunOp, Wrap;
    match e
    case Literal(_, _, _) =>
    case Negate(_, i) => RunInRange(i);
    case Binary(op, t, l, r) =>
      RunInRange(l);
      RunInRange(r);
      WidenInRange(if IsShift(op) then t else l.ty, t, Run(l).value);
      if !IsShift(op) { WidenInRange(r.ty, t, Run(r).value); }
      OpInRange(op, t, Run(l).value, Run(r).value);
    case Cast(t, i) => WrapInRange(t, Run(i).value);
    case Constant(t, init) =>
      RunInRange(init);
      WidenInRange(init.ty, t, Run(init).value);
  }

  lemma CastRight(t: IntType, v: int)
    requires Min(IntType(true, W64)) <= v < WORD
    ensures FoldCast(t, Word(v)) == Word(Wrap(t, v))
  {
    if v < 0 {
      var n := WORD / Span(t.width);
      assert n * Span(t.width) == WORD;
      SameRemainder(v, n, Span(t.width));
    }
  }

  /** Every subexpression folds to its own value exactly when every operation fits. */
  lemma {:induction false} FoldRightIffFits(e: Num)
    requires Typed(e) && Fold(e).Some?
    ensures RightThroughout(e) <==> Fits(e)
    decreases e
  {
    hide FoldOp, RunOp, FitsOp, Wrap, FoldCast;
    match e
    case Literal(t, negative, n) => LiteralRight(e);
    case Negate(t, i) =>
      FoldRightIffFits(i);
      if Right(i) { NegateRight(e); }
    case Binary(_, _, l, r) =>
      FoldRightIffFits(l);
      FoldRightIffFits(r);
      if Right(l) && Right(r) { BinaryRight(e); }
    case Cast(t, i) =>
      FoldRightIffFits(i);
      if Right(i) {
        RunInRange(i);
        CastRight(t, Run(i).value);
      }
    case Constant(_, init) => FoldRightIffFits(init);
  }

  lemma LiteralRight(e: Num)
    requires e.Literal? && Typed(e)
    ensures Right(e)
  {
  }

  lemma NegateRight(e: Num)
    requires e.Negate? && Typed(e) && Fold(e).Some? && Right(e.e)
    ensures Right(e) <==> Read(e.ty, Fold(e.e).value) != Min(e.ty)
  {
    var x := Run(e.e).value;
    RunInRange(e.e);
    ReadWord(e.ty, x);
    if x != Min(e.ty) { NegatedWord(x); }
  }

  lemma NegatedWord(x: int)
    requires -(WORD / 2) < x < WORD / 2
    ensures (WORD - Word(x) % WORD) % WORD == Word(-x)
  {
  }

  lemma BinaryRight(e: Num)
    requires e.Binary? && Typed(e) && Fold(e).Some? && Right(e.left) && Right(e.right)
    ensures Right(e) <==> FitsOp(e.op, e.ty, Read(e.left.ty, Fold(e.left).value), Read(e.right.ty, Fold(e.right).value))
  {
    hide FoldOp, RunOp, FitsOp;
    var l, r := e.left, e.right;
    var x, y := Run(l).value, Run(r).value;
    RunInRange(l);
    RunInRange(r);
    ReadWord(l.ty, x);
    ReadWord(r.ty, y);
    if !IsShift(e.op) {
      WidenInRange(l.ty, e.ty, x);
      WidenInRange(r.ty, e.ty, y);
    }
    FoldedOp(e.op, e.ty, x, y);
  }

  /** Folded operands that fit have the program's values, and these are read back from the words. */
  lemma OperandsRight(l: Num, r: Num)
    requires TypedComparison(Comparison(Eq, l, r)) && Fold(l).Some? && Fold(r).Some? && Fits(l) && Fits(r)
    ensures Run(l).Some? && Run(r).Some?
    ensures Fold(l).value < WORD && Fold(r).value < WORD
    ensures
      var wide := IntType(l.ty.signed || r.ty.signed, W64);
      Read(wide, Fold(l).value) == Run(l).value && Read(wide, Fold(r).value) == Run(r).value
  {
    hide Fold, Run, Fits, Typed;
    FoldRightIffFits(l);
    FoldRightIffFits(r);
    RunInRange(l);
    RunInRange(r);
    var wide := IntType(l.ty.signed, W64);
    WidenInRange(l.ty, wide, Run(l).value);
    WidenInRange(r.ty, wide, Run(r).value);
    ReadWord(wide, Run(l).value);
    ReadWord(wide, Run(r).value);
  }

  /** What each comparison folds to, on the values the program computes. */
  lemma ComparisonFolds(l: Num, r: Num)
    requires TypedComparison(Comparison(Eq, l, r)) && Fold(l).Some? && Fold(r).Some? && Fits(l) && Fits(r)
    ensures Run(l).Some? && Run(r).Some?
    ensures
      var x, y := Run(l).value, Run(r).value;
      && FoldComparison(Comparison(Eq, l, r)) == Some(x == y)
      && FoldComparison(Comparison(Ne, l, r)) == Some(x != y)
      && FoldComparison(Comparison(Lt, l, r)) == Some(x < y)
      && FoldComparison(Comparison(Le, l, r)) == Some(x <= y)
      && FoldComparison(Comparison(Gt, l, r)) == Some(y < x)
      && FoldComparison(Comparison(Ge, l, r)) == Some(y <= x)
  {
    hide Fold, Run, Fits, Typed;
    OperandsRight(l, r);
  }

  /** What each comparison gives in the program. */
  lemma ComparisonRuns(l: Num, r: Num)
    requires Run(l).Some? && Run(r).Some?
    ensures
      var x, y := Run(l).value, Run(r).value;
      && RunComparison(Comparison(Eq, l, r)) == Some(x == y)
      && RunComparison(Comparison(Ne, l, r)) == Some(x != y)
      && RunComparison(Comparison(Lt, l, r)) == Some(x < y)
      && RunComparison(Comparison(Le, l, r)) == Some(x <= y)
      && RunComparison(Comparison(Gt, l, r)) == Some(y < x)
      && RunComparison(Comparison(Ge, l, r)) == Some(y <= x)
  {
    hide Run;
  }

  /** A folded comparison whose operands fit is the comparison the program makes. */
  lemma ComparisonSound(c: Comparison)
    requires TypedComparison(c) && FoldComparison(c).Some? && Fits(c.left) && Fits(c.right)
    ensures RunComparison(c) == FoldComparison(c)
  {
    hide Fold, Run, Fits, Typed;
    OperandsRight(c.left, c.right);
  }

  // ----- what folds at all -----

  /** An operation folds exactly when its word does not leave the 64 bits. */
  lemma FoldsIff(op: Op, a: nat, b: nat)
    requires a < WORD && b < WORD
    ensures FoldOp(op, a, b).Some? <==>
      match op
      case Add => a + b < WORD
      case Sub => a >= b
      case Mul => a * b < WORD
      case Div => b != 0
      case Rem => b != 0
      case Shl => b < 64
      case Shr => b < 64
  {
    match op
    case Mul => if b > 0 { ProductFits(a, b); }
    case Add => SumWraps(a, b);
    case _ =>
  }

  lemma ProductFits(a: nat, b: nat)
    requires b > 0
    ensures a <= (WORD - 1) / b <==> a * b < WORD
  {
    var q := (WORD - 1) / b;
    Split(WORD - 1, b);
    if a <= q { SmallProduct(a, b); } else { ProductGrows(q + 1, a, b); }
  }

  lemma SumWraps(a: nat, b: nat)
    requires a < WORD && b < WORD
    ensures LowWord(a + b) >= a <==> a + b < WORD
  {
    if a + b >= WORD { SameRemainder(a + b - WORD, 1, WORD); }
  }

  /** Whatever runs through non-negative values folds, and to its value. */
  lemma {:induction false} NonNegativeFolds(e: Num)
    requires Typed(e) && NonNegative(e)
    ensures Fold(e) == Some(Run(e).value) && Fits(e)
    decreases e
  {
    hide FoldOp, RunOp, FitsOp, Wrap, FoldCast;
    RunInRange(e);
    match e
    case Literal(_, _, _) => LiteralRight(e);
    case Negate(_, i) => NonNegativeFolds(i);
    case Binary(op, _, l, r) =>
      NonNegativeFolds(l);
      NonNegativeFolds(r);
      BinaryFolds(e);
    case Cast(t, i) =>
      NonNegativeFolds(i);
      RunInRange(i);
      CastRight(t, Run(i).value);
    case Constant(_, init) => NonNegativeFolds(init);
  }

  lemma BinaryFolds(e: Num)
    requires e.Binary? && Typed(e) && NonNegative(e)
    requires Fold(e.left) == Some(Run(e.left).value) && Fold(e.right) == Some(Run(e.right).value)
    requires Fits(e.left) && Fits(e.right)
    ensures Fold(e) == Some(Run(e).value) && Fits(e)
  {
    var l, r := e.left, e.right;
    var x, y := Run(l).value, Run(r).value;
    RunInRange(l);
    RunInRange(r);
    ReadWord(l.ty, x);
    ReadWord(r.ty, y);
    if !IsShift(e.op) {
      WidenInRange(l.ty, e.ty, x);
      WidenInRange(r.ty, e.ty, y);
    }
    NonNegativeOp(e.op, e.ty, x, y);
    BinaryRight(e);
  }

  lemma NonNegativeOp(op: Op, t: IntType, x: nat, y: nat)
    requires InRange(t, x) && y < WORD && (IsShift(op) || InRange(t, y))
    requires RunOp(op, t, x, y).Some? && RunOp(op, t, x, y).value >= 0
    requires op.Shl? && !t.width.W64? ==> InRange(t, x * Pow2(y))
    ensures FoldOp(op, x, y).Some? && FitsOp(op, t, x, y)
  {
    hide Quotient, Remainder, Wrap, Pow2;
    FoldsIff(op, x, y);
  }

  // ----- inputs that fail -----

  /** `let STEP: i32 = -8` and `STEP // 2 < 0`: true in the program, folded to false. */
  function HalfStep(): Comparison {
    var i32 := IntType(true, W32);
    Comparison(Lt, Binary(Div, i32, Constant(i32, Literal(i32, true, 8)), Literal(i32, false, 2)), Literal(i32, false, 0))
  }

  lemma NegativeQuotientMisfolds()
    ensures TypedComparison(HalfStep())
    ensures RunComparison(HalfStep()) == Some(true) && FoldComparison(HalfStep()) == Some(false)
  {
    var c := HalfStep();
    assert Fold(c.left.left) == Some(WORD - 8) && Run(c.left.left) == Some(-8);
    assert Quotient(-8, 2) == -4;
    assert Fold(c.left) == Some((WORD - 8) / 2);
  }

  /** `let A: u8 = 200`, `let B: u8 = 100` and `A + B > 250`: a trap in the program, folded to
      true. */
  function LargeSum(): Comparison {
    var u8 := IntType(false, W8);
    Comparison(Gt,
      Binary(Add, u8, Constant(u8, Literal(u8, false, 200)), Constant(u8, Literal(u8, false, 100))),
      Literal(u8, false, 250))
  }

  lemma NarrowOverflowMisfolds()
    ensures TypedComparison(LargeSum())
    ensures RunComparison(LargeSum()) == None && FoldComparison(LargeSum()) == Some(true)
  {
    var c := LargeSum();
    assert Fold(c.left) == Some(300);
    assert Run(c.left.left) == Some(200) && Run(c.left.right) == Some(100);
  }
}
