/** Constant folding of integers (src/check/check.cpp): `const_u64` computes every constant as an
    unsigned 64-bit word, whatever its type, and `const_bool` compares such words.  The program
    computes in the types the checker gave it, with traps (src/runtime/lucb_rt.c). */
module ConstFold {
  import opened Wrappers

  datatype Width = W8 | W16 | W32 | W64

  datatype IntType = IntType(signed: bool, width: Width)

  const WORD: nat := 0x1_0000_0000_0000_0000

  function Bits(w: Width): nat {
    match w
    case W8 => 8
    case W16 => 16
    case W32 => 32
    case W64 => 64
  }

  /** How many values a type of this width has. */
  function Span(w: Width): nat {
    match w
    case W8 => 0x100
    case W16 => 0x1_0000
    case W32 => 0x1_0000_0000
    case W64 => WORD
  }

  function Min(t: IntType): int { if t.signed then -(Span(t.width) / 2) else 0 }

  function Max(t: IntType): int { if t.signed then Span(t.width) / 2 - 1 else Span(t.width) - 1 }

  predicate InRange(t: IntType, v: int) { Min(t) <= v <= Max(t) }

  /** The value of type `t` with the low bits of `v`. */
  function Wrap(t: IntType, v: int): int {
    var low := v % Span(t.width);
    if t.signed && low >= Span(t.width) / 2 then low - Span(t.width) else low
  }

  /** A value as a 64-bit word, and the word read back as a value of its type. */
  function Word(v: int): int { if v < 0 then v + WORD else v }

  function Read(t: IntType, word: int): int { if t.signed && word >= WORD / 2 then word - WORD else word }

  function Pow2(n: nat): (r: nat)
    ensures r > 0
  {
    if n == 0 then 1 else 2 * Pow2(n - 1)
  }

  datatype Op = Add | Sub | Mul | Div | Rem | Shl | Shr

  datatype Num =
    | Literal(ty: IntType, negative: bool, magnitude: nat)   // `5` or `-5`
    | Negate(ty: IntType, e: Num)                            // `-` of anything else
    | Binary(op: Op, ty: IntType, left: Num, right: Num)
    | Cast(ty: IntType, e: Num)                              // `(T)e`
    | Constant(ty: IntType, init: Num)                       // a top-level `let`

  function Written(negative: bool, magnitude: nat): int { if negative then 0 - magnitude else magnitude }

  datatype Cmp = Eq | Ne | Lt | Le | Gt | Ge

  datatype Comparison = Comparison(cmp: Cmp, left: Num, right: Num)

  // ----- what the checker accepts -----

  /** `can_widen`: the one silent conversion. */
  predicate Widens(src: IntType, dst: IntType) {
    src.signed == dst.signed && Bits(src.width) <= Bits(dst.width)
  }

  predicate IsShift(op: Op) { op == Shl || op == Shr }

  predicate Typed(e: Num) {
    match e
    case Literal(t, negative, n) => InRange(t, Written(negative, n))
    case Negate(t, i) => t.signed && i.ty == t && Typed(i)
    case Binary(op, t, l, r) =>
      && Typed(l) && Typed(r)
      && if IsShift(op) then l.ty == t else Widens(l.ty, t) && Widens(r.ty, t)
    case Cast(_, i) => Typed(i)
    case Constant(t, init) => Typed(init) && Widens(init.ty, t)
  }

  predicate TypedComparison(c: Comparison) {
    Typed(c.left) && Typed(c.right) && c.left.ty.signed == c.right.ty.signed
  }

  // ----- the checker's words -----

  function LowWord(a: nat): nat { a % WORD }

  function Product(a: nat, b: nat): nat { a * b }

  function WordQuotient(a: nat, b: nat): nat
    requires b > 0
  {
    QuotientIsNat(a, b);
    a / b
  }

  lemma QuotientIsNat(a: nat, p: int)
    requires p > 0
    ensures a / p >= 0
  {
    var q := a / p;
    assert a == q * p + a % p;
    if q < 0 { NegativeProduct(q, p); }
  }

  lemma NegativeProduct(q: int, p: int)
    requires q < 0 < p
    ensures q * p <= -p
  {
  }

  function FoldOp(op: Op, a: nat, b: nat): Option<nat> {
    match op
    case Mul => if b == 0 || a <= (WORD - 1) / b then Some(LowWord(Product(a, b))) else None
    case Add => if LowWord(a + b) >= a then Some(LowWord(a + b)) else None
    case Sub => if a >= b then Some(a - b) else None
    case Div => if b == 0 then None else Some(WordQuotient(a, b))
    case Rem => if b == 0 then None else Some(a % b)
    case Shl => if b < 64 then Some(LowWord(Product(a, Pow2(b)))) else None
    case Shr => if b < 64 then Some(WordQuotient(a, Pow2(b))) else None
  }

  /** `const_u64`'s cast: the low bits, the sign bit copied above them when the type has one. */
  function FoldCast(t: IntType, a: nat): nat {
    if t.width.W64? then a
    else
      var low := a % Span(t.width);
      if t.signed && low >= Span(t.width) / 2 then low + (WORD - Span(t.width)) else low
  }

  /** `const_u64` */
  function Fold(e: Num): Option<nat> {
    match e
    case Literal(_, negative, n) => Some(if negative then (WORD - n % WORD) % WORD else n)
    case Negate(_, i) =>
      var a := Fold(i);
      if a.None? then None else Some((WORD - a.value % WORD) % WORD)
    case Binary(op, _, l, r) =>
      var a, b := Fold(l), Fold(r);
      if a.None? || b.None? then None else FoldOp(op, a.value, b.value)
    case Cast(t, i) => var a := Fold(i); if a.None? then None else Some(FoldCast(t, a.value))
    case Constant(_, init) => Fold(init)
  }

  /** A comparison of two words, as signed numbers when `signed`. */
  predicate DecideWords(cmp: Cmp, signed: bool, a: nat, b: nat) {
    var wide := IntType(signed, W64);
    match cmp
    case Eq => a == b
    case Ne => a != b
    case Lt => Read(wide, a) < Read(wide, b)
    case Le => Read(wide, a) <= Read(wide, b)
    case Gt => Read(wide, a) > Read(wide, b)
    case Ge => Read(wide, a) >= Read(wide, b)
  }

  /** `const_bool` of a comparison: signed when either operand's type is. */
  function FoldComparison(c: Comparison): Option<bool> {
    var a, b := Fold(c.left), Fold(c.right);
    if a.None? || b.None? then None
    else Some(DecideWords(c.cmp, c.left.ty.signed || c.right.ty.signed, a.value, b.value))
  }

  // ----- what the program computes -----

  function Abs(v: int): nat { if v < 0 then -v else v }

  /** Division as C has it: toward zero. */
  function Quotient(x: int, y: int): int
    requires y != 0
  {
    if (x < 0) == (y < 0) then Abs(x) / Abs(y) else -(Abs(x) / Abs(y))
  }

  function Remainder(x: int, y: int): int
    requires y != 0
  {
    x - y * Quotient(x, y)
  }

  function Checked(t: IntType, v: int): Option<int> { if InRange(t, v) then Some(v) else None }

  /** One operation in type `t`; None is a trap. */
  function RunOp(op: Op, t: IntType, x: int, y: int): Option<int> {
    match op
    case Add => Checked(t, x + y)
    case Sub => Checked(t, x - y)
    case Mul => Checked(t, x * y)
    case Div => if y == 0 || (t.signed && x == Min(t) && y == -1) then None else Some(Quotient(x, y))
    case Rem => if y == 0 || (t.signed && x == Min(t) && y == -1) then None else Some(Remainder(x, y))
    case Shl => if 0 <= y < Bits(t.width) then Some(Wrap(t, x * Pow2(y))) else None
    case Shr => if 0 <= y < Bits(t.width) then Some(x / Pow2(y)) else None
  }

  function Run(e: Num): Option<int> {
    match e
    case Literal(_, negative, n) => Some(Written(negative, n))
    case Negate(t, i) =>
      var x := Run(i);
      if x.None? || x.value == Min(t) then None else Some(-x.value)
    case Binary(op, t, l, r) =>
      var x, y := Run(l), Run(r);
      if x.None? || y.None? then None else RunOp(op, t, x.value, y.value)
    case Cast(t, i) => var x := Run(i); if x.None? then None else Some(Wrap(t, x.value))
    case Constant(_, init) => Run(init)
  }

  predicate Decide(cmp: Cmp, x: int, y: int) {
    match cmp
    case Eq => x == y
    case Ne => x != y
    case Lt => x < y
    case Le => x <= y
    case Gt => x > y
    case Ge => x >= y
  }

  function RunComparison(c: Comparison): Option<bool> {
    var x, y := Run(c.left), Run(c.right);
    if x.None? || y.None? then None else Some(Decide(c.cmp, x.value, y.value))
  }

  // ----- where the words are right -----

  /** The folded operation is the operation itself: nothing overflows, and nothing negative is
      divided or shifted right but where unsigned words happen to give the same. */
  predicate FitsOp(op: Op, t: IntType, x: int, y: int) {
    match op
    case Add => InRange(t, x + y)
    case Sub => InRange(t, x - y)
    case Mul => InRange(t, x * y)
    case Div => (x >= 0 && y > 0) || y == 1 || x == y || 0 <= x < -y
    case Rem => (x >= 0 && y > 0) || (y > 0 && x % y == 0 && WORD % y == 0) || x == y || 0 <= x < -y
    case Shl => y < Bits(t.width) && (t.width.W64? || InRange(t, x * Pow2(Abs(y))))
    case Shr => y < Bits(t.width) && (x >= 0 || y == 0)
  }

  /** Every operation of a folded expression fits; decided on the folded words. */
  predicate Fits(e: Num)
    requires Fold(e).Some?
  {
    match e
    case Literal(_, _, _) => true
    case Negate(t, i) => Fits(i) && Read(t, Fold(i).value) != Min(t)
    case Binary(op, t, l, r) =>
      Fits(l) && Fits(r) && FitsOp(op, t, Read(l.ty, Fold(l).value), Read(r.ty, Fold(r).value))
    case Cast(_, i) => Fits(i)
    case Constant(_, init) => Fits(init)
  }

  /** The word is the value's. */
  predicate Right(e: Num)
    requires Fold(e).Some?
  {
    Run(e).Some? && Fold(e).value == Word(Run(e).value)
  }

  predicate RightThroughout(e: Num)
    requires Fold(e).Some?
  {
    Right(e) &&
    match e
    case Literal(_, _, _) => true
    case Negate(_, i) => RightThroughout(i)
    case Binary(_, _, l, r) => RightThroughout(l) && RightThroughout(r)
    case Cast(_, i) => RightThroughout(i)
    case Constant(_, init) => RightThroughout(init)
  }

  /** The expression runs through non-negative values alone, and no shift loses a bit. */
  predicate NonNegative(e: Num) {
    && Run(e).Some? && Run(e).value >= 0
    && match e
       case Literal(_, _, _) => true
       case Negate(_, i) => NonNegative(i)
       case Binary(op, t, l, r) =>
         && NonNegative(l) && NonNegative(r)
         && (op.Shl? && !t.width.W64? ==> InRange(t, Run(l).value * Pow2(Run(r).value)))
       case Cast(_, i) => NonNegative(i)
       case Constant(_, init) => NonNegative(init)
  }
}
