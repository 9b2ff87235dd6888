/** How a C compiler lays out the types the emitter writes, on a target with eight-byte
    pointers: members in order, each at the first offset its alignment allows; the aggregate as
    aligned as its strictest member and padded to that; `packed` and `aligned` as GCC and Clang
    read them. */
module CLayout {
  import opened Wrappers

  /** The C types of scalars; a pointer to anything is `VoidPtr`. */
  datatype CName =
    | CBool | Int8 | Int16 | Int32 | Int64 | IntPtr | UInt8 | UInt16 | UInt32 | UInt64 | SizeT
    | Half | Float | Double | VoidPtr

  function CBytes(n: CName): nat {
    match n
    case CBool => 1
    case Int8 => 1
    case UInt8 => 1
    case Int16 => 2
    case UInt16 => 2
    case Half => 2
    case Int32 => 4
    case UInt32 => 4
    case Float => 4
    case Int64 => 8
    case UInt64 => 8
    case Double => 8
    case IntPtr => 8
    case SizeT => 8
    case VoidPtr => 8
  }

  /** `raised` is the N of `aligned(N)`, or 0. */
  datatype CMember = CMember(ty: CTy, raised: nat)
  datatype CTy =
    | Prim(name: CName)
    | CArray(elem: CTy, length: nat)
    | CStruct(members: seq<CMember>, packed: bool, raised: nat)
    | CUnion(alternatives: seq<CTy>)

  /** The first multiple of `a` from `x` on. */
  function Ceil(x: nat, a: nat): nat
    requires a > 0
  {
    (x + a - 1) / a * a
  }

  function CSize(t: CTy): nat {
    match t
    case Prim(n) => CBytes(n)
    case CArray(e, n) => CSize(e) * n
    case CStruct(ms, packed, raised) => Ceil(CEnd(ms, packed), Max(CMembersAlign(ms, packed), raised))
    case CUnion(ts) => Ceil(CUnionEnd(ts), CUnionAlign(ts))
  }

  function CAlign(t: CTy): (r: nat)
    ensures r > 0
  {
    match t
    case Prim(n) => CBytes(n)
    case CArray(e, _) => CAlign(e)
    case CStruct(ms, packed, raised) => Max(CMembersAlign(ms, packed), raised)
    case CUnion(ts) => CUnionAlign(ts)
  }

  /** A member of a packed structure is aligned only as its own attribute says. */
  function CMemberAlign(m: CMember, packed: bool): (r: nat)
    ensures r > 0
  {
    Max(if packed then 1 else CAlign(m.ty), m.raised)
  }

  function CMemberSize(m: CMember): nat {
    CSize(m.ty)
  }

  function CMembersAlign(ms: seq<CMember>, packed: bool): (r: nat)
    ensures r > 0
  {
    if ms == [] then 1
    else Max(CMembersAlign(ms[..|ms| - 1], packed), CMemberAlign(ms[|ms| - 1], packed))
  }

  /** The first byte past the last member. */
  function CEnd(ms: seq<CMember>, packed: bool): nat {
    if ms == [] then 0
    else Ceil(CEnd(ms[..|ms| - 1], packed), CMemberAlign(ms[|ms| - 1], packed)) + CMemberSize(ms[|ms| - 1])
  }

  function COffset(ms: seq<CMember>, packed: bool, i: nat): nat
    requires i < |ms|
  {
    Ceil(CEnd(ms[..i], packed), CMemberAlign(ms[i], packed))
  }

  function CUnionAlign(ts: seq<CTy>): (r: nat)
    ensures r > 0
  {
    if ts == [] then 1 else Max(CUnionAlign(ts[..|ts| - 1]), CAlign(ts[|ts| - 1]))
  }

  function CUnionEnd(ts: seq<CTy>): nat {
    if ts == [] then 0 else Max(CUnionEnd(ts[..|ts| - 1]), CSize(ts[|ts| - 1]))
  }

  // ---------------------------------------------------------------- rounding up

  lemma CeilIsLeastMultiple(x: nat, a: nat)
    requires a > 0
    ensures Ceil(x, a) % a == 0 && x <= Ceil(x, a) < x + a
    ensures forall y: nat :: y >= x && y % a == 0 ==> Ceil(x, a) <= y
  {
    var q := (x + a - 1) / a;
    ModOfMultiple(q, a);
    assert x + a - 1 == q * a + (x + a - 1) % a;
    forall y: nat | y >= x && y % a == 0 ensures q * a <= y {
      if y < q * a {
        assert y == y / a * a;
        MultiplesApart(y / a, q, a);
      }
    }
  }

  lemma MultiplesApart(p: nat, q: nat, a: nat)
    requires p * a < q * a
    ensures p * a + a <= q * a
  {
    NegativeProduct(q - p, a);
    assert q * a == p * a + a + (q - p - 1) * a;
  }

  lemma AddMod(x: nat, y: nat, a: nat)
    requires a > 0 && x % a == 0 && y % a == 0
    ensures (x + y) % a == 0
  {
    var i, j := x / a, y / a;
    assert x == i * a && y == j * a;
    assert x + y == (i + j) * a;
    ModOfMultiple(i + j, a);
  }

  lemma ModOfMultiple(q: nat, a: nat)
    requires a > 0
    ensures q * a % a == 0
  {
    var m := q * a;
    var r := q - m / a;
    assert r * a == m - m / a * a == m % a;
    if r < 0 { NegativeProduct(r, a); }
    if r > 0 { NegativeProduct(1 - r, a); }
  }

  lemma NegativeProduct(r: int, a: nat)
    requires a > 0
    ensures r < 0 ==> r * a < 0
    ensures r <= 0 ==> r * a <= 0
  {
  }

  // ---------------------------------------------------------------- powers of two

  predicate PowerOfTwo(n: nat) {
    n == 1 || (n > 1 && n % 2 == 0 && PowerOfTwo(n / 2))
  }

  lemma {:induction false} SmallerDivides(p: nat, q: nat)
    requires PowerOfTwo(p) && PowerOfTwo(q) && p <= q
    ensures q % p == 0
  {
    if p > 1 {
      SmallerDivides(p / 2, q / 2);
      var k := (q / 2) / (p / 2);
      assert q / 2 == k * (p / 2);
      assert q == k * p;
      ModOfMultiple(k, p);
    }
  }

  lemma DividesThrough(x: nat, b: nat, a: nat)
    requires a > 0 && b > 0 && x % b == 0 && b % a == 0
    ensures x % a == 0
  {
    var i, j := x / b, b / a;
    assert x == i * b && b == j * a;
    assert x == (i * j) * a;
    ModOfMultiple(i * j, a);
  }
}
