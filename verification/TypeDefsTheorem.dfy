/** When the walk's relation has no cycle and typedef names are distinct, every definition is
    written exactly once and after everything it refers to.  A record that refers to itself
    through a pointer to an array of it is on such a cycle although it does not contain itself,
    and its definitions come out in the wrong order. */
module TypeDefsTheorem {
  import opened TypeDefs

  /** `all` holds everything its definitions refer to, and `rank` falls along every reference:
      there is no cycle among them. */
  ghost predicate Ranked(p: Program, all: set<Item>, rank: Item -> nat) {
    forall x, y :: x in all && y in Needs(p, x) ==> y in all && rank(y) < rank(x)
  }

  ghost predicate DistinctNames(p: Program) {
    forall a: Ty, b: Ty :: p.name(a) == p.name(b) ==> a == b
  }

  predicate Once(out: seq<Item>) {
    forall i, j :: 0 <= i < j < |out| ==> out[i] != out[j]
  }

  /** Every definition comes after those it needs. */
  predicate InOrder(p: Program, out: seq<Item>) {
    forall i :: 0 <= i < |out| ==> forall y :: y in Needs(p, out[i]) ==> y in out[..i]
  }

  /** The tables say exactly what has been written. */
  ghost predicate Inv(p: Program, st: State) {
    && Once(st.out)
    && InOrder(p, st.out)
    && (forall t: Ty :: T(t) in st.out <==> p.name(t) in st.typedefs)
    && (forall d: nat :: D(d) in st.out <==> d in st.done)
    && (forall t: Ty :: t in st.arrays ==> T(t) in st.out)
  }

  /** Everything in `need` ranks below `bound`, and `bound` below every record in progress. */
  ghost predicate Fits(all: set<Item>, rank: Item -> nat, need: set<Item>, bound: nat, busy: seq<nat>) {
    && need <= all
    && (forall x :: x in need ==> rank(x) < bound)
    && (forall i :: 0 <= i < |busy| ==> bound <= rank(D(busy[i])))
  }

  /** From `st` to `r` the walk wrote everything in `need`, and only what ranks below `bound`. */
  ghost predicate Wrote(p: Program, rank: Item -> nat, need: set<Item>, bound: nat, st: State, r: State) {
    && Inv(p, r)
    && st.out <= r.out
    && (forall x :: x in need ==> x in r.out)
    && (forall x :: x in r.out && x !in st.out ==> rank(x) < bound)
  }

  lemma WroteThen(p: Program, rank: Item -> nat, a: set<Item>, b: set<Item>, bound: nat, st: State, s: State, r: State)
    requires Wrote(p, rank, a, bound, st, s) && Wrote(p, rank, b, bound, s, r)
    ensures Wrote(p, rank, a + b, bound, st, r)
  {
    assert forall x :: x in s.out ==> x in r.out;
    assert forall x :: x in st.out ==> x in s.out;
  }

  /** One more definition, new and with all it needs in place. */
  lemma AppendOk(p: Program, out: seq<Item>, x: Item)
    requires Once(out) && InOrder(p, out) && x !in out && forall y :: y in Needs(p, x) ==> y in out
    ensures Once(out + [x]) && InOrder(p, out + [x])
  {
    var out' := out + [x];
    forall i | 0 <= i < |out'| ensures forall y :: y in Needs(p, out'[i]) ==> y in out'[..i] {
      if i < |out| {
        assert out'[..i] == out[..i];
      } else {
        assert out'[..i] == out;
      }
    }
  }

  lemma WriteOk(p: Program, rank: Item -> nat, t: Ty, bound: nat, st: State)
    requires Inv(p, st) && DistinctNames(p) && rank(T(t)) < bound
    requires forall y :: y in Needs(p, T(t)) ==> y in st.out
    ensures Wrote(p, rank, {T(t)}, bound, st, Write(p, t, st))
  {
    if p.name(t) !in st.typedefs {
      AppendOk(p, st.out, T(t));
      var r := Write(p, t, st);
      forall b: Ty ensures T(b) in r.out <==> p.name(b) in r.typedefs {
        assert T(b) in r.out <==> T(b) in st.out || b == t;
      }
      forall d: nat ensures D(d) in r.out <==> d in r.done {
        assert D(d) in r.out <==> D(d) in st.out;
      }
    }
  }

  lemma {:induction false} DefineTypeOk(p: Program, all: set<Item>, rank: Item -> nat, t: Ty, bound: nat, st: State)
    requires Ranked(p, all, rank) && DistinctNames(p) && Inv(p, st) && Fits(all, rank, ItemsOf(p, t), bound, st.busy)
    ensures Wrote(p, rank, ItemsOf(p, t), bound, st, DefineType(p, t, st))
    decreases Ahead(p, st), 0, t
  {
    hide Inv, Once, InOrder;
    match t
    case Unit =>
    case Scalar(_) =>
    case Ptr(e) =>
      if !e.Record? {
        DefineTypeOk(p, all, rank, e, bound, st);
      }
    case Arr(_, _) => DefineArrayOk(p, all, rank, t, bound, st);
    case Opt(e) =>
      PartsFit(p, all, rank, T(t), ItemsOf(p, e), bound, st.busy);
      DefineTypeOk(p, all, rank, e, rank(T(t)), st);
      FinishOk(p, rank, t, bound, st, DefineType(p, e, st));
    case Fail(e) =>
      if !e.Unit? {
        PartsFit(p, all, rank, T(t), ItemsOf(p, e), bound, st.busy);
        DefineTypeOk(p, all, rank, e, rank(T(t)), st);
        FinishOk(p, rank, t, bound, st, DefineType(p, e, st));
      }
    case Tup(es) =>
      PartsFit(p, all, rank, T(t), ItemsOfAll(p, es), bound, st.busy);
      DefineAllOk(p, all, rank, es, rank(T(t)), st);
      FinishOk(p, rank, t, bound, st, DefineAll(p, es, st));
    case Fn(ps, res) =>
      var s := DefineAll(p, ps, st);
      AheadShrinks(p, st, s);
      PartsFit(p, all, rank, T(t), ItemsOfAll(p, ps) + ItemsOf(p, res), bound, st.busy);
      DefineAllOk(p, all, rank, ps, rank(T(t)), st);
      DefineTypeOk(p, all, rank, res, rank(T(t)), s);
      WroteThen(p, rank, ItemsOfAll(p, ps), ItemsOf(p, res), rank(T(t)), st, s, DefineType(p, res, s));
      FinishOk(p, rank, t, bound, st, DefineType(p, res, s));
    case Record(d) => DefineDeclOk(p, all, rank, d, bound, st);
  }

  /** What a definition needs ranks below it, so below every record in progress. */
  lemma PartsFit(p: Program, all: set<Item>, rank: Item -> nat, x: Item, need: set<Item>, bound: nat, busy: seq<nat>)
    requires Ranked(p, all, rank) && Fits(all, rank, {x}, bound, busy) && need <= Needs(p, x)
    ensures Fits(all, rank, need, rank(x), busy)
  {
  }

  /** The parts are written; the typedef itself follows unless its name is taken. */
  lemma FinishOk(p: Program, rank: Item -> nat, t: Ty, bound: nat, st: State, s: State)
    requires DistinctNames(p) && rank(T(t)) < bound && Wrote(p, rank, Needs(p, T(t)), rank(T(t)), st, s)
    ensures Wrote(p, rank, {T(t)}, bound, st, Write(p, t, s))
  {
    WriteOk(p, rank, t, bound, s);
  }

  lemma {:induction false} DefineArrayOk(p: Program, all: set<Item>, rank: Item -> nat, t: Ty, bound: nat, st: State)
    requires t.Arr? && Ranked(p, all, rank) && DistinctNames(p) && Inv(p, st) && Fits(all, rank, ItemsOf(p, t), bound, st.busy)
    ensures Wrote(p, rank, ItemsOf(p, t), bound, st, DefineType(p, t, st))
    decreases Ahead(p, st), 0, t, 0
  {
    if t !in st.arrays && p.name(t) !in st.typedefs {
      var s := DefineType(p, t.elem, st);
      PartsFit(p, all, rank, T(t), ItemsOf(p, t.elem), bound, st.busy);
      DefineTypeOk(p, all, rank, t.elem, rank(T(t)), st);
      // what the element wrote ranks below the array, so it did not write the array
      assert T(t) !in s.out;
      WriteOk(p, rank, t, bound, s);
      var r := DefineType(p, t, st);
      assert r == Write(p, t, s).(arrays := s.arrays + {t});
    }
  }

  lemma {:induction false} DefineAllOk(p: Program, all: set<Item>, rank: Item -> nat, ts: Types, bound: nat, st: State)
    requires Ranked(p, all, rank) && DistinctNames(p) && Inv(p, st) && Fits(all, rank, ItemsOfAll(p, ts), bound, st.busy)
    ensures Wrote(p, rank, ItemsOfAll(p, ts), bound, st, DefineAll(p, ts, st))
    decreases Ahead(p, st), 0, ts
  {
    hide Inv, Once, InOrder;
    if ts.More? {
      var s := DefineType(p, ts.head, st);
      AheadShrinks(p, st, s);
      DefineTypeOk(p, all, rank, ts.head, bound, st);
      DefineAllOk(p, all, rank, ts.tail, bound, s);
      WroteThen(p, rank, ItemsOf(p, ts.head), ItemsOfAll(p, ts.tail), bound, st, s, DefineAll(p, ts, st));
    }
  }

  lemma {:induction false} DefineDeclOk(p: Program, all: set<Item>, rank: Item -> nat, d: nat, bound: nat, st: State)
    requires Ranked(p, all, rank) && DistinctNames(p) && Inv(p, st) && Fits(all, rank, ItemsOf(p, Record(d)), bound, st.busy)
    ensures Wrote(p, rank, ItemsOf(p, Record(d)), bound, st, DefineDecl(p, d, st))
    decreases Ahead(p, st), 0, Record(d), 0
  {
    if d < |p.decls| && p.decls[d].writes && d !in st.done {
      assert d !in st.busy;
      assert d in Ahead(p, st);
      var started := st.(busy := st.busy + [d]);
      PartsFit(p, all, rank, D(d), Needs(p, D(d)), bound, st.busy);
      DefineAllOk(p, all, rank, p.decls[d].members, rank(D(d)), started);
      var s := DefineAll(p, p.decls[d].members, started);
      assert D(d) !in s.out;
      RecordWritten(p, rank, d, bound, st, s);
    }
  }

  lemma RecordWritten(p: Program, rank: Item -> nat, d: nat, bound: nat, st: State, s: State)
    requires s.busy != [] && rank(D(d)) < bound && D(d) !in s.out
    requires Wrote(p, rank, Needs(p, D(d)), rank(D(d)), st, s)
    ensures Wrote(p, rank, {D(d)}, bound, st, s.(busy := s.busy[..|s.busy| - 1], done := s.done + {d}, out := s.out + [D(d)]))
  {
    var r := s.(busy := s.busy[..|s.busy| - 1], done := s.done + {d}, out := s.out + [D(d)]);
    AppendOk(p, s.out, D(d));
    forall t: Ty ensures T(t) in r.out <==> p.name(t) in r.typedefs {
      assert T(t) in r.out <==> T(t) in s.out;
    }
    forall k: nat ensures D(k) in r.out <==> k in r.done {
      assert D(k) in r.out <==> D(k) in s.out || k == d;
    }
  }

  /** The records asked for, and whatever the noted types need. */
  predicate Asked(p: Program, ds: seq<nat>, noted: Types, x: Item) {
    || (x.D? && x.d in ds && x.d < |p.decls| && p.decls[x.d].writes)
    || x in ItemsOfAll(p, noted)
  }

  ghost predicate Involves(p: Program, ds: seq<nat>, noted: Types, all: set<Item>) {
    forall x :: Asked(p, ds, noted, x) ==> x in all
  }

  lemma {:induction false} DefineDeclsOk(p: Program, all: set<Item>, rank: Item -> nat, ds: seq<nat>, st: State)
    requires Ranked(p, all, rank) && DistinctNames(p) && Inv(p, st) && st.busy == []
    requires Involves(p, ds, NoTypes, all)
    ensures
      var r := DefineDecls(p, ds, st);
      Inv(p, r) && r.busy == []
    decreases |ds|
  {
    if ds != [] {
      assert Asked(p, ds, NoTypes, D(ds[0])) || ItemsOf(p, Record(ds[0])) == {};
      DefineDeclOk(p, all, rank, ds[0], rank(D(ds[0])) + 1, st);
      assert forall x :: Asked(p, ds[1..], NoTypes, x) ==> Asked(p, ds, NoTypes, x);
      DefineDeclsOk(p, all, rank, ds[1..], DefineDecl(p, ds[0], st));
    }
  }

  lemma {:induction false} BoundFor(p: Program, rank: Item -> nat, ts: Types) returns (bound: nat)
    ensures forall x :: x in ItemsOfAll(p, ts) ==> rank(x) < bound
  {
    bound := 0;
    if ts.More? {
      var b := BoundFor(p, rank, ts.tail);
      var c := BoundOne(p, rank, ts.head);
      bound := if b < c then c else b;
    }
  }

  lemma {:induction false} BoundOne(p: Program, rank: Item -> nat, t: Ty) returns (bound: nat)
    ensures forall x :: x in ItemsOf(p, t) ==> rank(x) < bound
  {
    match t
    case Ptr(e) => bound := BoundOne(p, rank, e);
    case Record(d) => bound := rank(D(d)) + 1;
    case _ => bound := rank(T(t)) + 1;
  }

  // ----- what is asked for is always written -----

  /** The tables say what has been written, in whatever order. */
  ghost predicate Tables(p: Program, st: State) {
    && (forall t: Ty :: T(t) in st.out <==> p.name(t) in st.typedefs)
    && (forall d: nat :: D(d) in st.out <==> d in st.done)
    && (forall t: Ty :: t in st.arrays ==> T(t) in st.out)
  }

  /** Everything in `need` but records in progress has been written. */
  ghost predicate Covers(p: Program, need: set<Item>, st: State, r: State) {
    && Tables(p, r)
    && st.out <= r.out
    && (forall x :: x in need && !(x.D? && x.d in st.busy) ==> x in r.out)
  }

  lemma CoversThen(p: Program, a: set<Item>, b: set<Item>, st: State, s: State, r: State)
    requires Covers(p, a, st, s) && Covers(p, b, s, r) && s.busy == st.busy
    ensures Covers(p, a + b, st, r)
  {
    assert forall x :: x in s.out ==> x in r.out;
  }

  lemma AppendCovers(p: Program, st: State, s: State, x: Item, r: State)
    requires DistinctNames(p) && Tables(p, s) && st.out <= s.out && r.out == s.out + [x]
    requires x.T? ==> r.typedefs == s.typedefs + {p.name(x.t)} && r.done == s.done
    requires x.D? ==> r.done == s.done + {x.d} && r.typedefs == s.typedefs
    requires r.arrays == s.arrays || (x.T? && r.arrays == s.arrays + {x.t})
    ensures Covers(p, {x}, st, r)
  {
    forall t: Ty ensures T(t) in r.out <==> p.name(t) in r.typedefs {
      assert T(t) in r.out <==> T(t) in s.out || T(t) == x;
    }
    forall d: nat ensures D(d) in r.out <==> d in r.done {
      assert D(d) in r.out <==> D(d) in s.out || D(d) == x;
    }
  }

  lemma WriteCovers(p: Program, t: Ty, st: State, s: State)
    requires DistinctNames(p) && Tables(p, s) && st.out <= s.out
    ensures Covers(p, {T(t)}, st, Write(p, t, s))
  {
    if p.name(t) !in s.typedefs {
      AppendCovers(p, st, s, T(t), Write(p, t, s));
    }
  }

  lemma {:induction false} TypeWritten(p: Program, t: Ty, st: State)
    requires DistinctNames(p) && Tables(p, st)
    ensures Covers(p, ItemsOf(p, t), st, DefineType(p, t, st))
    decreases Ahead(p, st), 0, t
  {
    hide Tables;
    match t
    case Unit =>
    case Scalar(_) =>
    case Ptr(e) =>
      if !e.Record? {
        TypeWritten(p, e, st);
      }
    case Arr(e, _) =>
      TypeWritten(p, e, st);
      ArrayCovers(p, t, st);
    case Opt(e) =>
      TypeWritten(p, e, st);
      WriteCovers(p, t, st, DefineType(p, e, st));
    case Fail(e) =>
      if !e.Unit? {
        TypeWritten(p, e, st);
        WriteCovers(p, t, st, DefineType(p, e, st));
      }
    case Tup(es) =>
      TypesWritten(p, es, st);
      WriteCovers(p, t, st, DefineAll(p, es, st));
    case Fn(ps, res) =>
      var s := DefineAll(p, ps, st);
      AheadShrinks(p, st, s);
      TypesWritten(p, ps, st);
      TypeWritten(p, res, s);
      CoversThen(p, ItemsOfAll(p, ps), ItemsOf(p, res), st, s, DefineType(p, res, s));
      WriteCovers(p, t, st, DefineType(p, res, s));
    case Record(d) => DeclWritten(p, d, st);
  }

  lemma ArrayCovers(p: Program, t: Ty, st: State)
    requires t.Arr? && DistinctNames(p) && Tables(p, st) && Covers(p, ItemsOf(p, t.elem), st, DefineType(p, t.elem, st))
    ensures Covers(p, {T(t)}, st, DefineType(p, t, st))
  {
    if t !in st.arrays && p.name(t) !in st.typedefs {
      AppendCovers(p, st, DefineType(p, t.elem, st), T(t), DefineType(p, t, st));
    }
  }

  lemma {:induction false} TypesWritten(p: Program, ts: Types, st: State)
    requires DistinctNames(p) && Tables(p, st)
    ensures Covers(p, ItemsOfAll(p, ts), st, DefineAll(p, ts, st))
    decreases Ahead(p, st), 0, ts
  {
    if ts.More? {
      var s := DefineType(p, ts.head, st);
      AheadShrinks(p, st, s);
      TypeWritten(p, ts.head, st);
      TypesWritten(p, ts.tail, s);
      CoversThen(p, ItemsOf(p, ts.head), ItemsOfAll(p, ts.tail), st, s, DefineAll(p, ts, st));
    }
  }

  lemma {:induction false} DeclWritten(p: Program, d: nat, st: State)
    requires DistinctNames(p) && Tables(p, st)
    ensures Covers(p, ItemsOf(p, Record(d)), st, DefineDecl(p, d, st))
    decreases Ahead(p, st), 0, Record(d), 0
  {
    if d < |p.decls| && p.decls[d].writes && d !in st.done && d !in st.busy {
      assert d in Ahead(p, st);
      var started := st.(busy := st.busy + [d]);
      TypesWritten(p, p.decls[d].members, started);
      hide DefineAll, Ahead;
      AppendCovers(p, st, DefineAll(p, p.decls[d].members, started), D(d), DefineDecl(p, d, st));
    }
  }

  lemma {:induction false} DeclsWritten(p: Program, ds: seq<nat>, st: State)
    requires DistinctNames(p) && Tables(p, st) && st.busy == []
    ensures
      var r := DefineDecls(p, ds, st);
      Tables(p, r) && r.busy == [] && st.out <= r.out && forall x :: Asked(p, ds, NoTypes, x) ==> x in r.out
    decreases |ds|
  {
    if ds != [] {
      var s, r := DefineDecl(p, ds[0], st), DefineDecls(p, ds, st);
      DeclWritten(p, ds[0], st);
      DeclsWritten(p, ds[1..], s);
      forall x | Asked(p, ds, NoTypes, x) ensures x in r.out {
        assert x.d == ds[0] || x.d in ds[1..];
        assert x.d == ds[0] ==> x in s.out;
        assert x.d in ds[1..] ==> Asked(p, ds[1..], NoTypes, x);
      }
    }
  }

  lemma StartOk(p: Program)
    requires DistinctNames(p)
    ensures Inv(p, Start(p)) && Tables(p, Start(p))
  {
    assert Needs(p, T(USIZE_RESULT)) == {};
  }

  lemma AskedWritten(p: Program, ds: seq<nat>, noted: Types)
    requires DistinctNames(p)
    ensures forall x :: Asked(p, ds, noted, x) ==> x in EmitTypeDefs(p, ds, noted).out
  {
    var s := DefineDecls(p, ds, Start(p));
    StartOk(p);
    DeclsWritten(p, ds, Start(p));
    TypesWritten(p, noted, s);
    forall x | Asked(p, ds, noted, x) ensures x in EmitTypeDefs(p, ds, noted).out {
      assert x !in ItemsOfAll(p, noted) ==> Asked(p, ds, NoTypes, x);
    }
  }

  // ----- the theorems -----

  /** Every definition once, after all it refers to, and none missing. */
  lemma DefinitionsInOrder(p: Program, all: set<Item>, rank: Item -> nat, ds: seq<nat>, noted: Types)
    requires Ranked(p, all, rank) && DistinctNames(p) && Involves(p, ds, noted, all)
    ensures
      var out := EmitTypeDefs(p, ds, noted).out;
      Once(out) && InOrder(p, out) && forall x :: Asked(p, ds, noted, x) ==> x in out
  {
    var s := DefineDecls(p, ds, Start(p));
    StartOk(p);
    assert forall x :: Asked(p, ds, NoTypes, x) ==> Asked(p, ds, noted, x);
    DefineDeclsOk(p, all, rank, ds, Start(p));
    var bound := BoundFor(p, rank, noted);
    assert forall x :: x in ItemsOfAll(p, noted) ==> Asked(p, ds, noted, x);
    DefineAllOk(p, all, rank, noted, bound, s);
    AskedWritten(p, ds, noted);
  }

  /** The place of a definition in the output. */
  function IndexOf(out: seq<Item>, x: Item): (i: nat)
    ensures x in out ==> i < |out| && out[i] == x && forall j :: 0 <= j < i ==> out[j] != x
  {
    if out == [] || out[0] == x then 0 else 1 + IndexOf(out[1..], x)
  }

  function Places(out: seq<Item>): Item -> nat { (x: Item) => IndexOf(out, x) }

  /** The definitions asked for refer to each other without a cycle. */
  ghost predicate NoCycle(p: Program, ds: seq<nat>, noted: Types) {
    exists all: set<Item>, rank: Item -> nat :: Ranked(p, all, rank) && Involves(p, ds, noted, all)
  }

  /** The output is in dependency order exactly when what was asked for has no cycle. */
  lemma InOrderIffNoCycle(p: Program, ds: seq<nat>, noted: Types)
    requires DistinctNames(p)
    ensures
      var out := EmitTypeDefs(p, ds, noted).out;
      Once(out) && InOrder(p, out) <==> NoCycle(p, ds, noted)
  {
    var out := EmitTypeDefs(p, ds, noted).out;
    if NoCycle(p, ds, noted) {
      var all: set<Item>, rank: Item -> nat :|
        Ranked(p, all, rank) && Involves(p, ds, noted, all);
      DefinitionsInOrder(p, all, rank, ds, noted);
    }
    if Once(out) && InOrder(p, out) {
      var all := set x | x in out;
      var rank := Places(out);
      AskedWritten(p, ds, noted);
      assert Involves(p, ds, noted, all);
      forall x, y | x in all && y in Needs(p, x) ensures y in all && rank(y) < rank(x) {
        var i := IndexOf(out, x);
        assert y in out[..i];
        var j :| 0 <= j < i && out[j] == y;
      }
      assert Ranked(p, all, rank);
    }
  }

  /** `struct Node { rows: Node[3]* }`: the record does not hold itself by value, but its array
      type refers to it and it refers to its array type. */
  function NodeProgram(name: Ty -> string): Program {
    Program([Decl(true, More(Ptr(Arr(Record(0), 3)), NoTypes))], name)
  }

  /** What defining the record writes: its array typedef first, before the record it holds. */
  lemma NodeWritten(name: Ty -> string)
    requires name(USIZE_RESULT) != name(Arr(Record(0), 3))
    ensures
      var p, rows := NodeProgram(name), Arr(Record(0), 3);
      var start := Start(p);
      DefineDecl(p, 0, start)
      == start.(arrays := {rows}, typedefs := start.typedefs + {name(rows)}, done := {0},
                out := [T(USIZE_RESULT), T(rows), D(0)])
  {
    var p, rows := NodeProgram(name), Arr(Record(0), 3);
    var start := Start(p);
    var st := start.(busy := [0]);
    var s := st.(arrays := {rows}, typedefs := st.typedefs + {name(rows)}, out := st.out + [T(rows)]);
    assert DefineDecl(p, 0, st) == st;
    assert DefineType(p, rows, st) == s;
    assert DefineType(p, Ptr(rows), st) == s;
    assert DefineAll(p, NoTypes, s) == s;
    assert DefineAll(p, p.decls[0].members, st) == s;
    assert start.busy + [0] == [0];
  }

  /** Asking for the array type first writes its typedef twice. */
  lemma NodeTwice(name: Ty -> string)
    requires name(USIZE_RESULT) != name(Arr(Record(0), 3))
    ensures
      var p, rows := NodeProgram(name), Arr(Record(0), 3);
      DefineType(p, rows, Start(p)).out == [T(USIZE_RESULT), T(rows), D(0), T(rows)]
  {
    var p, rows := NodeProgram(name), Arr(Record(0), 3);
    NodeWritten(name);
    hide DefineDecl, NodeProgram;
    assert DefineType(p, Record(0), Start(p)) == DefineDecl(p, 0, Start(p));
  }

  lemma NodeNeeds(name: Ty -> string)
    ensures
      var p, rows := NodeProgram(name), Arr(Record(0), 3);
      T(rows) in Needs(p, D(0)) && D(0) in Needs(p, T(rows))
  {
    var p, rows := NodeProgram(name), Arr(Record(0), 3);
    assert ItemsOf(p, Ptr(rows)) == {T(rows)};
  }

  /** `Node` comes out wrong: out of order when asked for, twice when its array type is, and no
      order of these definitions could be right. */
  lemma NodeOutOfOrder(name: Ty -> string)
    requires name(USIZE_RESULT) != name(Arr(Record(0), 3))
    ensures
      var p, rows := NodeProgram(name), Arr(Record(0), 3);
      var asked, arrayAsked := DefineDecl(p, 0, Start(p)).out, DefineType(p, rows, Start(p)).out;
      && asked == [T(USIZE_RESULT), T(rows), D(0)] && !InOrder(p, asked)
      && arrayAsked == [T(USIZE_RESULT), T(rows), D(0), T(rows)] && !Once(arrayAsked)
      && !exists all: set<Item>, rank: Item -> nat :: D(0) in all && Ranked(p, all, rank)
  {
    hide DefineDecl, DefineType, NodeProgram, Needs;
    var p, rows := NodeProgram(name), Arr(Record(0), 3);
    NodeWritten(name);
    NodeTwice(name);
    NodeNeeds(name);
    var out := [T(USIZE_RESULT), T(rows), D(0)];
    var twice := out + [T(rows)];
    assert out[..1] == [T(USIZE_RESULT)];
    assert D(0) in Needs(p, out[1]) && D(0) !in out[..1];
    assert twice == [T(USIZE_RESULT), T(rows), D(0), T(rows)];
    assert twice[1] == twice[3];
    var node, list := D(0), T(rows);
    forall all: set<Item>, rank: Item -> nat ensures !(node in all && Ranked(p, all, rank)) {
      assert node in all && Ranked(p, all, rank) ==> list in all && rank(list) < rank(node);
    }
  }
}
