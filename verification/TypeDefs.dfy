/** C type definitions in dependency order (src/emit/types.cpp): a depth-first walk writes each
    typedef and each record after the types it holds. */
module TypeDefs {
  import opened Wrappers

  datatype Ty =
    | Unit
    | Scalar(id: nat)
    | Ptr(elem: Ty)                      // a pointer, span or atomic
    | Arr(elem: Ty, length: nat)
    | Opt(elem: Ty)
    | Fail(elem: Ty)
    | Tup(elems: Types)
    | Fn(params: Types, result: Ty)
    | Record(decl: nat)

  datatype Types = NoTypes | More(head: Ty, tail: Types)

  /** `writes` is false for what `define_decl` skips: generics, integer enums, runtime records. */
  datatype Decl = Decl(writes: bool, members: Types)

  /** Declarations, and the C typedef name of each type. */
  datatype Program = Program(decls: seq<Decl>, name: Ty -> string)

  /** One C definition: a typedef, or a record. */
  datatype Item = T(t: Ty) | D(d: nat)

  /** The definitions C needs before `t` can be used as a member, an element or a parameter. */
  function ItemsOf(p: Program, t: Ty): set<Item> {
    match t
    case Unit => {}
    case Scalar(_) => {}
    case Ptr(e) => if e.Record? then {} else ItemsOf(p, e)
    case Fail(e) => if e.Unit? then {} else {T(t)}
    case Record(d) => if d < |p.decls| && p.decls[d].writes then {D(d)} else {}
    case _ => {T(t)}
  }

  function ItemsOfAll(p: Program, ts: Types): set<Item> {
    match ts
    case NoTypes => {}
    case More(t, rest) => ItemsOf(p, t) + ItemsOfAll(p, rest)
  }

  /** The definitions that one definition refers to: the relation the walk follows. */
  function Needs(p: Program, x: Item): set<Item> {
    match x
    case D(d) => if d < |p.decls| then ItemsOfAll(p, p.decls[d].members) else {}
    case T(Arr(e, _)) => ItemsOf(p, e)
    case T(Opt(e)) => ItemsOf(p, e)
    case T(Fail(e)) => ItemsOf(p, e)
    case T(Tup(es)) => ItemsOfAll(p, es)
    case T(Fn(ps, r)) => ItemsOfAll(p, ps) + ItemsOf(p, r)
    case _ => {}
  }

  /** The emitter's tables and output. */
  datatype State = State(typedefs: set<string>, arrays: set<Ty>, done: set<nat>, busy: seq<nat>, out: seq<Item>)

  /** `!usize`, which the runtime's own code uses: its typedef is always there. */
  const USIZE_RESULT := Fail(Scalar(0))

  /** The first line `emit_type_defs` writes, `lb_r_usize`. */
  function Start(p: Program): State {
    State({p.name(USIZE_RESULT)}, {}, {}, [], [T(USIZE_RESULT)])
  }

  /** Declarations neither done nor busy: what bounds the recursion through records. */
  function Ahead(p: Program, st: State): set<nat> {
    (Below(|p.decls|) - st.done) - (set d | d in st.busy)
  }

  /** Recursion never undoes anything. */
  predicate Onward(st: State, r: State) {
    st.done <= r.done && r.busy == st.busy
  }

  function Write(p: Program, t: Ty, st: State): State {
    if p.name(t) in st.typedefs then st
    else st.(typedefs := st.typedefs + {p.name(t)}, out := st.out + [T(t)])
  }

  function DefineType(p: Program, t: Ty, st: State): (r: State)
    ensures Onward(st, r)
    decreases Ahead(p, st), 0, t
  {
    match t
    case Unit => st
    case Scalar(_) => st
    case Ptr(e) => if e.Record? then st else DefineType(p, e, st)
    case Arr(e, _) =>
      if t in st.arrays then st
      else if p.name(t) in st.typedefs then st.(arrays := st.arrays + {t})
      else
        var s := DefineType(p, e, st);
        s.(arrays := s.arrays + {t}, typedefs := s.typedefs + {p.name(t)}, out := s.out + [T(t)])
    case Opt(e) => Write(p, t, DefineType(p, e, st))
    case Fail(e) => if e.Unit? then st else Write(p, t, DefineType(p, e, st))
    case Tup(es) => Write(p, t, DefineAll(p, es, st))
    case Fn(ps, res) =>
      var s := DefineAll(p, ps, st);
      AheadShrinks(p, st, s);
      Write(p, t, DefineType(p, res, s))
    case Record(d) => DefineDecl(p, d, st)
  }

  function DefineAll(p: Program, ts: Types, st: State): (r: State)
    ensures Onward(st, r)
    decreases Ahead(p, st), 0, ts
  {
    match ts
    case NoTypes => st
    case More(t, rest) =>
      var s := DefineType(p, t, st);
      AheadShrinks(p, st, s);
      DefineAll(p, rest, s)
  }

  function DefineDecl(p: Program, d: nat, st: State): (r: State)
    ensures Onward(st, r)
    decreases Ahead(p, st), 0, Record(d), 0
  {
    if d >= |p.decls| || !p.decls[d].writes || d in st.done || d in st.busy then st
    else
      assert d in Ahead(p, st);
      var s := DefineAll(p, p.decls[d].members, st.(busy := st.busy + [d]));
      s.(busy := s.busy[..|s.busy| - 1], done := s.done + {d}, out := s.out + [D(d)])
  }

  lemma AheadShrinks(p: Program, st: State, s: State)
    requires Onward(st, s)
    ensures Ahead(p, s) == Ahead(p, st) || Ahead(p, s) < Ahead(p, st)
  {
    assert Ahead(p, s) <= Ahead(p, st);
  }

  /** `emit_type_defs`: every record of every module, then every noted type. */
  function DefineDecls(p: Program, ds: seq<nat>, st: State): State
    decreases |ds|
  {
    if ds == [] then st else DefineDecls(p, ds[1..], DefineDecl(p, ds[0], st))
  }

  function EmitTypeDefs(p: Program, ds: seq<nat>, noted: Types): State {
    DefineAll(p, noted, DefineDecls(p, ds, Start(p)))
  }
}
