/** The definition walk as the emitter runs it, on tables and output updated in place; each
    method leaves exactly the state TypeDefs computes. */
module TypeDefsEmitterModel {
  import opened TypeDefs

  class TypeEmitter {
    const p: Program
    var typedefs: set<string>
    var arrays: set<Ty>
    var done: set<nat>
    var busy: seq<nat>
    var out: seq<Item>

    constructor (p: Program)
      ensures this.p == p && Now() == State({}, {}, {}, [], [])
    {
      this.p := p;
      typedefs, arrays, done, busy, out := {}, {}, {}, [], [];
    }

    ghost function Now(): State
      reads this
    {
      State(typedefs, arrays, done, busy, out)
    }

    /** `line(...)` and `typedefs_done.push_back(name)`, unless the name is there already. */
    method WriteTypedef(t: Ty)
      modifies this
      ensures Now() == Write(p, t, old(Now()))
    {
      if p.name(t) in typedefs {
        return;
      }
      out := out + [T(t)];
      typedefs := typedefs + {p.name(t)};
    }

    method EmitArrayDef(t: Ty)
      requires t.Arr?
      modifies this
      ensures Now() == DefineType(p, t, old(Now()))
      decreases Ahead(p, Now()), 0, t, 0
    {
      if t in arrays {
        return;
      }
      if p.name(t) in typedefs {
        arrays := arrays + {t};
        return;
      }
      DefineTypeNow(t.elem);
      out := out + [T(t)];
      arrays := arrays + {t};
      typedefs := typedefs + {p.name(t)};
    }

    method DefineTypeNow(t: Ty)
      modifies this
      ensures Now() == DefineType(p, t, old(Now()))
      decreases Ahead(p, Now()), 0, t
    {
      match t
      case Unit =>
      case Scalar(_) =>
      case Ptr(e) =>
        if !e.Record? {
          DefineTypeNow(e);
        }
      case Arr(_, _) => EmitArrayDef(t);
      case Opt(e) =>
        DefineTypeNow(e);
        WriteTypedef(t);
      case Fail(e) =>
        if !e.Unit? {
          DefineTypeNow(e);
          WriteTypedef(t);
        }
      case Tup(es) =>
        DefineAllNow(es);
        WriteTypedef(t);
      case Fn(ps, res) =>
        ghost var st := Now();
        DefineAllNow(ps);
        AheadShrinks(p, st, Now());
        DefineTypeNow(res);
        WriteTypedef(t);
      case Record(d) => DefineDeclNow(d);
    }

    /** The loops over components and members. */
    method DefineAllNow(ts: Types)
      modifies this
      ensures Now() == DefineAll(p, ts, old(Now()))
      decreases Ahead(p, Now()), 0, ts
    {
      var rest := ts;
      while rest.More?
        invariant DefineAll(p, rest, Now()) == DefineAll(p, ts, old(Now()))
        invariant Onward(old(Now()), Now())
        invariant rest == ts || rest < ts
        decreases rest
      {
        AheadShrinks(p, old(Now()), Now());
        ghost var st := Now();
        DefineTypeNow(rest.head);
        assert DefineAll(p, rest, st) == DefineAll(p, rest.tail, Now());
        rest := rest.tail;
      }
    }

    method DefineDeclNow(d: nat)
      modifies this
      ensures Now() == DefineDecl(p, d, old(Now()))
      decreases Ahead(p, Now()), 0, Record(d), 0
    {
      if d >= |p.decls| || !p.decls[d].writes || d in done || d in busy {
        return;
      }
      assert d in Ahead(p, Now());
      busy := busy + [d];
      DefineAllNow(p.decls[d].members);
      busy := busy[..|busy| - 1];
      done := done + {d};
      out := out + [D(d)];
    }

    /** Every record of every module, then the noted arrays, tuples, optionals, results and
        functions. */
    method EmitTypeDefsNow(ds: seq<nat>, noted: Types)
      requires Now() == State({}, {}, {}, [], [])
      modifies this
      ensures Now() == EmitTypeDefs(p, ds, noted)
    {
      out := out + [T(USIZE_RESULT)];
      typedefs := typedefs + {p.name(USIZE_RESULT)};
      var i := 0;
      assert Now() == Start(p) && ds[0..] == ds;
      while i < |ds|
        invariant 0 <= i <= |ds|
        invariant DefineDecls(p, ds[i..], Now()) == DefineDecls(p, ds, Start(p))
      {
        assert ds[i..][1..] == ds[i + 1..];
        DefineDeclNow(ds[i]);
        i := i + 1;
      }
      DefineAllNow(noted);
    }
  }
}
