/** Why the walk over C type definitions follows the types it does: they are what the text of a
    definition names. */
module TypeDefsText {
  import opened Wrappers
  import opened TypeDefs

  /** The C type `c_type` spells: a type of C or of the runtime, a record by its tag, a typedef by
      its name, or a pointer. */
  datatype CType = Plain | TagOf(d: nat) | TypedefOf(t: Ty) | PointerTo(to: CType)

  function Spelled(t: Ty): CType {
    match t
    case Unit => Plain
    case Scalar(_) => Plain
    case Ptr(e) => PointerTo(Spelled(e))
    case Arr(_, _) => TypedefOf(t)
    case Opt(_) => TypedefOf(t)
    case Fail(e) => if e.Unit? then Plain else TypedefOf(t)
    case Tup(_) => TypedefOf(t)
    case Fn(_, _) => TypedefOf(t)
    case Record(d) => TagOf(d)
  }

  /** The type can be used by value where just these definitions stand before it: a record must be
      complete there, while its tag alone, behind a pointer, is declared ahead of everything, and a
      typedef's name is not.  Records nothing is written for come with the runtime. */
  predicate Ready(p: Program, c: CType, defined: set<Item>) {
    match c
    case Plain => true
    case TagOf(d) => d < |p.decls| && p.decls[d].writes ==> D(d) in defined
    case TypedefOf(t) => T(t) in defined
    case PointerTo(to) => to.TagOf? || Ready(p, to, defined)
  }

  predicate AllReady(p: Program, ts: Types, defined: set<Item>) {
    ts.More? ==> Ready(p, Spelled(ts.head), defined) && AllReady(p, ts.tail, defined)
  }

  /** The types a definition's text spells: `LB_OPT(T, ...)`, `LB_RES(T, ...)`, an array's element, a
      tuple's parts, a function's result and parameters, a record's members. */
  predicate DefinitionReady(p: Program, x: Item, defined: set<Item>) {
    match x
    case D(d) => d < |p.decls| ==> AllReady(p, p.decls[d].members, defined)
    case T(t) =>
      match t
      case Arr(e, _) => Ready(p, Spelled(e), defined)
      case Opt(e) => Ready(p, Spelled(e), defined)
      case Fail(e) => Ready(p, Spelled(e), defined)
      case Tup(es) => AllReady(p, es, defined)
      case Fn(ps, r) => AllReady(p, ps, defined) && Ready(p, Spelled(r), defined)
      case _ => true
  }

  lemma {:induction false} MemberReadyIff(p: Program, t: Ty, defined: set<Item>)
    ensures Ready(p, Spelled(t), defined) <==> ItemsOf(p, t) <= defined
  {
    if t.Ptr? { MemberReadyIff(p, t.elem, defined); }
  }

  lemma {:induction false} AllReadyIff(p: Program, ts: Types, defined: set<Item>)
    ensures AllReady(p, ts, defined) <==> ItemsOfAll(p, ts) <= defined
  {
    if ts.More? {
      MemberReadyIff(p, ts.head, defined);
      AllReadyIff(p, ts.tail, defined);
    }
  }

  /** All a definition names is ready exactly where all that the walk says it needs is written. */
  lemma DefinitionReadyIff(p: Program, x: Item, defined: set<Item>)
    ensures DefinitionReady(p, x, defined) <==> Needs(p, x) <= defined
  {
    match x
    case D(d) => if d < |p.decls| { AllReadyIff(p, p.decls[d].members, defined); }
    case T(t) =>
      match t {
        case Arr(e, _) => MemberReadyIff(p, e, defined);
        case Opt(e) => MemberReadyIff(p, e, defined);
        case Fail(e) => MemberReadyIff(p, e, defined);
        case Tup(es) => AllReadyIff(p, es, defined);
        case Fn(ps, r) => AllReadyIff(p, ps, defined); MemberReadyIff(p, r, defined);
        case _ =>
      }
  }

  /** `struct Node { next: Node* }` comes out complete and in order. */
  lemma ListNodeInOrder(name: Ty -> string)
    ensures
      var p := Program([Decl(true, More(Ptr(Record(0)), NoTypes))], name);
      && EmitTypeDefs(p, [0], NoTypes).out == [T(USIZE_RESULT), D(0)]
      && DefinitionReady(p, D(0), {T(USIZE_RESULT)})
  {
    var p := Program([Decl(true, More(Ptr(Record(0)), NoTypes))], name);
    var st := Start(p).(busy := [0]);
    assert Start(p).busy + [0] == [0];
    assert DefineType(p, Ptr(Record(0)), st) == st;
    assert DefineAll(p, NoTypes, st) == st;
    assert DefineAll(p, p.decls[0].members, st) == st;
    var done := DefineDecl(p, 0, Start(p));
    assert done.out == [T(USIZE_RESULT)] + [D(0)];
    assert DefineDecls(p, [], done) == done;
    assert DefineDecls(p, [0], Start(p)) == done;
    AllReadyIff(p, p.decls[0].members, {T(USIZE_RESULT)});
  }
}
