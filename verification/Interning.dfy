/** Interned types (src/check/resolve.cpp): one object for each structure, so comparing
    pointers compares types. */
module Interning {

  datatype Kind = KBase(leaf: Leaf) | KPtr | KArr | KSpan | KOpt | KFail | KAtomic | KTup | KFunc | KStruct | KIface

  /** Types with no components.  `Param` is parameter number `index` of generic `owner`. */
  datatype Leaf =
    | IntType(signed: bool, bits: nat, pointerSized: bool)
    | FloatType(bits: nat)
    | UntypedInt
    | ErrorType
    | Named(id: nat)
    | Param(owner: nat, index: nat)

  /** The structure of a type.  `StructT` is an instance of generic struct `origin`, `IfaceT` an
      interface, or an instance of a generic one. */
  datatype Tree =
    | Base(leaf: Leaf)
    | PtrT(elem: Tree, isConst: bool, isVolatile: bool, nullable: bool)
    | ArrT(elem: Tree, length: nat)
    | SpanT(elem: Tree, isConst: bool)
    | OptT(elem: Tree)
    | FailT(elem: Tree)
    | AtomicT(elem: Tree)
    | TupT(elems: seq<Tree>)
    | FuncT(params: seq<Tree>, result: Tree, nullable: bool)
    | StructT(origin: nat, args: seq<Tree>)
    | IfaceT(origin: nat, args: seq<Tree>, nullable: bool)

  /** A `Type` object.  `tree` is its structure, unfolded. */
  class TypeObj {
    const kind: Kind
    const elem: TypeObj?
    const length: nat
    const isConst: bool
    const isVolatile: bool
    const isNullable: bool
    const args: seq<TypeObj>
    const origin: nat
    ghost const tree: Tree

    constructor (kind: Kind, elem: TypeObj?, length: nat, isConst: bool, isVolatile: bool, isNullable: bool,
                 args: seq<TypeObj>, origin: nat, ghost tree: Tree)
      ensures this.kind == kind && this.elem == elem && this.length == length && this.isConst == isConst
      ensures this.isVolatile == isVolatile && this.isNullable == isNullable && this.args == args && this.origin == origin
      ensures this.tree == tree
    {
      this.kind, this.elem, this.length := kind, elem, length;
      this.isConst, this.isVolatile, this.isNullable := isConst, isVolatile, isNullable;
      this.args, this.origin, this.tree := args, origin, tree;
    }
  }

  ghost function TreesOf(ts: seq<TypeObj>): (r: seq<Tree>)
    ensures |r| == |ts| && forall i :: 0 <= i < |ts| ==> r[i] == ts[i].tree
  {
    if ts == [] then [] else [ts[0].tree] + TreesOf(ts[1..])
  }

  /** The structure the fields of `o` spell. */
  ghost predicate Spells(o: TypeObj) {
    match o.kind
    case KBase(leaf) => o.tree == Base(leaf)
    case KPtr => o.elem != null && o.tree == PtrT(o.elem.tree, o.isConst, o.isVolatile, o.isNullable)
    case KArr => o.elem != null && o.tree == ArrT(o.elem.tree, o.length)
    case KSpan => o.elem != null && o.tree == SpanT(o.elem.tree, o.isConst)
    case KOpt => o.elem != null && o.tree == OptT(o.elem.tree)
    case KFail => o.elem != null && o.tree == FailT(o.elem.tree)
    case KAtomic => o.elem != null && o.tree == AtomicT(o.elem.tree)
    case KTup => o.tree == TupT(TreesOf(o.args))
    case KFunc => o.elem != null && o.tree == FuncT(TreesOf(o.args), o.elem.tree, o.isNullable)
    case KStruct => o.tree == StructT(o.origin, TreesOf(o.args))
    case KIface => o.tree == IfaceT(o.origin, TreesOf(o.args), o.isNullable)
  }

  /** Same kind, same qualifiers, and the very same component objects: what each scan tests. */
  predicate Alike(a: TypeObj, b: TypeObj) {
    && a.kind == b.kind
    && match a.kind
       case KBase(_) => false
       case KPtr =>
         a.elem == b.elem && a.isConst == b.isConst && a.isVolatile == b.isVolatile && a.isNullable == b.isNullable
       case KArr => a.elem == b.elem && a.length == b.length
       case KSpan => a.elem == b.elem && a.isConst == b.isConst
       case KTup => a.args == b.args
       case KStruct => a.args == b.args && a.origin == b.origin
       case KIface => a.args == b.args && a.origin == b.origin && a.isNullable == b.isNullable
       case KFunc => a.args == b.args && a.elem == b.elem && a.isNullable == b.isNullable
       case _ => a.elem == b.elem
  }

  /** The type an interface declaration is given itself. */
  predicate IsDeclared(o: TypeObj, decl: nat) {
    o.kind == KIface && o.origin == decl && o.args == [] && !o.isNullable
  }

  /** An interface stands in the table after the type of its declaration, and only the plain
      interface has a nullable form. */
  ghost predicate IfaceInPlace(table: seq<TypeObj>, i: nat)
    requires i < |table|
  {
    table[i].kind == KIface ==>
      && (exists j :: 0 <= j <= i && IsDeclared(table[j], table[i].origin))
      && (table[i].isNullable ==> table[i].args == [])
  }

  class Interner {
    const bases: seq<TypeObj>       // scalars, records, type parameters: one object each
    var interned: seq<TypeObj>

    constructor (bases: seq<TypeObj>)
      requires forall i :: 0 <= i < |bases| ==> bases[i].kind.KBase? && Spells(bases[i])
      requires forall i, j :: 0 <= i < |bases| && 0 <= j < |bases| && bases[i].tree == bases[j].tree ==> bases[i] == bases[j]
      ensures Valid() && this.bases == bases && interned == []
    {
      this.bases := bases;
      interned := [];
    }

    ghost predicate Known(o: TypeObj)
      reads this
    {
      o in bases || o in interned
    }

    ghost predicate Formed(o: TypeObj)
      reads this
    {
      && !o.kind.KBase? && Spells(o)
      && (o.elem != null ==> Known(o.elem))
      && AllKnown(o.args)
    }

    /** Every interned object is formed from known ones, and no two are alike. */
    ghost predicate Valid()
      reads this
    {
      && (forall i :: 0 <= i < |bases| ==> bases[i].kind.KBase? && Spells(bases[i]))
      && (forall i, j :: 0 <= i < |bases| && 0 <= j < |bases| && bases[i].tree == bases[j].tree ==> bases[i] == bases[j])
      && (forall i :: 0 <= i < |interned| ==> Formed(interned[i]))
      && (forall i, j :: 0 <= i < j < |interned| ==> !Alike(interned[i], interned[j]))
      && (forall i :: 0 <= i < |interned| ==> IfaceInPlace(interned, i))
    }

    /** The interface `decl` has been declared. */
    ghost predicate Declared(decl: nat)
      reads this
    {
      exists j :: 0 <= j < |interned| && IsDeclared(interned[j], decl)
    }

    /** The table only grows, at its end: existing types stay what and where they are. */
    twostate predicate Extends(new r: TypeObj)
      reads this
    {
      && r in interned
      && (interned == old(interned) || interned == old(interned) + [r])
    }

    ghost predicate AllKnown(ts: seq<TypeObj>)
      reads this
    {
      forall i :: 0 <= i < |ts| ==> Known(ts[i])
    }

    /** A new object joins the table: what every scan does when it finds nothing. */
    ghost predicate MayJoin(o: TypeObj)
      reads this
    {
      && Formed(o) && (forall i :: 0 <= i < |interned| ==> !Alike(interned[i], o))
      && (o.kind == KIface ==> IsDeclared(o, o.origin) || (Declared(o.origin) && (o.isNullable ==> o.args == [])))
    }

    method Join(o: TypeObj)
      requires Valid() && MayJoin(o)
      modifies this
      ensures Valid() && interned == old(interned) + [o]
    {
      JoinsInPlace(this, o);
      interned := interned + [o];
      assert forall x: TypeObj :: old(allocated(x)) && old(Known(x)) ==> Known(x);
    }

    method InternPtr(elem: TypeObj, isConst: bool, isVolatile: bool, nullable: bool) returns (r: TypeObj)
      requires Valid() && Known(elem)
      modifies this
      ensures Valid() && Extends(r) && r.kind == KPtr
      ensures r.tree == PtrT(elem.tree, isConst, isVolatile, nullable)
    {
      var i := 0;
      while i < |interned|
        invariant 0 <= i <= |interned|
        invariant forall k :: 0 <= k < i ==>
          !(interned[k].kind == KPtr && interned[k].elem == elem && interned[k].isConst == isConst
            && interned[k].isVolatile == isVolatile && interned[k].isNullable == nullable)
      {
        var t := interned[i];
        if t.kind == KPtr && t.elem == elem && t.isConst == isConst && t.isVolatile == isVolatile && t.isNullable == nullable {
          return t;
        }
        i := i + 1;
      }
      r := new TypeObj(KPtr, elem, 0, isConst, isVolatile, nullable, [], 0, PtrT(elem.tree, isConst, isVolatile, nullable));
      Join(r);
    }

    method InternArr(elem: TypeObj, n: nat) returns (r: TypeObj)
      requires Valid() && Known(elem)
      modifies this
      ensures Valid() && Extends(r) && r.tree == ArrT(elem.tree, n)
    {
      var i := 0;
      while i < |interned|
        invariant 0 <= i <= |interned|
        invariant forall k :: 0 <= k < i ==>
          !(interned[k].kind == KArr && interned[k].elem == elem && interned[k].length == n)
      {
        if interned[i].kind == KArr && interned[i].elem == elem && interned[i].length == n {
          return interned[i];
        }
        i := i + 1;
      }
      r := new TypeObj(KArr, elem, n, false, false, false, [], 0, ArrT(elem.tree, n));
      Join(r);
    }

    method InternSpan(elem: TypeObj, isConst: bool) returns (r: TypeObj)
      requires Valid() && Known(elem)
      modifies this
      ensures Valid() && Extends(r) && r.tree == SpanT(elem.tree, isConst)
    {
      var i := 0;
      while i < |interned|
        invariant 0 <= i <= |interned|
        invariant forall k :: 0 <= k < i ==>
          !(interned[k].kind == KSpan && interned[k].elem == elem && interned[k].isConst == isConst)
      {
        if interned[i].kind == KSpan && interned[i].elem == elem && interned[i].isConst == isConst {
          return interned[i];
        }
        i := i + 1;
      }
      r := new TypeObj(KSpan, elem, 0, isConst, false, false, [], 0, SpanT(elem.tree, isConst));
      Join(r);
    }

    /** `intern_fail`, `intern_atomic`, and `intern_opt` past its null-niche cases: one scan
        each, by kind and element. */
    method InternWrapper(kind: Kind, elem: TypeObj) returns (r: TypeObj)
      requires Valid() && Known(elem) && (kind == KOpt || kind == KFail || kind == KAtomic)
      modifies this
      ensures Valid() && Extends(r)
      ensures r.tree == if kind == KOpt then OptT(elem.tree) else if kind == KFail then FailT(elem.tree) else AtomicT(elem.tree)
    {
      hide TreesOf, Valid, Formed, Spells, AllKnown;
      var i := 0;
      while i < |interned|
        invariant 0 <= i <= |interned|
        invariant forall k :: 0 <= k < i ==> !(interned[k].kind == kind && interned[k].elem == elem)
      {
        if interned[i].kind == kind && interned[i].elem == elem {
          FoundWrapper(this, i);
          return interned[i];
        }
        i := i + 1;
      }
      r := new TypeObj(kind, elem, 0, false, false, false, [], 0,
                       if kind == KOpt then OptT(elem.tree) else if kind == KFail then FailT(elem.tree) else AtomicT(elem.tree));
      NewWrapper(this, r);
      Join(r);
    }

    method InternTup(elems: seq<TypeObj>) returns (r: TypeObj)
      requires Valid() && AllKnown(elems)
      modifies this
      ensures Valid() && Extends(r) && r.tree == TupT(TreesOf(elems))
    {
      hide TreesOf, Valid, Formed, Spells, AllKnown;
      var i := 0;
      while i < |interned|
        invariant 0 <= i <= |interned|
        invariant forall k :: 0 <= k < i ==> !(interned[k].kind == KTup && interned[k].args == elems)
      {
        if interned[i].kind == KTup && interned[i].args == elems {
          FoundTup(this, i);
          return interned[i];
        }
        i := i + 1;
      }
      r := new TypeObj(KTup, null, 0, false, false, false, elems, 0, TupT(TreesOf(elems)));
      NewTup(this, r);
      Join(r);
    }

    /** The table of instances: one type for each generic struct and list of arguments. */
    method InstantiateStruct(origin: nat, args: seq<TypeObj>) returns (r: TypeObj)
      requires Valid() && AllKnown(args)
      modifies this
      ensures Valid() && Extends(r) && r.tree == StructT(origin, TreesOf(args))
    {
      hide TreesOf, Valid, Formed, Spells, AllKnown;
      var i := 0;
      while i < |interned|
        invariant 0 <= i <= |interned|
        invariant forall k :: 0 <= k < i ==> !(interned[k].kind == KStruct && interned[k].origin == origin && interned[k].args == args)
      {
        if interned[i].kind == KStruct && interned[i].origin == origin && interned[i].args == args {
          FoundStruct(this, i);
          return interned[i];
        }
        i := i + 1;
      }
      r := new TypeObj(KStruct, null, 0, false, false, false, args, origin, StructT(origin, TreesOf(args)));
      NewStruct(this, r);
      Join(r);
    }

    method InternFunc(params: seq<TypeObj>, result: TypeObj, nullable: bool) returns (r: TypeObj)
      requires Valid() && Known(result) && AllKnown(params)
      modifies this
      ensures Valid() && Extends(r) && r.kind == KFunc
      ensures r.tree == FuncT(TreesOf(params), result.tree, nullable)
    {
      hide TreesOf, Valid, Formed, Spells, AllKnown;
      var i := 0;
      while i < |interned|
        invariant 0 <= i <= |interned|
        invariant forall k :: 0 <= k < i ==>
          !(interned[k].kind == KFunc && interned[k].args == params && interned[k].elem == result && interned[k].isNullable == nullable)
      {
        var t := interned[i];
        if t.kind == KFunc && t.args == params && t.elem == result && t.isNullable == nullable {
          FoundFunc(this, i);
          return t;
        }
        i := i + 1;
      }
      r := new TypeObj(KFunc, result, 0, false, false, nullable, params, 0, FuncT(TreesOf(params), result.tree, nullable));
      NewFunc(this, r);
      Join(r);
    }

    /** `collect_type_decl` on an interface: its own type joins the table, once. */
    method DeclareIface(decl: nat) returns (r: TypeObj)
      requires Valid() && forall i :: 0 <= i < |interned| ==> !(interned[i].kind == KIface && interned[i].origin == decl)
      modifies this
      ensures Valid() && Declared(decl) && interned == old(interned) + [r] && r.tree == IfaceT(decl, [], false)
    {
      hide TreesOf, Valid, Formed, AllKnown, IfaceInPlace;
      r := new TypeObj(KIface, null, 0, false, false, false, [], decl, IfaceT(decl, [], false));
      NewIface(this, r);
      Join(r);
      assert IsDeclared(interned[|interned| - 1], decl);
    }

    /** `intern_iface`: the first interface of that declaration and nullability, whatever its
        arguments. */
    method InternIface(decl: nat, nullable: bool) returns (r: TypeObj)
      requires Valid() && Declared(decl)
      modifies this
      ensures Valid() && Extends(r) && r.kind == KIface && r.tree == IfaceT(decl, [], nullable)
    {
      hide TreesOf, Valid, Formed, AllKnown, IfaceInPlace;
      var i := 0;
      while i < |interned|
        invariant 0 <= i <= |interned|
        invariant forall k :: 0 <= k < i ==>
          !(interned[k].kind == KIface && interned[k].origin == decl && interned[k].isNullable == nullable)
      {
        var t := interned[i];
        if t.kind == KIface && t.origin == decl && t.isNullable == nullable {
          FoundIface(this, i);
          return t;
        }
        i := i + 1;
      }
      r := new TypeObj(KIface, null, 0, false, false, nullable, [], decl, IfaceT(decl, [], nullable));
      NewIface(this, r);
      Join(r);
    }

    /** `intern_iface_instance`: one object for each generic interface and list of arguments. */
    method InternIfaceInstance(decl: nat, args: seq<TypeObj>) returns (r: TypeObj)
      requires Valid() && Declared(decl) && AllKnown(args)
      modifies this
      ensures Valid() && Extends(r) && r.kind == KIface && r.tree == IfaceT(decl, TreesOf(args), false)
    {
      hide TreesOf, Valid, Formed, AllKnown, IfaceInPlace;
      var i := 0;
      while i < |interned|
        invariant 0 <= i <= |interned|
        invariant forall k :: 0 <= k < i ==>
          !(interned[k].kind == KIface && interned[k].origin == decl && !interned[k].isNullable && interned[k].args == args)
      {
        var t := interned[i];
        if t.kind == KIface && t.origin == decl && !t.isNullable && t.args == args {
          FoundInstance(this, i);
          return t;
        }
        i := i + 1;
      }
      r := new TypeObj(KIface, null, 0, false, false, false, args, decl, IfaceT(decl, TreesOf(args), false));
      NewInstance(this, r);
      Join(r);
    }

    /** `T?`: a pointer, function or interface keeps `none` in its null word, any other type is
        wrapped.  The nullable form of an interface has no arguments. */
    method InternOpt(elem: TypeObj) returns (r: TypeObj)
      requires Valid() && Known(elem)
      modifies this
      ensures Valid() && Extends(r) && r.tree == Optional(elem.tree)
      ensures HasNullNiche(elem.tree) ==> r.kind == elem.kind
    {
      KnownSpells(this, elem);
      if elem.kind == KIface { KnownDeclared(this, elem); }
      hide Valid, TreesOf, AllKnown, Declared, IfaceInPlace;
      if elem.kind == KPtr && !elem.isNullable {
        r := InternPtr(elem.elem, elem.isConst, elem.isVolatile, true);
      } else if elem.kind == KIface && !elem.isNullable {
        r := InternIface(elem.origin, true);
      } else if elem.kind == KFunc && !elem.isNullable {
        r := InternFunc(elem.args, elem.elem, true);
      } else {
        r := InternWrapper(KOpt, elem);
      }
    }

    method NonNull(t: TypeObj) returns (r: TypeObj)
      requires Valid() && t in interned && (t.kind == KPtr || t.kind == KFunc || t.kind == KIface)
      modifies this
      ensures Valid() && Extends(r)
      ensures r.tree == match t.tree
                        case PtrT(e, c, v, _) => PtrT(e, c, v, false)
                        case FuncT(ps, res, _) => FuncT(ps, res, false)
                        case IfaceT(d, _, _) => IfaceT(d, [], false)
                        case _ => t.tree
    {
      KnownSpells(this, t);
      if t.kind == KIface { KnownDeclared(this, t); }
      hide Valid, TreesOf, AllKnown, Declared, IfaceInPlace;
      if t.kind == KIface {
        r := InternIface(t.origin, false);
      } else if t.kind == KFunc {
        r := InternFunc(t.args, t.elem, false);
      } else {
        r := InternPtr(t.elem, t.isConst, t.isVolatile, false);
      }
    }

    /** Unwrapping what `T?` made of a type with a null niche gives back the very same object,
        exactly when it is not an instance of a generic interface. */
    method OptThenNonNull(t: TypeObj) returns (r: TypeObj)
      requires Valid() && t in interned && (t.kind == KPtr || t.kind == KFunc || t.kind == KIface) && !t.isNullable
      modifies this
      ensures Valid() && (r == t <==> !(t.kind == KIface && t.args != []))
    {
      KnownSpells(this, t);
      var o := InternOpt(t);
      r := NonNull(o);
      KnownSpells(this, t);
      SameObjectIffSameTree(this, r, t);
      hide Valid, AllKnown, Declared, IfaceInPlace;
    }
  }

  /** Types whose null word stands for `none`. */
  predicate HasNullNiche(t: Tree) {
    (t.PtrT? || t.FuncT? || t.IfaceT?) && !t.nullable
  }

  /** `intern_opt`, on structures. */
  function Optional(t: Tree): Tree {
    if t.PtrT? && !t.nullable then PtrT(t.elem, t.isConst, t.isVolatile, true)
    else if t.IfaceT? && !t.nullable then IfaceT(t.origin, [], true)
    else if t.FuncT? && !t.nullable then FuncT(t.params, t.result, true)
    else OptT(t)
  }

  /** Two types share their optional exactly when they are one type, or two views of one generic
      interface: `Iterator[bool]?` and `Iterator[char]?` are the same type. */
  lemma SameOptionalIff(a: Tree, b: Tree)
    ensures Optional(a) == Optional(b)
       <==> a == b || (a.IfaceT? && b.IfaceT? && !a.nullable && !b.nullable && a.origin == b.origin)
  {
  }

  // ----- interfaces -----

  lemma JoinsInPlace(c: Interner, o: TypeObj)
    requires c.Valid() && c.MayJoin(o)
    ensures forall i :: 0 <= i < |c.interned| + 1 ==> IfaceInPlace(c.interned + [o], i)
  {
    hide Spells, TreesOf;
    var n, after := |c.interned|, c.interned + [o];
    forall i | 0 <= i < n + 1 ensures IfaceInPlace(after, i) {
      if i < n {
        assert IfaceInPlace(c.interned, i);
        if after[i].kind == KIface {
          var j :| 0 <= j <= i && IsDeclared(c.interned[j], c.interned[i].origin);
          assert IsDeclared(after[j], after[i].origin);
        }
      } else if o.kind == KIface {
        if IsDeclared(o, o.origin) {
          assert IsDeclared(after[n], o.origin);
        } else {
          var j :| 0 <= j < n && IsDeclared(c.interned[j], o.origin);
          assert IsDeclared(after[j], o.origin);
        }
      }
    }
  }

  lemma KnownDeclared(c: Interner, o: TypeObj)
    requires c.Valid() && o in c.interned && o.kind == KIface
    ensures c.Declared(o.origin)
  {
    hide Spells, TreesOf;
    var i :| 0 <= i < |c.interned| && c.interned[i] == o;
    assert IfaceInPlace(c.interned, i);
  }

  lemma FoundIface(c: Interner, i: nat)
    requires c.Valid() && i < |c.interned| && c.interned[i].kind == KIface
    requires forall k :: 0 <= k < i ==>
      !(c.interned[k].kind == KIface && c.interned[k].origin == c.interned[i].origin
        && c.interned[k].isNullable == c.interned[i].isNullable)
    ensures c.interned[i].tree == IfaceT(c.interned[i].origin, [], c.interned[i].isNullable)
  {
    var o := c.interned[i];
    assert c.Formed(o) && IfaceInPlace(c.interned, i);
    if !o.isNullable {
      var j :| 0 <= j <= i && IsDeclared(c.interned[j], o.origin);
    }
    assert o.args == [];
  }

  lemma NewIface(c: Interner, o: TypeObj)
    requires o.kind == KIface && o.elem == null && o.args == [] && o.tree == IfaceT(o.origin, [], o.isNullable)
    requires o.isNullable ==> c.Declared(o.origin)
    requires forall k :: 0 <= k < |c.interned| ==>
      !(c.interned[k].kind == KIface && c.interned[k].origin == o.origin && c.interned[k].isNullable == o.isNullable)
    ensures c.MayJoin(o)
  {
    assert TreesOf([]) == [];
  }

  lemma FoundInstance(c: Interner, i: nat)
    requires c.Valid() && i < |c.interned| && c.interned[i].kind == KIface && !c.interned[i].isNullable
    ensures c.interned[i].tree == IfaceT(c.interned[i].origin, TreesOf(c.interned[i].args), false)
  {
    assert c.Formed(c.interned[i]);
  }

  lemma NewInstance(c: Interner, o: TypeObj)
    requires o.kind == KIface && o.elem == null && !o.isNullable && o.tree == IfaceT(o.origin, TreesOf(o.args), false)
    requires c.AllKnown(o.args) && c.Declared(o.origin)
    requires forall k :: 0 <= k < |c.interned| ==>
      !(c.interned[k].kind == KIface && c.interned[k].origin == o.origin && !c.interned[k].isNullable && c.interned[k].args == o.args)
    ensures c.MayJoin(o)
  {
  }

  // ----- the other kinds -----

  ghost predicate Wraps(o: TypeObj) {
    && (o.kind == KOpt || o.kind == KFail || o.kind == KAtomic) && o.elem != null
    && o.tree == if o.kind == KOpt then OptT(o.elem.tree) else if o.kind == KFail then FailT(o.elem.tree) else AtomicT(o.elem.tree)
  }

  lemma FoundWrapper(c: Interner, i: nat)
    requires c.Valid() && i < |c.interned| && (c.interned[i].kind == KOpt || c.interned[i].kind == KFail || c.interned[i].kind == KAtomic)
    ensures Wraps(c.interned[i])
  {
    assert c.Formed(c.interned[i]);
  }

  lemma NewWrapper(c: Interner, o: TypeObj)
    requires Wraps(o) && c.Known(o.elem) && o.args == []
    requires forall k :: 0 <= k < |c.interned| ==> !(c.interned[k].kind == o.kind && c.interned[k].elem == o.elem)
    ensures c.MayJoin(o)
  {
  }

  lemma FoundTup(c: Interner, i: nat)
    requires c.Valid() && i < |c.interned| && c.interned[i].kind == KTup
    ensures c.interned[i].tree == TupT(TreesOf(c.interned[i].args))
  {
    assert c.Formed(c.interned[i]);
  }

  lemma NewTup(c: Interner, o: TypeObj)
    requires o.kind == KTup && o.elem == null && o.tree == TupT(TreesOf(o.args)) && c.AllKnown(o.args)
    requires forall k :: 0 <= k < |c.interned| ==> !(c.interned[k].kind == KTup && c.interned[k].args == o.args)
    ensures c.MayJoin(o)
  {
  }

  lemma FoundStruct(c: Interner, i: nat)
    requires c.Valid() && i < |c.interned| && c.interned[i].kind == KStruct
    ensures c.interned[i].tree == StructT(c.interned[i].origin, TreesOf(c.interned[i].args))
  {
    assert c.Formed(c.interned[i]);
  }

  lemma NewStruct(c: Interner, o: TypeObj)
    requires o.kind == KStruct && o.elem == null && o.tree == StructT(o.origin, TreesOf(o.args)) && c.AllKnown(o.args)
    requires forall k :: 0 <= k < |c.interned| ==> !(c.interned[k].kind == KStruct && c.interned[k].origin == o.origin && c.interned[k].args == o.args)
    ensures c.MayJoin(o)
  {
  }

  lemma FoundFunc(c: Interner, i: nat)
    requires c.Valid() && i < |c.interned| && c.interned[i].kind == KFunc
    ensures c.interned[i].elem != null
    ensures c.interned[i].tree == FuncT(TreesOf(c.interned[i].args), c.interned[i].elem.tree, c.interned[i].isNullable)
  {
    assert c.Formed(c.interned[i]);
  }

  lemma NewFunc(c: Interner, o: TypeObj)
    requires o.kind == KFunc && o.elem != null && o.tree == FuncT(TreesOf(o.args), o.elem.tree, o.isNullable)
    requires c.Known(o.elem) && c.AllKnown(o.args)
    requires forall k :: 0 <= k < |c.interned| ==>
      !(c.interned[k].kind == KFunc && c.interned[k].args == o.args && c.interned[k].elem == o.elem
        && c.interned[k].isNullable == o.isNullable)
    ensures c.MayJoin(o)
  {
  }

  /** Known types are the same object exactly when they have the same structure. */
  lemma {:induction false} SameObjectIffSameTree(c: Interner, a: TypeObj, b: TypeObj)
    requires c.Valid() && c.Known(a) && c.Known(b)
    ensures a == b <==> a.tree == b.tree
    decreases a.tree
  {
    if a.tree == b.tree {
      KnownSpells(c, a);
      KnownSpells(c, b);
      if !a.kind.KBase? {
        assert b.kind == a.kind;
        if a.elem != null && b.elem != null && a.kind != KTup && a.kind != KStruct && a.kind != KIface {
          SameObjectIffSameTree(c, a.elem, b.elem);
        }
        if a.kind == KTup || a.kind == KFunc || a.kind == KStruct || a.kind == KIface {
          SameArgs(c, a, b);
        }
        OnlyOneAlike(c, a, b);
      }
    }
  }

  lemma KnownSpells(c: Interner, o: TypeObj)
    requires c.Valid() && c.Known(o)
    ensures Spells(o) && (o.kind.KBase? <==> o in c.bases) && (!o.kind.KBase? ==> o in c.interned && c.Formed(o))
  {
    if o in c.bases {
      var i :| 0 <= i < |c.bases| && c.bases[i] == o;
      if o in c.interned {
        var j :| 0 <= j < |c.interned| && c.interned[j] == o;
      }
    } else {
      var i :| 0 <= i < |c.interned| && c.interned[i] == o;
    }
  }

  lemma {:induction false} SameArgs(c: Interner, a: TypeObj, b: TypeObj)
    requires c.Valid() && c.Formed(a) && c.Formed(b) && a.tree == b.tree && a.kind == b.kind
    requires a.kind == KTup || a.kind == KFunc || a.kind == KStruct || a.kind == KIface
    ensures a.args == b.args
    decreases a.tree, 0
  {
    assert TreesOf(a.args) == TreesOf(b.args);
    forall i | 0 <= i < |a.args| ensures a.args[i] == b.args[i] {
      assert TreesOf(a.args)[i] == a.args[i].tree;
      SameObjectIffSameTree(c, a.args[i], b.args[i]);
    }
  }

  lemma OnlyOneAlike(c: Interner, a: TypeObj, b: TypeObj)
    requires c.Valid() && a in c.interned && b in c.interned && Alike(a, b)
    ensures a == b
  {
    var i :| 0 <= i < |c.interned| && c.interned[i] == a;
    var j :| 0 <= j < |c.interned| && c.interned[j] == b;
    assert Alike(b, a);
  }
}
