/** The checker's table of names in scope (src/check/check.cpp, src/check/generic.cpp): a stack
    of bindings, an index from each name to its newest binding, and the current depth. */
module ScopeTable {

  /** `shadowed` is the next older binding of the same name, or -1. */
  datatype Binding = Binding(name: string, ty: nat, depth: int, shadowed: int, used: bool)

  /** What `enter_module_scope` puts aside. */
  datatype ScopeSwap = ScopeSwap(scope: seq<Binding>, index: map<string, int>, depth: int, home: nat)

  // ---------------------------------------------------------------- the plain scan

  /** The newest binding of `name`, looking from the newest one back, or -1. */
  function Scan(scope: seq<Binding>, name: string): (r: int)
    ensures -1 <= r < |scope|
    ensures r == -1 <==> forall i :: 0 <= i < |scope| ==> scope[i].name != name
    ensures r >= 0 ==> scope[r].name == name && forall i :: r < i < |scope| ==> scope[i].name != name
    decreases |scope|
  {
    if scope == [] then -1
    else if scope[|scope| - 1].name == name then |scope| - 1
    else Scan(scope[..|scope| - 1], name)
  }

  /** The index tells for each name what the scan finds. */
  ghost predicate Indexes(index: map<string, int>, scope: seq<Binding>) {
    forall name :: Indexed(index, scope, name)
  }

  ghost predicate Indexed(index: map<string, int>, scope: seq<Binding>, name: string) {
    if Scan(scope, name) < 0 then name !in index else name in index && index[name] == Scan(scope, name)
  }

  ghost predicate Linked(scope: seq<Binding>) {
    forall i :: 0 <= i < |scope| ==> scope[i].shadowed == Scan(scope[..i], scope[i].name)
  }

  ghost predicate Nested(scope: seq<Binding>, depth: int) {
    && (forall i :: 0 <= i < |scope| ==> 0 <= scope[i].depth <= depth)
    && (forall i, j :: 0 <= i < j < |scope| ==> scope[i].depth <= scope[j].depth)
  }

  ghost predicate Consistent(scope: seq<Binding>, index: map<string, int>, depth: int) {
    Indexes(index, scope) && Linked(scope) && Nested(scope, depth) && depth >= 0
  }

  /** Two bindings alike but for having been used. */
  predicate SameBinding(a: Binding, b: Binding) {
    a.(used := b.used) == b
  }

  ghost predicate SameNames(a: seq<Binding>, b: seq<Binding>) {
    |a| == |b| && forall i :: 0 <= i < |a| ==> SameBinding(a[i], b[i])
  }

  /** `b` continues `a` with bindings of depth `depth`. */
  ghost predicate Continues(a: seq<Binding>, b: seq<Binding>, depth: int) {
    |a| <= |b| && SameNames(a, b[..|a|]) && forall i :: |a| <= i < |b| ==> b[i].depth == depth
  }

  // ---------------------------------------------------------------- facts about the scan

  lemma ScanTop(scope: seq<Binding>, b: Binding, name: string)
    ensures Scan(scope + [b], name) == if b.name == name then |scope| else Scan(scope, name)
  {
    assert (scope + [b])[..|scope|] == scope;
  }

  lemma {:induction false} ScanSame(a: seq<Binding>, b: seq<Binding>, name: string)
    requires SameNames(a, b)
    ensures Scan(a, name) == Scan(b, name)
    decreases |a|
  {
    if a != [] { ScanSame(a[..|a| - 1], b[..|b| - 1], name); }
  }

  lemma IndexTop(index: map<string, int>, scope: seq<Binding>, b: Binding)
    requires Indexes(index, scope)
    ensures Indexes(index[b.name := |scope|], scope + [b])
  {
    var pushed, taller := index[b.name := |scope|], scope + [b];
    forall name ensures Indexed(pushed, taller, name) {
      assert Indexed(index, scope, name);
      ScanTop(scope, b, name);
    }
  }

  /** Removing the newest binding, the index goes back to the one it shadowed. */
  lemma IndexPop(index: map<string, int>, scope: seq<Binding>)
    requires scope != [] && Indexes(index, scope) && Linked(scope)
    ensures var n := |scope| - 1;
            var b := scope[n];
            Indexes(if b.shadowed >= 0 then index[b.name := b.shadowed] else index - {b.name}, scope[..n])
  {
    hide Scan, Indexed;
    var n := |scope| - 1;
    var b, rest := scope[n], scope[..n];
    var popped := if b.shadowed >= 0 then index[b.name := b.shadowed] else index - {b.name};
    assert b.shadowed == Scan(rest, b.name);
    assert scope == rest + [b];
    forall name ensures Indexed(popped, rest, name) {
      PoppedName(index, rest, b, popped, name);
    }
  }

  lemma PoppedName(index: map<string, int>, rest: seq<Binding>, b: Binding, popped: map<string, int>, name: string)
    requires Indexed(index, rest + [b], name) && b.shadowed == Scan(rest, b.name)
    requires popped == if b.shadowed >= 0 then index[b.name := b.shadowed] else index - {b.name}
    ensures Indexed(popped, rest, name)
  {
    ScanTop(rest, b, name);
  }

  lemma LinkedTop(scope: seq<Binding>, b: Binding)
    requires Linked(scope) && b.shadowed == Scan(scope, b.name)
    ensures Linked(scope + [b])
  {
    var s := scope + [b];
    forall i | 0 <= i < |s| ensures s[i].shadowed == Scan(s[..i], s[i].name) {
      assert s[..i] == scope[..i];
      if i < |scope| { assert s[i] == scope[i]; } else { assert scope[..i] == scope; }
    }
  }

  lemma LinkedPrefix(scope: seq<Binding>, n: nat)
    requires Linked(scope) && n <= |scope|
    ensures Linked(scope[..n])
  {
    forall i | 0 <= i < n ensures scope[..n][i].shadowed == Scan(scope[..n][..i], scope[..n][i].name) {
      assert scope[..n][..i] == scope[..i];
    }
  }

  /** An index agrees with one table only: restored names mean a restored index. */
  lemma IndexDetermined(index: map<string, int>, scope: seq<Binding>, index': map<string, int>, scope': seq<Binding>)
    requires Indexes(index, scope) && Indexes(index', scope') && SameNames(scope, scope')
    ensures index == index'
  {
    hide Scan, Indexes, SameNames;
    forall name ensures (name in index <==> name in index') && (name in index ==> index[name] == index'[name]) {
      IndexedAlike(index, scope, index', scope', name);
    }
  }

  lemma IndexedAlike(
    index: map<string, int>, scope: seq<Binding>, index': map<string, int>, scope': seq<Binding>, name: string)
    requires Indexes(index, scope) && Indexes(index', scope') && SameNames(scope, scope')
    ensures (name in index <==> name in index') && (name in index ==> index[name] == index'[name])
  {
    hide Scan, SameNames;
    assert Indexed(index, scope, name) && Indexed(index', scope', name);
    ScanSame(scope, scope', name);
  }

  lemma UseKeeps(scope: seq<Binding>, index: map<string, int>, depth: int, k: nat)
    requires Consistent(scope, index, depth) && k < |scope|
    ensures var after := scope[k := scope[k].(used := true)];
            SameNames(scope, after) && Consistent(after, index, depth)
  {
    var after := scope[k := scope[k].(used := true)];
    assert SameNames(scope, after);
    forall name ensures Indexed(index, after, name) {
      assert Indexed(index, scope, name);
      ScanSame(scope, after, name);
    }
    forall i | 0 <= i < |after| ensures after[i].shadowed == Scan(after[..i], after[i].name) {
      ScanSame(scope[..i], after[..i], after[i].name);
    }
  }

  lemma IndexSays(scope: seq<Binding>, index: map<string, int>, depth: int, name: string)
    requires Consistent(scope, index, depth)
    ensures Scan(scope, name) == if name in index then index[name] else -1
    ensures name in index ==> index[name] >= 0
  {
    hide Scan;
    assert Indexed(index, scope, name);
  }

  lemma Pushed(scope: seq<Binding>, index: map<string, int>, depth: int, b: Binding)
    requires Consistent(scope, index, depth) && b.depth == depth && b.shadowed == Scan(scope, b.name)
    ensures Consistent(scope + [b], index[b.name := |scope|], depth) && Continues(scope, scope + [b], depth)
  {
    hide Scan, Indexes, Linked;
    IndexTop(index, scope, b);
    LinkedTop(scope, b);
    assert (scope + [b])[..|scope|] == scope;
  }

  lemma Popped(scope: seq<Binding>, index: map<string, int>, depth: int)
    requires Consistent(scope, index, depth) && scope != []
    ensures var n := |scope| - 1;
            var b := scope[n];
            Consistent(scope[..n], if b.shadowed >= 0 then index[b.name := b.shadowed] else index - {b.name}, depth)
  {
    hide Scan, Indexes, Linked;
    IndexPop(index, scope);
    LinkedPrefix(scope, |scope| - 1);
  }

  /** With nothing of the current depth left, the scope can close. */
  lemma Closed(scope: seq<Binding>, index: map<string, int>, depth: int)
    requires Consistent(scope, index, depth) && depth > 0 && (scope != [] ==> scope[|scope| - 1].depth != depth)
    ensures Consistent(scope, index, depth - 1)
  {
    hide Scan, Indexes, Linked;
    forall i | 0 <= i < |scope| ensures 0 <= scope[i].depth <= depth - 1 {
      if i < |scope| - 1 { assert scope[i].depth <= scope[|scope| - 1].depth; }
    }
  }

  lemma Opened(scope: seq<Binding>, index: map<string, int>, depth: int)
    requires Consistent(scope, index, depth)
    ensures Consistent(scope, index, depth + 1)
  {
    hide Scan, Indexes, Linked;
  }

  lemma EmptyTable()
    ensures Consistent([], map[], 0)
  {
  }

  lemma SameContinues(a: seq<Binding>, b: seq<Binding>, depth: int)
    requires SameNames(a, b)
    ensures Continues(a, b, depth)
  {
    assert b[..|a|] == b;
  }

  lemma SameReflexive(a: seq<Binding>)
    ensures SameNames(a, a)
  {
  }

  // ---------------------------------------------------------------- the table

  /** What a checking pass does with the table; `Block` and `Instance` are well nested. */
  datatype Action =
    | Lookup(name: string)
    | Bind(name: string, ty: nat)
    | BindTypeArgument(name: string, ty: nat)
    | Block(actions: seq<Action>)
    | Instance(home: nat, actions: seq<Action>)

  class Table {
    const modules: nat -> seq<(string, nat)>    // the names a module's top level binds
    var scope: seq<Binding>
    var index: map<string, int>
    var depth: int
    var home: nat

    constructor (modules: nat -> seq<(string, nat)>)
      ensures Valid() && scope == [] && depth == 0
    {
      this.modules, scope, index, depth, home := modules, [], map[], 0, 0;
      EmptyTable();
    }

    ghost predicate Valid()
      reads this
    {
      Consistent(scope, index, depth)
    }

    method PushScope()
      requires Valid()
      modifies this`depth
      ensures Valid() && depth == old(depth) + 1
    {
      hide Consistent;
      Opened(scope, index, depth);
      depth := depth + 1;
    }

    /** Every binding of the current depth goes, and nothing else. */
    method PopScope()
      requires Valid() && depth > 0
      modifies this`scope, this`index, this`depth
      ensures Valid() && depth == old(depth) - 1
      ensures |scope| <= old(|scope|) && scope == old(scope)[..|scope|]
      ensures forall i :: |scope| <= i < old(|scope|) ==> old(scope)[i].depth == old(depth)
    {
      hide Consistent;
      while |scope| > 0 && scope[|scope| - 1].depth == depth
        invariant Valid() && depth == old(depth) && |scope| <= old(|scope|) && scope == old(scope)[..|scope|]
        invariant forall i :: |scope| <= i < old(|scope|) ==> old(scope)[i].depth == old(depth)
      {
        var n := |scope| - 1;
        var b := scope[n];
        Popped(scope, index, depth);
        if b.shadowed >= 0 {
          index := index[b.name := b.shadowed];
        } else {
          index := index - {b.name};
        }
        scope := scope[..n];
      }
      Closed(scope, index, depth);
      depth := depth - 1;
    }

    /** The indexed lookup finds what a scan from the newest binding back would, and marks it used. */
    method Find(name: string) returns (found: int)
      requires Valid()
      modifies this`scope
      ensures Valid() && SameNames(old(scope), scope)
      ensures found == Scan(old(scope), name)
      ensures found >= 0 ==> scope[found].used
    {
      hide Consistent;
      IndexSays(scope, index, depth, name);
      if name !in index {
        return -1;
      }
      found := index[name];
      UseKeeps(scope, index, depth, found);
      scope := scope[found := scope[found].(used := true)];
    }

    method Add(name: string, ty: nat)
      requires Valid()
      modifies this`scope, this`index
      ensures Valid() && Continues(old(scope), scope, depth) && |scope| == old(|scope|) + 1
      ensures scope[|scope| - 1] == Binding(name, ty, depth, Scan(old(scope), name), false)
    {
      hide Consistent, Continues, Scan;
      IndexSays(scope, index, depth, name);
      var b := Binding(name, ty, depth, if name in index then index[name] else -1, false);
      Pushed(scope, index, depth, b);
      scope := scope + [b];
      index := index[name := |scope| - 1];
    }

    /** `bind`: a name in scope may not be bound again; `_` binds nothing. */
    method BindName(name: string, ty: nat) returns (ok: bool)
      requires Valid()
      modifies this`scope, this`index
      ensures Valid() && Continues(old(scope), scope, depth)
      ensures ok <==> name == "_" || Scan(old(scope), name) < 0
      ensures ok && name != "_" ==> |scope| == old(|scope|) + 1 && scope[old(|scope|)] == Binding(name, ty, depth, -1, false)
      ensures !ok || name == "_" ==> |scope| == old(|scope|) && index == old(index)
    {
      hide Consistent, Continues, Scan;
      if name == "_" {
        SameReflexive(scope);
        SameContinues(scope, scope, depth);
        return true;
      }
      var found := Find(name);
      SameContinues(old(scope), scope, depth);
      ghost var before := scope;
      if found >= 0 {
        return false;
      }
      ScanSame(old(scope), scope, name);
      Add(name, ty);
      ContinuesOn(old(scope), before, scope, depth);
      return true;
    }

    method EnterModuleScope(entered: nat) returns (saved: ScopeSwap)
      requires Valid()
      modifies this
      ensures Valid() && depth == 2
      ensures saved == ScopeSwap(old(scope), old(index), old(depth), old(home))
      ensures home == entered && forall i :: 0 <= i < |scope| ==> scope[i].depth == 1
    {
      hide Consistent, Continues, Scan;
      saved := ScopeSwap(scope, index, depth, home);
      EmptyTable();
      scope, index, depth, home := [], map[], 0, entered;
      PushScope();
      var names := modules(entered);
      var i := 0;
      while i < |names|
        invariant 0 <= i <= |names| && Valid() && depth == 1 && home == entered
        invariant forall k :: 0 <= k < |scope| ==> scope[k].depth == 1
      {
        ghost var before := scope;
        var ok := BindName(names[i].0, names[i].1);
        DepthsKept(before, scope, 1);
        i := i + 1;
      }
      PushScope();
    }

    method LeaveModuleScope(saved: ScopeSwap)
      requires Valid() && depth == 2 && Consistent(saved.scope, saved.index, saved.depth)
      modifies this
      ensures Valid() && scope == saved.scope && index == saved.index && depth == saved.depth && home == saved.home
    {
      hide Consistent;
      PopScope();
      PopScope();
      scope, index, depth, home := saved.scope, saved.index, saved.depth, saved.home;
    }

    /** Any sequence of actions leaves every older binding in place, under the name, link and
        depth it had. */
    method Perform(actions: seq<Action>)
      requires Valid() && depth > 0
      modifies this
      ensures Valid() && depth == old(depth) && home == old(home)
      ensures Continues(old(scope), scope, depth)
      decreases actions, 0
    {
      hide Consistent, Continues, Scan, SameNames;
      var i := 0;
      SameReflexive(scope);
      SameContinues(scope, scope, depth);
      while i < |actions|
        invariant 0 <= i <= |actions| && Valid() && depth == old(depth) && home == old(home)
        invariant Continues(old(scope), scope, depth)
      {
        ghost var before := scope;
        SameReflexive(scope);
        match actions[i] {
          case Lookup(name) =>
            var found := Find(name);
            SameContinues(before, scope, depth);
          case Bind(name, ty) =>
            var ok := BindName(name, ty);
          case BindTypeArgument(name, ty) => Add(name, ty);
          case Block(inner) =>
            PerformBlock(inner);
            SameContinues(before, scope, depth);
          case Instance(m, inner) =>
            PerformInstance(m, inner);
            SameContinues(before, scope, depth);
        }
        ContinuesOn(old(scope), before, scope, depth);
        i := i + 1;
      }
    }

    /** Push, anything well nested, pop: names, index and depth are exactly as before. */
    method PerformBlock(actions: seq<Action>)
      requires Valid() && depth > 0
      modifies this
      ensures Valid() && depth == old(depth) && home == old(home)
      ensures SameNames(old(scope), scope) && index == old(index)
      decreases actions, 1
    {
      hide Continues, Scan, SameNames, Indexes, Linked, Nested;
      PushScope();
      Perform(actions);
      ghost var inner := scope;
      PopScope();
      Unwound(old(scope), inner, scope, depth);
      IndexDetermined(old(index), old(scope), index, scope);
    }

    /** An instantiation sees only its own module, and leaves the use site's table untouched. */
    method PerformInstance(entered: nat, actions: seq<Action>)
      requires Valid() && depth > 0
      modifies this
      ensures Valid() && scope == old(scope) && index == old(index) && depth == old(depth) && home == old(home)
      decreases actions, 1
    {
      hide Consistent, Continues, Scan, SameNames;
      var saved := EnterModuleScope(entered);
      Perform(actions);
      LeaveModuleScope(saved);
    }
  }

  lemma ContinuesOn(a: seq<Binding>, b: seq<Binding>, c: seq<Binding>, depth: int)
    requires Continues(a, b, depth) && Continues(b, c, depth)
    ensures Continues(a, c, depth)
  {
    forall i | 0 <= i < |a| ensures SameBinding(a[i], c[..|a|][i]) {
      assert SameBinding(a[i], b[..|a|][i]) && SameBinding(b[i], c[..|b|][i]);
    }
    forall i | |a| <= i < |c| ensures c[i].depth == depth {
      if i < |b| { assert SameBinding(b[i], c[..|b|][i]); }
    }
  }

  lemma DepthsKept(a: seq<Binding>, b: seq<Binding>, depth: int)
    requires Continues(a, b, depth) && forall k :: 0 <= k < |a| ==> a[k].depth == depth
    ensures forall k :: 0 <= k < |b| ==> b[k].depth == depth
  {
    forall k | 0 <= k < |b| ensures b[k].depth == depth {
      if k < |a| { assert SameBinding(a[k], b[..|a|][k]); }
    }
  }

  /** Popping what was bound one level deeper leaves what was there before. */
  lemma Unwound(before: seq<Binding>, inner: seq<Binding>, after: seq<Binding>, depth: int)
    requires Continues(before, inner, depth + 1) && Nested(before, depth) && Nested(after, depth)
    requires |after| <= |inner| && after == inner[..|after|]
    requires forall i :: |after| <= i < |inner| ==> inner[i].depth == depth + 1
    ensures SameNames(before, after)
  {
    forall i | 0 <= i < |inner| ensures inner[i].depth == depth + 1 <==> i >= |before| {
      if i < |before| { assert SameBinding(before[i], inner[..|before|][i]); }
    }
    forall i | 0 <= i < |inner| ensures inner[i].depth == depth + 1 <==> i >= |after| {
      if i < |after| { assert after[i] == inner[i]; }
    }
    assert |before| < |inner| ==> inner[|before|].depth == depth + 1;
    assert |after| < |inner| ==> inner[|after|].depth == depth + 1;
    forall i | 0 <= i < |before| ensures SameBinding(before[i], after[i]) {
      assert SameBinding(before[i], inner[..|before|][i]);
    }
  }
}
