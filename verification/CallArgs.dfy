/** Argument binding (src/check/call.cpp): a call's arguments, positional then named, put in the
    order of the parameters, with defaults in the gaps and the order of evaluation noted. */
module CallArgs {
  import opened Wrappers

  datatype Param = Param(name: string, byDefault: Option<nat>, variadic: bool)

  /** An argument: its name, empty for a positional one, its expression, and its place in the
      order of evaluation once noted. */
  datatype Arg = Arg(text: string, expr: nat, order: Option<nat>)

  function Fixed(params: seq<Param>): (r: seq<Param>)
    ensures |r| <= |params|
    ensures forall i :: 0 <= i < |r| ==> r[i] in params
  {
    if params == [] then []
    else
      var rest := Fixed(params[..|params| - 1]);
      if params[|params| - 1].variadic then rest else rest + [params[|params| - 1]]
  }

  /** Parameter names are spelled and differ. */
  predicate Named(ps: seq<Param>) {
    && (forall i :: 0 <= i < |ps| ==> ps[i].name != "")
    && (forall i, j :: 0 <= i < j < |ps| ==> ps[i].name != ps[j].name)
  }

  // ---------------------------------------------------------------- what binding means

  function IndexOf(ps: seq<Param>, name: string): (r: int)
    ensures -1 <= r < |ps|
    ensures r >= 0 ==> ps[r].name == name && forall i :: 0 <= i < r ==> ps[i].name != name
    ensures r < 0 ==> forall i :: 0 <= i < |ps| ==> ps[i].name != name
  {
    if ps == [] then -1
    else if ps[0].name == name then 0
    else
      var r := IndexOf(ps[1..], name);
      if r < 0 then -1 else r + 1
  }

  /** The parameter argument `k` is for: its own position, or the one it names; -1 for none. */
  function Target(ps: seq<Param>, args: seq<Arg>, k: nat): (r: int)
    requires k < |args|
    ensures -1 <= r < |ps|
  {
    if args[k].text == "" then (if k < |ps| then k else -1) else IndexOf(ps, args[k].text)
  }

  predicate Taken(ps: seq<Param>, args: seq<Arg>, n: nat, i: int)
    requires n <= |args|
  {
    exists k :: 0 <= k < n && Target(ps, args, k) == i
  }

  /** Argument `k` may stand where it does: positional ones come first, and no parameter is
      given twice. */
  predicate Placed(ps: seq<Param>, args: seq<Arg>, k: nat)
    requires k < |args|
  {
    && Target(ps, args, k) >= 0
    && (args[k].text == "" ==> forall j :: 0 <= j < k ==> args[j].text == "")
    && !Taken(ps, args, k, Target(ps, args, k))
  }

  predicate AllPlaced(ps: seq<Param>, args: seq<Arg>, n: nat)
    requires n <= |args|
  {
    forall k :: 0 <= k < n ==> Placed(ps, args, k)
  }

  predicate Supplied(ps: seq<Param>, args: seq<Arg>, i: nat)
    requires i < |ps|
  {
    Taken(ps, args, |args|, i) || ps[i].byDefault.Some?
  }

  predicate AllSupplied(ps: seq<Param>, args: seq<Arg>, n: nat)
    requires n <= |ps|
  {
    forall i :: 0 <= i < n ==> Supplied(ps, args, i)
  }

  predicate Acceptable(ps: seq<Param>, args: seq<Arg>) {
    AllPlaced(ps, args, |args|) && AllSupplied(ps, args, |ps|)
  }

  /** The place in the order of evaluation of the next argument after the first `n`. */
  function NextOrder(args: seq<Arg>, n: nat): nat
    requires n <= |args|
    decreases n, 0
  {
    if n == 0 then 0
    else
      var before := NextOrder(args, n - 1);
      var own := OrderOf(args, n - 1);
      if before < own + 1 then own + 1 else before
  }

  function OrderOf(args: seq<Arg>, k: nat): nat
    requires k < |args|
    decreases k, 1
  {
    if args[k].order.Some? then args[k].order.value else NextOrder(args, k)
  }

  /** How many of the first `i` parameters no argument is for. */
  function Gaps(ps: seq<Param>, args: seq<Arg>, i: nat): nat {
    if i == 0 then 0
    else Gaps(ps, args, i - 1) + if Taken(ps, args, |args|, i - 1) then 0 else 1
  }

  predicate HoldsArg(ps: seq<Param>, args: seq<Arg>, body: seq<Arg>, k: nat)
    requires k < |args|
  {
    var i := Target(ps, args, k);
    0 <= i < |body| && body[i] == args[k].(order := Some(OrderOf(args, k)))
  }

  predicate HoldsDefault(ps: seq<Param>, args: seq<Arg>, body: seq<Arg>, i: nat)
    requires i < |ps|
  {
    Taken(ps, args, |args|, i) ||
    (&& i < |body| && ps[i].byDefault.Some?
     && body[i] == Arg(ps[i].name, ps[i].byDefault.value, Some(NextOrder(args, |args|) + Gaps(ps, args, i))))
  }

  /** `body` is `args` bound to `ps`: each argument stands once, at its parameter, and each
      other parameter has its default, to be evaluated after the arguments. */
  predicate Filled(ps: seq<Param>, args: seq<Arg>, body: seq<Arg>) {
    && |body| == |ps|
    && (forall k :: 0 <= k < |args| ==> HoldsArg(ps, args, body, k))
    && (forall i :: 0 <= i < |ps| ==> HoldsDefault(ps, args, body, i))
  }

  // ---------------------------------------------------------------- choosing

  /** What has been chosen for each parameter after `k` arguments. */
  predicate Chosen(ps: seq<Param>, args: seq<Arg>, k: nat, chosen: seq<Option<Arg>>)
    requires k <= |args|
  {
    && |chosen| == |ps|
    && (forall j :: 0 <= j < k ==> HoldsChoice(ps, args, chosen, j))
    && (forall i :: 0 <= i < |ps| ==> chosen[i] == None || Taken(ps, args, k, i))
  }

  predicate HoldsChoice(ps: seq<Param>, args: seq<Arg>, chosen: seq<Option<Arg>>, j: nat)
    requires j < |args|
  {
    var i := Target(ps, args, j);
    0 <= i < |chosen| && chosen[i] == Some(args[j].(order := Some(OrderOf(args, j))))
  }

  lemma ChosenIsTaken(ps: seq<Param>, args: seq<Arg>, k: nat, chosen: seq<Option<Arg>>, i: nat)
    requires k <= |args| && i < |ps| && Chosen(ps, args, k, chosen)
    ensures |chosen| == |ps| && (chosen[i] != None <==> Taken(ps, args, k, i))
  {
    if Taken(ps, args, k, i) {
      var j :| 0 <= j < k && Target(ps, args, j) == i;
      assert HoldsChoice(ps, args, chosen, j);
    }
  }

  lemma NothingChosen(ps: seq<Param>, args: seq<Arg>, chosen: seq<Option<Arg>>)
    requires |chosen| == |ps| && forall i :: 0 <= i < |ps| ==> chosen[i] == None
    ensures Chosen(ps, args, 0, chosen) && AllPlaced(ps, args, 0)
  {
  }

  lemma PlacedStep(ps: seq<Param>, args: seq<Arg>, k: nat)
    requires k < |args|
    ensures AllPlaced(ps, args, k + 1) <==> AllPlaced(ps, args, k) && Placed(ps, args, k)
    ensures AllPlaced(ps, args, |args|) ==> AllPlaced(ps, args, k) && Placed(ps, args, k)
  {
  }

  lemma SuppliedStep(ps: seq<Param>, args: seq<Arg>, i: nat)
    requires i < |ps|
    ensures AllSupplied(ps, args, i + 1) <==> AllSupplied(ps, args, i) && Supplied(ps, args, i)
  {
  }

  lemma NoneToSupply(ps: seq<Param>, args: seq<Arg>)
    ensures AllSupplied(ps, args, 0)
  {
  }

  lemma NamedPlaced(ps: seq<Param>, args: seq<Arg>, k: nat)
    requires k < |args| && args[k].text != ""
    ensures Target(ps, args, k) == IndexOf(ps, args[k].text)
    ensures Placed(ps, args, k) <==> Target(ps, args, k) >= 0 && !Taken(ps, args, k, Target(ps, args, k))
  {
  }

  predicate NoneNamed(args: seq<Arg>, k: nat)
    requires k <= |args|
  {
    forall j :: 0 <= j < k ==> args[j].text == ""
  }

  lemma PositionalPlaced(ps: seq<Param>, args: seq<Arg>, k: nat)
    requires k < |args| && args[k].text == ""
    ensures Placed(ps, args, k) <==> k < |ps| && NoneNamed(args, k)
    ensures k < |ps| ==> Target(ps, args, k) == k
  {
    if NoneNamed(args, k) {
      forall j | 0 <= j < k ensures Target(ps, args, j) != k {
        assert args[j].text == "";
      }
    }
  }

  lemma Extend(ps: seq<Param>, args: seq<Arg>, k: nat, chosen: seq<Option<Arg>>)
    requires k < |args| && Chosen(ps, args, k, chosen) && Placed(ps, args, k)
    ensures Chosen(ps, args, k + 1, chosen[Target(ps, args, k) := Some(args[k].(order := Some(OrderOf(args, k))))])
  {
    hide OrderOf, NextOrder, IndexOf;
    var i := Target(ps, args, k);
    var after := chosen[i := Some(args[k].(order := Some(OrderOf(args, k))))];
    forall j | 0 <= j < k + 1 ensures HoldsChoice(ps, args, after, j) {
      if j < k { assert HoldsChoice(ps, args, chosen, j); }
    }
    forall m | 0 <= m < |ps| ensures after[m] == None || Taken(ps, args, k + 1, m) {
      if m == i {
        assert Target(ps, args, k) == i;
      } else if Taken(ps, args, k, m) {
        var j :| 0 <= j < k && Target(ps, args, j) == m;
        assert 0 <= j < k + 1 && Target(ps, args, j) == m;
      }
    }
  }

  /** Every argument chosen is an argument held. */
  lemma AllHeld(ps: seq<Param>, args: seq<Arg>, chosen: seq<Option<Arg>>, filled: seq<Arg>)
    requires Chosen(ps, args, |args|, chosen) && |filled| == |ps|
    requires forall j :: 0 <= j < |ps| && chosen[j].Some? ==> filled[j] == chosen[j].value
    ensures forall k :: 0 <= k < |args| ==> HoldsArg(ps, args, filled, k)
  {
    forall k | 0 <= k < |args| ensures HoldsArg(ps, args, filled, k) {
      assert HoldsChoice(ps, args, chosen, k);
    }
  }

  // ---------------------------------------------------------------- as the checker binds

  class Call {
    var body: seq<Arg>
    var reports: nat

    constructor (args: seq<Arg>)
      ensures body == args && reports == 0
    {
      body, reports := args, 0;
    }

    /** The parameters that take one argument each. */
    static method FixedParams(params: seq<Param>) returns (plist: seq<Param>)
      ensures plist == Fixed(params)
    {
      plist := [];
      var i := 0;
      while i < |params|
        invariant 0 <= i <= |params| && plist == Fixed(params[..i])
      {
        assert params[..i + 1][..i] == params[..i];
        if !params[i].variadic {
          plist := plist + [params[i]];
        }
        i := i + 1;
      }
      assert params[..i] == params;
    }

    static method Find(plist: seq<Param>, name: string) returns (idx: int)
      ensures idx == IndexOf(plist, name)
    {
      idx := -1;
      var i := 0;
      while i < |plist|
        invariant 0 <= i <= |plist| && idx == -1
        invariant forall k :: 0 <= k < i ==> plist[k].name != name
      {
        if plist[i].name == name {
          idx := i;
          break;
        }
        i := i + 1;
      }
    }

    /** The first loop: choose an argument for each parameter. */
    method Choose(plist: seq<Param>) returns (chosen: seq<Option<Arg>>, next: nat)
      modifies this`reports
      ensures reports >= old(reports) && |chosen| == |plist|
      ensures reports == old(reports) <==> AllPlaced(plist, body, |body|)
      ensures reports == old(reports) ==> Chosen(plist, body, |body|, chosen) && next == NextOrder(body, |body|)
    {
      hide Chosen, AllPlaced, Placed, Taken, Target, IndexOf;
      chosen := seq(|plist|, _ => None);
      NothingChosen(plist, body, chosen);
      var pos, seenNamed, k := 0, false, 0;
      next := 0;
      while k < |body|
        invariant 0 <= k <= |body| && next == NextOrder(body, k) && |chosen| == |plist|
        invariant reports >= old(reports)
        invariant reports == old(reports) <==> AllPlaced(plist, body, k)
        invariant reports == old(reports) ==> Chosen(plist, body, k, chosen)
        invariant reports == old(reports) && !seenNamed ==> pos == k
        invariant !seenNamed <==> NoneNamed(body, k)
      {
        var a := body[k];
        if a.order == None {
          a := a.(order := Some(next));
        }
        next := if next < a.order.value + 1 then a.order.value + 1 else next;
        ghost var fine := reports == old(reports);
        if a.text != "" {
          seenNamed := true;
          NamedPlaced(plist, body, k);
          var idx := Find(plist, a.text);
          if fine && idx >= 0 { ChosenIsTaken(plist, body, k, chosen, idx); }
          if idx < 0 {
            reports := reports + 1;
          } else if chosen[idx] != None {
            reports := reports + 1;
          } else {
            if fine { Extend(plist, body, k, chosen); }
            chosen := chosen[idx := Some(a)];
          }
        } else if seenNamed {
          PositionalPlaced(plist, body, k);
          reports := reports + 1;
        } else if pos >= |plist| {
          PositionalPlaced(plist, body, k);
          PlacedStep(plist, body, k);
          reports := reports + 1;
          return;
        } else {
          PositionalPlaced(plist, body, k);
          if fine {
            Extend(plist, body, k, chosen);
          }
          chosen := chosen[pos := Some(a)];
          pos := pos + 1;
        }
        PlacedStep(plist, body, k);
        k := k + 1;
      }
    }

    /** `fill_call_args`. */
    method FillCallArgs(params: seq<Param>)
      modifies this
      ensures reports >= old(reports)
      ensures reports == old(reports) <==> Acceptable(Fixed(params), old(body))
      ensures reports == old(reports) ==> Filled(Fixed(params), old(body), body)
    {
      hide Chosen, AllPlaced, Taken, AllSupplied, NextOrder;
      var plist := FixedParams(params);
      var chosen, next := Choose(plist);
      ghost var placed := reports == old(reports);
      NoneToSupply(plist, body);
      var filled: seq<Arg> := [];
      var i := 0;
      while i < |plist|
        invariant 0 <= i <= |plist| && reports >= old(reports) && body == old(body)
        invariant reports == old(reports) <==> placed && AllSupplied(plist, body, i)
        invariant reports == old(reports) ==> |filled| == i && next == NextOrder(body, |body|) + Gaps(plist, body, i)
        invariant reports == old(reports) ==> forall j :: 0 <= j < i ==> HoldsDefault(plist, body, filled, j)
        invariant reports == old(reports) ==> forall j :: 0 <= j < i && chosen[j].Some? ==> filled[j] == chosen[j].value
      {
        ghost var was := filled;
        if placed { ChosenIsTaken(plist, body, |body|, chosen, i); }
        SuppliedStep(plist, body, i);
        if chosen[i] != None {
          filled := filled + [chosen[i].value];
        } else if plist[i].byDefault == None {
          reports := reports + 1;
        } else {
          filled := filled + [Arg(plist[i].name, plist[i].byDefault.value, Some(next))];
          next := next + 1;
        }
        if reports == old(reports) {
          forall j | 0 <= j < i ensures HoldsDefault(plist, body, filled, j) {
            assert HoldsDefault(plist, body, was, j);
          }
        }
        i := i + 1;
      }
      if reports == old(reports) {
        AllHeld(plist, body, chosen, filled);
      }
      body := filled;
    }
  }

  // ---------------------------------------------------------------- once bound, bound

  /** Position `i` of a bound call is for parameter `i`. */
  lemma BoundInPlace(ps: seq<Param>, args: seq<Arg>, body: seq<Arg>, i: nat)
    requires Named(ps) && Acceptable(ps, args) && Filled(ps, args, body) && i < |ps|
    ensures Target(ps, body, i) == i && body[i].order.Some?
    ensures body[i].text == "" ==> i < |args| && args[i].text == "" && Target(ps, args, i) == i
  {
    assert HoldsDefault(ps, args, body, i);
    if Taken(ps, args, |args|, i) {
      var k :| 0 <= k < |args| && Target(ps, args, k) == i;
      assert HoldsArg(ps, args, body, k);
    } else {
      assert body[i].text == ps[i].name;
    }
  }

  lemma OrdersStay(body: seq<Arg>, k: nat)
    requires k < |body| && body[k].order.Some?
    ensures body[k].(order := Some(OrderOf(body, k))) == body[k]
  {
  }

  /** A bound call is acceptable again, and binding it again changes nothing. */
  lemma BindingTwice(ps: seq<Param>, args: seq<Arg>, body: seq<Arg>)
    requires Named(ps) && Acceptable(ps, args) && Filled(ps, args, body)
    ensures Acceptable(ps, body)
    ensures forall again :: Filled(ps, body, again) ==> again == body
  {
    forall i | 0 <= i < |ps| ensures Placed(ps, body, i) && Taken(ps, body, |body|, i) {
      BoundStays(ps, args, body, i);
    }
    forall again | Filled(ps, body, again) ensures again == body {
      forall i | 0 <= i < |ps| ensures again[i] == body[i] {
        assert HoldsArg(ps, body, again, i);
        BoundInPlace(ps, args, body, i);
        OrdersStay(body, i);
      }
    }
  }

  lemma BoundStays(ps: seq<Param>, args: seq<Arg>, body: seq<Arg>, i: nat)
    requires Named(ps) && Acceptable(ps, args) && Filled(ps, args, body) && i < |ps|
    ensures Placed(ps, body, i) && Taken(ps, body, |body|, i)
  {
    BoundInPlace(ps, args, body, i);
    forall j | 0 <= j < i ensures Target(ps, body, j) == j && (body[i].text == "" ==> body[j].text == "") {
      BoundInPlace(ps, args, body, j);
      if body[i].text == "" {
        assert Placed(ps, args, i);
        assert args[j].text == "" && Target(ps, args, j) == j;
        assert HoldsArg(ps, args, body, j);
      }
    }
  }

  /** `fill_call_args` run on a call it has already bound reports nothing and keeps it. */
  method FillTwice(call: Call, params: seq<Param>)
    requires Named(Fixed(params))
    modifies call
    ensures Acceptable(Fixed(params), old(call.body)) ==>
      call.reports == old(call.reports) && Filled(Fixed(params), old(call.body), call.body)
  {
    ghost var args := call.body;
    call.FillCallArgs(params);
    ghost var once := call.body;
    if call.reports == old(call.reports) {
      BindingTwice(Fixed(params), args, once);
    }
    call.FillCallArgs(params);
    assert Acceptable(Fixed(params), args) ==> call.body == once;
  }
}
