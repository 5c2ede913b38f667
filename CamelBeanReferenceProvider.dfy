/**
 * Attaching references to the arguments of a `.bean(...)` call: constant folding of the
 * first argument, locating the top-level argument that contains an element, and
 * choosing the one reference (bean name or method) an element gets.
 */
module CamelBeanReferenceProvider {
  import opened Wrappers
  import opened Psi
  import opened SpringLikeBeanResolver
  import opened CamelCallUtils

  // ---------------------------------------------------------------- constant folding

  /**
   * `evalStringConstant`: a string literal's value; else a `String` the host helper
   * computes; else, for a reference to a `String`-typed field, its string-literal
   * initializer or what the helper computes for the initializer; else, for a `+`
   * expression, the ordered join of its operands when every one of them evaluates.
   */
  function EvalStringConstant(helper: Expr -> Option<Value>, expr: Option<Expr>): Option<string> {
    if expr.None? then None else EvalExpr(helper, expr.value)
  }

  /** `helper.computeConstantExpression(e)` when it yields a `String` (a thrown exception counts as no value). */
  function HelperString(helper: Expr -> Option<Value>, e: Expr): Option<string> {
    var c := helper(e);
    if c.Some? && c.value.Str? then Some(c.value.s) else None
  }

  function EvalExpr(helper: Expr -> Option<Value>, e: Expr): Option<string>
    decreases e, 1, 0
  {
    if e.Literal? && e.value.Str? then Some(e.value.s)
    else if HelperString(helper, e).Some? then HelperString(helper, e)
    else if e.Reference? then
      if e.resolved.Some? && e.resolved.value.Field? && e.resolved.value.isStringType then
        var init := e.resolved.value.initializer;
        if init.Some? && init.value.Literal? && init.value.value.Str? then Some(init.value.value.s)
        else if init.Some? then HelperString(helper, init.value)
        else None
      else None
    else if e.Polyadic? && e.isPlus then
      var parts := EvalOperands(helper, e, 0);
      if |parts| == |e.operands| then Some(Join(parts)) else None
    else None
  }

  /** `operands.mapNotNull { evalStringConstant(it) }`, from operand `i` on. */
  function EvalOperands(helper: Expr -> Option<Value>, e: Expr, i: nat): (parts: seq<string>)
    requires e.Polyadic? && i <= |e.operands|
    ensures |parts| <= |e.operands| - i
    decreases e, 0, |e.operands| - i
  {
    if i == |e.operands| then []
    else
      var v := EvalExpr(helper, e.operands[i]);
      (if v.Some? then [v.value] else []) + EvalOperands(helper, e, i + 1)
  }

  /** `joinToString("")`. */
  function Join(parts: seq<string>): (r: string)
    ensures |parts| > 0 ==> r == parts[0] + Join(parts[1..])
  {
    if parts == [] then "" else parts[0] + Join(parts[1..])
  }

  /** The values of operands `i..` when all of them evaluate. */
  predicate AllOperandsEvaluate(helper: Expr -> Option<Value>, e: Expr, i: nat)
    requires e.Polyadic? && i <= |e.operands|
  {
    forall k :: i <= k < |e.operands| ==> EvalExpr(helper, e.operands[k]).Some?
  }

  /** `mapNotNull` keeps every operand exactly when all evaluate, and then lists their values in order. */
  lemma {:induction false} EvalOperandsAllOrNothing(helper: Expr -> Option<Value>, e: Expr, i: nat)
    requires e.Polyadic? && i <= |e.operands|
    ensures |EvalOperands(helper, e, i)| == |e.operands| - i <==> AllOperandsEvaluate(helper, e, i)
    ensures AllOperandsEvaluate(helper, e, i) ==>
              forall k :: i <= k < |e.operands| ==>
                EvalOperands(helper, e, i)[k - i] == EvalExpr(helper, e.operands[k]).value
    decreases |e.operands| - i
  {
    if i < |e.operands| {
      EvalOperandsAllOrNothing(helper, e, i + 1);
    }
  }

  /** `evalStringConstant(null)` is null. */
  lemma {:induction false} EvalOfNothing(helper: Expr -> Option<Value>)
    ensures EvalStringConstant(helper, None) == None
  {
  }

  /** A string literal evaluates to its own value, whatever the helper says. */
  lemma {:induction false} EvalStringLiteral(helper: Expr -> Option<Value>, s: string)
    ensures EvalStringConstant(helper, Some(Literal(Str(s)))) == Some(s)
  {
  }

  /** A `String` the helper computes wins over the field and concatenation rules. */
  lemma {:induction false} EvalHelperPrecedence(helper: Expr -> Option<Value>, e: Expr, v: string)
    requires !(e.Literal? && e.value.Str?) && helper(e) == Some(Str(v))
    ensures EvalStringConstant(helper, Some(e)) == Some(v)
  {
  }

  /** A `String` field with a string-literal initializer evaluates to it; finality is not checked. */
  lemma {:induction false} EvalFieldLiteral(helper: Expr -> Option<Value>, s: string)
    requires HelperString(helper, Reference(Some(Field(true, Some(Literal(Str(s))))))).None?
    ensures EvalStringConstant(helper, Some(Reference(Some(Field(true, Some(Literal(Str(s))))))))== Some(s)
  {
  }

  /** Without the helper's help, a reference to anything but a `String` field evaluates to nothing. */
  lemma {:induction false} EvalOtherReference(helper: Expr -> Option<Value>, d: Option<Decl>)
    requires HelperString(helper, Reference(d)).None?
    requires !(d.Some? && d.value.Field? && d.value.isStringType)
    ensures EvalStringConstant(helper, Some(Reference(d))) == None
  {
  }

  /**
   * A `+` expression the helper does not fold evaluates to the ordered join of its operand
   * values if every operand evaluates, and to nothing otherwise.
   */
  lemma {:induction false} EvalConcatenation(helper: Expr -> Option<Value>, e: Expr)
    requires e.Polyadic? && e.isPlus && HelperString(helper, e).None?
    ensures var r := EvalStringConstant(helper, Some(e));
            && (r.Some? <==> forall k :: 0 <= k < |e.operands| ==> EvalExpr(helper, e.operands[k]).Some?)
            && (r.Some? ==> exists parts: seq<string> ::
                  && |parts| == |e.operands|
                  && (forall k :: 0 <= k < |e.operands| ==> parts[k] == EvalExpr(helper, e.operands[k]).value)
                  && r.value == Join(parts))
  {
    EvalOperandsAllOrNothing(helper, e, 0);
  }

  /** Expressions of no other form, and other operators, evaluate to nothing without the helper. */
  lemma {:induction false} EvalOtherForms(helper: Expr -> Option<Value>, e: Expr)
    requires HelperString(helper, e).None?
    requires e.ClassLiteral? || e.OtherExpr? || (e.Literal? && !e.value.Str?) || (e.Polyadic? && !e.isPlus)
    ensures EvalStringConstant(helper, Some(e)) == None
  {
  }

  /** `"pfx" + CONST` with `CONST` a `String` field initialised to `"x"` evaluates to `"pfxx"`. */
  lemma {:induction false} EvalPrefixPlusConstant(helper: Expr -> Option<Value>)
    requires var c := Reference(Some(Field(true, Some(Literal(Str("x"))))));
             HelperString(helper, c).None? && HelperString(helper, Polyadic(true, [Literal(Str("pfx")), c])).None?
    ensures EvalStringConstant(helper, Some(Polyadic(true, [Literal(Str("pfx")), Reference(Some(Field(true, Some(Literal(Str("x"))))))])))
            == Some("pfxx")
  {
    var c := Reference(Some(Field(true, Some(Literal(Str("x"))))));
    var e := Polyadic(true, [Literal(Str("pfx")), c]);
    assert EvalExpr(helper, c) == Some("x");
    assert EvalOperands(helper, e, 2) == [];
    assert EvalOperands(helper, e, 1) == ["x"];
    assert EvalExpr(helper, e.operands[0]) == Some("pfx");
    assert EvalOperands(helper, e, 0) == ["pfx", "x"];
    assert Join(["pfx", "x"]) == "pfx" + ("x" + Join([]));
    assert Join([]) == "";
    assert "pfx" + ("x" + "") == "pfxx";
    assert EvalExpr(helper, e) == Some(Join(["pfx", "x"]));
  }

  /** If `CONST`'s initializer cannot be evaluated, neither can `"pfx" + CONST`. */
  lemma {:induction false} EvalPrefixPlusUnresolvable(helper: Expr -> Option<Value>, init: Expr)
    requires !(init.Literal? && init.value.Str?) && HelperString(helper, init).None?
    requires var c := Reference(Some(Field(true, Some(init))));
             HelperString(helper, c).None? && HelperString(helper, Polyadic(true, [Literal(Str("pfx")), c])).None?
    ensures EvalStringConstant(helper, Some(Polyadic(true, [Literal(Str("pfx")), Reference(Some(Field(true, Some(init))))])))
            == None
  {
    var c := Reference(Some(Field(true, Some(init))));
    var e := Polyadic(true, [Literal(Str("pfx")), c]);
    assert EvalExpr(helper, e.operands[1]) == None;
    EvalOperandsAllOrNothing(helper, e, 0);
  }

  // ---------------------------------------------------------------- the call and the argument

  /** `findEnclosingBeanCall`: the nearest enclosing call (the element itself included), if named `bean`. */
  function FindEnclosingBeanCall(t: Tree, n: nat): (r: Option<nat>)
    requires WellFormed(t) && n < |t|
    ensures r.Some? ==> NearestCall(t, n, r.value) && IsBeanNamed(t[r.value].kind)
  {
    var c := ParentOfType(t, n, IsCall);
    if c.Some? && IsBeanNamed(t[c.value].kind) then c else None
  }

  /** The provider and the call utilities find the same call. */
  lemma {:induction false} EnclosingBeanCallAgrees(t: Tree, n: nat)
    requires WellFormed(t) && n < |t|
    ensures FindEnclosingBeanCall(t, n).Some? <==> FindCamelBeanCall(t, n).Some?
    ensures FindEnclosingBeanCall(t, n).Some? ==> FindEnclosingBeanCall(t, n).value == FindCamelBeanCall(t, n).value.call
  {
  }

  /** The first of `args[i..]` that is an ancestor-or-self of `expr`. */
  function FirstArgumentContaining(t: Tree, args: seq<nat>, expr: nat, i: nat): (r: Option<nat>)
    requires WellFormed(t) && expr < |t| && i <= |args|
    ensures r.Some? ==> i <= r.value < |args| && IsAncestorOrSelf(t, args[r.value], expr)
    ensures r.Some? ==> forall k :: i <= k < r.value ==> !IsAncestorOrSelf(t, args[k], expr)
    ensures r.None? ==> forall k :: i <= k < |args| ==> !IsAncestorOrSelf(t, args[k], expr)
    decreases |args| - i
  {
    if i == |args| then None
    else if IsAncestorOrSelf(t, args[i], expr) then Some(i)
    else FirstArgumentContaining(t, args, expr, i + 1)
  }

  /**
   * `findWhichArgumentOfCall`, as a function: the index and node of the first top-level
   * argument of `call` containing the element's nearest expression.
   */
  function WhichArgument(t: Tree, n: nat, call: nat): Option<(nat, nat)>
    requires WellFormed(t) && n < |t| && call < |t|
  {
    var expr := ParentOfType(t, n, IsExpression);
    if expr.None? then None
    else
      var args := Args(t, call);
      var idx := FirstArgumentContaining(t, args, expr.value, 0);
      if idx.None? then None else Some((idx.value, args[idx.value]))
  }

  /** `findWhichArgumentOfCall`: the `forEachIndexed` scan that returns at the first containing argument. */
  method FindWhichArgumentOfCall(t: Tree, n: nat, call: nat) returns (r: Option<(nat, nat)>)
    requires WellFormed(t) && n < |t| && call < |t|
    ensures r == WhichArgument(t, n, call)
    ensures r.Some? ==> var (idx, top) := r.value;
                        idx < |Args(t, call)| && top == Args(t, call)[idx]
                        && (forall k :: 0 <= k < idx ==> !IsAncestorOrSelf(t, Args(t, call)[k], ParentOfType(t, n, IsExpression).value))
  {
    var expr := ParentOfType(t, n, IsExpression);
    if expr.None? {
      return None;
    }
    var args := Args(t, call);
    var idx := 0;
    while idx < |args|
      invariant 0 <= idx <= |args|
      invariant FirstArgumentContaining(t, args, expr.value, 0) == FirstArgumentContaining(t, args, expr.value, idx)
    {
      if IsAncestorOrSelf(t, args[idx], expr.value) {
        return Some((idx, args[idx]));
      }
      idx := idx + 1;
    }
    return None;
  }

  // ---------------------------------------------------------------- the references

  datatype Reference =
    | NameRef(element: nat, beanName: string)
    | MethodRef(literal: nat, rawText: string, beanClass: Option<ClassRef>)

  /** `resolveBeanClassFromFirstArg`: the bean class of the first target the folded first argument names. */
  function ResolveBeanClassFromFirstArg(p: Project, t: Tree, call: nat): (r: Option<ClassRef>)
    requires WellFormed(t) && call < |t|
    ensures r.Some? ==> |Args(t, call)| > 0 && EvalStringConstant(p.constantHelper, ExprOf(t, Args(t, call)[0])).Some?
                        && ResolveBeanSpec(p, EvalStringConstant(p.constantHelper, ExprOf(t, Args(t, call)[0])).value) != []
    ensures |Args(t, call)| > 0 && EvalStringConstant(p.constantHelper, ExprOf(t, Args(t, call)[0])).Some?
            && ResolveBeanSpec(p, EvalStringConstant(p.constantHelper, ExprOf(t, Args(t, call)[0])).value) != [] ==>
              r == ResolveBeanSpec(p, EvalStringConstant(p.constantHelper, ExprOf(t, Args(t, call)[0])).value)[0].beanClass
  {
    var args := Args(t, call);
    if |args| == 0 then None
    else
      var beanName := EvalStringConstant(p.constantHelper, ExprOf(t, args[0]));
      if beanName.None? then None
      else
        var targets := ResolveBeanSpec(p, beanName.value);
        if targets == [] then None else targets[0].beanClass
  }

  /** The literal a method reference goes on: the argument's first literal child, else the argument itself. */
  function MethodSpecLiteral(t: Tree, arg: nat): (r: Option<nat>)
    requires arg < |t|
    ensures r.Some? ==> r.value < |t| && IsLiteral(t, r.value)
  {
    FirstLiteralChild(t, arg, 0).OrElse(if IsLiteral(t, arg) then Some(arg) else None)
  }

  /** `getReferencesByElement`, as a function of the snapshot. */
  function References(p: Project, t: Tree, n: nat): seq<Reference>
    requires WellFormed(t) && n < |t|
  {
    if !(IsLiteral(t, n) || IsReferenceExpression(t, n)) then []
    else
      var call := FindEnclosingBeanCall(t, n);
      if call.None? then []
      else
        var which := WhichArgument(t, n, call.value);
        if which.None? then []
        else if t[call.value].kind.referenceName != Some("bean") then []
        else
          var (argIndex, argExpr) := which.value;
          if argIndex == 0 then
            var beanName := EvalStringConstant(p.constantHelper, ExprOf(t, argExpr));
            if beanName.None? then [] else [NameRef(n, beanName.value)]
          else if argIndex == 1 then
            var lit := MethodSpecLiteral(t, argExpr);
            if lit.None? then []
            else
              var methodSpec := LiteralString(t, lit.value);
              if methodSpec.None? then []
              else [MethodRef(lit.value, methodSpec.value, ResolveBeanClassFromFirstArg(p, t, call.value))]
          else []
  }

  /** `getReferencesByElement`: builds the reference list step by step, returning early when nothing applies. */
  method GetReferencesByElement(p: Project, t: Tree, n: nat) returns (refs: seq<Reference>)
    requires WellFormed(t) && n < |t|
    ensures refs == References(p, t, n)
  {
    if !IsLiteral(t, n) && !IsReferenceExpression(t, n) {
      return [];
    }
    var call := FindEnclosingBeanCall(t, n);
    if call.None? {
      return [];
    }
    var which := FindWhichArgumentOfCall(t, n, call.value);
    if which.None? {
      return [];
    }
    if t[call.value].kind.referenceName != Some("bean") {
      return [];
    }
    var (argIndex, argExpr) := which.value;
    refs := [];
    if argIndex == 0 {
      var beanName := EvalStringConstant(p.constantHelper, ExprOf(t, argExpr));
      if beanName.None? {
        return [];
      }
      refs := refs + [NameRef(n, beanName.value)];
    } else if argIndex == 1 {
      var lit := MethodSpecLiteral(t, argExpr);
      if lit.None? {
        return [];
      }
      var methodSpec := LiteralString(t, lit.value);
      if methodSpec.None? {
        return [];
      }
      var beanClass := ResolveBeanClassFromFirstArg(p, t, call.value);
      refs := refs + [MethodRef(lit.value, methodSpec.value, beanClass)];
    }
  }

  /** Elements that are neither literals nor references get nothing; others get at most one reference. */
  lemma {:induction false} ReferencesAtMostOne(p: Project, t: Tree, n: nat)
    requires WellFormed(t) && n < |t|
    ensures |References(p, t, n)| <= 1
    ensures !(IsLiteral(t, n) || IsReferenceExpression(t, n)) ==> References(p, t, n) == []
  {
  }

  /** An element whose nearest enclosing call is not a `.bean` call (say, `foo(...)` inside `.bean(...)`) gets nothing. */
  lemma {:induction false} NestedCallHidesBeanCall(p: Project, t: Tree, n: nat, c: nat)
    requires WellFormed(t) && n < |t|
    requires NearestCall(t, n, c) && !IsBeanNamed(t[c].kind)
    ensures References(p, t, n) == []
  {
    var r := FindEnclosingBeanCall(t, n);
    if r.Some? {
      NearestCallUnique(t, n, c, r.value);
    }
  }

  /**
   * Which reference an element gets: a bean-name reference on the element itself when it
   * lies in argument 0 and that argument folds to a string; a method reference on a
   * string literal when it lies in argument 1; nothing for later arguments.
   */
  lemma {:induction false} ReferencesByArgumentIndex(p: Project, t: Tree, n: nat)
    requires WellFormed(t) && n < |t|
    ensures var refs := References(p, t, n);
            var call := FindEnclosingBeanCall(t, n);
            && (refs != [] ==> call.Some? && WhichArgument(t, n, call.value).Some?)
            && (refs != [] && refs[0].NameRef? ==>
                  var (idx, arg) := WhichArgument(t, n, call.value).value;
                  idx == 0 && refs[0].element == n
                  && Some(refs[0].beanName) == EvalStringConstant(p.constantHelper, ExprOf(t, arg)))
            && (refs != [] && refs[0].MethodRef? ==>
                  var (idx, arg) := WhichArgument(t, n, call.value).value;
                  idx == 1 && IsLiteral(t, refs[0].literal)
                  && LiteralString(t, refs[0].literal) == Some(refs[0].rawText)
                  && refs[0].beanClass == ResolveBeanClassFromFirstArg(p, t, call.value))
            && (refs != [] ==> WhichArgument(t, n, call.value).value.0 < 2)
  {
  }

  /** Conversely, a string literal in argument 0 that folds to a string gets exactly the bean-name reference. */
  lemma {:induction false} FirstArgGetsNameRef(p: Project, t: Tree, n: nat)
    requires WellFormed(t) && n < |t| && IsFirstArg(t, n)
    requires EvalStringConstant(p.constantHelper, ExprOf(t, n)).Some?
    ensures References(p, t, n) == [NameRef(n, EvalStringConstant(p.constantHelper, ExprOf(t, n)).value)]
  {
    EnclosingBeanCallAgrees(t, n);
    assert IsExpression(t[n].kind);
    assert IsAncestorOrSelf(t, n, n);
  }

  /**
   * Conversely, a string literal in argument 1 whose method-spec literal holds a string gets
   * exactly the method reference, carrying the class the first argument resolves to.
   */
  lemma {:induction false} SecondArgGetsMethodRef(p: Project, t: Tree, n: nat)
    requires WellFormed(t) && n < |t| && IsSecondArg(t, n)
    requires MethodSpecLiteral(t, n).Some? && LiteralString(t, MethodSpecLiteral(t, n).value).Some?
    ensures FindEnclosingBeanCall(t, n).Some?
    ensures References(p, t, n)
            == [MethodRef(MethodSpecLiteral(t, n).value, LiteralString(t, MethodSpecLiteral(t, n).value).value,
                          ResolveBeanClassFromFirstArg(p, t, FindEnclosingBeanCall(t, n).value))]
  {
    EnclosingBeanCallAgrees(t, n);
    BeanCallArguments(t, n);
    var c := FindEnclosingBeanCall(t, n).value;
    var args := Args(t, c);
    assert IsExpression(t[n].kind);
    assert IsAncestorOrSelf(t, n, n);
    assert ArgsValid(t, c, args);
    // argument 0 is a sibling of `n`, so it is not on `n`'s ancestor chain
    if IsAncestorOrSelf(t, args[0], n) {
      assert IsAncestorOrSelf(t, args[0], c);
      AncestorPrecedes(t, args[0], c);
      assert false;
    }
  }
}
