/**
 * Recognition of Camel `.bean(...)` calls around a syntax node: the nearest enclosing
 * method call (the node itself included) must be named `bean`; its first argument may be
 * a literal or a class literal, its second a literal.
 */
module CamelCallUtils {
  import opened Wrappers
  import opened Psi

  /** A `.bean(...)` call and the argument nodes the engine cares about. */
  datatype BeanCall = BeanCall(
    call: nat,
    firstArgString: Option<nat>,   // argument 0, when it is a literal
    classArg: Option<nat>,         // argument 0, when it is a class literal `X.class`
    secondArgString: Option<nat>)  // argument 1, when it is a literal

  /** `c` is the nearest method call enclosing `n` (or `n` itself). */
  ghost predicate NearestCall(t: Tree, n: nat, c: nat)
    requires WellFormed(t) && n < |t|
  {
    && c < |t| && IsAncestorOrSelf(t, c, n) && IsCall(t[c].kind)
    && forall a: nat :: a < |t| && IsAncestorOrSelf(t, a, n) && IsCall(t[a].kind) ==> a <= c
  }

  predicate IsBeanNamed(k: Kind) {
    k.CallNode? && k.referenceName == Some("bean")
  }

  /** The arguments of a call node, in order. */
  function Args(t: Tree, c: nat): seq<nat>
    requires c < |t|
  {
    if t[c].kind.CallNode? then t[c].kind.args else []
  }

  /** `findCamelBeanCall`: the nearest enclosing call, if it is a `.bean(...)` call. */
  function FindCamelBeanCall(t: Tree, n: nat): (r: Option<BeanCall>)
    requires WellFormed(t) && n < |t|
    ensures r.Some? ==> NearestCall(t, n, r.value.call) && IsBeanNamed(t[r.value.call].kind)
    ensures r.None? ==> forall c: nat :: NearestCall(t, n, c) ==> !IsBeanNamed(t[c].kind)
  {
    var found := ParentOfType(t, n, IsCall);
    if found.None? then None
    else
      var c := found.value;
      if !IsBeanNamed(t[c].kind) then None
      else
        var args := Args(t, c);
        var first := if |args| >= 1 && IsLiteral(t, args[0]) then Some(args[0]) else None;
        var classLit := if |args| >= 1 && IsClassLiteral(t, args[0]) then Some(args[0]) else None;
        var second := if |args| >= 2 && IsLiteral(t, args[1]) then Some(args[1]) else None;
        Some(BeanCall(c, first, classLit, second))
  }

  /** The nearest enclosing call is unique. */
  lemma {:induction false} NearestCallUnique(t: Tree, n: nat, c: nat, d: nat)
    requires WellFormed(t) && n < |t|
    requires NearestCall(t, n, c) && NearestCall(t, n, d)
    ensures c == d
  {
  }

  /** A call found for `n` has the nearest enclosing call as `call`, and its argument slots are filled by type. */
  lemma {:induction false} BeanCallArguments(t: Tree, n: nat)
    requires WellFormed(t) && n < |t|
    requires FindCamelBeanCall(t, n).Some?
    ensures var bc := FindCamelBeanCall(t, n).value;
            var args := Args(t, bc.call);
            && (bc.firstArgString.Some? <==> |args| >= 1 && IsLiteral(t, args[0]))
            && (bc.firstArgString.Some? ==> bc.firstArgString.value == args[0])
            && (bc.classArg.Some? <==> |args| >= 1 && IsClassLiteral(t, args[0]))
            && (bc.classArg.Some? ==> bc.classArg.value == args[0])
            && (bc.secondArgString.Some? <==> |args| >= 2 && IsLiteral(t, args[1]))
            && (bc.secondArgString.Some? ==> bc.secondArgString.value == args[1])
            && !(bc.firstArgString.Some? && bc.classArg.Some?)
            && (|args| == 0 ==> bc.firstArgString.None? && bc.classArg.None? && bc.secondArgString.None?)
  {
  }

  /** `isStringLiteralOfBeanCall`: `n` is a literal in the first or second slot of its `.bean` call. */
  predicate IsStringLiteralOfBeanCall(t: Tree, n: nat)
    requires WellFormed(t) && n < |t|
  {
    var bc := FindCamelBeanCall(t, n);
    bc.Some? && IsLiteral(t, n) && (bc.value.firstArgString == Some(n) || bc.value.secondArgString == Some(n))
  }

  predicate IsFirstArg(t: Tree, n: nat)
    requires WellFormed(t) && n < |t|
  {
    var bc := FindCamelBeanCall(t, n);
    bc.Some? && IsLiteral(t, n) && bc.value.firstArgString == Some(n)
  }

  predicate IsSecondArg(t: Tree, n: nat)
    requires WellFormed(t) && n < |t|
  {
    var bc := FindCamelBeanCall(t, n);
    bc.Some? && IsLiteral(t, n) && bc.value.secondArgString == Some(n)
  }

  /**
   * The first slot means: `n` is a literal and argument 0 of the nearest enclosing call,
   * which is named `bean`.
   */
  lemma {:induction false} IsFirstArgMeaning(t: Tree, n: nat)
    requires WellFormed(t) && n < |t|
    ensures IsFirstArg(t, n) <==>
              IsLiteral(t, n) && exists c: nat :: NearestCall(t, n, c) && IsBeanNamed(t[c].kind)
                                                  && |Args(t, c)| >= 1 && Args(t, c)[0] == n
  {
    var bc := FindCamelBeanCall(t, n);
    if bc.Some? {
      forall c: nat | NearestCall(t, n, c) ensures c == bc.value.call {
        NearestCallUnique(t, n, c, bc.value.call);
      }
    }
  }

  lemma {:induction false} IsSecondArgMeaning(t: Tree, n: nat)
    requires WellFormed(t) && n < |t|
    ensures IsSecondArg(t, n) <==>
              IsLiteral(t, n) && exists c: nat :: NearestCall(t, n, c) && IsBeanNamed(t[c].kind)
                                                  && |Args(t, c)| >= 2 && Args(t, c)[1] == n
  {
    var bc := FindCamelBeanCall(t, n);
    if bc.Some? {
      forall c: nat | NearestCall(t, n, c) ensures c == bc.value.call {
        NearestCallUnique(t, n, c, bc.value.call);
      }
    }
  }

  lemma {:induction false} StringLiteralIsFirstOrSecond(t: Tree, n: nat)
    requires WellFormed(t) && n < |t|
    ensures IsStringLiteralOfBeanCall(t, n) <==> IsFirstArg(t, n) || IsSecondArg(t, n)
  {
  }

  /** Argument lists name distinct nodes, so no literal is both the first and the second argument. */
  lemma {:induction false} FirstAndSecondExclusive(t: Tree, n: nat)
    requires WellFormed(t) && n < |t|
    ensures !(IsFirstArg(t, n) && IsSecondArg(t, n))
  {
    var bc := FindCamelBeanCall(t, n);
    if bc.Some? && bc.value.firstArgString.Some? && bc.value.secondArgString.Some? {
      var args := Args(t, bc.value.call);
      assert ArgsValid(t, bc.value.call, args);
      assert args[0] != args[1];
    }
  }

  /** `beanClassFromClassLiteral`: the class a first-argument `X.class` designates. */
  function BeanClassFromClassLiteral(t: Tree, n: nat): (r: Option<ClassRef>)
    requires WellFormed(t) && n < |t|
    ensures r.Some? ==> var bc := FindCamelBeanCall(t, n);
                        bc.Some? && bc.value.classArg.Some?
                        && t[bc.value.classArg.value].kind.expr.operandClass == r
  {
    var bc := FindCamelBeanCall(t, n);
    if bc.None? || bc.value.classArg.None? then None
    else t[bc.value.classArg.value].kind.expr.operandClass
  }

  /** Conversely, a `.bean(X.class, ...)` call gives exactly the class `X` resolves to, to any element inside it. */
  lemma {:induction false} ClassLiteralFirstArgGivesOperand(t: Tree, n: nat, c: nat)
    requires WellFormed(t) && n < |t|
    requires NearestCall(t, n, c) && IsBeanNamed(t[c].kind)
    requires |Args(t, c)| >= 1 && IsClassLiteral(t, Args(t, c)[0])
    ensures BeanClassFromClassLiteral(t, n) == t[Args(t, c)[0]].kind.expr.operandClass
  {
    var bc := FindCamelBeanCall(t, n);
    assert bc.Some?;
    NearestCallUnique(t, n, c, bc.value.call);
    BeanCallArguments(t, n);
  }
}
