/**
 * Completion inside the second argument of `.bean(..., "method(...)")`: the distinct
 * public method names of the bean class, with the leading identifier typed so far as the
 * prefix when there is one.
 */
module CamelBeanCompletionContributor {
  import opened Wrappers
  import opened IdentText
  import opened Psi
  import opened SpringLikeBeanResolver
  import opened CamelCallUtils
  import CamelBeanReferenceProvider
  import CamelBeanNavigationAnnotator
  import BeanMethodReference

  // ---------------------------------------------------------------- the prefix

  /** `extractLeadingMethodName`: the identifier after leading whitespace, or empty. */
  function ExtractLeadingMethodName(s: string): (r: string)
    ensures r == [] || IsIdentifier(r)
    ensures |r| <= |DropWhileWhitespace(s)| && r == DropWhileWhitespace(s)[..|r|]
  {
    var trimmedLeft := DropWhileWhitespace(s);
    trimmedLeft[..IdentMatchLength(trimmedLeft)]
  }

  /** The three copies of the leading-identifier extraction agree on every input. */
  lemma {:induction false} ExtractLeadingMethodNameAgrees(s: string)
    ensures ExtractLeadingMethodName(s) == CamelBeanNavigationAnnotator.ExtractLeadingIdentifier(s)
    ensures ExtractLeadingMethodName(s) == BeanMethodReference.ExtractLeadingIdentifier(s)
  {
    CamelBeanNavigationAnnotator.ExtractAgreesWithReference(s);
  }

  // ---------------------------------------------------------------- the bean class

  /**
   * `resolveBeanClassFromFirstArg`, the completion variant: the first argument must be a
   * string literal; its value is resolved without constant folding.
   */
  function ResolveBeanClassFromFirstArg(p: Project, t: Tree, lit: nat): (r: Option<ClassRef>)
    requires WellFormed(t) && lit < |t|
    ensures r.Some? ==> var call := FindCamelBeanCall(t, lit);
                        && call.Some? && call.value.firstArgString.Some?
                        && IsLiteral(t, call.value.firstArgString.value)
                        && LiteralString(t, call.value.firstArgString.value).Some?
                        && exists tg :: tg in ResolveBeanSpec(p, LiteralString(t, call.value.firstArgString.value).value)
                                        && tg.beanClass == r
    ensures var call := FindCamelBeanCall(t, lit);
            call.Some? && call.value.firstArgString.Some?
            && LiteralString(t, call.value.firstArgString.value).Some?
            && ResolveBeanSpec(p, LiteralString(t, call.value.firstArgString.value).value) != [] ==>
              r == ResolveBeanSpec(p, LiteralString(t, call.value.firstArgString.value).value)[0].beanClass
  {
    var call := FindCamelBeanCall(t, lit);
    if call.None? || call.value.firstArgString.None? then None
    else
      var name := LiteralString(t, call.value.firstArgString.value);
      if name.None? then None
      else
        var targets := ResolveBeanSpec(p, name.value);
        if targets == [] then None
        else
          assert targets[0] in targets;
          targets[0].beanClass
  }

  /**
   * On a string-literal first argument the completion variant and the folding variant of
   * the provider choose the same class: a literal folds to its own value.
   */
  lemma {:induction false} FirstArgClassAgreesOnLiterals(p: Project, t: Tree, lit: nat)
    requires WellFormed(t) && lit < |t|
    requires var call := FindCamelBeanCall(t, lit);
             call.Some? && call.value.firstArgString.Some? && LiteralString(t, call.value.firstArgString.value).Some?
    ensures ResolveBeanClassFromFirstArg(p, t, lit)
            == CamelBeanReferenceProvider.ResolveBeanClassFromFirstArg(p, t, FindCamelBeanCall(t, lit).value.call)
  {
    var call := FindCamelBeanCall(t, lit).value;
    BeanCallArguments(t, lit);
    var first := call.firstArgString.value;
    assert Args(t, call.call)[0] == first;
    assert CamelBeanReferenceProvider.EvalStringConstant(p.constantHelper, ExprOf(t, first)) == LiteralString(t, first);
  }

  /** A first argument that is not a literal (a constant reference, say) gives no class: nothing is folded here. */
  lemma {:induction false} NoFoldingOfFirstArgument(p: Project, t: Tree, lit: nat)
    requires WellFormed(t) && lit < |t|
    requires var call := FindCamelBeanCall(t, lit);
             call.Some? && |Args(t, call.value.call)| >= 1 && !IsLiteral(t, Args(t, call.value.call)[0])
    ensures ResolveBeanClassFromFirstArg(p, t, lit).None?
  {
    BeanCallArguments(t, lit);
  }

  // ---------------------------------------------------------------- the names

  /** What `addCompletions` offers: the prefix matcher it switches to, if any, and the names it adds. */
  datatype Completion = Completion(prefix: Option<string>, names: seq<string>)

  /** The literal around the completion position, when it is the second argument of a `.bean` call. */
  function CompletionLiteral(t: Tree, position: nat): (lit: Option<nat>)
    requires WellFormed(t) && position < |t|
    ensures lit.Some? ==> lit == t[position].parent && lit.value < |t| && IsSecondArg(t, lit.value)
  {
    var lit := t[position].parent;
    if lit.None? || !IsLiteral(t, lit.value) then None
    else if !IsStringLiteralOfBeanCall(t, lit.value) || !IsSecondArg(t, lit.value) then None
    else lit
  }

  /** The bean class: the first argument's `X.class`, else the first target of the first argument's literal value. */
  function CompletionBeanClass(p: Project, t: Tree, lit: nat): Option<ClassRef>
    requires WellFormed(t) && lit < |t|
  {
    BeanClassFromClassLiteral(t, lit).OrElse(ResolveBeanClassFromFirstArg(p, t, lit))
  }

  /** The prefix matcher: the leading identifier of the literal's string value, when nonempty. */
  function CompletionPrefixOf(t: Tree, lit: nat): Option<string>
    requires lit < |t|
  {
    var currentPrefix := ExtractLeadingMethodName(LiteralString(t, lit).GetOrElse(""));
    if currentPrefix != [] then Some(currentPrefix) else None
  }

  /** `addCompletions`, as a function of the completion position's node. */
  function CompletionsSpec(p: Project, t: Tree, position: nat): Option<Completion>
    requires WellFormed(t) && position < |t|
  {
    var lit := CompletionLiteral(t, position);
    if lit.None? then None
    else
      var beanClass := CompletionBeanClass(p, t, lit.value);
      if beanClass.None? then None
      else Some(Completion(CompletionPrefixOf(t, lit.value), BeanMethodReference.Distinct(PublicMethodNames(p, beanClass.value))))
  }

  /** Appending one element to a sequence adds it to `distinct()` unless it was already there. */
  lemma {:induction false} DistinctSnoc<T>(s: seq<T>, x: T)
    ensures BeanMethodReference.Distinct(s + [x])
            == if x in s then BeanMethodReference.Distinct(s) else BeanMethodReference.Distinct(s) + [x]
  {
    assert (s + [x])[..|s|] == s;
  }

  /** One more method adds its name when it is public and not yet offered. */
  lemma {:induction false} CollectStep(ms: seq<PsiMethod>, i: nat)
    requires i < |ms|
    ensures var d := BeanMethodReference.Distinct(PublicNames(ms[..i]));
            BeanMethodReference.Distinct(PublicNames(ms[..i + 1]))
            == d + (if ms[i].isPublic && ms[i].name !in d then [ms[i].name] else [])
  {
    assert ms[..i + 1][..i] == ms[..i];
    var s := PublicNames(ms[..i]);
    var d := BeanMethodReference.Distinct(s);
    if ms[i].isPublic {
      assert PublicNames(ms[..i + 1]) == s + [ms[i].name];
      DistinctSnoc(s, ms[i].name);
      assert ms[i].name in s <==> ms[i].name in d;
    } else {
      assert PublicNames(ms[..i + 1]) == s + [];
      assert s + [] == s;
    }
  }

  /**
   * The `filter { public }.map { name }.distinct().forEach { addElement }` pipeline: one
   * pass over the methods with the set of names already added.
   */
  method CollectPublicNames(ms: seq<PsiMethod>) returns (names: seq<string>)
    ensures names == BeanMethodReference.Distinct(PublicNames(ms))
  {
    names := [];
    var seen: set<string> := {};
    var i := 0;
    while i < |ms|
      invariant 0 <= i <= |ms|
      invariant names == BeanMethodReference.Distinct(PublicNames(ms[..i]))
      invariant forall x :: x in seen <==> x in names
    {
      var m := ms[i];
      CollectStep(ms, i);
      if m.isPublic && m.name !in seen {
        names := names + [m.name];
        seen := seen + {m.name};
      }
      i := i + 1;
    }
    assert ms[..i] == ms;
  }

  /** `addCompletions`: the guard chain, then the prefix and the names. */
  method AddCompletions(p: Project, t: Tree, position: nat) returns (result: Option<Completion>)
    requires WellFormed(t) && position < |t|
    ensures result == CompletionsSpec(p, t, position)
  {
    var lit := t[position].parent;
    if lit.None? || !IsLiteral(t, lit.value) { return None; }
    if !IsStringLiteralOfBeanCall(t, lit.value) { return None; }
    if !IsSecondArg(t, lit.value) { return None; }
    var beanClass := BeanClassFromClassLiteral(t, lit.value);
    if beanClass.None? {
      beanClass := ResolveBeanClassFromFirstArg(p, t, lit.value);
    }
    if beanClass.None? { return None; }
    assert CompletionLiteral(t, position) == lit && CompletionBeanClass(p, t, lit.value) == beanClass;
    var innerText := LiteralString(t, lit.value).GetOrElse("");
    var currentPrefix := ExtractLeadingMethodName(innerText);
    var prefix := if currentPrefix != [] then Some(currentPrefix) else None;
    var names := CollectPublicNames(AllMethods(p, beanClass.value));
    assert prefix == CompletionPrefixOf(t, lit.value);
    return Some(Completion(prefix, names));
  }

  // ---------------------------------------------------------------- what is offered

  /** Completion happens only inside a string literal that is the second argument of a `.bean` call. */
  lemma {:induction false} CompletionOnlyInSecondArgument(p: Project, t: Tree, position: nat)
    requires WellFormed(t) && position < |t|
    ensures CompletionsSpec(p, t, position).Some? ==>
              var lit := t[position].parent;
              lit.Some? && lit.value < |t| && IsLiteral(t, lit.value) && IsSecondArg(t, lit.value)
  {
  }

  /**
   * The names offered are the public method names of the bean class (inherited ones
   * included), each exactly once, in order of first occurrence.
   */
  lemma {:induction false} CompletionNames(p: Project, t: Tree, position: nat)
    requires WellFormed(t) && position < |t| && CompletionsSpec(p, t, position).Some?
    ensures var lit := t[position].parent.value;
            var cls := CompletionBeanClass(p, t, lit);
            var names := CompletionsSpec(p, t, position).value.names;
            && cls.Some?
            && BeanMethodReference.NoDuplicates(names)
            && (forall x :: x in names <==> exists m :: m in AllMethods(p, cls.value) && m.isPublic && m.name == x)
            && BeanMethodReference.InFirstOccurrenceOrder(PublicMethodNames(p, cls.value), names)
  {
    var lit := t[position].parent.value;
    var cls := CompletionBeanClass(p, t, lit);
    var names := CompletionsSpec(p, t, position).value.names;
    assert names == BeanMethodReference.Variants(p, cls);
    BeanMethodReference.DistinctKeepsFirstOccurrenceOrder(PublicMethodNames(p, cls.value));
  }

  /**
   * The prefix matcher is replaced only by a nonempty identifier: the one leading the
   * literal's string value (an empty value when the literal is not a string).
   */
  lemma {:induction false} CompletionPrefix(p: Project, t: Tree, position: nat)
    requires WellFormed(t) && position < |t| && CompletionsSpec(p, t, position).Some?
    ensures var lit := t[position].parent.value;
            var text := LiteralString(t, lit).GetOrElse("");
            var prefix := CompletionsSpec(p, t, position).value.prefix;
            && (prefix.Some? <==> ExtractLeadingMethodName(text) != [])
            && (prefix.Some? ==> IsIdentifier(prefix.value) && prefix.value == ExtractLeadingMethodName(text))
  {
  }

  /** The names offered are the method reference's variants for the same class. */
  lemma {:induction false} CompletionMatchesVariants(p: Project, t: Tree, position: nat)
    requires WellFormed(t) && position < |t| && CompletionsSpec(p, t, position).Some?
    ensures var lit := t[position].parent.value;
            var cls := CompletionBeanClass(p, t, lit);
            CompletionsSpec(p, t, position).value.names == BeanMethodReference.Variants(p, cls)
  {
  }
}
