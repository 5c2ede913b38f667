/**
 * Bean-name resolution: maps a textual bean name to the declarations that provide a
 * bean of that name, by an ordered chain of strategies over the project index:
 *   1. `@Bean` factory methods of `@Configuration` classes,
 *   2. classes carrying a stereotype annotation (`@Component`, `@Service`, ...),
 *   3. only when 1 and 2 found nothing, every class whose decapitalised short name is the
 *      bean name.
 * `ResolveBeanSpec` states the result as a function of the index; the method
 * `ResolveBean` computes it the way the source does, appending to one result list.
 */
module SpringLikeBeanResolver {
  import opened Wrappers
  import opened Psi

  const STEREOTYPES: seq<string> := [
    "org.springframework.stereotype.Component",
    "org.springframework.stereotype.Service",
    "org.springframework.stereotype.Repository",
    "org.springframework.stereotype.Controller",
    "org.springframework.web.bind.annotation.RestController"
  ]

  const QUALIFIER: string := "org.springframework.beans.factory.annotation.Qualifier"
  const CONFIGURATION: string := "org.springframework.context.annotation.Configuration"
  const BEAN: string := "org.springframework.context.annotation.Bean"

  /** A declaration providing a bean, and the class on which its methods are looked up. */
  datatype BeanTarget = BeanTarget(psiElement: Element, beanName: string, beanClass: Option<ClassRef>)

  // ---------------------------------------------------------------- naming conventions

  predicate IsUpperCase(c: char) {
    'A' <= c <= 'Z'
  }

  function LowercaseChar(c: char): (r: char)
    ensures IsUpperCase(c) ==> 'a' <= r <= 'z' && r as int == c as int + 32
    ensures !IsUpperCase(c) ==> r == c
  {
    if IsUpperCase(c) then (c as int + 32) as char else c
  }

  /** Lower-cases the first character when it is an upper-case letter. */
  function Decapitalize(s: string): (r: string)
    ensures |r| == |s|
    ensures r == [] || !IsUpperCase(r[0])
    ensures |s| > 0 ==> r[1..] == s[1..] && r[0] == LowercaseChar(s[0])
    ensures s == [] || !IsUpperCase(s[0]) ==> r == s
  {
    if |s| > 0 && IsUpperCase(s[0]) then [LowercaseChar(s[0])] + s[1..] else s
  }

  lemma {:induction false} DecapitalizeIdempotent(s: string)
    ensures Decapitalize(Decapitalize(s)) == Decapitalize(s)
  {
  }

  /** `hasAnnotation(BEAN)`. */
  predicate HasBeanAnnotation(m: PsiMethod) {
    GetAnnotation(m.annotations, BEAN).Some?
  }

  /** The name a `@Bean` method declares: its `name` attribute, else `value`, else the method name. */
  function FactoryBeanName(m: PsiMethod): string {
    var ann := GetAnnotation(m.annotations, BEAN);
    var explicit := StringAttribute(ann, "name");
    var annValue := StringAttribute(ann, "value");
    if explicit.Some? then explicit.value
    else if annValue.Some? then annValue.value
    else m.name
  }

  lemma {:induction false} FactoryBeanNamePrecedence(m: PsiMethod, explicit: Option<string>, annValue: Option<string>)
    requires explicit == StringAttribute(GetAnnotation(m.annotations, BEAN), "name")
    requires annValue == StringAttribute(GetAnnotation(m.annotations, BEAN), "value")
    ensures explicit.Some? ==> FactoryBeanName(m) == explicit.value
    ensures explicit.None? && annValue.Some? ==> FactoryBeanName(m) == annValue.value
    ensures explicit.None? && annValue.None? ==> FactoryBeanName(m) == m.name
  {
  }

  /** Names under which a class carrying stereotype `annoFqn` is known, in source order. */
  function StereotypeNames(cls: PsiClass, annoFqn: string): seq<string> {
    var qualifierName := StringAttribute(GetAnnotation(cls.annotations, QUALIFIER), "value");
    var stereo := GetAnnotation(cls.annotations, annoFqn);
    var stereoName := StringAttribute(stereo, "value").OrElse(StringAttribute(stereo, "name"));
    var defaultName := Decapitalize(if cls.name.Some? then cls.name.value else "");
    (if qualifierName.Some? then [qualifierName.value] else [])
    + (if stereoName.Some? then [stereoName.value] else [])
    + [defaultName]
  }

  lemma {:induction false} StereotypeNamesMembership(cls: PsiClass, annoFqn: string, beanName: string)
    ensures var stereo := GetAnnotation(cls.annotations, annoFqn);
            beanName in StereotypeNames(cls, annoFqn) <==>
              || StringAttribute(GetAnnotation(cls.annotations, QUALIFIER), "value") == Some(beanName)
              || StringAttribute(stereo, "value") == Some(beanName)
              || (StringAttribute(stereo, "value").None? && StringAttribute(stereo, "name") == Some(beanName))
              || beanName == Decapitalize(if cls.name.Some? then cls.name.value else "")
  {
  }

  // ---------------------------------------------------------------- the targets each step emits

  function FactoryTarget(m: PsiMethod, beanName: string): seq<BeanTarget> {
    if HasBeanAnnotation(m) && FactoryBeanName(m) == beanName
    then [BeanTarget(MethodElement(m.id), FactoryBeanName(m), m.returnClass)]
    else []
  }

  function ClassTarget(cls: PsiClass, beanName: string): BeanTarget {
    BeanTarget(ClassElement(cls.ref), beanName, Some(cls.ref))
  }

  function StereotypeTarget(cls: PsiClass, annoFqn: string, beanName: string): seq<BeanTarget> {
    if beanName in StereotypeNames(cls, annoFqn) then [ClassTarget(cls, beanName)] else []
  }

  // ---------------------------------------------------------------- the steps, as functions of the index

  function FactoryTargetsOf(ms: seq<PsiMethod>, beanName: string): seq<BeanTarget> {
    if ms == [] then []
    else FactoryTargetsOf(ms[..|ms| - 1], beanName) + FactoryTarget(ms[|ms| - 1], beanName)
  }

  function FactoryTargetsIn(confs: seq<PsiClass>, beanName: string): seq<BeanTarget> {
    if confs == [] then []
    else FactoryTargetsIn(confs[..|confs| - 1], beanName) + FactoryTargetsOf(confs[|confs| - 1].methods, beanName)
  }

  /** Both `@Configuration` and `@Bean` can be found in the project scope. */
  predicate FactoryAnnotationsFound(p: Project) {
    CONFIGURATION in p.foundClasses && BEAN in p.foundClasses
  }

  /** Step 1, skipped when either annotation class cannot be found. */
  function FactoryStep(p: Project, beanName: string): seq<BeanTarget> {
    if FactoryAnnotationsFound(p)
    then FactoryTargetsIn(SearchPsiClasses(p, CONFIGURATION), beanName)
    else []
  }

  function StereotypeTargetsIn(classes: seq<PsiClass>, annoFqn: string, beanName: string): seq<BeanTarget> {
    if classes == [] then []
    else StereotypeTargetsIn(classes[..|classes| - 1], annoFqn, beanName)
         + StereotypeTarget(classes[|classes| - 1], annoFqn, beanName)
  }

  function StereotypeTargetsFor(p: Project, annoFqn: string, beanName: string): seq<BeanTarget> {
    if annoFqn in p.foundClasses then StereotypeTargetsIn(SearchPsiClasses(p, annoFqn), annoFqn, beanName) else []
  }

  function StereotypeTargetsOver(fqns: seq<string>, p: Project, beanName: string): seq<BeanTarget> {
    if fqns == [] then []
    else StereotypeTargetsOver(fqns[..|fqns| - 1], p, beanName) + StereotypeTargetsFor(p, fqns[|fqns| - 1], beanName)
  }

  /** Step 2, visiting the stereotypes in `STEREOTYPES` order. */
  function StereotypeStep(p: Project, beanName: string): seq<BeanTarget> {
    StereotypeTargetsOver(STEREOTYPES, p, beanName)
  }

  function ClassTargets(classes: seq<PsiClass>, beanName: string): seq<BeanTarget> {
    if classes == [] then []
    else ClassTargets(classes[..|classes| - 1], beanName) + [ClassTarget(classes[|classes| - 1], beanName)]
  }

  function FallbackTargetsOver(names: seq<string>, p: Project, beanName: string): seq<BeanTarget> {
    if names == [] then []
    else
      var simple := names[|names| - 1];
      FallbackTargetsOver(names[..|names| - 1], p, beanName)
      + (if Decapitalize(simple) == beanName then ClassTargets(ClassesByName(p, simple), beanName) else [])
  }

  /** Step 3: every class whose decapitalised short name is the bean name. */
  function FallbackStep(p: Project, beanName: string): seq<BeanTarget> {
    FallbackTargetsOver(p.allClassNames, p, beanName)
  }

  /** The whole chain: steps 1 and 2 in order, and step 3 only when they found nothing. */
  function ResolveBeanSpec(p: Project, beanName: string): seq<BeanTarget> {
    var annotated := FactoryStep(p, beanName) + StereotypeStep(p, beanName);
    if |annotated| > 0 then annotated else FallbackStep(p, beanName)
  }

  // ---------------------------------------------------------------- one more element of a loop

  lemma {:induction false} AppendAssociative(a: seq<BeanTarget>, b: seq<BeanTarget>, c: seq<BeanTarget>)
    ensures (a + b) + c == a + (b + c)
  {
  }

  lemma {:induction false} FactoryTargetsInStep(confs: seq<PsiClass>, i: nat, beanName: string)
    requires i < |confs|
    ensures FactoryTargetsIn(confs[..i + 1], beanName)
            == FactoryTargetsIn(confs[..i], beanName) + FactoryTargetsOf(confs[i].methods, beanName)
  {
    assert confs[..i + 1][..i] == confs[..i];
  }

  lemma {:induction false} StereotypeTargetsInStep(classes: seq<PsiClass>, j: nat, annoFqn: string, beanName: string)
    requires j < |classes|
    ensures StereotypeTargetsIn(classes[..j + 1], annoFqn, beanName)
            == StereotypeTargetsIn(classes[..j], annoFqn, beanName) + StereotypeTarget(classes[j], annoFqn, beanName)
  {
    assert classes[..j + 1][..j] == classes[..j];
  }

  lemma {:induction false} StereotypeTargetsOverStep(fqns: seq<string>, k: nat, p: Project, beanName: string)
    requires k < |fqns|
    ensures StereotypeTargetsOver(fqns[..k + 1], p, beanName)
            == StereotypeTargetsOver(fqns[..k], p, beanName) + StereotypeTargetsFor(p, fqns[k], beanName)
  {
    assert fqns[..k + 1][..k] == fqns[..k];
  }

  lemma {:induction false} FallbackTargetsOverStep(names: seq<string>, i: nat, p: Project, beanName: string)
    requires i < |names|
    ensures FallbackTargetsOver(names[..i + 1], p, beanName)
            == FallbackTargetsOver(names[..i], p, beanName)
               + (if Decapitalize(names[i]) == beanName then ClassTargets(ClassesByName(p, names[i]), beanName) else [])
  {
    assert names[..i + 1][..i] == names[..i];
  }

  // ---------------------------------------------------------------- the resolver

  /** `resolveBean`: the three steps appended to one result list, returning early after step 2. */
  method ResolveBean(p: Project, beanName: string) returns (results: seq<BeanTarget>)
    ensures results == ResolveBeanSpec(p, beanName)
  {
    results := [];
    results := AppendFactoryTargets(p, beanName, results);
    results := AppendStereotypeTargets(p, beanName, results);
    if |results| > 0 {
      return;
    }
    results := AppendFallbackTargets(p, beanName, results);
  }

  /** Step 1: the `forEach` over the configuration classes. */
  method AppendFactoryTargets(p: Project, beanName: string, acc: seq<BeanTarget>) returns (results: seq<BeanTarget>)
    ensures results == acc + FactoryStep(p, beanName)
  {
    results := acc;
    if FactoryAnnotationsFound(p) {
      var confs := SearchPsiClasses(p, CONFIGURATION);
      var i := 0;
      while i < |confs|
        invariant 0 <= i <= |confs|
        invariant results == acc + FactoryTargetsIn(confs[..i], beanName)
      {
        results := AppendMethodTargets(confs[i].methods, beanName, results);
        FactoryTargetsInStep(confs, i, beanName);
        AppendAssociative(acc, FactoryTargetsIn(confs[..i], beanName), FactoryTargetsOf(confs[i].methods, beanName));
        i := i + 1;
      }
      assert confs[..i] == confs;
    }
  }

  /** Step 1, inner `forEach` over the `@Bean` methods of one configuration class. */
  method AppendMethodTargets(ms: seq<PsiMethod>, beanName: string, acc: seq<BeanTarget>) returns (results: seq<BeanTarget>)
    ensures results == acc + FactoryTargetsOf(ms, beanName)
  {
    results := acc;
    var j := 0;
    while j < |ms|
      invariant 0 <= j <= |ms|
      invariant results == acc + FactoryTargetsOf(ms[..j], beanName)
    {
      results := AppendIfFactoryBean(ms[j], beanName, results);
      assert ms[..j + 1][..j] == ms[..j];
      AppendAssociative(acc, FactoryTargetsOf(ms[..j], beanName), FactoryTarget(ms[j], beanName));
      j := j + 1;
    }
    assert ms[..j] == ms;
  }

  /** The body of that `forEach`, the `@Bean` filter included: one method, added when it declares `beanName`. */
  method AppendIfFactoryBean(m: PsiMethod, beanName: string, acc: seq<BeanTarget>) returns (results: seq<BeanTarget>)
    ensures results == acc + FactoryTarget(m, beanName)
  {
    results := acc;
    if HasBeanAnnotation(m) {
      var name := FactoryBeanName(m);
      if name == beanName {
        results := results + [BeanTarget(MethodElement(m.id), name, m.returnClass)];
      }
    }
  }

  /** Step 2: the `for` over `STEREOTYPES`. */
  method AppendStereotypeTargets(p: Project, beanName: string, acc: seq<BeanTarget>) returns (results: seq<BeanTarget>)
    ensures results == acc + StereotypeStep(p, beanName)
  {
    results := AppendStereotypeTargetsOver(STEREOTYPES, p, beanName, acc);
  }

  /** The loop over stereotype annotations, skipping those that cannot be found. */
  method AppendStereotypeTargetsOver(fqns: seq<string>, p: Project, beanName: string, acc: seq<BeanTarget>)
    returns (results: seq<BeanTarget>)
    ensures results == acc + StereotypeTargetsOver(fqns, p, beanName)
  {
    results := acc;
    var k := 0;
    while k < |fqns|
      invariant 0 <= k <= |fqns|
      invariant results == acc + StereotypeTargetsOver(fqns[..k], p, beanName)
    {
      var annoFqn := fqns[k];
      StereotypeTargetsOverStep(fqns, k, p, beanName);
      ghost var done := StereotypeTargetsOver(fqns[..k], p, beanName);
      if annoFqn in p.foundClasses {
        results := AppendClassesWithStereotype(SearchPsiClasses(p, annoFqn), annoFqn, beanName, results);
        AppendAssociative(acc, done, StereotypeTargetsFor(p, annoFqn, beanName));
      } else {
        assert done + StereotypeTargetsFor(p, annoFqn, beanName) == done;
      }
      k := k + 1;
    }
    assert fqns[..k] == fqns;
  }

  /** Step 2, inner `forEach` over the classes carrying one stereotype. */
  method AppendClassesWithStereotype(classes: seq<PsiClass>, annoFqn: string, beanName: string, acc: seq<BeanTarget>)
    returns (results: seq<BeanTarget>)
    ensures results == acc + StereotypeTargetsIn(classes, annoFqn, beanName)
  {
    results := acc;
    var j := 0;
    while j < |classes|
      invariant 0 <= j <= |classes|
      invariant results == acc + StereotypeTargetsIn(classes[..j], annoFqn, beanName)
    {
      results := AppendIfStereotypeNamed(classes[j], annoFqn, beanName, results);
      StereotypeTargetsInStep(classes, j, annoFqn, beanName);
      AppendAssociative(acc, StereotypeTargetsIn(classes[..j], annoFqn, beanName), StereotypeTarget(classes[j], annoFqn, beanName));
      j := j + 1;
    }
    assert classes[..j] == classes;
  }

  /** The body of that `forEach`: one class, added when one of its names is `beanName`. */
  method AppendIfStereotypeNamed(cls: PsiClass, annoFqn: string, beanName: string, acc: seq<BeanTarget>)
    returns (results: seq<BeanTarget>)
    ensures results == acc + StereotypeTarget(cls, annoFqn, beanName)
  {
    results := acc;
    var names := StereotypeNames(cls, annoFqn);
    if beanName in names {
      results := results + [BeanTarget(ClassElement(cls.ref), beanName, Some(cls.ref))];
    }
  }

  /** Step 3: the scan of every short class name. */
  method AppendFallbackTargets(p: Project, beanName: string, acc: seq<BeanTarget>) returns (results: seq<BeanTarget>)
    ensures results == acc + FallbackStep(p, beanName)
  {
    results := acc;
    var names := p.allClassNames;
    var i := 0;
    while i < |names|
      invariant 0 <= i <= |names|
      invariant results == acc + FallbackTargetsOver(names[..i], p, beanName)
    {
      var simple := names[i];
      FallbackTargetsOverStep(names, i, p, beanName);
      ghost var done := FallbackTargetsOver(names[..i], p, beanName);
      if Decapitalize(simple) == beanName {
        results := AppendClassesNamed(ClassesByName(p, simple), beanName, results);
        AppendAssociative(acc, done, ClassTargets(ClassesByName(p, simple), beanName));
      } else {
        assert FallbackTargetsOver(names[..i + 1], p, beanName) == done + [];
      }
      i := i + 1;
    }
    assert names[..i] == names;
  }

  /** Step 3, inner `forEach` over the classes with one short name. */
  method AppendClassesNamed(classes: seq<PsiClass>, beanName: string, acc: seq<BeanTarget>) returns (results: seq<BeanTarget>)
    ensures results == acc + ClassTargets(classes, beanName)
  {
    results := acc;
    var j := 0;
    while j < |classes|
      invariant 0 <= j <= |classes|
      invariant results == acc + ClassTargets(classes[..j], beanName)
    {
      var cls := classes[j];
      results := results + [BeanTarget(ClassElement(cls.ref), beanName, Some(cls.ref))];
      assert classes[..j + 1][..j] == classes[..j];
      j := j + 1;
    }
    assert classes[..j] == classes;
  }

  // ---------------------------------------------------------------- what each step finds

  /** Method `m` declares bean `beanName`, and `t` is the target step 1 makes of it. */
  predicate FactoryMethodMatch(m: PsiMethod, beanName: string, t: BeanTarget) {
    HasBeanAnnotation(m) && FactoryBeanName(m) == beanName
    && t == BeanTarget(MethodElement(m.id), beanName, m.returnClass)
  }

  /** Class `cls`, found under stereotype `annoFqn`, is known as `beanName`, and `t` is its target. */
  predicate StereotypeClassMatch(cls: PsiClass, annoFqn: string, beanName: string, t: BeanTarget) {
    beanName in StereotypeNames(cls, annoFqn) && t == ClassTarget(cls, beanName)
  }

  ghost predicate FactoryMatch(p: Project, beanName: string, t: BeanTarget) {
    FactoryAnnotationsFound(p)
    && exists conf, m :: conf in SearchPsiClasses(p, CONFIGURATION) && m in conf.methods && FactoryMethodMatch(m, beanName, t)
  }

  ghost predicate StereotypeMatch(p: Project, beanName: string, t: BeanTarget) {
    exists annoFqn, cls ::
      annoFqn in STEREOTYPES && annoFqn in p.foundClasses && cls in SearchPsiClasses(p, annoFqn)
      && StereotypeClassMatch(cls, annoFqn, beanName, t)
  }

  ghost predicate FallbackMatch(p: Project, beanName: string, t: BeanTarget) {
    exists simple, cls ::
      simple in p.allClassNames && Decapitalize(simple) == beanName && cls in ClassesByName(p, simple)
      && t == ClassTarget(cls, beanName)
  }

  /** Some annotation-driven step (1 or 2) has a match. */
  ghost predicate AnnotatedMatchExists(p: Project, beanName: string) {
    exists t :: FactoryMatch(p, beanName, t) || StereotypeMatch(p, beanName, t)
  }

  lemma {:induction false} FactoryTargetsOfMembers(ms: seq<PsiMethod>, beanName: string)
    ensures forall t :: t in FactoryTargetsOf(ms, beanName) <==> exists m :: m in ms && FactoryMethodMatch(m, beanName, t)
    decreases |ms|
  {
    if ms != [] {
      var init, last := ms[..|ms| - 1], ms[|ms| - 1];
      FactoryTargetsOfMembers(init, beanName);
      assert ms == init + [last];
      forall t | t in FactoryTargetsOf(ms, beanName)
        ensures exists m :: m in ms && FactoryMethodMatch(m, beanName, t)
      {
        if t !in FactoryTargetsOf(init, beanName) {
          assert FactoryMethodMatch(last, beanName, t);
        }
      }
    }
  }

  lemma {:induction false} FactoryTargetsInMembers(confs: seq<PsiClass>, beanName: string)
    ensures forall t :: t in FactoryTargetsIn(confs, beanName) <==>
              exists conf, m :: conf in confs && m in conf.methods && FactoryMethodMatch(m, beanName, t)
    decreases |confs|
  {
    if confs != [] {
      var init, last := confs[..|confs| - 1], confs[|confs| - 1];
      FactoryTargetsInMembers(init, beanName);
      FactoryTargetsOfMembers(last.methods, beanName);
      assert confs == init + [last];
    }
  }

  /** Step 1 finds exactly the `@Bean` methods of configuration classes that declare the name. */
  lemma {:induction false} FactoryStepMembers(p: Project, beanName: string)
    ensures forall t :: t in FactoryStep(p, beanName) <==> FactoryMatch(p, beanName, t)
  {
    FactoryTargetsInMembers(SearchPsiClasses(p, CONFIGURATION), beanName);
  }

  lemma {:induction false} StereotypeTargetsInMembers(classes: seq<PsiClass>, annoFqn: string, beanName: string)
    ensures forall t :: t in StereotypeTargetsIn(classes, annoFqn, beanName) <==>
              exists cls :: cls in classes && StereotypeClassMatch(cls, annoFqn, beanName, t)
    decreases |classes|
  {
    if classes != [] {
      var init, last := classes[..|classes| - 1], classes[|classes| - 1];
      StereotypeTargetsInMembers(init, annoFqn, beanName);
      assert classes == init + [last];
      forall t | t in StereotypeTargetsIn(classes, annoFqn, beanName)
        ensures exists cls :: cls in classes && StereotypeClassMatch(cls, annoFqn, beanName, t)
      {
        if t !in StereotypeTargetsIn(init, annoFqn, beanName) {
          assert StereotypeClassMatch(last, annoFqn, beanName, t);
        }
      }
    }
  }

  lemma {:induction false} StereotypeTargetsOverMembers(fqns: seq<string>, p: Project, beanName: string)
    ensures forall t :: t in StereotypeTargetsOver(fqns, p, beanName) <==>
              exists annoFqn, cls ::
                annoFqn in fqns && annoFqn in p.foundClasses && cls in SearchPsiClasses(p, annoFqn)
                && StereotypeClassMatch(cls, annoFqn, beanName, t)
    decreases |fqns|
  {
    if fqns != [] {
      var init, last := fqns[..|fqns| - 1], fqns[|fqns| - 1];
      StereotypeTargetsOverMembers(init, p, beanName);
      StereotypeTargetsInMembers(SearchPsiClasses(p, last), last, beanName);
      assert fqns == init + [last];
    }
  }

  /** Step 2 finds exactly the stereotype classes known under the name. */
  lemma {:induction false} StereotypeStepMembers(p: Project, beanName: string)
    ensures forall t :: t in StereotypeStep(p, beanName) <==> StereotypeMatch(p, beanName, t)
  {
    StereotypeTargetsOverMembers(STEREOTYPES, p, beanName);
  }

  lemma {:induction false} ClassTargetsMembers(classes: seq<PsiClass>, beanName: string)
    ensures forall t :: t in ClassTargets(classes, beanName) <==> exists cls :: cls in classes && t == ClassTarget(cls, beanName)
    decreases |classes|
  {
    if classes != [] {
      var init, last := classes[..|classes| - 1], classes[|classes| - 1];
      ClassTargetsMembers(init, beanName);
      assert classes == init + [last];
    }
  }

  lemma {:induction false} FallbackTargetsOverMembers(names: seq<string>, p: Project, beanName: string)
    ensures forall t :: t in FallbackTargetsOver(names, p, beanName) <==>
              exists simple, cls ::
                simple in names && Decapitalize(simple) == beanName && cls in ClassesByName(p, simple)
                && t == ClassTarget(cls, beanName)
    decreases |names|
  {
    if names != [] {
      var init, last := names[..|names| - 1], names[|names| - 1];
      FallbackTargetsOverMembers(init, p, beanName);
      ClassTargetsMembers(ClassesByName(p, last), beanName);
      assert names == init + [last];
    }
  }

  /** Step 3 finds exactly the classes whose decapitalised short name is the bean name. */
  lemma {:induction false} FallbackStepMembers(p: Project, beanName: string)
    ensures forall t :: t in FallbackStep(p, beanName) <==> FallbackMatch(p, beanName, t)
  {
    FallbackTargetsOverMembers(p.allClassNames, p, beanName);
  }

  // ---------------------------------------------------------------- what the chain promises

  /**
   * The result holds every factory and stereotype match, and the fallback matches only
   * when neither annotation-driven step matched anything.
   */
  lemma {:induction false} ResolveBeanMembers(p: Project, beanName: string)
    ensures forall t :: t in ResolveBeanSpec(p, beanName) <==>
              || FactoryMatch(p, beanName, t)
              || StereotypeMatch(p, beanName, t)
              || (!AnnotatedMatchExists(p, beanName) && FallbackMatch(p, beanName, t))
  {
    FactoryStepMembers(p, beanName);
    StereotypeStepMembers(p, beanName);
    FallbackStepMembers(p, beanName);
    var annotated := FactoryStep(p, beanName) + StereotypeStep(p, beanName);
    if |annotated| > 0 {
      assert annotated[0] in annotated;
    }
  }

  /** The result is empty exactly when no step has a match. */
  lemma {:induction false} ResolveBeanEmpty(p: Project, beanName: string)
    ensures ResolveBeanSpec(p, beanName) == [] <==>
              !AnnotatedMatchExists(p, beanName) && !exists t :: FallbackMatch(p, beanName, t)
  {
    ResolveBeanMembers(p, beanName);
    var r := ResolveBeanSpec(p, beanName);
    if r != [] {
      assert r[0] in r;
    }
  }

  /** Every target carries the queried name. */
  lemma {:induction false} ResolveBeanNamesQuery(p: Project, beanName: string)
    ensures forall t :: t in ResolveBeanSpec(p, beanName) ==> t.beanName == beanName
  {
    ResolveBeanMembers(p, beanName);
  }

  /** A class target designates the class itself as the bean class. */
  lemma {:induction false} ResolveBeanClassTargets(p: Project, beanName: string)
    ensures forall t :: t in ResolveBeanSpec(p, beanName) && t.psiElement.ClassElement? ==>
              t.beanClass == Some(t.psiElement.cls)
  {
    ResolveBeanMembers(p, beanName);
  }

  /** Factory-method targets come before every class target. */
  lemma {:induction false} ResolveBeanMethodsFirst(p: Project, beanName: string)
    ensures var r := ResolveBeanSpec(p, beanName);
            forall i, j :: 0 <= i < j < |r| && r[j].psiElement.MethodElement? ==> r[i].psiElement.MethodElement?
  {
    FactoryStepMembers(p, beanName);
    StereotypeStepMembers(p, beanName);
    FallbackStepMembers(p, beanName);
    var f, s := FactoryStep(p, beanName), StereotypeStep(p, beanName);
    var r := ResolveBeanSpec(p, beanName);
    if |f + s| > 0 {
      forall k | 0 <= k < |r| ensures r[k].psiElement.MethodElement? <==> k < |f| {
        if k < |f| {
          assert r[k] == f[k];
          assert r[k] in f;
        } else {
          assert r[k] == s[k - |f|];
          assert r[k] in s;
        }
      }
    } else {
      forall k | 0 <= k < |r| ensures r[k].psiElement.ClassElement? {
        assert r[k] in FallbackStep(p, beanName);
      }
    }
  }

  /** The stereotype loop over two lists one after the other finds the first list's targets, then the second's. */
  lemma {:induction false} StereotypeTargetsOverAppend(xs: seq<string>, ys: seq<string>, p: Project, beanName: string)
    ensures StereotypeTargetsOver(xs + ys, p, beanName)
            == StereotypeTargetsOver(xs, p, beanName) + StereotypeTargetsOver(ys, p, beanName)
    decreases |ys|
  {
    if ys == [] {
      assert xs + ys == xs;
    } else {
      var init, last := ys[..|ys| - 1], ys[|ys| - 1];
      StereotypeTargetsOverAppend(xs, init, p, beanName);
      assert (xs + ys)[..|xs + ys| - 1] == xs + init;
      assert (xs + ys)[|xs + ys| - 1] == last;
      AppendAssociative(StereotypeTargetsOver(xs, p, beanName), StereotypeTargetsOver(init, p, beanName),
                        StereotypeTargetsFor(p, last, beanName));
    }
  }

  /** Over a single stereotype, the loop finds exactly that stereotype's targets. */
  lemma {:induction false} StereotypeTargetsOverSingle(fqn: string, p: Project, beanName: string)
    ensures StereotypeTargetsOver([fqn], p, beanName) == StereotypeTargetsFor(p, fqn, beanName)
  {
    assert [fqn][..0] == [];
  }

  /**
   * Step 2 visits the stereotypes in the order of `STEREOTYPES`: everything found for the
   * first `k` of them comes before everything found for the rest.
   */
  lemma {:induction false} StereotypeStepOrder(p: Project, beanName: string, k: nat)
    requires k <= |STEREOTYPES|
    ensures StereotypeStep(p, beanName)
            == StereotypeTargetsOver(STEREOTYPES[..k], p, beanName) + StereotypeTargetsOver(STEREOTYPES[k..], p, beanName)
  {
    StereotypeTargetsOverAppend(STEREOTYPES[..k], STEREOTYPES[k..], p, beanName);
    assert STEREOTYPES[..k] + STEREOTYPES[k..] == STEREOTYPES;
  }

  // ---------------------------------------------------------------- methods of a bean class

  /** `resolveMethod`: the methods of the class, inherited ones included, with the given name, in order. */
  function ResolveMethod(p: Project, beanClass: ClassRef, methodName: string): (r: seq<PsiMethod>)
    ensures forall m :: m in r <==> m in AllMethods(p, beanClass) && m.name == methodName
    ensures |r| <= |AllMethods(p, beanClass)|
  {
    MethodsNamedLength(AllMethods(p, beanClass), methodName);
    FindMethodsByName(p, beanClass, methodName)
  }

  lemma {:induction false} MethodsNamedLength(ms: seq<PsiMethod>, name: string)
    ensures |MethodsNamed(ms, name)| <= |ms|
  {
    if ms != [] {
      MethodsNamedLength(ms[1..], name);
    }
  }
}
