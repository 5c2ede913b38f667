/**
 * The reference on a `.bean(...)` first argument: it spans the literal without its first
 * and last character, resolves to the first bean target, offers no variants, and renames
 * by writing a fresh quoted literal.
 */
module BeanNameReference {
  import opened Wrappers
  import opened IdentText
  import opened Psi
  import opened SpringLikeBeanResolver

  /** The range inside the element, relative to its start: the text minus the first and last character. */
  function NameRange(textLength: nat): (r: TextRange)
    ensures r.startOffset == 1 && r.endOffset == textLength - 1
    ensures textLength >= 2 ==> r.Length() == textLength - 2
  {
    TextRange(1, textLength - 1)
  }

  /** `resolve`: the element of the first target, if the bean resolves at all. */
  function Resolve(p: Project, beanName: string): (r: Option<Element>)
    ensures r.None? <==> ResolveBeanSpec(p, beanName) == []
    ensures r.Some? ==> exists t :: t in ResolveBeanSpec(p, beanName) && t.psiElement == r.value
    ensures r.Some? ==> ResolveBeanSpec(p, beanName) != [] && r.value == ResolveBeanSpec(p, beanName)[0].psiElement
  {
    var targets := ResolveBeanSpec(p, beanName);
    if targets == [] then None else
      assert targets[0] in targets;
      Some(targets[0].psiElement)
  }

  /**
   * When any `@Bean` factory method declares the name, the reference goes to a method:
   * the first factory target, ahead of every stereotype and fallback target.
   */
  lemma {:induction false} ResolvePrefersFactoryMethods(p: Project, beanName: string, t: BeanTarget)
    requires FactoryMatch(p, beanName, t)
    ensures Resolve(p, beanName).Some? && Resolve(p, beanName).value.MethodElement?
    ensures FactoryStep(p, beanName) != [] && Resolve(p, beanName).value == FactoryStep(p, beanName)[0].psiElement
  {
    ResolveBeanMembers(p, beanName);
    FactoryStepMembers(p, beanName);
    var targets := ResolveBeanSpec(p, beanName);
    var f := FactoryStep(p, beanName);
    assert t in f;
    assert targets == f + StereotypeStep(p, beanName);
    assert targets[0] == f[0] && f[0] in f;
  }

  /** `getVariants`: nothing is offered. */
  function Variants(): (r: seq<string>)
    ensures |r| == 0
  {
    []
  }

  /** `handleElementRename`: the text of the literal that replaces the element. */
  function RenameText(newName: string): (r: string)
    ensures |r| == |newName| + 2 && r[0] == '"' && r[|r| - 1] == '"'
  {
    "\"" + newName + "\""
  }

  /** After a rename, the reference range covers exactly the new name. */
  lemma {:induction false} RenameRangeCoversName(newName: string)
    ensures var text := RenameText(newName);
            var r := NameRange(|text|);
            text[r.startOffset..r.endOffset] == newName
  {
  }
}
