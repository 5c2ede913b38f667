/**
 * Highlighting of navigable `.bean(...)` arguments: the bean name (without quotes) when
 * the bean resolves, and the leading method name of the second argument when the bean
 * class has a public method of that name. Annotations go into a holder that only grows.
 */
module CamelBeanNavigationAnnotator {
  import opened Wrappers
  import opened IdentText
  import opened Psi
  import opened SpringLikeBeanResolver
  import opened CamelCallUtils
  import CamelBeanReferenceProvider
  import BeanNameReference
  import BeanMethodReference

  // ---------------------------------------------------------------- the method name

  /** `extractLeadingIdentifier`, the `dropWhile` variant: the identifier after leading whitespace, or empty. */
  function ExtractLeadingIdentifier(s: string): (r: string)
    ensures r == [] || IsIdentifier(r)
    ensures |r| <= |DropWhileWhitespace(s)| && r == DropWhileWhitespace(s)[..|r|]
    ensures r != [] ==> |r| == |DropWhileWhitespace(s)| || !IsIdentPart(DropWhileWhitespace(s)[|r|])
  {
    var trimmed := DropWhileWhitespace(s);
    trimmed[..IdentMatchLength(trimmed)]
  }

  /** Nothing longer than the extracted identifier is an identifier prefix of the trimmed text. */
  lemma {:induction false} ExtractIsLongestIdentifier(s: string, k: nat)
    requires k <= |DropWhileWhitespace(s)| && IsIdentifier(DropWhileWhitespace(s)[..k])
    ensures k <= |ExtractLeadingIdentifier(s)|
  {
    IdentMatchIsLongest(DropWhileWhitespace(s), k);
  }

  /** The annotator and the method reference extract the same name. */
  lemma {:induction false} ExtractAgreesWithReference(s: string)
    ensures ExtractLeadingIdentifier(s) == BeanMethodReference.ExtractLeadingIdentifier(s)
  {
    TrimStartIsDropWhile(s);
  }

  // ---------------------------------------------------------------- absolute ranges

  /** The literal's own absolute range. */
  function LiteralRange(text: string, base: int): (r: TextRange)
    ensures r.Length() == |text|
  {
    TextRange(base, base + |text|)
  }

  /** `stringInnerRangeAbsolute`: the text between the first and the last quote, else the whole literal. */
  function StringInnerRangeAbsolute(text: string, base: int): (r: TextRange)
    ensures !HasQuotePair(text) ==> r == LiteralRange(text, base)
    ensures HasQuotePair(text) ==>
              && Within(r, base + IndexOf(text, '"') + 1, base + LastIndexOf(text, '"'))
              && text[r.startOffset - base..r.endOffset - base] == QuotedInner(text)
    ensures Within(r, base, base + |text|)
  {
    var q1 := IndexOf(text, '"');
    var q2 := LastIndexOf(text, '"');
    if q1 >= 0 && q2 > q1 then TextRange(base + q1 + 1, base + q2)
    else LiteralRange(text, base)
  }

  /**
   * For a literal whose text starts and ends with a quote, the highlight is the bean-name
   * reference's range, made absolute.
   */
  lemma {:induction false} InnerRangeIsNameReferenceRange(text: string, base: int)
    requires |text| >= 2 && text[0] == '"' && text[|text| - 1] == '"'
    ensures StringInnerRangeAbsolute(text, base) == BeanNameReference.NameRange(|text|).Shift(base)
  {
    assert IndexOf(text, '"') == 0;
    assert LastIndexOf(text, '"') == |text| - 1;
  }

  /**
   * `methodNameRangeAbsolute`: past the opening quote and the leading whitespace, over the
   * identifier; the whole literal when there is no quote pair or no identifier.
   */
  function MethodNameRangeAbsolute(full: string, base: int): (r: TextRange)
    ensures !HasQuotePair(full) ==> r == LiteralRange(full, base)
    ensures HasQuotePair(full) && !BeanMethodReference.HasLeadingIdentifier(QuotedInner(full)) ==> r == LiteralRange(full, base)
    ensures Within(r, base, base + |full|)
  {
    var q1 := IndexOf(full, '"');
    var q2 := LastIndexOf(full, '"');
    if q1 == -1 || q2 <= q1 then LiteralRange(full, base)
    else
      var inner := full[q1 + 1..q2];
      var trimmed := DropWhileWhitespace(inner);
      var leadingWs := |inner| - |trimmed|;
      var m := IdentMatchLength(trimmed);
      if m == 0 then LiteralRange(full, base)
      else
        var start := base + q1 + 1 + leadingWs;
        TextRange(start, start + m)
  }

  /** With an identifier, the annotator highlights exactly the method reference's range, made absolute. */
  lemma {:induction false} MethodRangeIsReferenceRange(full: string, base: int)
    requires HasQuotePair(full) && BeanMethodReference.HasLeadingIdentifier(QuotedInner(full))
    ensures MethodNameRangeAbsolute(full, base) == BeanMethodReference.ComputeNameTextRange(full).Shift(base)
  {
    TrimStartIsDropWhile(QuotedInner(full));
  }

  /** The method reference's range covers exactly the name this annotator extracts, and no quote. */
  lemma {:induction false} ReferenceRangeCoversName(full: string)
    requires HasQuotePair(full) && BeanMethodReference.HasLeadingIdentifier(QuotedInner(full))
    ensures var rr := BeanMethodReference.ComputeNameTextRange(full);
            && Within(rr, 0, |full|)
            && full[rr.startOffset..rr.endOffset] == ExtractLeadingIdentifier(QuotedInner(full))
            && '"' !in ExtractLeadingIdentifier(QuotedInner(full))
  {
    BeanMethodReference.NameRangeCoversIdentifier(full);
    ExtractAgreesWithReference(QuotedInner(full));
  }

  // ---------------------------------------------------------------- what gets highlighted

  /** `findMethodsByName(name, true).any { it is public }`. */
  predicate HasPublicMethodNamed(p: Project, c: ClassRef, name: string) {
    exists i :: 0 <= i < |FindMethodsByName(p, c, name)| && FindMethodsByName(p, c, name)[i].isPublic
  }

  /** Some method of that name, inherited ones included, is public. */
  lemma {:induction false} HasPublicMethodNamedMeaning(p: Project, c: ClassRef, name: string)
    ensures HasPublicMethodNamed(p, c, name) <==> exists m :: m in AllMethods(p, c) && m.isPublic && m.name == name
  {
    var found := FindMethodsByName(p, c, name);
    if exists m :: m in AllMethods(p, c) && m.isPublic && m.name == name {
      var m :| m in AllMethods(p, c) && m.isPublic && m.name == name;
      assert m in found;
      var i :| 0 <= i < |found| && found[i] == m;
    }
    if HasPublicMethodNamed(p, c, name) {
      var i :| 0 <= i < |found| && found[i].isPublic;
      assert found[i] in found;
    }
  }

  /** The bean class for a second argument: the first argument's `X.class`, else the folded bean name's first target. */
  function SecondArgBeanClass(p: Project, t: Tree, n: nat): Option<ClassRef>
    requires WellFormed(t) && n < |t| && FindCamelBeanCall(t, n).Some?
  {
    BeanClassFromClassLiteral(t, n).OrElse(
      CamelBeanReferenceProvider.ResolveBeanClassFromFirstArg(p, t, FindCamelBeanCall(t, n).value.call))
  }

  /** `annotate`, as a function: the range highlighted for node `n`, if any. */
  function Highlight(p: Project, t: Tree, n: nat): Option<TextRange>
    requires WellFormed(t) && n < |t|
  {
    if p.dumb || !IsLiteral(t, n) || !IsStringLiteralOfBeanCall(t, n) then None
    else if IsFirstArg(t, n) then
      var beanName := LiteralString(t, n);
      if beanName.None? then None
      else if ResolveBeanSpec(p, beanName.value) != [] then Some(StringInnerRangeAbsolute(t[n].text, t[n].startOffset))
      else None
    else if IsSecondArg(t, n) then
      var methodSpec := LiteralString(t, n);
      if methodSpec.None? then None
      else
        var beanClass := SecondArgBeanClass(p, t, n);
        if beanClass.None? then None
        else
          var methodName := ExtractLeadingIdentifier(methodSpec.value);
          if methodName == [] then None
          else if HasPublicMethodNamed(p, beanClass.value, methodName) then
            Some(MethodNameRangeAbsolute(t[n].text, t[n].startOffset))
          else None
    else None
  }

  /** Receives the annotations; `highlight` appends one silent annotation with the navigable attributes. */
  class AnnotationHolder {
    var ranges: seq<TextRange>

    constructor ()
      ensures ranges == []
    {
      ranges := [];
    }

    method NewSilentAnnotation(range: TextRange)
      modifies this
      ensures ranges == old(ranges) + [range]
    {
      ranges := ranges + [range];
    }
  }

  /** `annotate`: the guard chain with early returns, adding at most one annotation. */
  method Annotate(p: Project, t: Tree, n: nat, holder: AnnotationHolder)
    requires WellFormed(t) && n < |t|
    modifies holder
    ensures var h := Highlight(p, t, n);
            holder.ranges == old(holder.ranges) + (if h.Some? then [h.value] else [])
  {
    if p.dumb { return; }
    if !IsLiteral(t, n) { return; }
    if !IsStringLiteralOfBeanCall(t, n) { return; }
    var call := FindCamelBeanCall(t, n);
    if call.None? { return; }

    if IsFirstArg(t, n) {
      var beanName := LiteralString(t, n);
      if beanName.None? { return; }
      var targets := SpringLikeBeanResolver.ResolveBean(p, beanName.value);
      if |targets| > 0 {
        holder.NewSilentAnnotation(StringInnerRangeAbsolute(t[n].text, t[n].startOffset));
      }
      return;
    }

    if IsSecondArg(t, n) {
      var methodSpec := LiteralString(t, n);
      if methodSpec.None? { return; }
      var beanClass := BeanClassFromClassLiteral(t, n);
      if beanClass.None? {
        beanClass := CamelBeanReferenceProvider.ResolveBeanClassFromFirstArg(p, t, call.value.call);
      }
      if beanClass.None? { return; }
      var methodName := ExtractLeadingIdentifier(methodSpec.value);
      if methodName == [] { return; }
      if HasPublicMethodNamed(p, beanClass.value, methodName) {
        holder.NewSilentAnnotation(MethodNameRangeAbsolute(t[n].text, t[n].startOffset));
      }
    }
  }

  /** Nothing is highlighted while indexing, nor outside the literal arguments of a `.bean` call. */
  lemma {:induction false} NoHighlightOutsideBeanArguments(p: Project, t: Tree, n: nat)
    requires WellFormed(t) && n < |t|
    ensures p.dumb ==> Highlight(p, t, n).None?
    ensures !(IsFirstArg(t, n) || IsSecondArg(t, n)) ==> Highlight(p, t, n).None?
  {
  }

  /** Every highlight lies inside the literal's own range. */
  lemma {:induction false} HighlightWithinLiteral(p: Project, t: Tree, n: nat)
    requires WellFormed(t) && n < |t|
    ensures Highlight(p, t, n).Some? ==>
              Within(Highlight(p, t, n).value, TextRangeOf(t, n).startOffset, TextRangeOf(t, n).endOffset)
  {
  }

  /** A first-argument literal is highlighted exactly when it is a string and the bean resolves. */
  lemma {:induction false} FirstArgHighlight(p: Project, t: Tree, n: nat)
    requires WellFormed(t) && n < |t| && !p.dumb && IsFirstArg(t, n)
    ensures Highlight(p, t, n).Some? <==>
              LiteralString(t, n).Some? && ResolveBeanSpec(p, LiteralString(t, n).value) != []
    ensures Highlight(p, t, n).Some? && HasQuotePair(t[n].text) ==>
              var r := Highlight(p, t, n).value;
              t[n].text[r.startOffset - t[n].startOffset..r.endOffset - t[n].startOffset] == QuotedInner(t[n].text)
  {
  }

  /**
   * A second-argument literal is highlighted exactly when it is a string, a bean class is
   * known (the class literal first, the resolved first argument second), its leading
   * identifier is nonempty, and the class has a public method of that name.
   */
  lemma {:induction false} SecondArgHighlight(p: Project, t: Tree, n: nat)
    requires WellFormed(t) && n < |t| && !p.dumb && IsSecondArg(t, n)
    ensures var spec := LiteralString(t, n);
            var cls := SecondArgBeanClass(p, t, n);
            Highlight(p, t, n).Some? <==>
              && spec.Some? && cls.Some?
              && ExtractLeadingIdentifier(spec.value) != []
              && exists m :: m in AllMethods(p, cls.value) && m.isPublic && m.name == ExtractLeadingIdentifier(spec.value)
  {
    SecondArgHighlightCondition(p, t, n);
    var spec := LiteralString(t, n);
    var cls := SecondArgBeanClass(p, t, n);
    if spec.Some? && cls.Some? {
      HasPublicMethodNamedMeaning(p, cls.value, ExtractLeadingIdentifier(spec.value));
    }
  }

  lemma {:induction false} SecondArgHighlightCondition(p: Project, t: Tree, n: nat)
    requires WellFormed(t) && n < |t| && !p.dumb && IsSecondArg(t, n)
    ensures var spec := LiteralString(t, n);
            var cls := SecondArgBeanClass(p, t, n);
            Highlight(p, t, n).Some? <==>
              && spec.Some? && cls.Some?
              && ExtractLeadingIdentifier(spec.value) != []
              && HasPublicMethodNamed(p, cls.value, ExtractLeadingIdentifier(spec.value))
  {
    FirstAndSecondExclusive(t, n);
  }

  /** A second-argument highlight is the method-name range of the literal, and the value's name is nonempty. */
  lemma {:induction false} SecondArgHighlightRange(p: Project, t: Tree, n: nat)
    requires WellFormed(t) && n < |t| && IsSecondArg(t, n) && Highlight(p, t, n).Some?
    ensures LiteralString(t, n).Some? && ExtractLeadingIdentifier(LiteralString(t, n).value) != []
    ensures Highlight(p, t, n).value == MethodNameRangeAbsolute(t[n].text, t[n].startOffset)
  {
    FirstAndSecondExclusive(t, n);
  }

  /** When the first argument is `X.class`, the second argument's bean class is `X`, whatever else resolves. */
  lemma {:induction false} ClassLiteralTakesPrecedence(p: Project, t: Tree, n: nat)
    requires WellFormed(t) && n < |t| && FindCamelBeanCall(t, n).Some?
    requires BeanClassFromClassLiteral(t, n).Some?
    ensures SecondArgBeanClass(p, t, n) == BeanClassFromClassLiteral(t, n)
  {
  }
}
