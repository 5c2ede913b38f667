/**
 * The reference on a `.bean(..., "method(...)")` second argument: it spans only the
 * leading identifier of the string, resolves to the first method of that name in the
 * bean class (inherited ones included), offers the distinct public method names, and
 * renames by replacing only the leading identifier.
 */
module BeanMethodReference {
  import opened Wrappers
  import opened IdentText
  import opened Psi

  // ---------------------------------------------------------------- the leading identifier

  /** `extractLeadingIdentifier`, the `trimStart` variant. */
  function ExtractLeadingIdentifier(s: string): string {
    var inner := TrimStart(s);
    inner[..IdentMatchLength(inner)]
  }

  /** `inner`, once its leading whitespace is dropped, starts with an identifier. */
  predicate HasLeadingIdentifier(inner: string) {
    IdentMatchLength(DropWhileWhitespace(inner)) > 0
  }

  /** What follows the leading identifier of `inner` (after its leading whitespace). */
  function RestAfterIdentifier(inner: string): (rest: string)
    ensures HasLeadingIdentifier(inner) ==> rest == [] || !IsIdentPart(rest[0])
  {
    var trimmedLeft := DropWhileWhitespace(inner);
    trimmedLeft[IdentMatchLength(trimmedLeft)..]
  }

  /** `replaceLeadingIdentifier`: swap the leading identifier for `newName`, keeping the rest. */
  function ReplaceLeadingIdentifier(inner: string, newName: string): string {
    if HasLeadingIdentifier(inner) then Spaces(LeadingWs(inner)) + newName + RestAfterIdentifier(inner)
    else newName
  }

  /**
   * Without a leading identifier the result is the new name alone; with one, the leading
   * whitespace becomes spaces, the identifier becomes `newName`, and the text after the
   * identifier is kept verbatim.
   */
  lemma {:induction false} ReplaceLeadingIdentifierParts(inner: string, newName: string)
    ensures !HasLeadingIdentifier(inner) ==> ReplaceLeadingIdentifier(inner, newName) == newName
    ensures HasLeadingIdentifier(inner) ==>
              var r := ReplaceLeadingIdentifier(inner, newName);
              var ws := LeadingWs(inner);
              var m := IdentMatchLength(DropWhileWhitespace(inner));
              && |r| == ws + |newName| + (|inner| - ws - m)
              && (forall i :: 0 <= i < ws ==> r[i] == ' ')
              && r[ws..ws + |newName|] == newName
              && r[ws + |newName|..] == DropWhileWhitespace(inner)[m..]
  {
    if HasLeadingIdentifier(inner) {
      ReplacedParts(inner, newName);
    }
  }

  lemma {:induction false} ReplacedParts(inner: string, newName: string)
    requires HasLeadingIdentifier(inner)
    ensures var r := ReplaceLeadingIdentifier(inner, newName);
            var ws := LeadingWs(inner);
            var m := IdentMatchLength(DropWhileWhitespace(inner));
            && |r| == ws + |newName| + (|inner| - ws - m)
            && (forall i :: 0 <= i < ws ==> r[i] == ' ')
            && r[ws..ws + |newName|] == newName
            && r[ws + |newName|..] == DropWhileWhitespace(inner)[m..]
  {
    var ws := LeadingWs(inner);
    var spaces, rest := Spaces(ws), RestAfterIdentifier(inner);
    assert ReplaceLeadingIdentifier(inner, newName) == spaces + newName + rest;
    ConcatSlices(spaces, newName, rest);
  }

  /** Whitespace, then an identifier that nothing can continue: the identifier is extracted. */
  lemma {:induction false} ExtractAfterWhitespace(ws: string, w: string, rest: string)
    requires forall i :: 0 <= i < |ws| ==> IsWhitespace(ws[i])
    requires IsIdentifier(w)
    requires rest == [] || !IsIdentPart(rest[0])
    ensures ExtractLeadingIdentifier(ws + w + rest) == w
  {
    TrimWhitespaceBeforeIdentifier(ws, w, rest);
    IdentMatchOfIdentifierThenStop(w, rest);
    assert (w + rest)[..|w|] == w;
  }

  /** Whitespace before an identifier is what `trimStart()` removes. */
  lemma {:induction false} TrimWhitespaceBeforeIdentifier(ws: string, w: string, rest: string)
    requires forall i :: 0 <= i < |ws| ==> IsWhitespace(ws[i])
    requires IsIdentifier(w)
    ensures TrimStart(ws + w + rest) == w + rest && DropWhileWhitespace(ws + w + rest) == w + rest
  {
    var t := ws + w + rest;
    TrimStartIsDropWhile(t);
    assert t == ws + (w + rest);
    assert (w + rest)[0] == w[0];
    DropWhitespacePrefix(ws, w + rest);
  }

  /** Whitespace, then an identifier that nothing can continue: only the identifier is replaced. */
  lemma {:induction false} ReplaceAfterWhitespace(ws: string, w: string, rest: string, newName: string)
    requires forall i :: 0 <= i < |ws| ==> IsWhitespace(ws[i])
    requires IsIdentifier(w)
    requires rest == [] || !IsIdentPart(rest[0])
    ensures ReplaceLeadingIdentifier(ws + w + rest, newName) == Spaces(|ws|) + newName + rest
  {
    var t := ws + w + rest;
    TrimWhitespaceBeforeIdentifier(ws, w, rest);
    IdentMatchOfIdentifierThenStop(w, rest);
    assert LeadingWs(t) == |ws|;
    assert RestAfterIdentifier(t) == rest;
  }

  /**
   * Rename round trip: after replacing, the leading identifier is the new name, because
   * the greedy match stopped where the old identifier could not continue.
   */
  lemma {:induction false} ReplaceRoundTrip(inner: string, newName: string)
    requires IsIdentifier(newName)
    ensures ExtractLeadingIdentifier(ReplaceLeadingIdentifier(inner, newName)) == newName
  {
    if HasLeadingIdentifier(inner) {
      RoundTripWithIdentifier(inner, newName);
    } else {
      RoundTripWithoutIdentifier(inner, newName);
    }
  }

  lemma {:induction false} RoundTripWithIdentifier(inner: string, newName: string)
    requires IsIdentifier(newName) && HasLeadingIdentifier(inner)
    ensures ExtractLeadingIdentifier(ReplaceLeadingIdentifier(inner, newName)) == newName
  {
    var spaces, rest := Spaces(LeadingWs(inner)), RestAfterIdentifier(inner);
    assert ReplaceLeadingIdentifier(inner, newName) == spaces + newName + rest;
    ExtractAfterWhitespace(spaces, newName, rest);
  }

  lemma {:induction false} RoundTripWithoutIdentifier(inner: string, newName: string)
    requires IsIdentifier(newName) && !HasLeadingIdentifier(inner)
    ensures ExtractLeadingIdentifier(ReplaceLeadingIdentifier(inner, newName)) == newName
  {
    assert ReplaceLeadingIdentifier(inner, newName) == newName;
    ExtractOfIdentifier(newName);
  }

  /** An identifier on its own names itself. */
  lemma {:induction false} ExtractOfIdentifier(w: string)
    requires IsIdentifier(w)
    ensures ExtractLeadingIdentifier(w) == w
  {
    assert [] + w + [] == w;
    ExtractAfterWhitespace([], w, []);
  }

  // ---------------------------------------------------------------- the reference range

  /**
   * The offsets `computeNameTextRange` computes inside the quoted text: past the leading
   * whitespace and over the identifier, or else the first character (if any).
   */
  function InnerNameRange(inner: string): (r: TextRange)
    ensures Within(r, 0, |inner|)
  {
    var m := IdentMatchLength(TrimStart(inner));
    var leadingWs := |inner| - |TrimStart(inner)|;
    var startInInner := if m > 0 then leadingWs else 0;
    var len := if m > 0 then m else (if |inner| < 1 then |inner| else 1);
    TextRange(startInInner, startInInner + len)
  }

  /** `computeNameTextRange`: the range of the method name inside the literal text. */
  function ComputeNameTextRange(full: string): (r: TextRange)
    ensures !HasQuotePair(full) ==> r == TextRange(1, |full| - 1)
    ensures HasQuotePair(full) ==> Within(r, IndexOf(full, '"') + 1, LastIndexOf(full, '"'))
  {
    var q1 := IndexOf(full, '"');
    var q2 := LastIndexOf(full, '"');
    if q1 == -1 || q2 <= q1 then TextRange(1, |full| - 1)
    else InnerNameRange(full[q1 + 1..q2]).Shift(q1 + 1)
  }

  /** An identifier contains no quote. */
  lemma {:induction false} IdentifierHasNoQuote(w: string)
    requires IsIdentifier(w)
    ensures '"' !in w
  {
  }

  /** A range inside the slice `s[a..b]`, moved by `a`, covers the same text of `s`. */
  lemma {:induction false} ShiftedSlice(s: string, a: nat, b: nat, ri: TextRange, r: TextRange)
    requires a <= b <= |s| && Within(ri, 0, b - a) && r == ri.Shift(a)
    ensures s[r.startOffset..r.endOffset] == s[a..b][ri.startOffset..ri.endOffset]
  {
    assert forall k :: 0 <= k < ri.Length() ==> s[a..b][ri.startOffset..ri.endOffset][k] == s[a + ri.startOffset + k];
  }

  lemma {:induction false} SliceOfSuffix(s: string, a: nat, m: nat)
    requires a + m <= |s|
    ensures s[a..][..m] == s[a..a + m]
  {
  }

  /** With an identifier, the inner range starts after the whitespace and covers exactly the identifier. */
  lemma {:induction false} InnerNameRangeCoversIdentifier(inner: string)
    requires HasLeadingIdentifier(inner)
    ensures var r := InnerNameRange(inner);
            && r.startOffset == LeadingWs(inner)
            && inner[r.startOffset..r.endOffset] == ExtractLeadingIdentifier(inner)
            && IsIdentifier(inner[r.startOffset..r.endOffset])
  {
    TrimStartIsDropWhile(inner);
    var trimmed := DropWhileWhitespace(inner);
    var ws := LeadingWs(inner);
    var m := IdentMatchLength(trimmed);
    assert InnerNameRange(inner) == TextRange(ws, ws + m);
    assert ExtractLeadingIdentifier(inner) == trimmed[..m];
    assert trimmed == inner[ws..];
    SliceOfSuffix(inner, ws, m);
  }

  /** With a quote pair, the range is the inner range moved past the first quote. */
  lemma {:induction false} NameRangeIsShiftedInnerRange(full: string)
    requires HasQuotePair(full)
    ensures ComputeNameTextRange(full) == InnerNameRange(QuotedInner(full)).Shift(IndexOf(full, '"') + 1)
  {
  }

  /** With a quote pair, the range selects in the literal what the inner range selects between the quotes. */
  lemma {:induction false} NameRangeIsInnerSlice(full: string)
    requires HasQuotePair(full)
    ensures var inner := QuotedInner(full);
            var ri := InnerNameRange(inner);
            var r := ComputeNameTextRange(full);
            && r.startOffset == IndexOf(full, '"') + 1 + ri.startOffset
            && full[r.startOffset..r.endOffset] == inner[ri.startOffset..ri.endOffset]
  {
    var q1, q2 := IndexOf(full, '"'), LastIndexOf(full, '"');
    var ri := InnerNameRange(QuotedInner(full));
    NameRangeIsShiftedInnerRange(full);
    assert QuotedInner(full) == full[q1 + 1..q2];
    ShiftedSlice(full, q1 + 1, q2, ri, ComputeNameTextRange(full));
  }

  /** With an identifier, the range starts after the whitespace and covers exactly the identifier. */
  lemma {:induction false} NameRangeCoversIdentifier(full: string)
    requires HasQuotePair(full) && HasLeadingIdentifier(QuotedInner(full))
    ensures var inner := QuotedInner(full);
            var r := ComputeNameTextRange(full);
            && r.startOffset == IndexOf(full, '"') + 1 + LeadingWs(inner)
            && full[r.startOffset..r.endOffset] == ExtractLeadingIdentifier(inner)
            && IsIdentifier(full[r.startOffset..r.endOffset])
            && '"' !in full[r.startOffset..r.endOffset]
  {
    var inner := QuotedInner(full);
    var ri := InnerNameRange(inner);
    NameRangeIsInnerSlice(full);
    InnerNameRangeCoversIdentifier(inner);
    IdentifierHasNoQuote(inner[ri.startOffset..ri.endOffset]);
  }

  /**
   * In a text block the inner text starts with the second quote of the opening delimiter,
   * so no identifier is found and the range covers that quote instead of the method name.
   */
  lemma {:induction false} RangeCanCoverQuote()
    ensures var full := "\"\"\"\nfoo\"\"\"";
            var r := ComputeNameTextRange(full);
            r.startOffset == 1 && r.endOffset == 2 && full[1] == '"'
  {
    var full := "\"\"\"\nfoo\"\"\"";
    assert IndexOf(full, '"') == 0;
    assert LastIndexOf(full, '"') == 9;
    assert full[1..9] == "\"\"\nfoo\"\"";
    assert IdentMatchLength(TrimStart(full[1..9])) == 0;
  }

  /**
   * The range `computeNameTextRange` is evidently meant to give: the same wherever the
   * inner text has an identifier or there is no quote pair; otherwise the first inner
   * character when it is not a quote, and an empty range after the first quote when it is.
   */
  function ComputeNameTextRangeIntended(full: string): (r: TextRange)
    ensures HasQuotePair(full) ==> Within(r, IndexOf(full, '"') + 1, LastIndexOf(full, '"'))
  {
    if !HasQuotePair(full) then ComputeNameTextRange(full)
    else
      var inner := QuotedInner(full);
      var start := IndexOf(full, '"') + 1;
      if HasLeadingIdentifier(inner) then ComputeNameTextRange(full)
      else if |inner| > 0 && inner[0] != '"' then TextRange(start, start + 1)
      else TextRange(start, start)
  }

  /**
   * With a quote pair, the intended range lies between the quotes and never covers a quote;
   * where the inner text has an identifier it is the range the code computes.
   */
  lemma {:induction false} IntendedRangeNeverCoversQuote(full: string)
    requires HasQuotePair(full)
    ensures var r := ComputeNameTextRangeIntended(full);
            && Within(r, IndexOf(full, '"') + 1, LastIndexOf(full, '"'))
            && '"' !in full[r.startOffset..r.endOffset]
    ensures HasLeadingIdentifier(QuotedInner(full)) ==> ComputeNameTextRangeIntended(full) == ComputeNameTextRange(full)
  {
    var inner := QuotedInner(full);
    var start := IndexOf(full, '"') + 1;
    var r := ComputeNameTextRangeIntended(full);
    if HasLeadingIdentifier(inner) {
      NameRangeCoversIdentifier(full);
    } else if |inner| > 0 && inner[0] != '"' {
      assert full[start] == inner[0];
      assert full[r.startOffset..r.endOffset] == [inner[0]];
    } else {
      assert full[r.startOffset..r.endOffset] == [];
    }
  }

  /** On the text block where the code's range covers a quote, the intended range is empty. */
  lemma {:induction false} IntendedRangeOnTextBlock()
    ensures ComputeNameTextRangeIntended("\"\"\"\nfoo\"\"\"") == TextRange(1, 1)
  {
    var full := "\"\"\"\nfoo\"\"\"";
    assert IndexOf(full, '"') == 0;
    assert LastIndexOf(full, '"') == 9;
    var inner := QuotedInner(full);
    assert inner[0] == '"' && !IsWhitespace(inner[0]);
    assert DropWhileWhitespace(inner) == inner;
    assert IdentMatchLength(inner) == 0;
  }

  /** Without an identifier, the range is the first character of the inner text, if any. */
  lemma {:induction false} NameRangeWithoutIdentifier(full: string)
    requires HasQuotePair(full) && !HasLeadingIdentifier(QuotedInner(full))
    ensures var q1 := IndexOf(full, '"');
            var inner := QuotedInner(full);
            ComputeNameTextRange(full) == TextRange(q1 + 1, q1 + 1 + (if |inner| < 1 then |inner| else 1))
  {
    TrimStartIsDropWhile(QuotedInner(full));
  }

  // ---------------------------------------------------------------- resolve, variants, rename

  /** `resolve`: the first method (inherited ones included) named like the leading identifier. */
  function Resolve(p: Project, beanClass: Option<ClassRef>, rawText: string): (r: Option<MethodId>)
    ensures beanClass.None? ==> r.None?
    ensures r.Some? ==> exists m :: m in AllMethods(p, beanClass.value) && m.name == ExtractLeadingIdentifier(rawText)
                                    && m.id == r.value
    ensures beanClass.Some? && r.None? ==>
              forall m :: m in AllMethods(p, beanClass.value) ==> m.name != ExtractLeadingIdentifier(rawText)
    ensures r.Some? ==> var found := FindMethodsByName(p, beanClass.value, ExtractLeadingIdentifier(rawText));
                        found != [] && r.value == found[0].id
  {
    if beanClass.None? then None
    else
      var found := FindMethodsByName(p, beanClass.value, ExtractLeadingIdentifier(rawText));
      if found == [] then None else
        assert found[0] in found;
        Some(found[0].id)
  }

  /**
   * The method `resolve` picks is the earliest one, in the order members and then
   * supertypes are listed, whose name is the leading identifier.
   */
  lemma {:induction false} ResolveIsEarliestNamedMethod(p: Project, c: ClassRef, rawText: string)
    requires Resolve(p, Some(c), rawText).Some?
    ensures var ms := AllMethods(p, c);
            var name := ExtractLeadingIdentifier(rawText);
            exists i :: 0 <= i < |ms| && ms[i].id == Resolve(p, Some(c), rawText).value && ms[i].name == name
                        && forall j :: 0 <= j < i ==> ms[j].name != name
  {
    MethodsNamedFirst(AllMethods(p, c), ExtractLeadingIdentifier(rawText));
  }

  predicate NoDuplicates<T(==)>(s: seq<T>) {
    forall i, j :: 0 <= i < j < |s| ==> s[i] != s[j]
  }

  /** Kotlin `distinct()`: the first occurrence of each element, in order. */
  function Distinct<T(==)>(s: seq<T>): (r: seq<T>)
    ensures forall i :: 0 <= i < |r| ==> r[i] in s
    ensures forall i :: 0 <= i < |s| ==> s[i] in r
    ensures NoDuplicates(r)
  {
    if s == [] then []
    else
      var init, last := s[..|s| - 1], s[|s| - 1];
      assert s == init + [last];
      var d := Distinct(init);
      if last in init then d else d + [last]
  }

  /** Position of the first occurrence of `x` in `s`. */
  function FirstIndex<T(==)>(s: seq<T>, x: T): (i: nat)
    requires x in s
    ensures i < |s| && s[i] == x && x !in s[..i]
  {
    if s[0] == x then 0
    else
      var j := FirstIndex(s[1..], x);
      assert s[..j + 1] == [s[0]] + s[1..][..j];
      j + 1
  }

  lemma {:induction false} FirstIndexOfPrefix<T>(s: seq<T>, k: nat, x: T)
    requires k <= |s| && x in s[..k]
    ensures FirstIndex(s, x) == FirstIndex(s[..k], x)
  {
    var j := FirstIndex(s[..k], x);
    assert s[..k][..j] == s[..j];
  }

  /** An element that first appears last has its first occurrence there. */
  lemma {:induction false} FirstIndexOfNewLast<T>(s: seq<T>)
    requires s != [] && s[|s| - 1] !in s[..|s| - 1]
    ensures FirstIndex(s, s[|s| - 1]) == |s| - 1
  {
  }

  /** The elements of `r`, all found in `s`, are listed in the order of their first occurrence in `s`. */
  predicate InFirstOccurrenceOrder<T(==)>(s: seq<T>, r: seq<T>)
    requires forall i :: 0 <= i < |r| ==> r[i] in s
  {
    forall i, j :: 0 <= i < j < |r| ==> FirstIndex(s, r[i]) < FirstIndex(s, r[j])
  }

  /** A pair of positions of `Distinct(s)` that both come from `s` without its last element. */
  lemma {:induction false} DistinctOrderOldPair<T>(s: seq<T>, i: nat, j: nat)
    requires s != [] && InFirstOccurrenceOrder(s[..|s| - 1], Distinct(s[..|s| - 1]))
    requires i < j < |Distinct(s[..|s| - 1])|
    ensures j < |Distinct(s)| && FirstIndex(s, Distinct(s)[i]) < FirstIndex(s, Distinct(s)[j])
  {
    var init := s[..|s| - 1];
    var d, r := Distinct(init), Distinct(s);
    assert r[i] == d[i] && r[j] == d[j];
    assert d[i] in init && d[j] in init;
    FirstIndexOfPrefix(s, |s| - 1, d[i]);
    FirstIndexOfPrefix(s, |s| - 1, d[j]);
  }

  /** A pair of positions of `Distinct(s)` whose second is the newly added last element. */
  lemma {:induction false} DistinctOrderNewPair<T>(s: seq<T>, i: nat)
    requires s != [] && i < |Distinct(s[..|s| - 1])| < |Distinct(s)|
    ensures FirstIndex(s, Distinct(s)[i]) < FirstIndex(s, Distinct(s)[|Distinct(s)| - 1])
  {
    var init := s[..|s| - 1];
    var d, r := Distinct(init), Distinct(s);
    var last := s[|s| - 1];
    assert last !in init && r == d + [last];
    assert r[i] == d[i] && d[i] in init;
    FirstIndexOfPrefix(s, |s| - 1, d[i]);
    FirstIndexOfNewLast(s);
  }

  /** `distinct()` keeps first-occurrence order. */
  lemma {:induction false} DistinctKeepsFirstOccurrenceOrder<T>(s: seq<T>)
    ensures InFirstOccurrenceOrder(s, Distinct(s))
    decreases |s|
  {
    if s != [] {
      DistinctKeepsFirstOccurrenceOrder(s[..|s| - 1]);
      var d := Distinct(s[..|s| - 1]);
      forall i, j | 0 <= i < j < |Distinct(s)| ensures FirstIndex(s, Distinct(s)[i]) < FirstIndex(s, Distinct(s)[j]) {
        if j < |d| {
          DistinctOrderOldPair(s, i, j);
        } else {
          DistinctOrderNewPair(s, i);
        }
      }
    }
  }

  /** `getVariants`: the distinct names of the bean class's public methods. */
  function Variants(p: Project, beanClass: Option<ClassRef>): (r: seq<string>)
    ensures NoDuplicates(r)
    ensures forall x :: x in r <==>
              beanClass.Some? && exists m :: m in AllMethods(p, beanClass.value) && m.isPublic && m.name == x
  {
    if beanClass.None? then [] else
      var names := PublicMethodNames(p, beanClass.value);
      var r := Distinct(names);
      assert forall x :: x in r <==> x in names by {
        forall x ensures x in r <==> x in names {
          if x in r { var i :| 0 <= i < |r| && r[i] == x; }
          if x in names { var i :| 0 <= i < |names| && names[i] == x; }
        }
      }
      r
  }

  /**
   * `handleElementRename`: the text of the replacement literal, or `None` when the
   * element is returned unchanged for want of a quote pair.
   */
  function HandleElementRename(litText: string, newName: string): (r: Option<string>)
    ensures r.None? <==> !HasQuotePair(litText)
    ensures r.Some? ==> HasQuotePair(r.value)
                        && QuotedInner(r.value) == ReplaceLeadingIdentifier(QuotedInner(litText), newName)
    ensures r.Some? ==> IndexOf(r.value, '"') == 0 && LastIndexOf(r.value, '"') == |r.value| - 1
  {
    var q1 := IndexOf(litText, '"');
    var q2 := LastIndexOf(litText, '"');
    if q1 == -1 || q2 <= q1 then None
    else
      var replacedInner := ReplaceLeadingIdentifier(litText[q1 + 1..q2], newName);
      QuoteWrapped(replacedInner);
      Some("\"" + replacedInner + "\"")
  }

  /** After renaming to an identifier, the reference range of the new literal covers exactly the new name. */
  lemma {:induction false} RenamedRangeCoversNewName(litText: string, newName: string)
    requires IsIdentifier(newName) && HasQuotePair(litText)
    ensures var text := HandleElementRename(litText, newName).value;
            var r := ComputeNameTextRange(text);
            text[r.startOffset..r.endOffset] == newName
  {
    var text := HandleElementRename(litText, newName).value;
    var replaced := QuotedInner(text);
    ReplaceRoundTrip(QuotedInner(litText), newName);
    TrimStartIsDropWhile(replaced);
    assert HasLeadingIdentifier(replaced);
    NameRangeCoversIdentifier(text);
  }

  // ---------------------------------------------------------------- worked examples

  /** `"saveTransaction(${body})"` names `saveTransaction`. */
  lemma {:induction false} ExtractExampleAtStart(s: string)
    requires s == "saveTransaction(${body})"
    ensures ExtractLeadingIdentifier(s) == "saveTransaction"
  {
    var w := "saveTransaction";
    assert IsIdentStart(w[0]);
    assert forall i :: 1 <= i < |w| ==> IsIdentPart(w[i]);
    assert s == [] + w + "(${body})";
    ExtractAfterWhitespace([], w, "(${body})");
  }

  /** `"   foo"` names `foo`, and the empty string names nothing. */
  lemma {:induction false} ExtractExampleIndented(s: string, empty: string)
    requires s == "   foo" && empty == ""
    ensures ExtractLeadingIdentifier(s) == "foo"
    ensures ExtractLeadingIdentifier(empty) == ""
  {
    assert forall i :: 0 <= i < 3 ==> IsWhitespace("   "[i]);
    assert s == "   " + "foo" + [];
    ExtractAfterWhitespace("   ", "foo", []);
  }

  /** Renaming `save` to `update` in `"save(${x})"` keeps the suffix `(${x})` verbatim. */
  lemma {:induction false} ReplaceExample(inner: string, newName: string)
    requires inner == "save(${x})" && newName == "update"
    ensures ReplaceLeadingIdentifier(inner, newName) == "update(${x})"
  {
    var w := "save";
    assert IsIdentStart(w[0]);
    assert forall i :: 1 <= i < |w| ==> IsIdentPart(w[i]);
    assert inner == [] + w + "(${x})";
    ReplaceAfterWhitespace([], w, "(${x})", newName);
    assert Spaces(0) == [];
    UpdateThenSuffix();
  }

  lemma {:induction false} UpdateThenSuffix()
    ensures "update" + "(${x})" == "update(${x})"
  {
  }

}
