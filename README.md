# camel-bean-nav, modelled in Dafny

camel-bean-nav is an IntelliJ plugin for Apache Camel routes written in Java. Inside a
call `.bean("beanName", "method(${...})")` or `.bean(MyBean.class, "method")` it

- attaches a reference from the first argument to the Spring bean of that name;
- attaches a reference from the second argument's leading method name to the bean
  class's method;
- highlights both when they resolve;
- completes public method names inside the second argument.

Bean names are resolved by a fixed chain of strategies over the project index:

1. `@Bean` methods of `@Configuration` classes;
2. classes with a stereotype annotation (`@Component`, `@Service`, `@Repository`,
   `@Controller`, `@RestController`), known by their `@Qualifier` value, their
   stereotype value or name, or their decapitalised simple name;
3. only when steps 1 and 2 found nothing, every class whose decapitalised short name is
   the bean name.

The model works on an immutable snapshot instead of the IDE's live objects.

- **Syntax tree.** `Psi.Tree` is an arena of nodes, where a parent is always numbered
  before its children. Each node has a kind: a call with its method name and argument
  nodes, an expression, or another node. It also has a text and a start offset.
- **Project index.** `Psi.Project` holds the answers of the index queries the plugin
  makes:
  - which annotation classes exist;
  - which classes carry a given annotation;
  - all short class names, and the classes per short name;
  - all methods of a class, inherited ones included;
  - the constant-evaluation helper, as a function from expressions to values.

Each Kotlin file is one module:

- `IdentText`: the character-level helpers shared by the files.
- `Psi`: the snapshot.
- `SpringLikeBeanResolver`
- `CamelCallUtils`
- `CamelBeanReferenceProvider`
- `BeanNameReference`
- `BeanMethodReference`
- `CamelBeanNavigationAnnotator`
- `CamelBeanCompletionContributor`

Code that loops and appends is modelled as methods, each proved equal to a specification
function:

- `SpringLikeBeanResolver.ResolveBean` and its step methods;
- `CamelBeanReferenceProvider.FindWhichArgumentOfCall`;
- `CamelBeanReferenceProvider.GetReferencesByElement`;
- `CamelBeanCompletionContributor.CollectPublicNames` and `AddCompletions`;
- `CamelBeanNavigationAnnotator.Annotate`, which adds annotations to an
  `AnnotationHolder` object.

The lemmas then state what those functions mean.

## Model

| member | source | states |
|---|---|---|
| IdentText.IdentMatchLength | src/main/kotlin/com/example/camelbeanref/BeanMethodReference.kt:58 | the pattern `^([A-Za-z_][$A-Za-z0-9_]*)` matches exactly when the text starts with a letter or `_`; the match is an identifier and the next character cannot continue it |
| IdentText.IdentRunIsIdentParts | src/main/kotlin/com/example/camelbeanref/BeanMethodReference.kt:58 | every character of the `[$A-Za-z0-9_]*` run is an identifier part |
| IdentText.IdentMatchIsLongest | src/main/kotlin/com/example/camelbeanref/BeanMethodReference.kt:58 | the greedy match is at least as long as any identifier prefix |
| IdentText.IdentMatchOfIdentifierThenStop | src/main/kotlin/com/example/camelbeanref/BeanMethodReference.kt:58 | an identifier followed by a non-identifier character is matched exactly |
| IdentText.DropWhileWhitespace | src/main/kotlin/com/example/camelbeanref/BeanMethodReference.kt:67 | `dropWhile { isWhitespace }` returns a suffix that does not start with whitespace |
| IdentText.DroppedIsWhitespace | src/main/kotlin/com/example/camelbeanref/BeanMethodReference.kt:67 | everything `dropWhile { isWhitespace }` removes is whitespace |
| IdentText.FirstNonWhitespace | src/main/kotlin/com/example/camelbeanref/BeanMethodReference.kt:61 | the scan behind `trimStart()` stops at the first non-whitespace character |
| IdentText.TrimStartIsDropWhile | src/main/kotlin/com/example/camelbeanref/BeanMethodReference.kt:61-67 | `trimStart()` and `dropWhile { isWhitespace }` remove the same prefix |
| IdentText.DropWhitespacePrefix | src/main/kotlin/com/example/camelbeanref/BeanMethodReference.kt:67 | whitespace before a non-whitespace start is dropped exactly |
| IdentText.Spaces | src/main/kotlin/com/example/camelbeanref/BeanMethodReference.kt:71 | `" ".repeat(n)` has length n and only spaces |
| IdentText.IndexOf | src/main/kotlin/com/example/camelbeanref/BeanMethodReference.kt:42 | `indexOf` gives the first position of the character, or -1 exactly when it is absent |
| IdentText.LastIndexOf | src/main/kotlin/com/example/camelbeanref/BeanMethodReference.kt:43 | `lastIndexOf` gives the last position of the character, or -1 exactly when it is absent |
| IdentText.QuotedInner | src/main/kotlin/com/example/camelbeanref/BeanMethodReference.kt:46 | the text between the first and the last quote has length q2 - q1 - 1 |
| IdentText.LeadingWs | src/main/kotlin/com/example/camelbeanref/BeanMethodReference.kt:68 | `length - trimmedLeft.length` is where the text `dropWhile` leaves begins |
| Psi.LiteralString | src/main/kotlin/com/example/camelbeanref/CamelBeanNavigationAnnotator.kt:40 | `lit.value as? String` is present only for a literal whose value is that string |
| Psi.FirstLiteralChild | src/main/kotlin/com/example/camelbeanref/CamelBeanReferenceProvider.kt:30 | `getChildOfType` finds the first child that is a literal, and none when no child is |
| Psi.ParentOfType | src/main/kotlin/com/example/camelbeanref/CamelCallUtils.kt:25 | `getParentOfType(strict = false)` finds the node itself or its nearest ancestor of the kind, and every ancestor-or-self of the kind lies above it |
| Psi.GetAnnotation | src/main/kotlin/com/example/camelbeanref/SpringLikeBeanResolver.kt:41 | `getAnnotation` is present exactly when an annotation of that name is on the list, and then it is one of them |
| Psi.MethodsNamed | src/main/kotlin/com/example/camelbeanref/BeanMethodReference.kt:27 | `findMethodsByName` keeps exactly the methods with that name |
| Psi.PublicNames | src/main/kotlin/com/example/camelbeanref/BeanMethodReference.kt:32-34 | `filter { public }.map { name }` holds exactly the names of public methods |
| SpringLikeBeanResolver.LowercaseChar | src/main/kotlin/com/example/camelbeanref/SpringLikeBeanResolver.kt:96 | upper-case letters map to their lower-case letter; other characters are unchanged |
| SpringLikeBeanResolver.Decapitalize | src/main/kotlin/com/example/camelbeanref/SpringLikeBeanResolver.kt:95-96 | same length; only the first character may change; the result never starts upper-case; text that does not start upper-case is unchanged |
| SpringLikeBeanResolver.DecapitalizeIdempotent | src/main/kotlin/com/example/camelbeanref/SpringLikeBeanResolver.kt:95-96 | decapitalising twice is decapitalising once |
| SpringLikeBeanResolver.FactoryBeanNamePrecedence | src/main/kotlin/com/example/camelbeanref/SpringLikeBeanResolver.kt:41-44 | a `@Bean` method's name is its `name` attribute, else its `value`, else the method name |
| SpringLikeBeanResolver.StereotypeNamesMembership | src/main/kotlin/com/example/camelbeanref/SpringLikeBeanResolver.kt:57-68 | a stereotype class is known by its qualifier value, its stereotype `value` (or `name` when there is no `value`), or its decapitalised simple name, and by nothing else |
| SpringLikeBeanResolver.ResolveBean | src/main/kotlin/com/example/camelbeanref/SpringLikeBeanResolver.kt:30-89 | the appending loops with the early return compute exactly the three-step chain |
| SpringLikeBeanResolver.AppendFactoryTargets | src/main/kotlin/com/example/camelbeanref/SpringLikeBeanResolver.kt:35-51 | step 1 appends the factory targets of every configuration class, in order, and nothing when an annotation class is missing |
| SpringLikeBeanResolver.AppendMethodTargets | src/main/kotlin/com/example/camelbeanref/SpringLikeBeanResolver.kt:40-49 | the inner loop appends one target per `@Bean` method declaring the name |
| SpringLikeBeanResolver.AppendIfFactoryBean | src/main/kotlin/com/example/camelbeanref/SpringLikeBeanResolver.kt:40-48 | one `@Bean` method is appended exactly when its declared name (`name`, else `value`, else the method name) is the bean name |
| SpringLikeBeanResolver.AppendStereotypeTargets | src/main/kotlin/com/example/camelbeanref/SpringLikeBeanResolver.kt:53-72 | step 2 appends the stereotype targets in stereotype order |
| SpringLikeBeanResolver.AppendStereotypeTargetsOver | src/main/kotlin/com/example/camelbeanref/SpringLikeBeanResolver.kt:54-55 | the stereotype loop skips annotation classes that cannot be found |
| SpringLikeBeanResolver.AppendClassesWithStereotype | src/main/kotlin/com/example/camelbeanref/SpringLikeBeanResolver.kt:56-71 | one target per annotated class known under the name |
| SpringLikeBeanResolver.AppendIfStereotypeNamed | src/main/kotlin/com/example/camelbeanref/SpringLikeBeanResolver.kt:57-70 | one class is appended exactly when the bean name is among its qualifier, stereotype and default names |
| SpringLikeBeanResolver.AppendFallbackTargets | src/main/kotlin/com/example/camelbeanref/SpringLikeBeanResolver.kt:77-86 | step 3 appends, over all short names in order, the classes whose decapitalised name is the bean name |
| SpringLikeBeanResolver.AppendClassesNamed | src/main/kotlin/com/example/camelbeanref/SpringLikeBeanResolver.kt:82-84 | one class target per class of that short name |
| SpringLikeBeanResolver.FactoryTargetsOfMembers | src/main/kotlin/com/example/camelbeanref/SpringLikeBeanResolver.kt:40-48 | the targets of one class are exactly its `@Bean` methods declaring the name |
| SpringLikeBeanResolver.FactoryTargetsInMembers | src/main/kotlin/com/example/camelbeanref/SpringLikeBeanResolver.kt:39-50 | the targets over the configuration classes are exactly their matching methods |
| SpringLikeBeanResolver.FactoryStepMembers | src/main/kotlin/com/example/camelbeanref/SpringLikeBeanResolver.kt:35-51 | step 1 yields exactly the factory matches |
| SpringLikeBeanResolver.StereotypeTargetsInMembers | src/main/kotlin/com/example/camelbeanref/SpringLikeBeanResolver.kt:56-71 | the targets for one stereotype are exactly its annotated classes known under the name |
| SpringLikeBeanResolver.StereotypeTargetsOverMembers | src/main/kotlin/com/example/camelbeanref/SpringLikeBeanResolver.kt:54-72 | over a list of stereotypes, the targets are exactly the matches among the annotation classes that can be found |
| SpringLikeBeanResolver.StereotypeStepMembers | src/main/kotlin/com/example/camelbeanref/SpringLikeBeanResolver.kt:53-72 | step 2 yields exactly the stereotype matches |
| SpringLikeBeanResolver.ClassTargetsMembers | src/main/kotlin/com/example/camelbeanref/SpringLikeBeanResolver.kt:82-84 | one class target for each class, and nothing else |
| SpringLikeBeanResolver.FallbackTargetsOverMembers | src/main/kotlin/com/example/camelbeanref/SpringLikeBeanResolver.kt:80-86 | the fallback over some short names yields exactly the classes whose decapitalised name matches |
| SpringLikeBeanResolver.FallbackStepMembers | src/main/kotlin/com/example/camelbeanref/SpringLikeBeanResolver.kt:76-86 | step 3 yields exactly the fallback matches |
| SpringLikeBeanResolver.ResolveBeanMembers | src/main/kotlin/com/example/camelbeanref/SpringLikeBeanResolver.kt:30-89 | a target is resolved iff it is a factory match or a stereotype match, or it is a fallback match while no annotated match exists |
| SpringLikeBeanResolver.ResolveBeanEmpty | src/main/kotlin/com/example/camelbeanref/SpringLikeBeanResolver.kt:74-88 | the result is empty iff no step has any match |
| SpringLikeBeanResolver.ResolveBeanNamesQuery | src/main/kotlin/com/example/camelbeanref/SpringLikeBeanResolver.kt:45-83 | every target carries the queried bean name |
| SpringLikeBeanResolver.ResolveBeanClassTargets | src/main/kotlin/com/example/camelbeanref/SpringLikeBeanResolver.kt:69-83 | a class target names that class as its bean class |
| SpringLikeBeanResolver.ResolveBeanMethodsFirst | src/main/kotlin/com/example/camelbeanref/SpringLikeBeanResolver.kt:35-72 | no method target comes after a class target |
| SpringLikeBeanResolver.StereotypeTargetsOverAppend | src/main/kotlin/com/example/camelbeanref/SpringLikeBeanResolver.kt:54-71 | the stereotype loop over one list of annotations and then another finds the first list's targets, then the second's |
| SpringLikeBeanResolver.StereotypeTargetsOverSingle | src/main/kotlin/com/example/camelbeanref/SpringLikeBeanResolver.kt:54-71 | over one annotation the loop finds exactly that annotation's classes |
| SpringLikeBeanResolver.StereotypeStepOrder | src/main/kotlin/com/example/camelbeanref/SpringLikeBeanResolver.kt:12-18 | step 2 visits the stereotypes in the order of `STEREOTYPES` (Component, Service, Repository, Controller, RestController): for every split point, the targets of the earlier ones come first |
| SpringLikeBeanResolver.ResolveMethod | src/main/kotlin/com/example/camelbeanref/SpringLikeBeanResolver.kt:91-93 | `resolveMethod` lists exactly the methods of the class, inherited ones included, with that name |
| CamelCallUtils.FindCamelBeanCall | src/main/kotlin/com/example/camelbeanref/CamelCallUtils.kt:24-46 | a call is found iff the nearest enclosing call is named `bean`, and it is that call |
| CamelCallUtils.NearestCallUnique | src/main/kotlin/com/example/camelbeanref/CamelCallUtils.kt:25 | the nearest enclosing call is unique |
| CamelCallUtils.BeanCallArguments | src/main/kotlin/com/example/camelbeanref/CamelCallUtils.kt:34-45 | argument 0 fills the string slot iff it is a literal and the class slot iff it is a class literal; argument 1 fills the second slot iff it is a literal; with no arguments all slots are empty |
| CamelCallUtils.IsFirstArgMeaning | src/main/kotlin/com/example/camelbeanref/CamelCallUtils.kt:54-58 | a node is the first argument iff it is a literal and argument 0 of its nearest call, which is named `bean` |
| CamelCallUtils.IsSecondArgMeaning | src/main/kotlin/com/example/camelbeanref/CamelCallUtils.kt:60-64 | a node is the second argument iff it is a literal and argument 1 of its nearest call, which is named `bean` |
| CamelCallUtils.StringLiteralIsFirstOrSecond | src/main/kotlin/com/example/camelbeanref/CamelCallUtils.kt:48-52 | a string literal of a bean call is the first or the second argument |
| CamelCallUtils.FirstAndSecondExclusive | src/main/kotlin/com/example/camelbeanref/CamelCallUtils.kt:54-64 | no literal is both the first and the second argument |
| CamelCallUtils.BeanClassFromClassLiteral | src/main/kotlin/com/example/camelbeanref/CamelCallUtils.kt:67-72 | a class is given only for a class-literal first argument, and it is that literal's operand class |
| CamelCallUtils.ClassLiteralFirstArgGivesOperand | src/main/kotlin/com/example/camelbeanref/CamelCallUtils.kt:67-72 | inside a `.bean(X.class, ...)` call the class is exactly the one `X` resolves to (or none when its type does not resolve) |
| CamelBeanReferenceProvider.EvalOperands | src/main/kotlin/com/example/camelbeanref/CamelBeanReferenceProvider.kt:98 | `mapNotNull` never yields more values than there are operands |
| CamelBeanReferenceProvider.EvalOperandsAllOrNothing | src/main/kotlin/com/example/camelbeanref/CamelBeanReferenceProvider.kt:98-99 | as many values as operands iff every operand evaluates, and then the values are in operand order |
| CamelBeanReferenceProvider.EvalOfNothing | src/main/kotlin/com/example/camelbeanref/CamelBeanReferenceProvider.kt:77 | null evaluates to null |
| CamelBeanReferenceProvider.EvalStringLiteral | src/main/kotlin/com/example/camelbeanref/CamelBeanReferenceProvider.kt:79 | a string literal evaluates to its value, whatever the helper says |
| CamelBeanReferenceProvider.EvalHelperPrecedence | src/main/kotlin/com/example/camelbeanref/CamelBeanReferenceProvider.kt:81-84 | a string from the helper wins over the field and concatenation rules |
| CamelBeanReferenceProvider.EvalFieldLiteral | src/main/kotlin/com/example/camelbeanref/CamelBeanReferenceProvider.kt:86-90 | a reference to a `String` field evaluates to the field's string-literal initializer |
| CamelBeanReferenceProvider.EvalOtherReference | src/main/kotlin/com/example/camelbeanref/CamelBeanReferenceProvider.kt:86-95 | without the helper, a reference to anything but a `String` field evaluates to nothing |
| CamelBeanReferenceProvider.EvalConcatenation | src/main/kotlin/com/example/camelbeanref/CamelBeanReferenceProvider.kt:97-100 | a `+` expression evaluates iff all its operands do, and then to the join of their values in order |
| CamelBeanReferenceProvider.EvalOtherForms | src/main/kotlin/com/example/camelbeanref/CamelBeanReferenceProvider.kt:102 | without the helper, class literals, non-string literals, other operators and other expressions evaluate to nothing |
| CamelBeanReferenceProvider.EvalPrefixPlusConstant | src/main/kotlin/com/example/camelbeanref/CamelBeanReferenceProvider.kt:86-100 | `"pfx" + CONST`, with `CONST` initialised to `"x"`, evaluates to `"pfxx"` |
| CamelBeanReferenceProvider.EvalPrefixPlusUnresolvable | src/main/kotlin/com/example/camelbeanref/CamelBeanReferenceProvider.kt:86-100 | `"pfx" + CONST` evaluates to nothing when `CONST`'s initializer does not evaluate |
| CamelBeanReferenceProvider.FindEnclosingBeanCall | src/main/kotlin/com/example/camelbeanref/CamelBeanReferenceProvider.kt:52-54 | a call is given only when it is the nearest enclosing call and it is named `bean` |
| CamelBeanReferenceProvider.EnclosingBeanCallAgrees | src/main/kotlin/com/example/camelbeanref/CamelBeanReferenceProvider.kt:52-54 | the provider and the call utilities find the same call |
| CamelBeanReferenceProvider.FirstArgumentContaining | src/main/kotlin/com/example/camelbeanref/CamelBeanReferenceProvider.kt:64-66 | the first top-level argument that contains the expression; none when no argument does |
| CamelBeanReferenceProvider.FindWhichArgumentOfCall | src/main/kotlin/com/example/camelbeanref/CamelBeanReferenceProvider.kt:57-68 | the scan with an early return gives the index and node of the first argument containing the element's nearest expression |
| CamelBeanReferenceProvider.ResolveBeanClassFromFirstArg | src/main/kotlin/com/example/camelbeanref/CamelBeanReferenceProvider.kt:44-49 | a class is found only when the call has a first argument that folds to a bean name with targets; whenever it does, the class is the first target's class (none when that target has no class) |
| CamelBeanReferenceProvider.MethodSpecLiteral | src/main/kotlin/com/example/camelbeanref/CamelBeanReferenceProvider.kt:30-32 | the method reference goes on a literal: the argument's first literal child, or else the argument itself |
| CamelBeanReferenceProvider.GetReferencesByElement | src/main/kotlin/com/example/camelbeanref/CamelBeanReferenceProvider.kt:11-41 | the guards and the branch on the argument index give exactly the specified references |
| CamelBeanReferenceProvider.ReferencesAtMostOne | src/main/kotlin/com/example/camelbeanref/CamelBeanReferenceProvider.kt:11-41 | at most one reference per element, and none for elements that are neither literals nor references |
| CamelBeanReferenceProvider.NestedCallHidesBeanCall | src/main/kotlin/com/example/camelbeanref/CamelBeanReferenceProvider.kt:17 | an element whose nearest call is not `.bean` gets nothing |
| CamelBeanReferenceProvider.ReferencesByArgumentIndex | src/main/kotlin/com/example/camelbeanref/CamelBeanReferenceProvider.kt:24-38 | argument 0 gives a name reference with the folded name; argument 1 gives a method reference on a string literal with the first argument's class; other arguments give nothing |
| CamelBeanReferenceProvider.FirstArgGetsNameRef | src/main/kotlin/com/example/camelbeanref/CamelBeanReferenceProvider.kt:24-28 | conversely, a string literal in argument 0 that folds to a string gets exactly one name reference, on itself, with the folded name |
| CamelBeanReferenceProvider.SecondArgGetsMethodRef | src/main/kotlin/com/example/camelbeanref/CamelBeanReferenceProvider.kt:24-38 | conversely, a string literal in argument 1 whose method-spec literal holds a string gets exactly one method reference, on that literal, with its text and the first argument's class |
| BeanNameReference.NameRange | src/main/kotlin/com/example/camelbeanref/BeanNameReference.kt:12 | the range drops the first and last character |
| BeanNameReference.Resolve | src/main/kotlin/com/example/camelbeanref/BeanNameReference.kt:14-18 | resolves iff the bean resolves, and then to the element of the first target |
| BeanNameReference.ResolvePrefersFactoryMethods | src/main/kotlin/com/example/camelbeanref/BeanNameReference.kt:14-18 | when a `@Bean` method declares the name, the reference resolves to a method: the first factory target |
| BeanNameReference.Variants | src/main/kotlin/com/example/camelbeanref/BeanNameReference.kt:20-23 | no variants |
| BeanNameReference.RenameText | src/main/kotlin/com/example/camelbeanref/BeanNameReference.kt:26-31 | the new literal is the new name in quotes |
| BeanNameReference.RenameRangeCoversName | src/main/kotlin/com/example/camelbeanref/BeanNameReference.kt:12-31 | after a rename, the reference range covers exactly the new name |
| BeanMethodReference.RestAfterIdentifier | src/main/kotlin/com/example/camelbeanref/BeanMethodReference.kt:71 | what `removePrefix(m.value)` keeps cannot continue the identifier |
| BeanMethodReference.ReplaceLeadingIdentifierParts | src/main/kotlin/com/example/camelbeanref/BeanMethodReference.kt:66-75 | with an identifier, the result is one space per leading whitespace character, then the new name, then the trimmed text after the identifier, verbatim; with none, the result is the new name |
| BeanMethodReference.ReplaceAfterWhitespace | src/main/kotlin/com/example/camelbeanref/BeanMethodReference.kt:66-75 | whitespace, an identifier that cannot be continued, and a rest: the whitespace becomes spaces, the identifier the new name, and the rest is kept |
| BeanMethodReference.ExtractAfterWhitespace | src/main/kotlin/com/example/camelbeanref/BeanMethodReference.kt:60-64 | whitespace, then an identifier that cannot be continued: that identifier is extracted |
| BeanMethodReference.ExtractOfIdentifier | src/main/kotlin/com/example/camelbeanref/BeanMethodReference.kt:60-64 | an identifier on its own is extracted whole |
| BeanMethodReference.ReplaceRoundTrip | src/main/kotlin/com/example/camelbeanref/BeanMethodReference.kt:60-75 | after replacing with an identifier, extraction gives the new name |
| BeanMethodReference.InnerNameRange | src/main/kotlin/com/example/camelbeanref/BeanMethodReference.kt:86-92 | the range lies inside the quoted text |
| BeanMethodReference.ComputeNameTextRange | src/main/kotlin/com/example/camelbeanref/BeanMethodReference.kt:78-94 | with no quote pair, the range is (1, length - 1); otherwise it lies between the quotes |
| BeanMethodReference.InnerNameRangeCoversIdentifier | src/main/kotlin/com/example/camelbeanref/BeanMethodReference.kt:86-92 | with an identifier, the range starts after the whitespace and covers exactly the extracted identifier |
| BeanMethodReference.NameRangeIsInnerSlice | src/main/kotlin/com/example/camelbeanref/BeanMethodReference.kt:78-94 | with a quote pair, the range is the inner range moved past the first quote, and reads the same text |
| BeanMethodReference.NameRangeIsShiftedInnerRange | src/main/kotlin/com/example/camelbeanref/BeanMethodReference.kt:86-93 | the literal range is the inner range moved past the first quote |
| BeanMethodReference.NameRangeCoversIdentifier | src/main/kotlin/com/example/camelbeanref/BeanMethodReference.kt:78-94 | with an identifier, the range covers exactly the extracted name and no quote |
| BeanMethodReference.RangeCanCoverQuote | src/main/kotlin/com/example/camelbeanref/BeanMethodReference.kt:80-92 | for a text block whose inner text starts with a quote, the range is `(1, 2)` and covers that quote |
| BeanMethodReference.IntendedRangeNeverCoversQuote | src/main/kotlin/com/example/camelbeanref/BeanMethodReference.kt:77-94 | the corrected range lies between the quotes and never covers a quote, and equals the code's range wherever the inner text has an identifier |
| BeanMethodReference.IntendedRangeOnTextBlock | src/main/kotlin/com/example/camelbeanref/BeanMethodReference.kt:86-92 | on the text block above the corrected range is empty at offset 1 |
| BeanMethodReference.NameRangeWithoutIdentifier | src/main/kotlin/com/example/camelbeanref/BeanMethodReference.kt:89-90 | without an identifier, the range is the first inner character, or empty for an empty string |
| BeanMethodReference.Resolve | src/main/kotlin/com/example/camelbeanref/BeanMethodReference.kt:24-28 | resolves only with a bean class, to the first method `findMethodsByName` returns for the name; and to nothing iff the class has no such method |
| BeanMethodReference.ResolveIsEarliestNamedMethod | src/main/kotlin/com/example/camelbeanref/BeanMethodReference.kt:24-28 | the method chosen is the earliest one with that name in the order members and then supertypes are listed |
| Psi.MethodsNamedFirst | src/main/kotlin/com/example/camelbeanref/BeanMethodReference.kt:27 | the first result of the by-name search is the earliest method of the list with that name |
| BeanMethodReference.Distinct | src/main/kotlin/com/example/camelbeanref/BeanMethodReference.kt:35 | `distinct()` keeps every element, adds none, and repeats none |
| BeanMethodReference.DistinctKeepsFirstOccurrenceOrder | src/main/kotlin/com/example/camelbeanref/BeanMethodReference.kt:35 | `distinct()` lists elements in order of first occurrence |
| BeanMethodReference.Variants | src/main/kotlin/com/example/camelbeanref/BeanMethodReference.kt:30-37 | the variants are the public method names of the bean class, without repeats, and none without a class |
| BeanMethodReference.HandleElementRename | src/main/kotlin/com/example/camelbeanref/BeanMethodReference.kt:39-52 | without a quote pair the element is kept; otherwise the new literal's first quote is its first character and its last quote its last character, and between them is the old inner text with its leading identifier replaced |
| BeanMethodReference.RenamedRangeCoversNewName | src/main/kotlin/com/example/camelbeanref/BeanMethodReference.kt:39-52 | after renaming to an identifier, the new literal's range covers exactly the new name |
| BeanMethodReference.ExtractExampleAtStart | src/main/kotlin/com/example/camelbeanref/BeanMethodReference.kt:60-64 | on `saveTransaction(${body})` the extracted name is `saveTransaction` |
| BeanMethodReference.ExtractExampleIndented | src/main/kotlin/com/example/camelbeanref/BeanMethodReference.kt:60-64 | on `   foo` the extracted name is `foo`; on the empty string it is empty |
| BeanMethodReference.ReplaceExample | src/main/kotlin/com/example/camelbeanref/BeanMethodReference.kt:66-75 | renaming `save(${x})` to `update` gives `update(${x})` |
| CamelBeanNavigationAnnotator.ExtractLeadingIdentifier | src/main/kotlin/com/example/camelbeanref/CamelBeanNavigationAnnotator.kt:100-103 | the result is empty or an identifier, it is a prefix of the trimmed text, and it cannot be continued |
| CamelBeanNavigationAnnotator.ExtractIsLongestIdentifier | src/main/kotlin/com/example/camelbeanref/CamelBeanNavigationAnnotator.kt:98-103 | no longer identifier prefix of the trimmed text exists |
| CamelBeanNavigationAnnotator.ExtractAgreesWithReference | src/main/kotlin/com/example/camelbeanref/CamelBeanNavigationAnnotator.kt:100-103 | the annotator extracts the same name as the method reference |
| CamelBeanNavigationAnnotator.StringInnerRangeAbsolute | src/main/kotlin/com/example/camelbeanref/CamelBeanNavigationAnnotator.kt:106-117 | with a quote pair, exactly the text between the quotes; otherwise the whole literal; always inside the literal |
| CamelBeanNavigationAnnotator.InnerRangeIsNameReferenceRange | src/main/kotlin/com/example/camelbeanref/CamelBeanNavigationAnnotator.kt:106-117 | for a quoted literal, the highlight is the name reference's range made absolute |
| CamelBeanNavigationAnnotator.MethodNameRangeAbsolute | src/main/kotlin/com/example/camelbeanref/CamelBeanNavigationAnnotator.kt:120-135 | the whole literal when there is no quote pair or no identifier; always inside the literal |
| CamelBeanNavigationAnnotator.MethodRangeIsReferenceRange | src/main/kotlin/com/example/camelbeanref/CamelBeanNavigationAnnotator.kt:120-135 | with an identifier, the annotator's method-name range is the method reference's range moved by the literal's start offset; with `ReferenceRangeCoversName`, the highlight covers exactly the extracted name |
| CamelBeanNavigationAnnotator.ReferenceRangeCoversName | src/main/kotlin/com/example/camelbeanref/CamelBeanNavigationAnnotator.kt:120-135 | the method reference's range covers exactly the name the annotator extracts, and no quote |
| CamelBeanNavigationAnnotator.HasPublicMethodNamedMeaning | src/main/kotlin/com/example/camelbeanref/CamelBeanNavigationAnnotator.kt:62-63 | `any { public }` over the methods of that name holds iff the class has a public method of that name |
| CamelBeanNavigationAnnotator.AnnotationHolder.NewSilentAnnotation | src/main/kotlin/com/example/camelbeanref/CamelBeanNavigationAnnotator.kt:84-90 | one annotation with the given range is added |
| CamelBeanNavigationAnnotator.Annotate | src/main/kotlin/com/example/camelbeanref/CamelBeanNavigationAnnotator.kt:27-71 | the guard chain adds exactly the specified highlight, or nothing |
| CamelBeanNavigationAnnotator.NoHighlightOutsideBeanArguments | src/main/kotlin/com/example/camelbeanref/CamelBeanNavigationAnnotator.kt:29-33 | nothing is highlighted in dumb mode or outside the literal arguments of a bean call |
| CamelBeanNavigationAnnotator.HighlightWithinLiteral | src/main/kotlin/com/example/camelbeanref/CamelBeanNavigationAnnotator.kt:44-68 | every highlight lies inside the literal's own range |
| CamelBeanNavigationAnnotator.FirstArgHighlight | src/main/kotlin/com/example/camelbeanref/CamelBeanNavigationAnnotator.kt:39-48 | the first argument is highlighted iff its value is a string and the bean resolves; then exactly the text between the quotes |
| CamelBeanNavigationAnnotator.SecondArgHighlightCondition | src/main/kotlin/com/example/camelbeanref/CamelBeanNavigationAnnotator.kt:51-70 | the second argument is highlighted iff its value is a string, a bean class is known, the leading identifier is nonempty and `hasPublicMethodNamed` holds |
| CamelBeanNavigationAnnotator.SecondArgHighlight | src/main/kotlin/com/example/camelbeanref/CamelBeanNavigationAnnotator.kt:51-70 | the second argument is highlighted iff its value is a string, a bean class is known, the leading identifier is nonempty and the class has a public method of that name |
| CamelBeanNavigationAnnotator.SecondArgHighlightRange | src/main/kotlin/com/example/camelbeanref/CamelBeanNavigationAnnotator.kt:59-68 | a second-argument highlight has a nonempty method name and is the method-name range |
| CamelBeanNavigationAnnotator.ClassLiteralTakesPrecedence | src/main/kotlin/com/example/camelbeanref/CamelBeanNavigationAnnotator.kt:55-57 | an `X.class` first argument decides the bean class |
| CamelBeanCompletionContributor.ExtractLeadingMethodName | src/main/kotlin/com/example/camelbeanref/CamelBeanCompletionContributor.kt:67-71 | the result is empty or an identifier, and a prefix of the trimmed text |
| CamelBeanCompletionContributor.ExtractLeadingMethodNameAgrees | src/main/kotlin/com/example/camelbeanref/CamelBeanCompletionContributor.kt:67-71 | it agrees with both `extractLeadingIdentifier` copies on every input |
| CamelBeanCompletionContributor.ResolveBeanClassFromFirstArg | src/main/kotlin/com/example/camelbeanref/CamelBeanCompletionContributor.kt:58-64 | a class is found only for a string-literal first argument, and it is the class of the first target resolved from that literal's value (none when that target has no class) |
| CamelBeanCompletionContributor.FirstArgClassAgreesOnLiterals | src/main/kotlin/com/example/camelbeanref/CamelBeanCompletionContributor.kt:58-64 | on a string-literal first argument, it agrees with the provider's folding variant |
| CamelBeanCompletionContributor.NoFoldingOfFirstArgument | src/main/kotlin/com/example/camelbeanref/CamelBeanCompletionContributor.kt:60-61 | a first argument that is not a literal gives no class |
| CamelBeanCompletionContributor.CompletionLiteral | src/main/kotlin/com/example/camelbeanref/CamelBeanCompletionContributor.kt:31-33 | the position's parent qualifies only when it is the second argument of a bean call |
| CamelBeanCompletionContributor.DistinctSnoc | src/main/kotlin/com/example/camelbeanref/CamelBeanCompletionContributor.kt:49 | one more element is added to `distinct()` iff it was not there yet |
| CamelBeanCompletionContributor.CollectPublicNames | src/main/kotlin/com/example/camelbeanref/CamelBeanCompletionContributor.kt:45-52 | the single pass with a set of added names gives the distinct public names |
| CamelBeanCompletionContributor.AddCompletions | src/main/kotlin/com/example/camelbeanref/CamelBeanCompletionContributor.kt:26-53 | the guard chain gives exactly the specified prefix and names |
| CamelBeanCompletionContributor.CompletionOnlyInSecondArgument | src/main/kotlin/com/example/camelbeanref/CamelBeanCompletionContributor.kt:31-33 | completion happens only inside the second-argument literal |
| CamelBeanCompletionContributor.CompletionNames | src/main/kotlin/com/example/camelbeanref/CamelBeanCompletionContributor.kt:45-52 | each public method name of the bean class is offered exactly once, in first-occurrence order, and nothing else is |
| CamelBeanCompletionContributor.CompletionPrefix | src/main/kotlin/com/example/camelbeanref/CamelBeanCompletionContributor.kt:41-43 | the prefix matcher is replaced iff the leading identifier is nonempty, and then by that identifier |
| CamelBeanCompletionContributor.CompletionMatchesVariants | src/main/kotlin/com/example/camelbeanref/CamelBeanCompletionContributor.kt:45-52 | the names offered are the method reference's variants for the same class |

## Left out

- IntelliJ plumbing is not modelled. The model keeps only the values these pieces
  receive or return:
  - `DumbService` (modelled only as the `Project.dumb` flag);
  - text attributes;
  - `PsiReferenceBase` registration and the `soft` flag;
  - `PlatformPatterns`;
  - `LookupElementBuilder`;
  - the element factory and `element.replace`: a rename returns the new literal text.
- The index queries are inputs, read from `Psi.Project`:
  - `findClass`, `AnnotatedElementsSearch`, `PsiShortNamesCache`;
  - `allMethods`, resolving a type to a class;
  - the constant-evaluation helper, including the exceptions it may throw (shown as no value).
  Their order of results is taken as given.
- `AddCompletions` returns the prefix and the names. It does not call a result set.
- A literal's value and its source text are independent inputs. Escape sequences are not
  decoded. So the range lemmas relate the highlighted range to the name read from the
  text between the quotes, not to the name read from the value.
- Expression values on nodes are not linked to the nodes' children. Constant folding works
  on the `Expr` value of the argument node. A call used as an argument folds only through
  the helper.
- `isWhitespace` follows the JVM definition. `isUpperCase` and `lowercaseChar` are
  modelled for ASCII letters only, so Unicode case is not modelled.
- `CamelBeanReferenceProvider.GetReferencesByElement` passes the element itself to the
  name reference, even when it is a reference expression rather than a literal. The
  model records the element's node as it is.
- The annotator's private `resolveBeanClassFromFirstArg`
  (CamelBeanNavigationAnnotator.kt:73-81) is the provider's
  (CamelBeanReferenceProvider.kt:44-49). Both fold the first argument and take the
  first target's class, so the model has it once, as
  `CamelBeanReferenceProvider.ResolveBeanClassFromFirstArg`.
- The code, and so the model, behaves as follows:
  - a `.bean` call is recognised whatever its argument count;
  - a field is folded whether or not it is `final` (`static` is not checked either);
  - the constant helper is consulted second, after the literal check and before fields
    and concatenations;
  - a `String` field's initializer is used only when it is a string literal or the helper
    evaluates it; it is never folded recursively (CamelBeanReferenceProvider.kt:86-93,
    `CamelBeanReferenceProvider.EvalExpr`). So `String B = A + "y"` with a non-constant `A`
    yields nothing.
- Offsets and lengths are counted in characters of `string`, that is in code points, while
  the source counts UTF-16 code units. They agree only for text without characters outside
  the Basic Multilingual Plane. This affects `Psi.Node.text` and every range computed from
  it: `IdentText.IndexOf`, `IdentText.LastIndexOf`, `IdentText.LeadingWs`,
  `CamelBeanNavigationAnnotator.StringInnerRangeAbsolute`,
  `CamelBeanNavigationAnnotator.MethodNameRangeAbsolute`, `BeanMethodReference.InnerNameRange`,
  `BeanMethodReference.ComputeNameTextRange` and `BeanNameReference.NameRange`. For example,
  for an emoji followed by `x` the source's range is `(1, 4)` and the model's is `(1, 3)`;
  a one-character fallback range over an emoji covers half a surrogate pair in the source.
- `BeanMethodReference.ComputeNameTextRange`: when the literal has no quote pair, the
  fallback range `(1, length - 1)` is kept as written, even where it is empty or
  inverted.

## Findings

| source | as written | input that shows it | evidently intended | confidence | as-written member | corrected member |
|---|---|---|---|---|---|---|
| src/main/kotlin/com/example/camelbeanref/BeanMethodReference.kt:80-92 | the name is looked for between the first and the last quote of the literal's source text; when no identifier starts it, the range is its first character | a text block `"""`, newline, `foo"""` (10 characters): the inner text starts with the second quote of the opening delimiter, so the range is `(1, 2)` and covers that quote | the range covers the method name and never a quote: with no identifier, the first inner character when it is not a quote, else an empty range after the first quote (`BeanMethodReference.ComputeNameTextRangeIntended`) | not executed; the arithmetic is proved, the intent is inferred from the comment at BeanMethodReference.kt:77 | BeanMethodReference.RangeCanCoverQuote | BeanMethodReference.IntendedRangeNeverCoversQuote |
