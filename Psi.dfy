/**
 * An immutable snapshot of what the engine reads from the IDE: the syntax tree around
 * a query (an arena of nodes addressed by index, each with its parent), the project's
 * class index as the searches report it, the members of each class, and the host's
 * constant-evaluation helper as an uninterpreted oracle.
 */
module Psi {
  import opened Wrappers
  import opened IdentText

  // ---------------------------------------------------------------- declarations

  datatype ClassRef = ClassRef(id: nat)
  datatype MethodId = MethodId(id: nat)

  /** A declaration a reference can navigate to: a method or a class. */
  datatype Element = MethodElement(methodId: MethodId) | ClassElement(cls: ClassRef)

  /** The constant value of a literal: a `String`, or a value of any other type. */
  datatype Value = Str(s: string) | NonString

  /** What a reference expression resolves to. */
  datatype Decl = Field(isStringType: bool, initializer: Option<Expr>) | OtherDecl

  /** The expression forms the engine distinguishes. */
  datatype Expr =
    | Literal(value: Value)
    | ClassLiteral(operandClass: Option<ClassRef>)  // `X.class`, with the class its operand type resolves to
    | Reference(resolved: Option<Decl>)
    | Polyadic(isPlus: bool, operands: seq<Expr>)
    | OtherExpr

  // ---------------------------------------------------------------- syntax tree

  /** A call node knows its simple method name and its argument nodes. */
  datatype Kind =
    | CallNode(referenceName: Option<string>, args: seq<nat>)
    | ExprNode(expr: Expr)
    | OtherNode

  datatype Node = Node(parent: Option<nat>, kind: Kind, text: string, startOffset: nat)

  /** Nodes by index; a parent is always numbered before its children. */
  type Tree = seq<Node>

  /** The argument list of call `c` names children of `c`, each at most once. */
  predicate ArgsValid(t: Tree, c: nat, args: seq<nat>) {
    && (forall a :: 0 <= a < |args| ==> args[a] < |t| && t[args[a]].parent == Some(c))
    && (forall a, b :: 0 <= a < b < |args| ==> args[a] != args[b])
  }

  /** Parents precede children (so the tree has no cycles) and every call's arguments are distinct children of it. */
  predicate WellFormed(t: Tree) {
    && (forall i :: 0 <= i < |t| && t[i].parent.Some? ==> t[i].parent.value < i)
    && (forall i :: 0 <= i < |t| && t[i].kind.CallNode? ==> ArgsValid(t, i, t[i].kind.args))
  }

  predicate IsLiteral(t: Tree, n: nat)
    requires n < |t|
  {
    t[n].kind.ExprNode? && t[n].kind.expr.Literal?
  }

  predicate IsClassLiteral(t: Tree, n: nat)
    requires n < |t|
  {
    t[n].kind.ExprNode? && t[n].kind.expr.ClassLiteral?
  }

  predicate IsReferenceExpression(t: Tree, n: nat)
    requires n < |t|
  {
    t[n].kind.ExprNode? && t[n].kind.expr.Reference?
  }

  /** Calls are expressions too. */
  predicate IsExpression(k: Kind) {
    k.CallNode? || k.ExprNode?
  }

  predicate IsCall(k: Kind) {
    k.CallNode?
  }

  /** `lit.value as? String` for a literal node. */
  function LiteralString(t: Tree, n: nat): (r: Option<string>)
    requires n < |t|
    ensures r.Some? ==> IsLiteral(t, n) && t[n].kind.expr.value == Str(r.value)
  {
    if IsLiteral(t, n) && t[n].kind.expr.value.Str? then Some(t[n].kind.expr.value.s) else None
  }

  /** The expression an expression node stands for (a call is opaque to constant folding). */
  function ExprOf(t: Tree, n: nat): Option<Expr>
    requires n < |t|
  {
    match t[n].kind
    case ExprNode(e) => Some(e)
    case CallNode(_, _) => Some(OtherExpr)
    case OtherNode => None
  }

  /**
   * `PsiTreeUtil.getChildOfType(a, PsiLiteralExpression)`: the first child of `a` that is a
   * literal. Children of a node are ordered by their index.
   */
  function FirstLiteralChild(t: Tree, a: nat, from: nat): (r: Option<nat>)
    requires from <= |t|
    ensures r.Some? ==> from <= r.value < |t| && t[r.value].parent == Some(a) && IsLiteral(t, r.value)
    ensures r.Some? ==> forall i :: from <= i < r.value ==> !(t[i].parent == Some(a) && IsLiteral(t, i))
    ensures r.None? ==> forall i :: from <= i < |t| ==> !(t[i].parent == Some(a) && IsLiteral(t, i))
    decreases |t| - from
  {
    if from == |t| then None
    else if t[from].parent == Some(a) && IsLiteral(t, from) then Some(from)
    else FirstLiteralChild(t, a, from + 1)
  }

  /** `element.textRange`: absolute offsets of the node's text. */
  function TextRangeOf(t: Tree, n: nat): TextRange
    requires n < |t|
  {
    TextRange(t[n].startOffset, t[n].startOffset + |t[n].text|)
  }

  /** `PsiTreeUtil.isAncestor(a, n, strict = false)`. */
  predicate IsAncestorOrSelf(t: Tree, a: nat, n: nat)
    requires WellFormed(t) && n < |t|
    decreases n
  {
    a == n || (t[n].parent.Some? && IsAncestorOrSelf(t, a, t[n].parent.value))
  }

  lemma {:induction false} AncestorPrecedes(t: Tree, a: nat, n: nat)
    requires WellFormed(t) && n < |t| && IsAncestorOrSelf(t, a, n)
    ensures a <= n
    decreases n
  {
    if a != n {
      AncestorPrecedes(t, a, t[n].parent.value);
    }
  }

  /**
   * `PsiTreeUtil.getParentOfType(n, K, strict = false)`: the nearest ancestor-or-self of
   * `n` whose kind satisfies `isType`.
   */
  function ParentOfType(t: Tree, n: nat, isType: Kind -> bool): (r: Option<nat>)
    requires WellFormed(t) && n < |t|
    ensures r.Some? ==> r.value <= n && IsAncestorOrSelf(t, r.value, n) && isType(t[r.value].kind)
    ensures forall a: nat :: a < |t| && IsAncestorOrSelf(t, a, n) && isType(t[a].kind) ==>
              r.Some? && a <= r.value && IsAncestorOrSelf(t, a, r.value)
    decreases n
  {
    if isType(t[n].kind) then
      assert forall a: nat :: a < |t| && IsAncestorOrSelf(t, a, n) ==> a <= n by {
        forall a: nat | a < |t| && IsAncestorOrSelf(t, a, n) { AncestorPrecedes(t, a, n); }
      }
      Some(n)
    else if t[n].parent.None? then None
    else
      ParentOfType(t, t[n].parent.value, isType)
  }

  // ---------------------------------------------------------------- class index

  datatype AttrValue = LiteralAttr(value: Value) | OtherAttr

  /** An annotation use: its qualified name and the attribute values the host reports. */
  datatype Annotation = Annotation(qualifiedName: string, attributes: map<string, AttrValue>)

  datatype PsiMethod = PsiMethod(
    id: MethodId, name: string, isPublic: bool, annotations: seq<Annotation>,
    returnClass: Option<ClassRef>)  // `(returnType as? PsiClassType)?.resolve()`

  /** A class with its simple name (absent for anonymous classes) and declared methods. */
  datatype PsiClass = PsiClass(
    ref: ClassRef, name: Option<string>, annotations: seq<Annotation>, methods: seq<PsiMethod>)

  /** `getAnnotation(fqn)`: the first annotation with that qualified name. */
  function GetAnnotation(anns: seq<Annotation>, fqn: string): (r: Option<Annotation>)
    ensures r.Some? <==> exists i :: 0 <= i < |anns| && anns[i].qualifiedName == fqn
    ensures r.Some? ==> r.value in anns && r.value.qualifiedName == fqn
  {
    if anns == [] then None
    else if anns[0].qualifiedName == fqn then Some(anns[0])
    else
      var r := GetAnnotation(anns[1..], fqn);
      assert forall i :: 1 <= i < |anns| ==> anns[i] == anns[1..][i - 1];
      r
  }

  /** `(ann?.findAttributeValue(key) as? PsiLiteralExpression)?.value as? String`. */
  function StringAttribute(ann: Option<Annotation>, key: string): Option<string> {
    if ann.Some? && key in ann.value.attributes
       && ann.value.attributes[key].LiteralAttr? && ann.value.attributes[key].value.Str?
    then Some(ann.value.attributes[key].value.s)
    else None
  }

  /**
   * The project as the engine sees it. `foundClasses` are the qualified names
   * `JavaPsiFacade.findClass` resolves in project scope; `annotatedWith` gives the result
   * of `AnnotatedElementsSearch.searchPsiClasses` per annotation; `allClassNames` and
   * `classesByName` are the short-names cache; `allMethods` gives `PsiClass.allMethods`
   * (inherited ones included); `constantHelper` is `computeConstantExpression`, with
   * `None` also standing for a thrown exception.
   */
  datatype Project = Project(
    dumb: bool,
    foundClasses: set<string>,
    annotatedWith: map<string, seq<PsiClass>>,
    allClassNames: seq<string>,
    classesByName: map<string, seq<PsiClass>>,
    allMethods: map<ClassRef, seq<PsiMethod>>,
    constantHelper: Expr -> Option<Value>)

  function SearchPsiClasses(p: Project, fqn: string): seq<PsiClass> {
    if fqn in p.annotatedWith then p.annotatedWith[fqn] else []
  }

  function ClassesByName(p: Project, simple: string): seq<PsiClass> {
    if simple in p.classesByName then p.classesByName[simple] else []
  }

  function AllMethods(p: Project, c: ClassRef): seq<PsiMethod> {
    if c in p.allMethods then p.allMethods[c] else []
  }

  /** Methods of `ms` with the given name, in order. */
  function MethodsNamed(ms: seq<PsiMethod>, name: string): (r: seq<PsiMethod>)
    ensures forall m :: m in r <==> m in ms && m.name == name
  {
    if ms == [] then []
    else (if ms[0].name == name then [ms[0]] else []) + MethodsNamed(ms[1..], name)
  }

  /** The head of `MethodsNamed` is the earliest method of `ms` carrying the name. */
  lemma {:induction false} MethodsNamedFirst(ms: seq<PsiMethod>, name: string)
    requires MethodsNamed(ms, name) != []
    ensures exists i :: 0 <= i < |ms| && ms[i] == MethodsNamed(ms, name)[0] && ms[i].name == name
                        && forall j :: 0 <= j < i ==> ms[j].name != name
  {
    if ms[0].name != name {
      assert MethodsNamed(ms, name) == MethodsNamed(ms[1..], name);
      MethodsNamedFirst(ms[1..], name);
      var i :| 0 <= i < |ms[1..]| && ms[1..][i] == MethodsNamed(ms[1..], name)[0] && ms[1..][i].name == name
               && forall j :: 0 <= j < i ==> ms[1..][j].name != name;
      assert ms[i + 1] == ms[1..][i];
      assert forall j :: 0 <= j < i + 1 ==> ms[j].name != name by {
        forall j | 0 <= j < i + 1 ensures ms[j].name != name {
          if j > 0 { assert ms[j] == ms[1..][j - 1]; }
        }
      }
    }
  }

  /** `cls.findMethodsByName(name, checkBases = true)`. */
  function FindMethodsByName(p: Project, c: ClassRef, name: string): seq<PsiMethod> {
    MethodsNamed(AllMethods(p, c), name)
  }

  /** `ms.filter { it.hasModifierProperty(PUBLIC) }.map { it.name }`. */
  function PublicNames(ms: seq<PsiMethod>): (r: seq<string>)
    ensures forall n :: n in r <==> exists m :: m in ms && m.isPublic && m.name == n
  {
    if ms == [] then []
    else PublicNames(ms[..|ms| - 1]) + (if ms[|ms| - 1].isPublic then [ms[|ms| - 1].name] else [])
  }

  function PublicMethodNames(p: Project, c: ClassRef): seq<string> {
    PublicNames(AllMethods(p, c))
  }
}
