/**
 * Properties of the classification: the fixed outcomes per kind, the
 * recursive rules for arrays, bounds and collections, and where every
 * outcome comes from along the path the visitor follows.
 */
module DecoratorProperties {
  import opened Mirrors
  import opened Decorator

  /** A primitive is always decorated as its primitive xml type. */
  lemma PrimitiveIsDecorated(env: Collaborators, k: PrimitiveKind)
    ensures Classify(env, PrimitiveType(k)) == Decorated(XmlPrimitiveType(k))
  {
  }

  /** Void always fails, with a fixed message. */
  lemma VoidIsRejected(env: Collaborators)
    ensures Classify(env, VoidType) == Rejected("Void is not a valid xml type.")
  {
  }

  /** An annotation type always fails, with a fixed message. */
  lemma AnnotationIsRejected(env: Collaborators, name: string)
    ensures Classify(env, AnnotationType(name)) == Rejected("An annotation type cannot be an xml type.")
  {
  }

  /** The fallback kinds fail with the mirror's description after a fixed prefix. */
  lemma UnknownKindsAreRejected(env: Collaborators, t: TypeMirror)
    requires t.ReferenceType? || t.DeclaredType? || t.OtherType?
    ensures Classify(env, t) == Rejected("Unknown xml type: " + t.description)
  {
  }

  /** An interface is rejected unless it is a collection, in which case it is its first type argument. */
  lemma InterfaceRule(env: Collaborators, t: TypeMirror)
    requires t.InterfaceType?
    ensures !env.isCollection(t) ==> Classify(env, t) == Rejected("An interface type cannot be an xml type.")
    ensures env.isCollection(t) && |t.typeArguments| > 0 ==> Classify(env, t) == Classify(env, t.typeArguments[0])
  {
  }

  /**
   * A class is its constructed XmlClassType, the constructor's failure
   * message verbatim, or, for a collection, its first type argument.
   */
  lemma ClassRule(env: Collaborators, t: TypeMirror)
    requires t.ClassType?
    ensures env.newXmlClassType(t).ConstructorFailed? ==>
      Classify(env, t) == Rejected(env.newXmlClassType(t).message)
    ensures env.newXmlClassType(t).Constructed? && !env.newXmlClassType(t).value.isCollection ==>
      Classify(env, t) == Decorated(XmlClass(env.newXmlClassType(t).value))
    ensures env.newXmlClassType(t).Constructed? && env.newXmlClassType(t).value.isCollection && |t.typeArguments| > 0 ==>
      Classify(env, t) == Classify(env, t.typeArguments[0])
  {
  }

  /** An enum is its constructed XmlEnumType or the constructor's failure message verbatim. */
  lemma EnumRule(env: Collaborators, t: TypeMirror)
    requires t.EnumType?
    ensures env.newXmlEnumType(t).ConstructorFailed? ==> Classify(env, t) == Rejected(env.newXmlEnumType(t).message)
    ensures env.newXmlEnumType(t).Constructed? ==> Classify(env, t) == Decorated(XmlEnum(env.newXmlEnumType(t).value))
  {
  }

  /** A class or interface that is a collection without type arguments throws; it is never AnyType. */
  lemma RawCollectionThrows(env: Collaborators, t: TypeMirror)
    requires RawCollection(env, t)
    ensures Classify(env, t) == NoSuchElement
  {
  }

  /**
   * An array fails exactly when its component fails, with the array context
   * in front of the component's message; otherwise it is the component's outcome.
   */
  lemma ArrayRule(env: Collaborators, c: TypeMirror)
    ensures Classify(env, ArrayType(c)).Rejected? <==> Classify(env, c).Rejected?
    ensures Classify(env, c).Rejected? ==>
      Classify(env, ArrayType(c)).message == "Problem with the array component type: " + Classify(env, c).message
    ensures !Classify(env, c).Rejected? ==> Classify(env, ArrayType(c)) == Classify(env, c)
  {
  }

  /** `n` array levels around `c`. */
  function ArrayOf(n: nat, c: TypeMirror): TypeMirror
  {
    if n == 0 then c else ArrayType(ArrayOf(n - 1, c))
  }

  /** `n` copies of `s`. */
  function Repeat(s: string, n: nat): string
  {
    if n == 0 then [] else s + Repeat(s, n - 1)
  }

  lemma RepeatOnceMore(s: string, n: nat, m: string)
    requires n > 0
    ensures s + (Repeat(s, n - 1) + m) == Repeat(s, n) + m
  {
  }

  /** Nested arrays add one array context per level, outermost first, and are otherwise their innermost component. */
  lemma {:induction false} NestedArrays(env: Collaborators, n: nat, c: TypeMirror)
    ensures Classify(env, c).Rejected? ==>
      Classify(env, ArrayOf(n, c)) == Rejected(Repeat(ArrayContext, n) + Classify(env, c).message)
    ensures !Classify(env, c).Rejected? ==> Classify(env, ArrayOf(n, c)) == Classify(env, c)
  {
    if n > 0 {
      NestedArrays(env, n - 1, c);
      if Classify(env, c).Rejected? {
        RepeatOnceMore(ArrayContext, n, Classify(env, c).message);
      }
    }
  }

  /**
   * A type variable without bounds is AnyType; otherwise only its first
   * bound is classified, with the type variable context on failure.
   */
  lemma TypeVariableRule(env: Collaborators, name: string, bounds: seq<TypeMirror>)
    ensures |bounds| == 0 ==> Classify(env, TypeVariable(name, bounds)) == Decorated(AnyType)
    ensures |bounds| > 0 ==>
      Classify(env, TypeVariable(name, bounds)) == WithContext("Problem with the type variable bounds: ", Classify(env, bounds[0]))
    ensures |bounds| > 0 ==> Classify(env, TypeVariable(name, bounds)) == Classify(env, TypeVariable(name, bounds[..1]))
  {
  }

  /**
   * A wildcard without upper bounds is AnyType; otherwise only its first
   * upper bound is classified, with the wildcard context on failure.
   */
  lemma WildcardRule(env: Collaborators, upper: seq<TypeMirror>, lower: seq<TypeMirror>)
    ensures |upper| == 0 ==> Classify(env, WildcardType(upper, lower)) == Decorated(AnyType)
    ensures |upper| > 0 ==>
      Classify(env, WildcardType(upper, lower)) == WithContext("Problem with wildcard bounds: ", Classify(env, upper[0]))
    ensures |upper| > 0 ==> Classify(env, WildcardType(upper, lower)) == Classify(env, WildcardType(upper[..1], []))
  {
  }

  /**
   * The class or interface `t` is handed to the collection rule: a class whose
   * XmlClassType is constructed and is a collection, or an interface whose
   * decorated mirror is a collection.
   */
  ghost predicate TreatedAsCollection(env: Collaborators, t: TypeMirror)
  {
    match t
    case ClassType(_, _) => env.newXmlClassType(t).Constructed? && env.newXmlClassType(t).value.isCollection
    case InterfaceType(_, _) => env.isCollection(t)
    case _ => false
  }

  /**
   * `s` lies on the path the visitor follows from `t`: array components,
   * first bounds, and the first type argument of a class or interface that
   * is treated as a collection.
   */
  ghost predicate OnSpine(env: Collaborators, s: TypeMirror, t: TypeMirror)
    decreases t
  {
    s == t ||
    match t
    case ArrayType(c) => OnSpine(env, s, c)
    case TypeVariable(_, bounds) => |bounds| > 0 && OnSpine(env, s, bounds[0])
    case WildcardType(upper, _) => |upper| > 0 && OnSpine(env, s, upper[0])
    case ClassType(_, args) => TreatedAsCollection(env, t) && |args| > 0 && OnSpine(env, s, args[0])
    case InterfaceType(_, args) => TreatedAsCollection(env, t) && |args| > 0 && OnSpine(env, s, args[0])
    case _ => false
  }

  /** The node `s` itself, without descending, gives the xml type `x`. */
  ghost predicate Yields(env: Collaborators, s: TypeMirror, x: XmlType)
  {
    match s
    case PrimitiveType(k) => x == XmlPrimitiveType(k)
    case ClassType(_, _) =>
      env.newXmlClassType(s).Constructed? && !env.newXmlClassType(s).value.isCollection &&
      x == XmlClass(env.newXmlClassType(s).value)
    case EnumType(_) => env.newXmlEnumType(s).Constructed? && x == XmlEnum(env.newXmlEnumType(s).value)
    case TypeVariable(_, bounds) => |bounds| == 0 && x == AnyType
    case WildcardType(upper, _) => |upper| == 0 && x == AnyType
    case _ => false
  }

  /** The node `s` itself, without descending, fails with message `b`. */
  ghost predicate FailsAt(env: Collaborators, s: TypeMirror, b: string)
  {
    match s
    case VoidType => b == VoidMessage
    case AnnotationType(_) => b == AnnotationMessage
    case InterfaceType(_, _) => !env.isCollection(s) && b == InterfaceMessage
    case ClassType(_, _) => env.newXmlClassType(s) == ConstructorFailed(b)
    case EnumType(_) => env.newXmlEnumType(s) == ConstructorFailed(b)
    case ReferenceType(d) => b == UnknownPrefix + d
    case DeclaredType(d) => b == UnknownPrefix + d
    case OtherType(d) => b == UnknownPrefix + d
    case _ => false
  }

  /** A class or interface that is a collection and has no type arguments. */
  ghost predicate RawCollection(env: Collaborators, s: TypeMirror)
  {
    TreatedAsCollection(env, s) && |s.typeArguments| == 0
  }

  /**
   * The visitor does not descend into the type arguments of a class or
   * interface that is not treated as a collection (a non-collection class, a
   * class whose constructor failed, a non-collection interface): the only
   * node on its path is itself.
   */
  lemma SpineStopsAtNonCollections(env: Collaborators, s: TypeMirror, t: TypeMirror)
    requires t.ClassType? || t.InterfaceType?
    requires !TreatedAsCollection(env, t)
    ensures OnSpine(env, s, t) <==> s == t
  {
  }

  /** The contexts of `cs`, outermost first, written one after another. */
  function Join(cs: seq<string>): string
  {
    if |cs| == 0 then [] else cs[0] + Join(cs[1..])
  }

  lemma JoinCons(ctx: string, cs: seq<string>, b: string)
    ensures ctx + (Join(cs) + b) == Join([ctx] + cs) + b
  {
    assert ([ctx] + cs)[1..] == cs;
  }

  /**
   * The visitor's path from `t` reaches `s`, and `cs` lists the contexts of
   * the array, type-variable and wildcard boundaries it crosses on the way,
   * outermost first; a collection adds no context.
   */
  ghost predicate SpinePath(env: Collaborators, s: TypeMirror, t: TypeMirror, cs: seq<string>)
    decreases t
  {
    (s == t && cs == []) ||
    match t
    case ArrayType(c) => |cs| > 0 && cs[0] == ArrayContext && SpinePath(env, s, c, cs[1..])
    case TypeVariable(_, bounds) =>
      |bounds| > 0 && |cs| > 0 && cs[0] == TypeVariableContext && SpinePath(env, s, bounds[0], cs[1..])
    case WildcardType(upper, _) =>
      |upper| > 0 && |cs| > 0 && cs[0] == WildcardContext && SpinePath(env, s, upper[0], cs[1..])
    case ClassType(_, args) => TreatedAsCollection(env, t) && |args| > 0 && SpinePath(env, s, args[0], cs)
    case InterfaceType(_, args) => TreatedAsCollection(env, t) && |args| > 0 && SpinePath(env, s, args[0], cs)
    case _ => false
  }

  /** A path with its contexts is a path. */
  lemma {:induction false} SpinePathIsOnSpine(env: Collaborators, s: TypeMirror, t: TypeMirror, cs: seq<string>)
    requires SpinePath(env, s, t, cs)
    ensures OnSpine(env, s, t)
    decreases t
  {
    if s != t {
      match t
      case ArrayType(c) => SpinePathIsOnSpine(env, s, c, cs[1..]);
      case TypeVariable(_, bounds) => SpinePathIsOnSpine(env, s, bounds[0], cs[1..]);
      case WildcardType(upper, _) => SpinePathIsOnSpine(env, s, upper[0], cs[1..]);
      case ClassType(_, args) => SpinePathIsOnSpine(env, s, args[0], cs);
      case InterfaceType(_, args) => SpinePathIsOnSpine(env, s, args[0], cs);
    }
  }

  /**
   * Every xml type the classification yields is produced by a node on the
   * visitor's path: a primitive, a constructed non-collection class, a
   * constructed enum, or a bound-free type variable or wildcard.
   */
  lemma {:induction false} DecoratedProvenance(env: Collaborators, t: TypeMirror)
    requires Classify(env, t).Decorated?
    ensures exists s :: OnSpine(env, s, t) && Yields(env, s, Classify(env, t).xmlType)
    decreases t
  {
    match t
    case ArrayType(c) =>
      DecoratedProvenance(env, c);
      var s :| OnSpine(env, s, c) && Yields(env, s, Classify(env, c).xmlType);
      assert OnSpine(env, s, t);
    case TypeVariable(_, bounds) =>
      if |bounds| == 0 {
        assert OnSpine(env, t, t) && Yields(env, t, AnyType);
      } else {
        DecoratedProvenance(env, bounds[0]);
        var s :| OnSpine(env, s, bounds[0]) && Yields(env, s, Classify(env, bounds[0]).xmlType);
        assert OnSpine(env, s, t);
      }
    case WildcardType(upper, _) =>
      if |upper| == 0 {
        assert OnSpine(env, t, t) && Yields(env, t, AnyType);
      } else {
        DecoratedProvenance(env, upper[0]);
        var s :| OnSpine(env, s, upper[0]) && Yields(env, s, Classify(env, upper[0]).xmlType);
        assert OnSpine(env, s, t);
      }
    case ClassType(_, args) =>
      if env.newXmlClassType(t).value.isCollection {
        DecoratedProvenance(env, args[0]);
        var s :| OnSpine(env, s, args[0]) && Yields(env, s, Classify(env, args[0]).xmlType);
        assert OnSpine(env, s, t);
      } else {
        assert OnSpine(env, t, t) && Yields(env, t, Classify(env, t).xmlType);
      }
    case InterfaceType(_, args) =>
      DecoratedProvenance(env, args[0]);
      var s :| OnSpine(env, s, args[0]) && Yields(env, s, Classify(env, args[0]).xmlType);
      assert OnSpine(env, s, t);
    case PrimitiveType(_) =>
      assert OnSpine(env, t, t) && Yields(env, t, Classify(env, t).xmlType);
    case EnumType(_) =>
      assert OnSpine(env, t, t) && Yields(env, t, Classify(env, t).xmlType);
    case VoidType =>
    case AnnotationType(_) =>
    case ReferenceType(_) =>
    case DeclaredType(_) =>
    case OtherType(_) =>
  }

  /** `c` is the node the visitor descends into from `t`, if it descends at all. */
  ghost predicate SpineChild(env: Collaborators, c: TypeMirror, t: TypeMirror)
  {
    match t
    case ArrayType(x) => c == x
    case TypeVariable(_, bounds) => |bounds| > 0 && c == bounds[0]
    case WildcardType(upper, _) => |upper| > 0 && c == upper[0]
    case ClassType(_, args) => TreatedAsCollection(env, t) && |args| > 0 && c == args[0]
    case InterfaceType(_, args) => TreatedAsCollection(env, t) && |args| > 0 && c == args[0]
    case _ => false
  }

  /**
   * `m` is the own failure message of a node on the visitor's path from `t`,
   * preceded by exactly the contexts of the boundaries crossed to reach it.
   */
  ghost predicate ExplainedRejection(env: Collaborators, t: TypeMirror, m: string)
  {
    exists s, cs, b :: SpinePath(env, s, t, cs) && FailsAt(env, s, b) && m == Join(cs) + b
  }

  lemma RejectedAtItself(env: Collaborators, t: TypeMirror, m: string)
    requires FailsAt(env, t, m)
    ensures ExplainedRejection(env, t, m)
  {
    assert SpinePath(env, t, t, []) && m == Join([]) + m;
  }

  /** A collection passes a message up unchanged. */
  lemma RejectedBelow(env: Collaborators, c: TypeMirror, t: TypeMirror, m: string)
    requires t.ClassType? || t.InterfaceType?
    requires SpineChild(env, c, t) && ExplainedRejection(env, c, m)
    ensures ExplainedRejection(env, t, m)
  {
    var s, cs, b :| SpinePath(env, s, c, cs) && FailsAt(env, s, b) && m == Join(cs) + b;
    assert SpinePath(env, s, t, cs);
  }

  /** An array, type variable or wildcard puts its own context in front of the message. */
  lemma RejectedBelowWithContext(env: Collaborators, c: TypeMirror, t: TypeMirror, ctx: string, m: string)
    requires (t.ArrayType? && ctx == ArrayContext) || (t.TypeVariable? && ctx == TypeVariableContext) ||
             (t.WildcardType? && ctx == WildcardContext)
    requires SpineChild(env, c, t) && ExplainedRejection(env, c, m)
    ensures ExplainedRejection(env, t, ctx + m)
  {
    var s, cs, b :| SpinePath(env, s, c, cs) && FailsAt(env, s, b) && m == Join(cs) + b;
    JoinCons(ctx, cs, b);
    assert ([ctx] + cs)[1..] == cs;
    assert SpinePath(env, s, t, [ctx] + cs);
  }

  /**
   * Every rejection message is the own failure message of a node on the
   * visitor's path, preceded by exactly the contexts of the array,
   * type-variable and wildcard boundaries crossed on the way down to it.
   */
  lemma {:induction false} RejectionProvenance(env: Collaborators, t: TypeMirror)
    requires Classify(env, t).Rejected?
    ensures ExplainedRejection(env, t, Classify(env, t).message)
    decreases t
  {
    match t
    case ArrayType(c) =>
      RejectionProvenance(env, c);
      RejectedBelowWithContext(env, c, t, ArrayContext, Classify(env, c).message);
    case TypeVariable(_, bounds) =>
      RejectionProvenance(env, bounds[0]);
      RejectedBelowWithContext(env, bounds[0], t, TypeVariableContext, Classify(env, bounds[0]).message);
    case WildcardType(upper, _) =>
      RejectionProvenance(env, upper[0]);
      RejectedBelowWithContext(env, upper[0], t, WildcardContext, Classify(env, upper[0]).message);
    case ClassType(_, args) =>
      if env.newXmlClassType(t).Constructed? {
        RejectionProvenance(env, args[0]);
        RejectedBelow(env, args[0], t, Classify(env, args[0]).message);
      } else {
        RejectedAtItself(env, t, Classify(env, t).message);
      }
    case InterfaceType(_, args) =>
      if env.isCollection(t) {
        RejectionProvenance(env, args[0]);
        RejectedBelow(env, args[0], t, Classify(env, args[0]).message);
      } else {
        RejectedAtItself(env, t, Classify(env, t).message);
      }
    case VoidType => RejectedAtItself(env, t, Classify(env, t).message);
    case AnnotationType(_) => RejectedAtItself(env, t, Classify(env, t).message);
    case EnumType(_) => RejectedAtItself(env, t, Classify(env, t).message);
    case ReferenceType(_) => RejectedAtItself(env, t, Classify(env, t).message);
    case DeclaredType(_) => RejectedAtItself(env, t, Classify(env, t).message);
    case OtherType(_) => RejectedAtItself(env, t, Classify(env, t).message);
    case PrimitiveType(_) =>
  }

  /**
   * No failure is swallowed: a failing node on the visitor's path always makes
   * the whole mirror fail, with that node's own message behind the contexts of
   * the boundaries crossed to reach it.
   */
  lemma {:induction false} NoSwallow(env: Collaborators, s: TypeMirror, t: TypeMirror, b: string)
    requires OnSpine(env, s, t) && FailsAt(env, s, b)
    ensures exists cs :: SpinePath(env, s, t, cs) && Classify(env, t) == Rejected(Join(cs) + b)
    decreases t
  {
    if s == t {
      assert SpinePath(env, s, t, []) && Classify(env, t) == Rejected(Join([]) + b);
    } else {
      match t
      case ArrayType(c) =>
        NoSwallow(env, s, c, b);
        var cs :| SpinePath(env, s, c, cs) && Classify(env, c) == Rejected(Join(cs) + b);
        JoinCons(ArrayContext, cs, b);
        assert ([ArrayContext] + cs)[1..] == cs;
        assert SpinePath(env, s, t, [ArrayContext] + cs);
      case TypeVariable(_, bounds) =>
        NoSwallow(env, s, bounds[0], b);
        var cs :| SpinePath(env, s, bounds[0], cs) && Classify(env, bounds[0]) == Rejected(Join(cs) + b);
        JoinCons(TypeVariableContext, cs, b);
        assert ([TypeVariableContext] + cs)[1..] == cs;
        assert SpinePath(env, s, t, [TypeVariableContext] + cs);
      case WildcardType(upper, _) =>
        NoSwallow(env, s, upper[0], b);
        var cs :| SpinePath(env, s, upper[0], cs) && Classify(env, upper[0]) == Rejected(Join(cs) + b);
        JoinCons(WildcardContext, cs, b);
        assert ([WildcardContext] + cs)[1..] == cs;
        assert SpinePath(env, s, t, [WildcardContext] + cs);
      case ClassType(_, args) =>
        NoSwallow(env, s, args[0], b);
        var cs :| SpinePath(env, s, args[0], cs) && Classify(env, args[0]) == Rejected(Join(cs) + b);
        assert SpinePath(env, s, t, cs);
        assert Classify(env, t) == ClassifyCollection(env, t);
      case InterfaceType(_, args) =>
        NoSwallow(env, s, args[0], b);
        var cs :| SpinePath(env, s, args[0], cs) && Classify(env, args[0]) == Rejected(Join(cs) + b);
        assert SpinePath(env, s, t, cs);
        assert Classify(env, t) == ClassifyCollection(env, t);
    }
  }

  /** A mirror is rejected exactly when some node on the visitor's path fails on its own. */
  lemma RejectedIffFailingNode(env: Collaborators, t: TypeMirror)
    ensures Classify(env, t).Rejected? <==> exists s, b :: OnSpine(env, s, t) && FailsAt(env, s, b)
  {
    if Classify(env, t).Rejected? {
      RejectionProvenance(env, t);
      var s, cs, b :| SpinePath(env, s, t, cs) && FailsAt(env, s, b) && Classify(env, t).message == Join(cs) + b;
      SpinePathIsOnSpine(env, s, t, cs);
    }
    if exists s, b :: OnSpine(env, s, t) && FailsAt(env, s, b) {
      var s, b :| OnSpine(env, s, t) && FailsAt(env, s, b);
      NoSwallow(env, s, t, b);
    }
  }

  /** A NoSuchElementException comes only from a raw collection on the visitor's path. */
  lemma {:induction false} NoSuchElementProvenance(env: Collaborators, t: TypeMirror)
    requires Classify(env, t).NoSuchElement?
    ensures exists s :: OnSpine(env, s, t) && RawCollection(env, s)
    decreases t
  {
    match t
    case ArrayType(c) =>
      NoSuchElementProvenance(env, c);
      var s :| OnSpine(env, s, c) && RawCollection(env, s);
      assert OnSpine(env, s, t);
    case TypeVariable(_, bounds) =>
      NoSuchElementProvenance(env, bounds[0]);
      var s :| OnSpine(env, s, bounds[0]) && RawCollection(env, s);
      assert OnSpine(env, s, t);
    case WildcardType(upper, _) =>
      NoSuchElementProvenance(env, upper[0]);
      var s :| OnSpine(env, s, upper[0]) && RawCollection(env, s);
      assert OnSpine(env, s, t);
    case ClassType(_, args) =>
      if |args| == 0 {
        assert OnSpine(env, t, t) && RawCollection(env, t);
      } else {
        NoSuchElementProvenance(env, args[0]);
        var s :| OnSpine(env, s, args[0]) && RawCollection(env, s);
        assert OnSpine(env, s, t);
      }
    case InterfaceType(_, args) =>
      if |args| == 0 {
        assert OnSpine(env, t, t) && RawCollection(env, t);
      } else {
        NoSuchElementProvenance(env, args[0]);
        var s :| OnSpine(env, s, args[0]) && RawCollection(env, s);
        assert OnSpine(env, s, t);
      }
  }
}

