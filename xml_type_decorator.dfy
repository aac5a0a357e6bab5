/**
 * The xml type decorator: a visitor over type mirrors that records either the
 * xml type of the mirror or an error message in two fields, and the static
 * `Decorate` that runs it on a fresh instance.
 *
 * Three layers:
 *  - `Classify` is the reference classification, one outcome per mirror;
 *  - `Visit` is what a visit does to the two fields from any starting values,
 *    including a NoSuchElementException escaping from a raw collection;
 *  - class `XmlTypeDecorator` holds the fields; the simple visits state the
 *    new field values directly, `Accept` and the recursive visits are proved
 *    against `Visit`; `FreshVisitMatchesClassify` ties `Visit` to `Classify`.
 */
module Decorator {
  import opened Wrappers
  import opened Mirrors

  const UnknownPrefix := "Unknown xml type: "
  const VoidMessage := "Void is not a valid xml type."
  const InterfaceMessage := "An interface type cannot be an xml type."
  const AnnotationMessage := "An annotation type cannot be an xml type."
  const ArrayContext := "Problem with the array component type: "
  const TypeVariableContext := "Problem with the type variable bounds: "
  const WildcardContext := "Problem with wildcard bounds: "

  /**
   * What decorating a mirror ends in: its xml type, an XmlTypeException with
   * this message, or the NoSuchElementException raised on an empty type
   * argument list.
   */
  datatype Outcome = Decorated(xmlType: XmlType) | Rejected(message: string) | NoSuchElement

  /** A failure passing a recursive boundary gains the boundary's context; anything else passes unchanged. */
  function WithContext(context: string, o: Outcome): Outcome
  {
    match o
    case Rejected(m) => Rejected(context + m)
    case _ => o
  }

  /** True of the mirrors handed to the collection rule. */
  predicate HasTypeArguments(t: TypeMirror)
  {
    t.ClassType? || t.InterfaceType?
  }

  /** The reference classification of a mirror. */
  function Classify(env: Collaborators, t: TypeMirror): Outcome
    decreases t, 1
  {
    match t
    case PrimitiveType(k) => Decorated(XmlPrimitiveType(k))
    case VoidType => Rejected(VoidMessage)
    case ClassType(_, _) =>
      (match env.newXmlClassType(t)
       case ConstructorFailed(m) => Rejected(m)
       case Constructed(c) => if c.isCollection then ClassifyCollection(env, t) else Decorated(XmlClass(c)))
    case EnumType(_) =>
      (match env.newXmlEnumType(t)
       case ConstructorFailed(m) => Rejected(m)
       case Constructed(e) => Decorated(XmlEnum(e)))
    case InterfaceType(_, _) =>
      if env.isCollection(t) then ClassifyCollection(env, t) else Rejected(InterfaceMessage)
    case AnnotationType(_) => Rejected(AnnotationMessage)
    case ArrayType(c) => WithContext(ArrayContext, Classify(env, c))
    case TypeVariable(_, bounds) =>
      if |bounds| == 0 then Decorated(AnyType) else WithContext(TypeVariableContext, Classify(env, bounds[0]))
    case WildcardType(upper, _) =>
      if |upper| == 0 then Decorated(AnyType) else WithContext(WildcardContext, Classify(env, upper[0]))
    case ReferenceType(d) => Rejected(UnknownPrefix + d)
    case DeclaredType(d) => Rejected(UnknownPrefix + d)
    case OtherType(d) => Rejected(UnknownPrefix + d)
  }

  /** The collection rule: a collection is classified as its first type argument. */
  function ClassifyCollection(env: Collaborators, t: TypeMirror): Outcome
    requires HasTypeArguments(t)
    decreases t, 0
  {
    if |t.typeArguments| == 0 then NoSuchElement else Classify(env, t.typeArguments[0])
  }

  /** The values of the visitor's two fields; None stands for null. */
  datatype Fields = Fields(decoratedTypeMirror: Option<XmlType>, errorMessage: Option<string>)

  /** The fields of a new instance. */
  const Fresh := Fields(None, None)

  /** How a visit ends: it returns normally, or a NoSuchElementException escapes; either way with these field values. */
  datatype Run = Returned(fields: Fields) | ThrewNoSuchElement(fields: Fields)

  function Ran(threw: bool, f: Fields): Run
  {
    if threw then ThrewNoSuchElement(f) else Returned(f)
  }

  /** After the recursive visit: on return, a recorded error message gains the context; an exception passes through. */
  function AfterChild(context: string, r: Run): (r': Run)
    ensures r'.ThrewNoSuchElement? == r.ThrewNoSuchElement?
    ensures r'.fields.decoratedTypeMirror == r.fields.decoratedTypeMirror
    ensures r'.fields.errorMessage.Some? == r.fields.errorMessage.Some?
  {
    match r
    case ThrewNoSuchElement(_) => r
    case Returned(f) =>
      if f.errorMessage.Some? then Returned(f.(errorMessage := Some(context + f.errorMessage.value))) else r
  }

  /**
   * The effect of accepting the visitor on `t` when its fields hold `f`.
   * No visit ever clears an error message once one is recorded.
   */
  function Visit(env: Collaborators, t: TypeMirror, f: Fields): (r: Run)
    ensures f.errorMessage.Some? ==> r.fields.errorMessage.Some?
    decreases t, 1
  {
    match t
    case PrimitiveType(k) => Returned(f.(decoratedTypeMirror := Some(XmlPrimitiveType(k))))
    case VoidType => Returned(Fields(None, Some(VoidMessage)))
    case ClassType(_, _) =>
      (match env.newXmlClassType(t)
       case ConstructorFailed(m) => Returned(f.(errorMessage := Some(m)))
       case Constructed(c) =>
         if c.isCollection then VisitCollection(env, t, f) else Returned(f.(decoratedTypeMirror := Some(XmlClass(c)))))
    case EnumType(_) =>
      (match env.newXmlEnumType(t)
       case ConstructorFailed(m) => Returned(f.(errorMessage := Some(m)))
       case Constructed(e) => Returned(f.(decoratedTypeMirror := Some(XmlEnum(e)))))
    case InterfaceType(_, _) =>
      if env.isCollection(t) then VisitCollection(env, t, f) else Returned(Fields(None, Some(InterfaceMessage)))
    case AnnotationType(_) => Returned(Fields(None, Some(AnnotationMessage)))
    case ArrayType(c) => AfterChild(ArrayContext, Visit(env, c, f))
    case TypeVariable(_, bounds) =>
      if |bounds| == 0 then Returned(f.(decoratedTypeMirror := Some(AnyType)))
      else AfterChild(TypeVariableContext, Visit(env, bounds[0], f))
    case WildcardType(upper, _) =>
      if |upper| == 0 then Returned(f.(decoratedTypeMirror := Some(AnyType)))
      else AfterChild(WildcardContext, Visit(env, upper[0], f))
    case ReferenceType(d) => Returned(Fields(None, Some(UnknownPrefix + d)))
    case DeclaredType(d) => Returned(Fields(None, Some(UnknownPrefix + d)))
    case OtherType(d) => Returned(Fields(None, Some(UnknownPrefix + d)))
  }

  /**
   * The effect of visitCollectionType: with no type arguments it records
   * AnyType and then fails to take the first argument.
   */
  function VisitCollection(env: Collaborators, t: TypeMirror, f: Fields): (r: Run)
    requires HasTypeArguments(t)
    ensures f.errorMessage.Some? ==> r.fields.errorMessage.Some?
    decreases t, 0
  {
    if |t.typeArguments| == 0 then ThrewNoSuchElement(f.(decoratedTypeMirror := Some(AnyType)))
    else Visit(env, t.typeArguments[0], f)
  }

  /** The run a fresh visitor makes for each reference outcome. */
  function Expected(o: Outcome): Run
  {
    match o
    case Decorated(x) => Returned(Fields(Some(x), None))
    case Rejected(m) => Returned(Fields(None, Some(m)))
    case NoSuchElement => ThrewNoSuchElement(Fields(Some(AnyType), None))
  }

  /**
   * From a fresh instance the visit agrees with the reference classification,
   * and exactly one of the two fields is set when it returns.
   */
  lemma {:induction false} FreshVisitMatchesClassify(env: Collaborators, t: TypeMirror)
    ensures Visit(env, t, Fresh) == Expected(Classify(env, t))
    ensures Visit(env, t, Fresh).Returned? ==>
      (Visit(env, t, Fresh).fields.decoratedTypeMirror.Some? != Visit(env, t, Fresh).fields.errorMessage.Some?)
    decreases t
  {
    match t
    case ClassType(_, args) =>
      if |args| > 0 { FreshVisitMatchesClassify(env, args[0]); }
    case InterfaceType(_, args) =>
      if |args| > 0 { FreshVisitMatchesClassify(env, args[0]); }
    case ArrayType(c) =>
      FreshVisitMatchesClassify(env, c);
    case TypeVariable(_, bounds) =>
      if |bounds| > 0 { FreshVisitMatchesClassify(env, bounds[0]); }
    case WildcardType(upper, _) =>
      if |upper| > 0 { FreshVisitMatchesClassify(env, upper[0]); }
    case _ =>
  }

  /** The visitor, with the two fields each visit assigns. */
  class XmlTypeDecorator {
    const env: Collaborators
    var decoratedTypeMirror: Option<XmlType>
    var errorMessage: Option<string>

    function Snapshot(): Fields
      reads this
    {
      Fields(decoratedTypeMirror, errorMessage)
    }

    constructor (env: Collaborators)
      ensures this.env == env
      ensures decoratedTypeMirror == None && errorMessage == None
    {
      this.env := env;
      decoratedTypeMirror := None;
      errorMessage := None;
    }

    /**
     * Decorates a mirror as an xml type: returns an xml type mirror unchanged,
     * otherwise visits it with a new instance and reports its error message
     * as a rejection, or else its xml type.
     */
    static method Decorate(env: Collaborators, input: Input) returns (r: Outcome)
      ensures input.AlreadyXml? ==> r == Decorated(input.xmlType)
      ensures input.Undecorated? ==> r == Classify(env, input.mirror)
    {
      if input.AlreadyXml? {
        return Decorated(input.xmlType);
      }
      var instance := new XmlTypeDecorator(env);
      var threw := instance.Accept(input.mirror);
      FreshVisitMatchesClassify(env, input.mirror);
      if threw {
        return NoSuchElement;
      }
      if instance.errorMessage.Some? {
        return Rejected(instance.errorMessage.value);
      }
      return Decorated(instance.decoratedTypeMirror.value);
    }

    /** The mirror's accept: dispatches to the visit method of its kind. */
    method Accept(t: TypeMirror) returns (threw: bool)
      modifies this
      ensures Ran(threw, Snapshot()) == Visit(env, t, old(Snapshot()))
      decreases t, 2
    {
      threw := false;
      match t
      case PrimitiveType(_) => VisitPrimitiveType(t);
      case VoidType => VisitVoidType(t);
      case ClassType(_, _) => threw := VisitClassType(t);
      case EnumType(_) => VisitEnumType(t);
      case InterfaceType(_, _) => threw := VisitInterfaceType(t);
      case AnnotationType(_) => VisitAnnotationType(t);
      case ArrayType(_) => threw := VisitArrayType(t);
      case TypeVariable(_, _) => threw := VisitTypeVariable(t);
      case WildcardType(_, _) => threw := VisitWildcardType(t);
      case ReferenceType(_) => VisitReferenceType(t);
      case DeclaredType(_) => VisitDeclaredType(t);
      case OtherType(_) => VisitTypeMirror(t);
    }

    method VisitTypeMirror(t: TypeMirror)
      requires t.OtherType?
      modifies this
      ensures decoratedTypeMirror == None && errorMessage == Some(UnknownPrefix + t.description)
    {
      decoratedTypeMirror := None;
      errorMessage := Some(UnknownPrefix + t.description);
    }

    method VisitPrimitiveType(t: TypeMirror)
      requires t.PrimitiveType?
      modifies this
      ensures decoratedTypeMirror == Some(XmlPrimitiveType(t.kind))
      ensures errorMessage == old(errorMessage)
    {
      decoratedTypeMirror := Some(XmlPrimitiveType(t.kind));
    }

    method VisitVoidType(t: TypeMirror)
      requires t.VoidType?
      modifies this
      ensures decoratedTypeMirror == None && errorMessage == Some(VoidMessage)
    {
      decoratedTypeMirror := None;
      errorMessage := Some(VoidMessage);
    }

    method VisitReferenceType(t: TypeMirror)
      requires t.ReferenceType?
      modifies this
      ensures decoratedTypeMirror == None && errorMessage == Some(UnknownPrefix + t.description)
    {
      decoratedTypeMirror := None;
      errorMessage := Some(UnknownPrefix + t.description);
    }

    method VisitDeclaredType(t: TypeMirror)
      requires t.DeclaredType?
      modifies this
      ensures decoratedTypeMirror == None && errorMessage == Some(UnknownPrefix + t.description)
    {
      decoratedTypeMirror := None;
      errorMessage := Some(UnknownPrefix + t.description);
    }

    /**
     * A class is its XmlClassType unless that is a collection, which is
     * classified by its element type; a failing constructor only records
     * its message and leaves the decorated type as it was.
     */
    method VisitClassType(t: TypeMirror) returns (threw: bool)
      requires t.ClassType?
      modifies this
      ensures env.newXmlClassType(t).ConstructorFailed? ==>
        !threw && decoratedTypeMirror == old(decoratedTypeMirror) &&
        errorMessage == Some(env.newXmlClassType(t).message)
      ensures env.newXmlClassType(t).Constructed? && !env.newXmlClassType(t).value.isCollection ==>
        !threw && decoratedTypeMirror == Some(XmlClass(env.newXmlClassType(t).value)) &&
        errorMessage == old(errorMessage)
      ensures env.newXmlClassType(t).Constructed? && env.newXmlClassType(t).value.isCollection ==>
        Ran(threw, Snapshot()) == VisitCollection(env, t, old(Snapshot()))
      decreases t, 1
    {
      threw := false;
      match env.newXmlClassType(t)
      case ConstructorFailed(m) =>
        errorMessage := Some(m);
      case Constructed(c) =>
        if c.isCollection {
          threw := VisitCollectionType(t);
        } else {
          decoratedTypeMirror := Some(XmlClass(c));
        }
    }

    /**
     * A collection is classified by its first type argument; with none,
     * AnyType is recorded and taking the first argument then throws.
     */
    method VisitCollectionType(t: TypeMirror) returns (threw: bool)
      requires HasTypeArguments(t)
      modifies this
      ensures |t.typeArguments| == 0 ==> threw && decoratedTypeMirror == Some(AnyType) && errorMessage == old(errorMessage)
      ensures |t.typeArguments| > 0 ==> Ran(threw, Snapshot()) == Visit(env, t.typeArguments[0], old(Snapshot()))
      decreases t, 0
    {
      threw := false;
      if |t.typeArguments| == 0 {
        decoratedTypeMirror := Some(AnyType);
        threw := true;
        return;
      }
      threw := Accept(t.typeArguments[0]);
    }

    method VisitEnumType(t: TypeMirror)
      requires t.EnumType?
      modifies this
      ensures env.newXmlEnumType(t).ConstructorFailed? ==>
        decoratedTypeMirror == old(decoratedTypeMirror) && errorMessage == Some(env.newXmlEnumType(t).message)
      ensures env.newXmlEnumType(t).Constructed? ==>
        decoratedTypeMirror == Some(XmlEnum(env.newXmlEnumType(t).value)) && errorMessage == old(errorMessage)
    {
      match env.newXmlEnumType(t)
      case ConstructorFailed(m) =>
        errorMessage := Some(m);
      case Constructed(e) =>
        decoratedTypeMirror := Some(XmlEnum(e));
    }

    method VisitInterfaceType(t: TypeMirror) returns (threw: bool)
      requires t.InterfaceType?
      modifies this
      ensures env.isCollection(t) ==> Ran(threw, Snapshot()) == VisitCollection(env, t, old(Snapshot()))
      ensures !env.isCollection(t) ==> !threw && decoratedTypeMirror == None && errorMessage == Some(InterfaceMessage)
      decreases t, 1
    {
      threw := false;
      if env.isCollection(t) {
        threw := VisitCollectionType(t);
      } else {
        decoratedTypeMirror := None;
        errorMessage := Some(InterfaceMessage);
      }
    }

    method VisitAnnotationType(t: TypeMirror)
      requires t.AnnotationType?
      modifies this
      ensures decoratedTypeMirror == None && errorMessage == Some(AnnotationMessage)
    {
      decoratedTypeMirror := None;
      errorMessage := Some(AnnotationMessage);
    }

    /** An array is its component type; a component's error gains the array context. */
    method VisitArrayType(t: TypeMirror) returns (threw: bool)
      requires t.ArrayType?
      modifies this
      ensures Ran(threw, Snapshot()) == AfterChild(ArrayContext, Visit(env, t.componentType, old(Snapshot())))
      decreases t, 0
    {
      threw := Accept(t.componentType);
      if threw {
        return;
      }
      if errorMessage.Some? {
        errorMessage := Some(ArrayContext + errorMessage.value);
      }
    }

    /** A type variable is AnyType without bounds, else its first bound; a bound's error gains the context. */
    method VisitTypeVariable(t: TypeMirror) returns (threw: bool)
      requires t.TypeVariable?
      modifies this
      ensures |t.bounds| == 0 ==> !threw && decoratedTypeMirror == Some(AnyType) && errorMessage == old(errorMessage)
      ensures |t.bounds| > 0 ==>
        Ran(threw, Snapshot()) == AfterChild(TypeVariableContext, Visit(env, t.bounds[0], old(Snapshot())))
      decreases t, 0
    {
      threw := false;
      if |t.bounds| == 0 {
        decoratedTypeMirror := Some(AnyType);
      } else {
        threw := Accept(t.bounds[0]);
        if threw {
          return;
        }
        if errorMessage.Some? {
          errorMessage := Some(TypeVariableContext + errorMessage.value);
        }
      }
    }

    /** A wildcard is AnyType without upper bounds, else its first upper bound; a bound's error gains the context. */
    method VisitWildcardType(t: TypeMirror) returns (threw: bool)
      requires t.WildcardType?
      modifies this
      ensures |t.upperBounds| == 0 ==> !threw && decoratedTypeMirror == Some(AnyType) && errorMessage == old(errorMessage)
      ensures |t.upperBounds| > 0 ==>
        Ran(threw, Snapshot()) == AfterChild(WildcardContext, Visit(env, t.upperBounds[0], old(Snapshot())))
      decreases t, 0
    {
      threw := false;
      if |t.upperBounds| == 0 {
        decoratedTypeMirror := Some(AnyType);
      } else {
        threw := Accept(t.upperBounds[0]);
        if threw {
          return;
        }
        if errorMessage.Some? {
          errorMessage := Some(WildcardContext + errorMessage.value);
        }
      }
    }
  }
}
