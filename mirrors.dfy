/**
 * The values the classifier reads and produces: the annotation-processing
 * type mirrors it visits, the xml types it builds, and the external
 * collaborators it calls (the XmlClassType and XmlEnumType constructors and
 * the collection test of the decorated interface mirror).
 */
module Mirrors {

  /** The kinds of a Java primitive type mirror. */
  datatype PrimitiveKind = Boolean | Byte | Short | Int | Long | Char | Float | Double

  /**
   * A type mirror, one constructor per kind the visitor distinguishes.
   * The bounds and type arguments are kept in the order the type model
   * enumerates them; only the first of each is ever consulted.
   * ReferenceType, DeclaredType and OtherType are the fallback kinds that
   * reach visitReferenceType, visitDeclaredType and visitTypeMirror; their
   * `description` is what the mirror's toString gives.
   */
  datatype TypeMirror =
    | PrimitiveType(kind: PrimitiveKind)
    | VoidType
    | ClassType(className: string, typeArguments: seq<TypeMirror>)
    | EnumType(enumName: string)
    | InterfaceType(interfaceName: string, typeArguments: seq<TypeMirror>)
    | AnnotationType(annotationName: string)
    | ArrayType(componentType: TypeMirror)
    | TypeVariable(variableName: string, bounds: seq<TypeMirror>)
    | WildcardType(upperBounds: seq<TypeMirror>, lowerBounds: seq<TypeMirror>)
    | ReferenceType(description: string)
    | DeclaredType(description: string)
    | OtherType(description: string)

  /** A constructed XmlClassType; only its identity and its collection test matter here. */
  datatype XmlClassType = XmlClassType(qualifiedName: string, isCollection: bool)

  /** A constructed XmlEnumType. */
  datatype XmlEnumType = XmlEnumType(qualifiedName: string)

  /** The xml type a mirror is decorated as. AnyType is KnownXmlType.ANY_TYPE. */
  datatype XmlType =
    | XmlPrimitiveType(primitive: PrimitiveKind)
    | XmlClass(classType: XmlClassType)
    | XmlEnum(enumType: XmlEnumType)
    | AnyType

  /**
   * What an xml type constructor gives: the object, or the message of the
   * XmlTypeException it throws, taken to be non-null.
   */
  datatype Construction<+T> = Constructed(value: T) | ConstructorFailed(message: string)

  /**
   * The collaborators the classifier calls but that are not part of this model:
   * `newXmlClassType` and `newXmlEnumType` are the XmlClassType and XmlEnumType
   * constructors applied to a class or enum mirror; `isCollection` is the
   * collection test of the mirror decorated by the generic mirror decorator,
   * applied to an interface mirror.
   */
  datatype Collaborators = Collaborators(
    newXmlClassType: TypeMirror -> Construction<XmlClassType>,
    newXmlEnumType: TypeMirror -> Construction<XmlEnumType>,
    isCollection: TypeMirror -> bool)

  /** The argument of decorate: a mirror that already is an xml type mirror, or any other mirror. */
  datatype Input = AlreadyXml(xmlType: XmlType) | Undecorated(mirror: TypeMirror)
}
