# XmlTypeDecorator, modelled in Dafny

Enunciate's `XmlTypeDecorator` decides which xml type a Java type mirror stands
for when a JAXB contract is built. It is a visitor over the annotation-processing
type mirrors. Each `visit*` method records its result in two fields:
`decoratedTypeMirror`, the xml type (an `XmlPrimitiveType`, `XmlClassType`,
`XmlEnumType` or `KnownXmlType.ANY_TYPE`), and `errorMessage`. The static
`decorate` returns an xml type mirror as it is. For any other mirror it runs a
fresh visitor and throws an `XmlTypeException` when an error message was recorded.
Otherwise it returns the decorated type.

Arrays are classified by their component type. Type variables are classified by
their first bound and are `ANY_TYPE` when they have no bounds. Wildcards are
classified by their first upper bound and are `ANY_TYPE` when they have no upper
bounds, whatever their lower bounds.
Collections, whether classes or interfaces, are classified by their first type
argument. At array, type-variable and wildcard boundaries an error gains a
context prefix; a collection's outcome is its first type argument's, unchanged.

The project has four modules:

- `Wrappers` (`wrappers.dfy`): `Option`, which stands for Java's null.
- `Mirrors` (`mirrors.dfy`): the type mirror as a datatype with one constructor
  per kind the visitor tells apart, and the xml types. It also holds
  `Collaborators`, a record of total functions that stand for the calls the
  decorator makes into code outside this model. These are the `XmlClassType`
  and `XmlEnumType` constructors, which return the object or the message of the
  `XmlTypeException` they throw, and the collection test of the interface mirror
  decorated by the generic mirror decorator. A fallback mirror's `toString` is
  its `description` field.
- `Decorator` (`xml_type_decorator.dfy`) has three parts.
  - `Classify` is the reference classification. It returns an `Outcome`: the xml
    type, a rejection with the exception's message, or `NoSuchElement`.
  - `Visit` gives what a visit does to the two fields, starting from any values
    of them, together with whether an exception escapes.
  - The class `XmlTypeDecorator` has the two fields and one method per `visit*`.
    The simple visits state the new field values directly; `Accept` and the
    visits that recurse (class, collection, interface, array, type variable,
    wildcard) are proved against `Visit`. `Accept` stands for the mirror's
    `accept` double dispatch, and `Decorate` is the static entry point.
    `FreshVisitMatchesClassify` shows that a fresh visitor ends exactly as
    `Classify` says, with exactly one of the two fields set.
- `DecoratorProperties` (`decorator_properties.dfy`): the rule for each kind, and
  where every outcome comes from. The provenance lemmas work along the "spine",
  the path the visitor follows through array components, first bounds, and the
  first type argument of a class or interface that it treats as a collection.
  It never enters the type arguments of a non-collection class, of a class whose
  constructor failed, or of a non-collection interface
  (`SpineStopsAtNonCollections`). `SpinePath` is the same path together with
  the contexts of the array, type-variable and wildcard boundaries it crosses.
  A mirror is rejected exactly when a node on its path fails on its own, and the
  message is then that node's message behind exactly those contexts
  (`RejectionProvenance`, `NoSwallow`, `RejectedIffFailingNode`).

Three behaviours of the code that the model keeps as written:

- A raw collection, meaning a collection class or interface with no type
  arguments, is not `ANY_TYPE`, although the comment at
  XmlTypeDecorator.java:84 says it should be `java.lang.Object`'s type.
  `visitCollectionType` records `ANY_TYPE` but has
  no `else` or `return`. It then takes `iterator().next()` of the empty argument
  list, so a `NoSuchElementException` escapes `decorate`. The model has this as
  the `NoSuchElement` outcome (`RawCollectionThrows`, `NoSuchElementProvenance`).
- When the `XmlClassType` or `XmlEnumType` constructor fails, only
  `errorMessage` is set. `decoratedTypeMirror` keeps whatever it held
  (`VisitClassType`, `VisitEnumType`). From a fresh instance it still holds null,
  so `decorate` is unaffected (`FreshVisitMatchesClassify`).
- `decorate` returns `decoratedTypeMirror` whenever `errorMessage` is null, so
  it would return null if a visit set neither field. Given that the
  `XmlClassType` and `XmlEnumType` constructors throw with a non-null message
  (see "## Left out"), this cannot happen: `Decorate` is proved never to reach
  it.

## Model

| member | source | states |
|---|---|---|
| `Decorator.XmlTypeDecorator.Decorate` | core/src/java/net/sf/enunciate/contract/jaxb/types/XmlTypeDecorator.java:27-39 | An input that already is an xml type mirror comes back unchanged, so decorating a decorated result again gives it back. Any other mirror gives exactly the reference classification: its xml type, an XmlTypeException with the recorded message, or the escaping NoSuchElementException. |
| `Decorator.XmlTypeDecorator.constructor` | core/src/java/net/sf/enunciate/contract/jaxb/types/XmlTypeDecorator.java:17-18 | A new visitor starts with both fields null. |
| `Decorator.XmlTypeDecorator.Accept` | core/src/java/net/sf/enunciate/contract/jaxb/types/XmlTypeDecorator.java:32 | Accepting the visitor on a mirror changes the two fields, and raises or not, exactly as `Visit` prescribes for that mirror's kind from the fields' old values. |
| `Decorator.XmlTypeDecorator.VisitTypeMirror` | core/src/java/net/sf/enunciate/contract/jaxb/types/XmlTypeDecorator.java:41-44 | The fallback kind clears the decorated type and records "Unknown xml type: " followed by the mirror's description. |
| `Decorator.XmlTypeDecorator.VisitPrimitiveType` | core/src/java/net/sf/enunciate/contract/jaxb/types/XmlTypeDecorator.java:46-48 | A primitive records the XmlPrimitiveType of its kind and leaves the error message as it was. |
| `Decorator.XmlTypeDecorator.VisitVoidType` | core/src/java/net/sf/enunciate/contract/jaxb/types/XmlTypeDecorator.java:50-53 | Void clears the decorated type and records "Void is not a valid xml type.". |
| `Decorator.XmlTypeDecorator.VisitReferenceType` | core/src/java/net/sf/enunciate/contract/jaxb/types/XmlTypeDecorator.java:55-58 | A reference type clears the decorated type and records "Unknown xml type: " followed by its description. |
| `Decorator.XmlTypeDecorator.VisitDeclaredType` | core/src/java/net/sf/enunciate/contract/jaxb/types/XmlTypeDecorator.java:60-63 | A declared type clears the decorated type and records "Unknown xml type: " followed by its description. |
| `Decorator.XmlTypeDecorator.VisitClassType` | core/src/java/net/sf/enunciate/contract/jaxb/types/XmlTypeDecorator.java:65-78 | A failing XmlClassType constructor records its message and leaves the decorated type untouched. A constructed non-collection class records that XmlClassType. A collection class is handed to the collection rule. |
| `Decorator.XmlTypeDecorator.VisitCollectionType` | core/src/java/net/sf/enunciate/contract/jaxb/types/XmlTypeDecorator.java:80-90 | With no type arguments, ANY_TYPE is recorded and a NoSuchElementException escapes. Otherwise the fields end as the visit of the first type argument leaves them. |
| `Decorator.XmlTypeDecorator.VisitEnumType` | core/src/java/net/sf/enunciate/contract/jaxb/types/XmlTypeDecorator.java:92-99 | A constructed XmlEnumType is recorded with the error left as it was. A failing constructor records its message and leaves the decorated type untouched. |
| `Decorator.XmlTypeDecorator.VisitInterfaceType` | core/src/java/net/sf/enunciate/contract/jaxb/types/XmlTypeDecorator.java:101-110 | A collection interface is handed to the collection rule. Any other interface clears the decorated type and records "An interface type cannot be an xml type.". |
| `Decorator.XmlTypeDecorator.VisitAnnotationType` | core/src/java/net/sf/enunciate/contract/jaxb/types/XmlTypeDecorator.java:112-115 | An annotation type clears the decorated type and records "An annotation type cannot be an xml type.". |
| `Decorator.XmlTypeDecorator.VisitArrayType` | core/src/java/net/sf/enunciate/contract/jaxb/types/XmlTypeDecorator.java:117-123 | The component is visited. If it returns with an error message, "Problem with the array component type: " is put in front of it. An exception passes through untouched. |
| `Decorator.XmlTypeDecorator.VisitTypeVariable` | core/src/java/net/sf/enunciate/contract/jaxb/types/XmlTypeDecorator.java:125-136 | Without bounds, ANY_TYPE is recorded and the error is left as it was. Otherwise only the first bound is visited, and a resulting error gains "Problem with the type variable bounds: ". |
| `Decorator.XmlTypeDecorator.VisitWildcardType` | core/src/java/net/sf/enunciate/contract/jaxb/types/XmlTypeDecorator.java:138-150 | Without upper bounds, ANY_TYPE is recorded and the error is left as it was. Otherwise only the first upper bound is visited, and a resulting error gains "Problem with wildcard bounds: ". |
| `Decorator.Visit` | core/src/java/net/sf/enunciate/contract/jaxb/types/XmlTypeDecorator.java:41-150 | No visit ever clears an error message that is already recorded: an error set before a visit is still set after it (given non-null constructor failure messages, see "## Left out"). |
| `Decorator.VisitCollection` | core/src/java/net/sf/enunciate/contract/jaxb/types/XmlTypeDecorator.java:80-90 | The collection rule keeps a recorded error message too. |
| `Decorator.FreshVisitMatchesClassify` | core/src/java/net/sf/enunciate/contract/jaxb/types/XmlTypeDecorator.java:31-38 | From a fresh visitor, every visit ends exactly as the reference classification says. A success leaves only the decorated type set, a failure only the message, and an escaping exception leaves ANY_TYPE recorded. When the visit returns, exactly one of the two fields is set. |
| `DecoratorProperties.PrimitiveIsDecorated` | core/src/java/net/sf/enunciate/contract/jaxb/types/XmlTypeDecorator.java:46-48 | A primitive always succeeds, as the XmlPrimitiveType of its kind. |
| `DecoratorProperties.VoidIsRejected` | core/src/java/net/sf/enunciate/contract/jaxb/types/XmlTypeDecorator.java:50-53 | Void always fails with exactly "Void is not a valid xml type.". |
| `DecoratorProperties.AnnotationIsRejected` | core/src/java/net/sf/enunciate/contract/jaxb/types/XmlTypeDecorator.java:112-115 | An annotation type always fails with exactly "An annotation type cannot be an xml type.". |
| `DecoratorProperties.UnknownKindsAreRejected` | core/src/java/net/sf/enunciate/contract/jaxb/types/XmlTypeDecorator.java:41-63 | The fallback, reference and declared kinds fail with "Unknown xml type: " followed by the mirror's description. |
| `DecoratorProperties.InterfaceRule` | core/src/java/net/sf/enunciate/contract/jaxb/types/XmlTypeDecorator.java:101-110 | A non-collection interface fails with "An interface type cannot be an xml type.". A collection interface with type arguments has the same outcome as its first type argument. |
| `DecoratorProperties.ClassRule` | core/src/java/net/sf/enunciate/contract/jaxb/types/XmlTypeDecorator.java:65-78 | A failing XmlClassType constructor's message is the rejection, unchanged. A constructed non-collection class is that XmlClassType. A constructed collection class with type arguments has the outcome of its first type argument. |
| `DecoratorProperties.EnumRule` | core/src/java/net/sf/enunciate/contract/jaxb/types/XmlTypeDecorator.java:92-99 | An enum is its constructed XmlEnumType, or is rejected with the constructor's message verbatim. |
| `DecoratorProperties.RawCollectionThrows` | core/src/java/net/sf/enunciate/contract/jaxb/types/XmlTypeDecorator.java:80-90 | A collection class or interface without type arguments ends in NoSuchElementException, not ANY_TYPE. |
| `DecoratorProperties.ArrayRule` | core/src/java/net/sf/enunciate/contract/jaxb/types/XmlTypeDecorator.java:117-123 | An array fails if and only if its component fails, with "Problem with the array component type: " in front of the component's message. Otherwise its outcome is the component's, undecorated. |
| `DecoratorProperties.NestedArrays` | core/src/java/net/sf/enunciate/contract/jaxb/types/XmlTypeDecorator.java:117-123 | For n nested array levels, a failing innermost component's message gains n array-component prefixes, outermost first. Any other outcome is the innermost component's. |
| `DecoratorProperties.TypeVariableRule` | core/src/java/net/sf/enunciate/contract/jaxb/types/XmlTypeDecorator.java:125-136 | A type variable without bounds is ANY_TYPE. Otherwise it is the first bound's outcome, with "Problem with the type variable bounds: " on failure, and dropping every later bound changes nothing. |
| `DecoratorProperties.WildcardRule` | core/src/java/net/sf/enunciate/contract/jaxb/types/XmlTypeDecorator.java:138-150 | A wildcard without upper bounds is ANY_TYPE. Otherwise it is the first upper bound's outcome, with "Problem with wildcard bounds: " on failure, and later upper bounds and lower bounds change nothing. |
| `DecoratorProperties.SpineStopsAtNonCollections` | core/src/java/net/sf/enunciate/contract/jaxb/types/XmlTypeDecorator.java:65-110 | For a class or interface that is not treated as a collection (a non-collection class, a class whose XmlClassType constructor failed, a non-collection interface), the path predicate `OnSpine` holds only for the node itself. This is a fact about the path predicate that the provenance lemmas quantify over, not a separate proof about `Visit`: it shows that those lemmas never look inside such a node's type arguments. |
| `DecoratorProperties.DecoratedProvenance` | core/src/java/net/sf/enunciate/contract/jaxb/types/XmlTypeDecorator.java:41-150 | Every successful xml type is produced by one node on the visitor's path. That node is a primitive, a constructed non-collection class, a constructed enum, or a type variable or wildcard without bounds (the only source of ANY_TYPE). |
| `DecoratorProperties.RejectionProvenance` | core/src/java/net/sf/enunciate/contract/jaxb/types/XmlTypeDecorator.java:41-150 | Every rejection message is the own failure message of a node on the visitor's path, preceded by exactly the contexts of the array, type-variable and wildcard boundaries crossed to reach that node (`SpinePath`), outermost first. Collections add no context. |
| `DecoratorProperties.SpinePathIsOnSpine` | core/src/java/net/sf/enunciate/contract/jaxb/types/XmlTypeDecorator.java:65-150 | A path together with its boundary contexts is a path of the visitor: the node it reaches lies on the spine. |
| `DecoratorProperties.NoSwallow` | core/src/java/net/sf/enunciate/contract/jaxb/types/XmlTypeDecorator.java:41-150 | The converse of `RejectionProvenance`: when a node on the visitor's path fails on its own, the whole mirror is rejected, with that node's message behind the contexts of the boundaries crossed to reach it. No failure is swallowed or replaced on the way up. |
| `DecoratorProperties.RejectedIffFailingNode` | core/src/java/net/sf/enunciate/contract/jaxb/types/XmlTypeDecorator.java:41-150 | A mirror is rejected if and only if some node on the visitor's path fails on its own. |
| `DecoratorProperties.NoSuchElementProvenance` | core/src/java/net/sf/enunciate/contract/jaxb/types/XmlTypeDecorator.java:80-90 | A NoSuchElementException arises only from a raw collection on the visitor's path. |

## Left out

- Cyclic bounds, such as `T extends List<T>`, are not modelled. The Java visitor
  recurses on them without end, and a finite datatype cannot express them.
- An xml type mirror nested inside another mirror, for example as an array
  component, is not modelled. Only `decorate`'s own check for an
  `XmlTypeMirror` argument is (`Input.AlreadyXml`). What `accept` does on such a
  mirror belongs to classes that are not part of this model.
- The internals of `XmlClassType`, `XmlEnumType`, `XmlPrimitiveType` and
  `KnownXmlType` are not modelled. The constructors and the collection tests are
  the functions in `Collaborators`, and ANY_TYPE is the constant `AnyType`.
  Because these collaborators cannot be reached as globals in Dafny, the
  visitor's constructor takes them as a parameter. The Java constructor takes
  none.
- The cast of the decorated interface mirror at line 102, and any
  `ClassCastException` it could raise, are not modelled. The collection test of
  the decorated mirror is the total function `isCollection`.
- The type-model API (`accept` double dispatch, `getDeclaration().getBounds()`,
  `getActualTypeArguments()`, `getUpperBounds()`, `toString`) becomes datatype
  fields and the `Accept` dispatcher. Iterator objects are not modelled, only
  the "first element" they give.
- Java exceptions are outcomes. The `XmlTypeException` thrown by `decorate` is
  `Rejected`. The `NoSuchElementException` of the raw-collection case is
  `NoSuchElement`, and the visit methods report it as a `threw` result together
  with the field values at the throw.
- `Decorator.Visit` and `Decorator.XmlTypeDecorator.Decorate`: both rest on
  the assumption that the `XmlTypeException` thrown by the `XmlClassType` and
  `XmlEnumType` constructors has a non-null message (`ConstructorFailed` carries
  a `string`). Java copies `e.getMessage()` into `errorMessage` (lines 76 and
  97), and a null message would clear it. `decorate` would then return the null
  left in `decoratedTypeMirror` instead of throwing. The model does not capture
  that case. Without the assumption, a visit could clear a recorded error, and
  `decorate` could return null.
