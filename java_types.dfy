/**
  The values the proxy runtime support works on: the shapes of Java types
  as far as a method descriptor needs them, the declared-method records that
  reflection hands back, and the errors the Java code throws, written here
  as explicit result values.
 */
module JavaTypes {

  datatype Option<+T> = None | Some(value: T)

  /** A class in the modelled hierarchy is named by its position in the graph. */
  type ClassId = nat

  /** An object, as far as the lookups see it: the class `getClass()` returns for it. */
  datatype Instance = Instance(cls: ClassId)

  /** Java's `int`, the type of the slot index handed to `find2Methods`. */
  type Int32 = x: int | -0x8000_0000 <= x < 0x8000_0000

  /**
    The primitive classes. `Class.isPrimitive` holds of exactly the first
    nine; `OtherPrimitive` stands for any other class the encoder is asked to
    treat as primitive, which it rejects with a "bad type" error.
   */
  datatype PrimitiveKind =
    | Void | Int | Byte | Long | Double | Float | Char | Short | Boolean
    | OtherPrimitive(name: string)

  /** A Java type as the descriptor encoder sees it. */
  datatype TypeShape =
    | ArrayOf(component: TypeShape)
    | Primitive(kind: PrimitiveKind)
    | Reference(className: string)   // binary name, e.g. "java.lang.String"

  /** What reflection reports about one declared method. */
  datatype MethodInfo = MethodInfo(name: string, params: seq<TypeShape>, returnType: TypeShape)

  /** The `RuntimeException`s and array-store failures of the Java code. */
  datatype Failure =
    | NotFound(cls: ClassId, name: string, desc: string)   // "not found name:desc in cls"
    | BadType(typeName: string)                            // "bad type: typeName"
    | IndexOutOfBounds(index: int)                         // ArrayIndexOutOfBoundsException

  /** A value, or the exception that the Java code would have thrown instead. */
  datatype Result<+T> = Ok(value: T) | Err(error: Failure)

  /** A `void` Java call that either returns or throws. */
  datatype Outcome = Pass | Fail(error: Failure)

  /** The element type of an array type: `t` with every array layer removed. */
  function ElementType(t: TypeShape): (e: TypeShape)
    ensures !e.ArrayOf?
  {
    match t
    case ArrayOf(c) => ElementType(c)
    case _ => t
  }

  /** The number of array dimensions of `t`. */
  function Dimensions(t: TypeShape): nat
  {
    match t
    case ArrayOf(c) => 1 + Dimensions(c)
    case _ => 0
  }

  /** `t` can be encoded: its element type is not an unrecognised primitive. */
  predicate Encodable(t: TypeShape)
  {
    !(ElementType(t).Primitive? && ElementType(t).kind.OtherPrimitive?)
  }

  /** Every type of `ts` can be encoded. */
  predicate AllEncodable(ts: seq<TypeShape>)
  {
    forall i :: 0 <= i < |ts| ==> Encodable(ts[i])
  }
}
