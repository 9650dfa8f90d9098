/** Basic vocabulary of the NBT tag layer: the tag kinds with their wire
    identifiers, 32-bit integers, and the exceptions the tag classes raise. */
module NbtTypes {

  datatype Option<+T> = None | Some(value: T)

  datatype Result<+T, +E> = Ok(value: T) | Err(error: E)

  const MinInt32: int := -0x8000_0000
  const MaxInt32: int := 0x7FFF_FFFF

  /** A C# `int`. */
  type Int32 = x: int | MinInt32 <= x <= MaxInt32

  /** The members of the NbtTagType enumeration. `Unknown` marks a list
      whose element kind has not been fixed yet. */
  datatype TagType =
    | End | Byte | Short | Int | Long | Float | Double
    | ByteArray | String | List | Compound | IntArray
    | Unknown

  /** The kinds whose tag classes are not part of this model: their
      payloads are carried as opaque data. */
  type OpaqueKind = k: TagType
    | k.Byte? || k.Short? || k.Long? || k.Float? || k.Double?
      || k.ByteArray? || k.String? || k.Compound? || k.IntArray?
    witness Byte

  /** The numeric value of each enumeration member (its wire identifier). */
  function Code(k: TagType): int
  {
    match k
    case End => 0
    case Byte => 1
    case Short => 2
    case Int => 3
    case Long => 4
    case Float => 5
    case Double => 6
    case ByteArray => 7
    case String => 8
    case List => 9
    case Compound => 10
    case IntArray => 11
    case Unknown => 0xFF
  }

  /** `Enum.IsDefined` followed by the cast: the member with numeric value
      `c`, if there is one. */
  function FromCode(c: int): (r: Option<TagType>)
    ensures r.Some? ==> Code(r.value) == c
    ensures r.None? ==> forall k: TagType :: Code(k) != c
  {
    if c == 0 then Some(End)
    else if c == 1 then Some(Byte)
    else if c == 2 then Some(Short)
    else if c == 3 then Some(Int)
    else if c == 4 then Some(Long)
    else if c == 5 then Some(Float)
    else if c == 6 then Some(Double)
    else if c == 7 then Some(ByteArray)
    else if c == 8 then Some(String)
    else if c == 9 then Some(List)
    else if c == 10 then Some(Compound)
    else if c == 11 then Some(IntArray)
    else if c == 0xFF then Some(Unknown)
    else None
  }

  /** Every kind survives the trip through its numeric value, so distinct
      kinds have distinct identifiers. */
  lemma FromCodeOfCode(k: TagType)
    ensures FromCode(Code(k)) == Some(k)
  {
  }

  /** Why a `NbtFormatException` was raised. */
  datatype FormatReason =
    | UnrecognizedListType   // a list read with element kind Unknown
    | NegativeCount          // a list read with a negative element count
    | NullName               // a name was to be written but Name is null
    | UnknownListTypeWrite   // a list written while its kind is Unknown

  /** The exceptions raised by the tag classes and their collaborators. */
  datatype NbtError =
    | ArgumentOutOfRange     // undefined enum value, or an index out of range
    | ArgumentMismatch       // ArgumentException: an item of the wrong kind
    | ArgumentNull           // ArgumentNullException
    | FormatError(reason: FormatReason)
    | QueryError             // NbtQueryException
    | InvalidCast            // a query result that is not of the requested class
    | StreamError            // the reader could not supply the requested value
}
