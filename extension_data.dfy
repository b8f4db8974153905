/**
 * Reading JSON values that no data member claims into generic data nodes, so
 * that they can be kept as extension data. The "type" attribute of the value
 * decides which kind of node a primitive value becomes.
 */
module ExtensionData {
  import opened Wrappers
  import opened JsonGlobals
  import opened XmlCursor
  import opened SerializationErrors

  /** `System.TypeCode`. */
  datatype TypeCode =
    | Empty | Object | DBNull | Boolean | Char
    | SByte | Byte | Int16 | UInt16 | Int32 | UInt32 | Int64 | UInt64
    | Single | Double | Decimal | DateTime | String

  /** The eleven numeric type codes. */
  predicate IsNumeric(code: TypeCode)
  {
    code in {SByte, Byte, Int16, UInt16, Int32, UInt32, Int64, UInt64, Single, Double, Decimal}
  }

  /**
   * A primitive extension data node, `DataNode<T>` for each `T` the reader can
   * produce. Numeric payloads are of an uninterpreted type `V`: the value the
   * number parser boxed.
   */
  datatype DataNode<V> =
    | StringNode(s: string)
    | BooleanNode(b: bool)
    | ByteNode(v: V) | SByteNode(v: V) | Int16Node(v: V) | Int32Node(v: V) | Int64Node(v: V)
    | UInt16Node(v: V) | UInt32Node(v: V) | UInt64Node(v: V)
    | SingleNode(v: V) | DoubleNode(v: V) | DecimalNode(v: V)

  /** The type code of a node's `T`. */
  function NodeTypeCode<V>(node: DataNode<V>): TypeCode
  {
    match node
    case StringNode(_) => String
    case BooleanNode(_) => Boolean
    case ByteNode(_) => Byte
    case SByteNode(_) => SByte
    case Int16Node(_) => Int16
    case Int32Node(_) => Int32
    case Int64Node(_) => Int64
    case UInt16Node(_) => UInt16
    case UInt32Node(_) => UInt32
    case UInt64Node(_) => UInt64
    case SingleNode(_) => Single
    case DoubleNode(_) => Double
    case DecimalNode(_) => Decimal
  }

  /**
   * The switch of `ReadNumericalPrimitiveExtensionDataValue`: a numeric type
   * code becomes the node of that very type carrying the parsed value; any
   * other code is the internal error.
   */
  function NumericNode<V>(code: TypeCode, value: V): (r: Result<DataNode<V>, Error>)
    ensures r.Ok? <==> IsNumeric(code)
    ensures r.Ok? ==> NodeTypeCode(r.value) == code && r.value.v == value
    ensures r.Err? ==> r.error == InvalidNumberTypeCode && IsInternal(r.error)
  {
    match code
    case Byte => Ok(ByteNode(value))
    case SByte => Ok(SByteNode(value))
    case Int16 => Ok(Int16Node(value))
    case Int32 => Ok(Int32Node(value))
    case Int64 => Ok(Int64Node(value))
    case UInt16 => Ok(UInt16Node(value))
    case UInt32 => Ok(UInt32Node(value))
    case UInt64 => Ok(UInt64Node(value))
    case Single => Ok(SingleNode(value))
    case Double => Ok(DoubleNode(value))
    case Decimal => Ok(DecimalNode(value))
    case _ => Err(InvalidNumberTypeCode)
  }

  /**
   * `ReadNumericalPrimitiveExtensionDataValue`: parses the element content with
   * `parseNumber` (`ParseJsonNumber`, which is not part of this model, with
   * `None` for its format error) and wraps the result.
   */
  function ReadNumericalPrimitiveExtensionDataValue<V>(content: string, parseNumber: string -> Option<(TypeCode, V)>)
    : (r: Result<DataNode<V>, Error>)
    ensures parseNumber(content).None? ==> r == Err(NumberFormat(content))
    ensures parseNumber(content).Some? ==>
      var (code, value) := parseNumber(content).value;
      (r.Ok? <==> IsNumeric(code)) &&
      (r.Ok? ==> NodeTypeCode(r.value) == code && r.value.v == value) &&
      (r.Err? ==> r.error == InvalidNumberTypeCode)
  {
    match parseNumber(content)
    case None => Err(NumberFormat(content))
    case Some((code, value)) => NumericNode(code, value)
  }

  /** The "type" hints a primitive extension value may carry; a missing hint means string. */
  predicate IsPrimitiveHint(hint: Option<string>)
  {
    hint in {None, Some(StringString), Some(BooleanString), Some(NumberString)}
  }

  /**
   * The switch of `ReadPrimitiveExtensionDataValue` on the stored hint, given the
   * element content: no hint or "string" gives a string node, "boolean" a
   * boolean node (`toBoolean` being the reader's `ReadContentAsBoolean`, not
   * part of this model), "number" a numeric node; any other hint is rejected
   * with an error that carries it. Only the number hint can reach the internal
   * error.
   */
  function PrimitiveExtensionValue<V>(hint: Option<string>, content: string,
                                      toBoolean: string -> Option<bool>,
                                      parseNumber: string -> Option<(TypeCode, V)>)
    : (r: Result<DataNode<V>, Error>)
    ensures r.Err? && r.error.UnexpectedAttributeValue? <==> !IsPrimitiveHint(hint)
    ensures !IsPrimitiveHint(hint) ==> r == Err(UnexpectedAttributeValue(hint.value))
    ensures hint.None? || hint == Some(StringString) ==> r == Ok(StringNode(content))
    ensures hint == Some(BooleanString) ==>
      (r.Ok? <==> toBoolean(content).Some?) && (r.Ok? ==> r.value == BooleanNode(toBoolean(content).value))
    ensures hint == Some(NumberString) ==> r == ReadNumericalPrimitiveExtensionDataValue(content, parseNumber)
    ensures r.Ok? ==> NodeTypeCode(r.value) == String || NodeTypeCode(r.value) == Boolean || IsNumeric(NodeTypeCode(r.value))
    ensures r.Err? && IsInternal(r.error) ==> hint == Some(NumberString)
  {
    match hint
    case None => Ok(StringNode(content))
    case Some(h) =>
      if h == StringString then Ok(StringNode(content))
      else if h == BooleanString then
        match toBoolean(content)
        case Some(b) => Ok(BooleanNode(b))
        case None => Err(BooleanFormat(content))
      else if h == NumberString then ReadNumericalPrimitiveExtensionDataValue(content, parseNumber)
      else Err(UnexpectedAttributeValue(h))
  }

  /** `IsReadingCollectionExtensionData`: the value's "type" attribute is "array". */
  predicate IsReadingCollectionExtensionData(reader: Cursor)
    ensures IsReadingCollectionExtensionData(reader) <==>
      TypeString in reader.attributes && reader.attributes[TypeString] == ArrayString
    ensures IsReadingCollectionExtensionData(reader) ==> !IsPrimitiveHint(GetAttribute(reader, TypeString))
  {
    GetAttribute(reader, TypeString) == Some(ArrayString)
  }

  /** `IsReadingClassExtensionData`: the value's "type" attribute is "object". */
  predicate IsReadingClassExtensionData(reader: Cursor)
    ensures IsReadingClassExtensionData(reader) <==>
      TypeString in reader.attributes && reader.attributes[TypeString] == ObjectString
    ensures IsReadingClassExtensionData(reader) ==> !IsPrimitiveHint(GetAttribute(reader, TypeString))
  {
    GetAttribute(reader, TypeString) == Some(ObjectString)
  }

  /**
   * A value is read as a collection, as an object, or as a primitive, never as
   * two of these: the structural hints are rejected by the primitive reader.
   */
  lemma ExtensionValueKindsAreExclusive<V>(reader: Cursor, toBoolean: string -> Option<bool>,
                                           parseNumber: string -> Option<(TypeCode, V)>)
    ensures !(IsReadingCollectionExtensionData(reader) && IsReadingClassExtensionData(reader))
    ensures IsReadingCollectionExtensionData(reader) || IsReadingClassExtensionData(reader) ==>
      var hint := GetAttribute(reader, TypeString);
      PrimitiveExtensionValue(hint, reader.content, toBoolean, parseNumber) == Err(UnexpectedAttributeValue(hint.value))
  {
  }
}
