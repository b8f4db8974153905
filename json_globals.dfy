/**
 * The JSON names the read context looks for, and the data contract base namespace.
 * These are the values of `JsonGlobals` and `Globals` in the serializer.
 */
module JsonGlobals {

  /** Attribute carrying the JSON type of a value ("string", "number", "null", ...). */
  const TypeString: string := "type"
  /** Attribute carrying the `__type` hint, a qualified data contract name. */
  const ServerTypeString: string := "__type"
  /** Local name and namespace of a wrapper element, and the attribute holding the real name. */
  const ItemString: string := "item"

  const NullString: string := "null"
  const StringString: string := "string"
  const BooleanString: string := "boolean"
  const NumberString: string := "number"
  const ArrayString: string := "array"
  const ObjectString: string := "object"

  /**
   * The namespace that a leading '#' in a `__type` namespace stands for.
   * Only its first character and length matter to the proofs here.
   */
  const DataContractXsdBaseNamespace: string := "http://schemas.datacontract.org/2004/07/"
}
