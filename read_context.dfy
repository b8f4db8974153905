/**
 * The JSON read context itself: the state it keeps for one object being read
 * (the extension value's "type" hint and the serialization attributes of the
 * current element) and the operations that set and use it.
 */
module ReadContextComplexJson {
  import opened Wrappers
  import opened JsonGlobals
  import opened XmlCursor
  import opened SerializationErrors
  import opened QualifiedNames
  import opened ExtensionData

  /**
   * The attributes read from the current element that this context sets: nil
   * marking and the `__type` name and namespace. `null` is `None`.
   */
  datatype Attributes = Attributes(xsiNil: bool, xsiTypeName: Option<string>, xsiTypeNamespace: Option<string>)

  /** The values `Attributes.Reset` restores. */
  const DefaultAttributes := Attributes(false, None, None)

  /** What `ReadAttributes` leaves in `attributes` for an element with these attributes. */
  function AttributesOf(reader: Cursor): Attributes
  {
    if GetAttribute(reader, TypeString) == Some(NullString) then DefaultAttributes.(xsiNil := true)
    else match GetAttribute(reader, ServerTypeString)
      case None => DefaultAttributes
      case Some(v) =>
        var q := ParseQualifiedName(Some(v));
        DefaultAttributes.(xsiTypeName := Some(q.name), xsiTypeNamespace := Some(TrimNamespace(q.ns)))
  }

  class JsonReadContext {
    /** The "type" hint of the extension value being read, `null` when absent. */
    var extensionDataValueType: Option<string>
    /** The attributes of the current element. */
    var attributes: Attributes

    /** `StartReadExtensionDataValue`: stores the value's "type" hint; the reader does not move. */
    method StartReadExtensionDataValue(reader: Cursor)
      modifies this`extensionDataValueType
      ensures extensionDataValueType == GetAttribute(reader, TypeString)
      ensures TypeString in reader.attributes ==> extensionDataValueType == Some(reader.attributes[TypeString])
      ensures TypeString !in reader.attributes ==> extensionDataValueType.None?
    {
      extensionDataValueType := GetAttribute(reader, TypeString);
    }

    /**
     * `ReadPrimitiveExtensionDataValue`: reads the element content as the
     * stored hint says. On success the end tag is consumed exactly once; on
     * every error the reader is left where it was.
     */
    method ReadPrimitiveExtensionDataValue<V>(reader: Cursor, toBoolean: string -> Option<bool>,
                                              parseNumber: string -> Option<(TypeCode, V)>)
      returns (result: Result<DataNode<V>, Error>, reader': Cursor)
      ensures result == PrimitiveExtensionValue(extensionDataValueType, reader.content, toBoolean, parseNumber)
      ensures result.Ok? ==> reader' == ReadEndElement(reader) && reader'.endElementsRead == reader.endElementsRead + 1
      ensures result.Err? ==> reader' == reader
    {
      var node: DataNode<V>;
      match extensionDataValueType {
        case None =>
          node := StringNode(reader.content);
        case Some(h) =>
          if h == StringString {
            node := StringNode(reader.content);
          } else if h == BooleanString {
            var b := toBoolean(reader.content);
            if b.None? {
              return Err(BooleanFormat(reader.content)), reader;
            }
            node := BooleanNode(b.value);
          } else if h == NumberString {
            var n := ReadNumericalPrimitiveExtensionDataValue(reader.content, parseNumber);
            if n.Err? {
              return n, reader;
            }
            node := n.value;
          } else {
            return Err(UnexpectedAttributeValue(h)), reader;
          }
      }
      reader' := ReadEndElement(reader);
      result := Ok(node);
    }

    /**
     * `ReadAttributes`: resets the attributes, then marks the element nil when
     * its "type" is "null"; otherwise, when it has a `__type`, records the
     * name and the un-escaped namespace of that qualified name. The reader ends
     * on the element.
     */
    method ReadAttributes(reader: Cursor) returns (reader': Cursor)
      modifies this`attributes
      ensures attributes == AttributesOf(reader)
      ensures attributes.xsiNil <==> GetAttribute(reader, TypeString) == Some(NullString)
      ensures !attributes.xsiNil && ServerTypeString in reader.attributes ==>
        var q := ParseQualifiedName(Some(reader.attributes[ServerTypeString]));
        attributes.xsiTypeName == Some(q.name) && attributes.xsiTypeNamespace == Some(TrimNamespace(q.ns))
      ensures attributes.xsiNil || ServerTypeString !in reader.attributes ==>
        attributes.xsiTypeName.None? && attributes.xsiTypeNamespace.None?
      ensures reader' == MoveToElement(reader)
    {
      attributes := DefaultAttributes;
      var r := reader;
      var moved := MoveToAttribute(r, TypeString);
      r := moved.1;
      if moved.0 && Value(r) == NullString {
        attributes := attributes.(xsiNil := true);
      } else {
        moved := MoveToAttribute(r, ServerTypeString);
        r := moved.1;
        if moved.0 {
          var qualifiedTypeName := ParseQualifiedName(Some(Value(r)));
          attributes := attributes.(xsiTypeName := Some(qualifiedTypeName.name));
          var serverTypeNamespace := qualifiedTypeName.ns;
          if |serverTypeNamespace| != 0 {
            if serverTypeNamespace[0] == '#' {
              serverTypeNamespace := DataContractXsdBaseNamespace + serverTypeNamespace[1..];
            } else if serverTypeNamespace[0] == '\\' {
              if |serverTypeNamespace| >= 2 {
                if serverTypeNamespace[1] == '#' || serverTypeNamespace[1] == '\\' {
                  serverTypeNamespace := serverTypeNamespace[1..];
                }
              }
            }
          }
          attributes := attributes.(xsiTypeNamespace := Some(serverTypeNamespace));
        }
      }
      reader' := MoveToElement(r);
    }
  }
}
