# JSON read context of DataContractJsonSerializer, modelled in Dafny

This project models the decision logic that `XmlObjectSerializerReadContextComplexJson`
applies while it reads one JSON object into a data contract. The JSON reader is seen
through its XML-style cursor.

- **Member-index resolver** (`member_index.dfy`): `GetJsonMemberIndex` scans the
  ordered member names circularly, starting just after the member matched last.
  A name matches when the reader is on a start element with that local name in the
  empty namespace. If no name matches directly, a second circular scan compares the
  names with the real name carried by an `item`/`item` wrapper element. If that
  fails too, the method returns the member count, the "not found" value, after
  calling `HandleMemberNotFound`.
- **Extension data primitives** (`extension_data.dfy`, `read_context.dfy`):
  - `StartReadExtensionDataValue` stores the `type` hint.
  - `ReadPrimitiveExtensionDataValue` dispatches on that hint to a string, boolean
    or numeric node, or rejects the hint.
  - `ReadNumericalPrimitiveExtensionDataValue` maps the eleven numeric type codes
    to nodes of the same type. Any other code is an internal error.
  - `IsReadingCollectionExtensionData` and `IsReadingClassExtensionData` test the
    hint.
- **Type-hint attributes** (`qualified_names.dfy`, `read_context.dfy`):
  - `ReadAttributes` detects nil values.
  - It splits the `__type` hint with `ParseQualifiedName`.
  - It un-escapes the hint's namespace by the same rule as `TrimNamespace`.
- **Diagnostics** (`diagnostics.dfy`): the duplicate-member error, and the
  missing-required-members error built from two bit sets.

Supporting modules:
- `wrappers.dfy`: Option and Result.
- `json_globals.dfy`: the JSON names and the base namespace.
- `xml_cursor.dfy`: the reader cursor.
- `errors.dfy`: exceptions modelled as error values.

The reader is a value of type `XmlCursor.Cursor`; it holds:
- the current element's start-tag flag, local name and namespace;
- the attribute map and the text content;
- whether the reader is on the element or on one of its attributes;
- the number of end tags consumed.

Operations that move the reader return the moved cursor.

Two behaviours of the code are worth stating outright:
- `TrimNamespace` only un-escapes. The rule is not injective (`TrimNamespaceIsNotInjective`) and its encoder is elsewhere, so no round trip is stated.
- `ThrowMissingRequiredMembers` always throws. With no missing member it picks the plural message. Deciding whether to call it is the caller's job.

## Model

| member | source | states |
|---|---|---|
| MemberIndex.GetJsonMemberIndex | src/libraries/System.Private.DataContractSerialization/src/System/Runtime/Serialization/Json/XmlObjectSerializerReadContextComplexJson.cs:44-70 | Both circular loops compute `ResolvedIndex`. The result is at most the member count. The not-found flag (the `HandleMemberNotFound` call) is raised exactly when the count is returned. The reader does not move with an empty list or after a direct match. Once the direct scan has found nothing, the reader is where `TryGetJsonLocalName` leaves it: on the `item` attribute when a wrapper name exists, otherwise unmoved. |
| MemberIndex.RotIndex | src/libraries/System.Private.DataContractSerialization/src/System/Runtime/Serialization/Json/XmlObjectSerializerReadContextComplexJson.cs:49 | The k-th index of the scan is below n and equals `(start + k) % n`, the source's index arithmetic. |
| MemberIndex.RotOffset | src/libraries/System.Private.DataContractSerialization/src/System/Runtime/Serialization/Json/XmlObjectSerializerReadContextComplexJson.cs:49 | Every index is reached by some step of the scan that starts at `start`. |
| MemberIndex.RotationVisitsEachIndexOnce | src/libraries/System.Private.DataContractSerialization/src/System/Runtime/Serialization/Json/XmlObjectSerializerReadContextComplexJson.cs:49 | The scan's step-to-index map is a bijection on [0, n). Every member is visited exactly once. |
| MemberIndex.RotIndexStep | src/libraries/System.Private.DataContractSerialization/src/System/Runtime/Serialization/Json/XmlObjectSerializerReadContextComplexJson.cs:49 | The source's update `index = (index + 1) % length` moves to the next index of the rotation. |
| MemberIndex.ScanStart | src/libraries/System.Private.DataContractSerialization/src/System/Runtime/Serialization/Json/XmlObjectSerializerReadContextComplexJson.cs:49 | The scan starts at `(memberIndex + 1) % length`, which is a valid index. |
| MemberIndex.FirstMatch | src/libraries/System.Private.DataContractSerialization/src/System/Runtime/Serialization/Json/XmlObjectSerializerReadContextComplexJson.cs:49-55 | Returns the first offset of the rotation whose member matches. Nothing matches before it, and when it returns none, nothing matches at all. |
| MemberIndex.FullScanMissesAll | src/libraries/System.Private.DataContractSerialization/src/System/Runtime/Serialization/Json/XmlObjectSerializerReadContextComplexJson.cs:49-55 | A full rotation that finds nothing has tested every member. |
| MemberIndex.ScanResult | src/libraries/System.Private.DataContractSerialization/src/System/Runtime/Serialization/Json/XmlObjectSerializerReadContextComplexJson.cs:49-66 | A found index is a matching member. Nothing is found exactly when no member matches. |
| MemberIndex.ResolvedIndexInRange | src/libraries/System.Private.DataContractSerialization/src/System/Runtime/Serialization/Json/XmlObjectSerializerReadContextComplexJson.cs:44-70 | The result lies in [0, n] and is 0 for an empty list. A result below n is a direct match or carries the wrapper's name. |
| MemberIndex.ResolvedIndexNotFound | src/libraries/System.Private.DataContractSerialization/src/System/Runtime/Serialization/Json/XmlObjectSerializerReadContextComplexJson.cs:44-70 | The result is n if and only if no member matches directly and there is no wrapper name, or no member bears it. |
| MemberIndex.DirectMatchTakesPrecedence | src/libraries/System.Private.DataContractSerialization/src/System/Runtime/Serialization/Json/XmlObjectSerializerReadContextComplexJson.cs:49-66 | If any member matches directly, the result is a direct match and the wrapper name is never consulted. |
| MemberIndex.ResolvedIndexIsFirstDirectMatch | src/libraries/System.Private.DataContractSerialization/src/System/Runtime/Serialization/Json/XmlObjectSerializerReadContextComplexJson.cs:49-55 | The result is the first direct match in rotation order, starting just after `memberIndex`. |
| MemberIndex.NextMemberIsFoundFirst | src/libraries/System.Private.DataContractSerialization/src/System/Runtime/Serialization/Json/XmlObjectSerializerReadContextComplexJson.cs:49-55 | If the member right after `memberIndex` matches, that member is the result. |
| MemberIndex.ResolvedIndexIsFirstNameMatch | src/libraries/System.Private.DataContractSerialization/src/System/Runtime/Serialization/Json/XmlObjectSerializerReadContextComplexJson.cs:56-66 | With no direct match, the result is the first member in the same rotation order that equals the wrapper's name. |
| MemberIndex.WrapperIsResolvedByName | src/libraries/System.Private.DataContractSerialization/src/System/Runtime/Serialization/Json/XmlObjectSerializerReadContextComplexJson.cs:56-66 | An `item`/`item` wrapper is resolved by its name alone. A found member bears that name, and "not found" means no member does. |
| MemberIndex.TryGetJsonLocalName | src/libraries/System.Private.DataContractSerialization/src/System/Runtime/Serialization/Json/XmlObjectSerializerReadContextComplexJson.cs:287-299 | A name is produced if and only if the reader is on an `item`/`item` start element that has an `item` attribute. The name is that attribute's value and the reader moves onto the attribute. Otherwise the reader does not move. |
| MemberIndex.GetJsonMemberName | src/libraries/System.Private.DataContractSerialization/src/System/Runtime/Serialization/Json/XmlObjectSerializerReadContextComplexJson.cs:301-309 | Returns the wrapper's name for an `item` wrapper, with the reader moved onto its `item` attribute. Otherwise it returns the element's local name and the reader does not move. |
| ExtensionData.NumericNode | src/libraries/System.Private.DataContractSerialization/src/System/Runtime/Serialization/Json/XmlObjectSerializerReadContextComplexJson.cs:121-135 | A code gives a node if and only if it is one of the eleven numeric codes. The node has that type code and carries the parsed value. Every other code gives the internal error. |
| ExtensionData.ReadNumericalPrimitiveExtensionDataValue | src/libraries/System.Private.DataContractSerialization/src/System/Runtime/Serialization/Json/XmlObjectSerializerReadContextComplexJson.cs:117-136 | A parse failure gives a number-format error. A parsed number becomes a node of exactly its type code. A non-numeric code gives the internal error. |
| ExtensionData.PrimitiveExtensionValue | src/libraries/System.Private.DataContractSerialization/src/System/Runtime/Serialization/Json/XmlObjectSerializerReadContextComplexJson.cs:97-111 | No hint or `string` gives a string node of the content, `boolean` a boolean node, and `number` a numeric node. Any other hint, and only such a hint, gives the error carrying it. Only `number` can reach the internal error. |
| ExtensionData.IsReadingCollectionExtensionData | src/libraries/System.Private.DataContractSerialization/src/System/Runtime/Serialization/Json/XmlObjectSerializerReadContextComplexJson.cs:245-248 | Holds exactly when the value's `type` attribute is `array`. That hint is not a primitive hint. |
| ExtensionData.IsReadingClassExtensionData | src/libraries/System.Private.DataContractSerialization/src/System/Runtime/Serialization/Json/XmlObjectSerializerReadContextComplexJson.cs:250-253 | Holds exactly when the value's `type` attribute is `object`. That hint is not a primitive hint. |
| ExtensionData.ExtensionValueKindsAreExclusive | src/libraries/System.Private.DataContractSerialization/src/System/Runtime/Serialization/Json/XmlObjectSerializerReadContextComplexJson.cs:245-253 | A value cannot be read both as a collection and as a class. The `array` and `object` hints are rejected by the primitive reader. |
| ReadContextComplexJson.JsonReadContext.StartReadExtensionDataValue | src/libraries/System.Private.DataContractSerialization/src/System/Runtime/Serialization/Json/XmlObjectSerializerReadContextComplexJson.cs:88-91 | The stored hint is the value's `type` attribute, or null when it has none. |
| ReadContextComplexJson.JsonReadContext.ReadPrimitiveExtensionDataValue | src/libraries/System.Private.DataContractSerialization/src/System/Runtime/Serialization/Json/XmlObjectSerializerReadContextComplexJson.cs:93-115 | The result is the dispatch on the stored hint. On success the end tag is consumed exactly once. On every error the reader is left unchanged. |
| ReadContextComplexJson.JsonReadContext.ReadAttributes | src/libraries/System.Private.DataContractSerialization/src/System/Runtime/Serialization/Json/XmlObjectSerializerReadContextComplexJson.cs:143-188 | The attributes are reset. Nil is set if and only if `type` is `null`. Otherwise a `__type` sets the parsed name and the `TrimNamespace` form of the parsed namespace. The reader ends on the element. |
| QualifiedNames.ParseQualifiedName | src/libraries/System.Private.DataContractSerialization/src/System/Runtime/Serialization/Json/XmlObjectSerializerReadContextComplexJson.cs:220-243 | Null or empty input gives two empty strings. Otherwise, without a colon the trimmed input is the name with an empty namespace. With a colon, name + ":" + namespace is the trimmed input. The name never contains a colon. |
| QualifiedNames.ColonSplitIsUnique | src/libraries/System.Private.DataContractSerialization/src/System/Runtime/Serialization/Json/XmlObjectSerializerReadContextComplexJson.cs:230-235 | At most one split of a string has a colon-free name, so the split at the first colon is determined. |
| QualifiedNames.ParseQualifiedNameIsTheColonSplit | src/libraries/System.Private.DataContractSerialization/src/System/Runtime/Serialization/Json/XmlObjectSerializerReadContextComplexJson.cs:229-235 | Any colon-free split of the trimmed input is the split `ParseQualifiedName` returns. |
| QualifiedNames.IndexOf | src/libraries/System.Private.DataContractSerialization/src/System/Runtime/Serialization/Json/XmlObjectSerializerReadContextComplexJson.cs:230 | `IndexOf(':')` returns the first colon, and nothing exactly when there is no colon. |
| QualifiedNames.Trim | src/libraries/System.Private.DataContractSerialization/src/System/Runtime/Serialization/Json/XmlObjectSerializerReadContextComplexJson.cs:229 | `Trim` returns the input with only its leading and trailing white space removed. The dropped characters are all white space, the result has no white space at either end, and a string with none there comes back unchanged. |
| QualifiedNames.TrimNamespace | src/libraries/System.Private.DataContractSerialization/src/System/Runtime/Serialization/Json/XmlObjectSerializerReadContextComplexJson.cs:190-218 | A leading `#` becomes the base namespace plus the rest. `\#…` and `\\…` lose exactly their first character. The input is returned unchanged if and only if it is none of these (empty, a lone ``, `` before another character, any other first character). |
| QualifiedNames.TrimNamespaceIsNotInjective | src/libraries/System.Private.DataContractSerialization/src/System/Runtime/Serialization/Json/XmlObjectSerializerReadContextComplexJson.cs:190-218 | Two different namespaces un-escape to the same string: `#x` and the base namespace plus `x`, and also `\\a` and `\a`. |
| Diagnostics.DuplicateMemberError | src/libraries/System.Private.DataContractSerialization/src/System/Runtime/Serialization/Json/XmlObjectSerializerReadContextComplexJson.cs:311-315 | Always an input error naming the type and the member at `memberIndex`. |
| Diagnostics.MissingIndices | src/libraries/System.Private.DataContractSerialization/src/System/Runtime/Serialization/Json/XmlObjectSerializerReadContextComplexJson.cs:321-330 | Lists only indices below k whose bits are set in both bit sets, in strictly increasing order. |
| Diagnostics.MissingIndexIsListed | src/libraries/System.Private.DataContractSerialization/src/System/Runtime/Serialization/Json/XmlObjectSerializerReadContextComplexJson.cs:321-330 | Every index whose bits are set in both bit sets is listed. |
| Diagnostics.MissingNamesNameMissingIndices | src/libraries/System.Private.DataContractSerialization/src/System/Runtime/Serialization/Json/XmlObjectSerializerReadContextComplexJson.cs:321-330 | The j-th listed name is the name of the j-th missing index. |
| Diagnostics.ListedIsJoinedMissingNames | src/libraries/System.Private.DataContractSerialization/src/System/Runtime/Serialization/Json/XmlObjectSerializerReadContextComplexJson.cs:325-327 | For non-empty member names, the builder holds the missing names joined by ", ", with no leading or trailing separator. It is empty exactly when nothing is missing. |
| Diagnostics.ThrowMissingRequiredMembers | src/libraries/System.Private.DataContractSerialization/src/System/Runtime/Serialization/Json/XmlObjectSerializerReadContextComplexJson.cs:317-342 | Always an error naming the type, with the builder text as its list. The count equals the number of names listed. A count of 1 selects the one-member message, and any other count (0 included) the plural message. For non-empty names the list is the missing names joined by ", ". |

## Left out

- `ReadDataContractValue`, the three `GetDataContract` overrides, `ResolveDataContractFromRootDataContract`, `CreateReaderDelegatorForReader`, the constructor and `CreateContext`: they delegate to the reflection-based data contract registry, which is not part of this model.
- `SerializerKnownTypeList`, `UseSimpleDictionaryFormat`, `GetArraySize`: plain getters and a constant.
- `JsonObjectDataContract.ParseJsonNumber` is not part of this model. It is the parameter `parseNumber`, with `None` for its format error. Numeric payloads have an uninterpreted type `V`, so float, double and decimal values stay opaque. The unboxing casts assume the boxed value has the type its code names; the `InvalidCastException` a mismatch would raise is not modelled.
- `ReadContentAsBoolean` is the parameter `toBoolean`, with `None` for its conversion error.
- The XML reader is abstracted to a cursor record. Skipping to content inside `IsStartElement` is not modelled. Consuming text by `ReadContentAsString` is not modelled either. The exception `ReadEndElement` raises when not on an end tag is not modelled.
- `HandleMemberNotFound` (base class) is recorded only as the `memberNotFound` flag returned by `GetJsonMemberIndex`.
- `BitFlagsGenerator.IsBitSet` is not part of this model. Bit sets are `seq<bool>` with at least one bit per member; no byte layout is assumed.
- `JsonReaderDelegator.ParseQualifiedName` (used by `ReadAttributes`) is not part of this model. It is assumed to behave like the local `ParseQualifiedName`.
- `Attributes.Reset` is not part of this model. Only the three fields this context sets (`XsiNil`, `XsiTypeName`, `XsiTypeNamespace`) are modelled, reset to false, null and null.
- `SR.Format` and `DataContract.GetClrTypeFullName`: errors are values carrying the type name (a parameter) and the member name or list.
- The `dataContractName` and `dataContractNamespace` parameters of `ReadPrimitiveExtensionDataValue` are unused by it and are omitted. Reading array and object extension values is in the base class and is not part of this model.
- MemberIndex.GetJsonMemberIndex: requires `memberIndex >= -1`, the values callers pass (-1 before the first member, else a previous result). For lower values the source's truncating `%` would give a negative index. Overflow of `memberIndex + 1` at the largest 32-bit integer is not modelled.
- MemberIndex.NextMemberIsFoundFirst: states which member is returned on the in-order path, not that only one comparison is made.
- Diagnostics.ThrowMissingRequiredMembers: the list equals the ", "-join only for non-empty member names. The builder adds a separator only when it is non-empty, so an empty name would drop one. Data member names are validated as non-empty by the data contract registry.
- Diagnostics.DuplicateMemberError: requires a valid `memberIndex`, as the callers guarantee; an invalid one would raise `IndexOutOfRangeException`.
- QualifiedNames.TrimNamespace: no encode/decode round trip is stated. The encoder is not in this file, and the rule is not injective.
