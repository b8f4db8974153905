/** The exceptions the read context raises, as values carrying what their messages name. */
module SerializationErrors {

  datatype Error =
    /** SerializationException: the "type" hint of an extension value is not a primitive JSON type. */
    | UnexpectedAttributeValue(hint: string)
    /** InvalidOperationException: the number parser returned a type code that is not numeric (internal error). */
    | InvalidNumberTypeCode
    /** The reader could not convert the element content to a boolean. */
    | BooleanFormat(content: string)
    /** The number parser rejected the element content. */
    | NumberFormat(content: string)
    /** SerializationException: a member appears twice in the input object. */
    | DuplicateMember(typeName: string, member: string)
    /** SerializationException: one required member is missing. */
    | OneRequiredMemberNotFound(typeName: string, members: string)
    /** SerializationException: required members are missing (the list may hold any number). */
    | RequiredMembersNotFound(typeName: string, members: string)

  /** Internal consistency failures, as opposed to errors caused by the input. */
  predicate IsInternal(e: Error)
  {
    e.InvalidNumberTypeCode?
  }
}
