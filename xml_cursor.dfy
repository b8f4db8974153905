/**
 * An abstract view of the XML-style reader the JSON reader presents to the
 * serializer: the node the reader is on, its attributes, its text content,
 * whether the reader sits on the element or on one of its attributes, and how
 * many end tags it has consumed. Operations that move the reader return the
 * moved cursor.
 */
module XmlCursor {
  import opened Wrappers

  datatype Position = OnElement | OnAttribute(name: string)

  datatype Cursor = Cursor(
    isStartElement: bool,           // the current content node is a start tag
    localName: string,
    namespaceUri: string,
    attributes: map<string, string>,
    content: string,                // the text content of the current element
    position: Position,
    endElementsRead: nat)           // end tags consumed so far

  /** `IsStartElement(localName, ns)`: on a start tag with this name and namespace. */
  predicate IsStartElement(c: Cursor, localName: string, ns: string)
  {
    c.isStartElement && c.localName == localName && c.namespaceUri == ns
  }

  /** `GetAttribute(name)`: the attribute's value, or null; the reader does not move. */
  function GetAttribute(c: Cursor, name: string): Option<string>
  {
    if name in c.attributes then Some(c.attributes[name]) else None
  }

  /** `MoveToAttribute(name)`: moves onto the attribute when it exists, else stays put. */
  function MoveToAttribute(c: Cursor, name: string): (bool, Cursor)
  {
    if name in c.attributes then (true, c.(position := OnAttribute(name))) else (false, c)
  }

  /** `Value`: the value of the attribute the reader is on; an element has no value. */
  function Value(c: Cursor): string
  {
    match c.position
    case OnAttribute(n) => if n in c.attributes then c.attributes[n] else ""
    case OnElement => ""
  }

  /** `MoveToElement()`: back from an attribute to the element that owns it. */
  function MoveToElement(c: Cursor): Cursor
  {
    c.(position := OnElement)
  }

  /** `ReadEndElement()`: consumes the end tag of the current element. */
  function ReadEndElement(c: Cursor): Cursor
  {
    c.(endElementsRead := c.endElementsRead + 1)
  }
}
