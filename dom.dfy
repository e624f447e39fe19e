/**
 * The parsed HTML document, reduced to what the contract parsers read from it.
 * HTML parsing and XMLSerializer are not part of this model: the children of the
 * display element arrive already serialized.
 */
module Dom {
  import opened Wrappers

  /** The attributes of one element, by name. */
  type Attributes = map<string, string>

  /**
   * `page`: the attributes of the element with id "page", or None when there is none;
   * `display`: the serialized child nodes of the element with id "contract-display",
   * in document order, or None when there is none;
   * `scripts`: how many `script` elements the whole document holds.
   */
  datatype Document = Document(page: Option<Attributes>, display: Option<seq<string>>, scripts: nat)

  /** `Element.getAttribute`: an absent attribute reads as the empty string, as in @xmldom/xmldom. */
  function GetAttribute(attributes: Attributes, name: string): string
  {
    if name in attributes then attributes[name] else ""
  }

  /** The message thrown when the page element is missing. */
  const InvalidDocument := "Invalid document."

  /** The message thrown when the document holds a script element. */
  const UnknownScripts := "Unknown scripts detected."

  /**
   * The TypeError message of `display.childNodes` when `contract-display` is missing;
   * its exact wording belongs to the JavaScript engine.
   */
  const NullDisplay := "Cannot read properties of null (reading 'childNodes')"
}
