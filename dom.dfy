/** The view of a fetched page that the programs use: each query on an element
    (goquery's `Find(sel).Text()`, `Find(sel).Attr(name)`, `Attr(name)`) is
    looked up here instead of being run against an HTML or XML tree. */
module Dom {
  import opened Outcomes

  datatype Element = Element(
    /** `Find(sel).Text()` for each selector that matches something; any other selector gives "". */
    texts: map<string, string>,
    /** `Find(sel).Attr(name)` for each (selector, attribute) pair that exists. */
    foundAttrs: map<(string, string), string>,
    /** `Attr(name)` of the element itself, for each attribute it has. */
    attrs: map<string, string>)

  function Text(e: Element, sel: string): string {
    if sel in e.texts then e.texts[sel] else ""
  }

  function FindAttr(e: Element, sel: string, name: string): Option<string> {
    if (sel, name) in e.foundAttrs then Some(e.foundAttrs[(sel, name)]) else None
  }

  function Attr(e: Element, name: string): Option<string> {
    if name in e.attrs then Some(e.attrs[name]) else None
  }

  /** A parsed document: `doc.Find(sel)` gives the matching elements in document order. */
  datatype Document = Document(matches: map<string, seq<Element>>)

  function Find(d: Document, sel: string): seq<Element> {
    if sel in d.matches then d.matches[sel] else []
  }

  /** What `http.Get` followed by `goquery.NewDocumentFromReader` gives: a
      transport error, or a response with its status code and either the parsed
      body or `None` when the body could not be parsed. */
  datatype Fetch = TransportError | Response(status: int, body: Option<Document>)

  const StatusOK: int := 200
}
