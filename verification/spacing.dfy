/** The prevElements pair of render/bean.go and the newline decisions made
    from it. */
module Spacing {

  /** The element codes 0, 1, 2, 10 and 255. */
  datatype Element = Paragraph | Header | Rule | ListItem | Blank

  /** prevElements: the most recent element, and the most recent one
      different from it. */
  datatype Recent = Recent(last: Element, before: Element)

  /** The zero value [0, 0]: both entries read as "paragraph". */
  const Initial: Recent := Recent(Paragraph, Paragraph)

  /** updatePrevElements (render/bean.go:99-105). */
  function Record(r: Recent, e: Element): (q: Recent)
    ensures q.last == e
    ensures q.before == (if r.last == e then r.before else r.last)
  {
    if r.last != e then Recent(e, r.last) else r
  }

  /** Recording the same element twice is the same as recording it once. */
  lemma RecordIdempotent(r: Recent, e: Element)
    ensures Record(Record(r, e), e) == Record(r, e)
  {
  }

  /** Once the two entries differ they keep differing. */
  lemma RecordKeepsDistinct(r: Recent, e: Element)
    requires r.last != r.before
    ensures Record(r, e).last != Record(r, e).before
  {
  }

  /** The element whose spacing a new block follows: the last one, looking
      through blank lines. */
  function Effective(r: Recent): Element {
    if r.last == Blank then r.before else r.last
  }

  /** getHeaderBeginning (render/bean.go:194-222), apart from its list reset.
      As a table over the effective element: nothing on the first line or
      after a rule, one newline after a list item or header, two after a
      paragraph. */
  function HeaderLead(first: bool, r: Recent): (s: string)
    ensures s ==
      if first then ""
      else match Effective(r)
        case Rule => ""
        case ListItem => "\n"
        case Header => "\n"
        case Paragraph => "\n\n"
        case Blank => ""
  {
    if first then ""
    else if r.last == Rule || (r.last == Blank && r.before == Rule) then ""
    else if r.last == ListItem || r.last == Header || (r.last == Blank && (r.before == ListItem || r.before == Header)) then "\n"
    else if r.last == Paragraph || (r.last == Blank && r.before == Paragraph) then "\n\n"
    else ""
  }

  /** The list item lead (render/bean.go:347-350). A list item is set off by a
      newline exactly when it neither continues a list nor follows a header or
      rule directly: after a paragraph, or after a blank line that did not
      follow a header. */
  function ListLead(first: bool, r: Recent): (s: string)
    ensures s in {"", "\n"}
    ensures first || r.last == ListItem || r.last == Header || r.last == Rule ==> s == ""
    ensures !first && r.last == Blank ==> (s == "\n" <==> r.before != Header)
    ensures !first && r.last == Paragraph ==> s == "\n"
  {
    if !first && (r.last == Paragraph || (r.last == Blank && r.before != Header)) then "\n" else ""
  }

  /** The paragraph lead (render/bean.go:139-145). Paragraph lines that follow
      each other, a header or a rule directly are joined without a break; a
      blank line between two paragraphs gives an empty line; after a list,
      directly or through blank lines, one newline ends the list. */
  function ParagraphLead(r: Recent): (s: string)
    ensures s ==
      match r.last
        case Paragraph => ""
        case Header => ""
        case Rule => ""
        case ListItem => "\n"
        case Blank => (if r.before == Paragraph then "\n\n" else if r.before == ListItem then "\n" else "")
  {
    if r.last == Blank && r.before == Paragraph then "\n\n"
    else if r.last == ListItem || (r.last == Blank && r.before == ListItem) then "\n"
    else ""
  }
}
