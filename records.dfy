/** The values that flow through a search: document addresses in the index
    and the highlight records built for them (search.py:136-167). */
module Records {
  import opened Common
  import opened Ranking

  /** A tantivy `DocAddress`, kept by the Python code as the pair `(segment_ord, doc)`. */
  datatype Addr = Addr(segmentOrd: nat, doc: nat)

  /** What the search engine yields for one address: the stored fields, the two
      HTML snippets (with `<b>` already rewritten to `<mark>`), the number of
      highlighted spans in each, and the record's URL. */
  datatype DocView = DocView(
    name: string,
    title: string,
    content: string,
    doctype: string,
    highlightedTitle: string,
    highlightedContent: string,
    titleHighlights: nat,
    contentHighlights: nat,
    url: string,
    fields: map<string, Value>,
    id: string)

  /** One dictionary produced by `highlight`: the engine's view of a document
      together with the address it was read from (search.py:164). */
  datatype Hit = Hit(addr: Addr, view: DocView)

  /** The ranking key `(no_of_title_highlights, no_of_content_highlights)`. */
  function HitRank(h: Hit): Rank {
    Rank(h.view.titleHighlights, h.view.contentHighlights)
  }

  function Doctype(h: Hit): string {
    h.view.doctype
  }
}
