/** The records the reading-list endpoint returns (src/lib.rs:27-65). Decoding them from JSON is
    done by a library and is a parameter of the model (see module Reader). */
module Feed {
  import opened Wrappers
  import opened Decimal

  /** A link to a resource. */
  datatype Link = Link(href: string)

  /** The summary of an item. */
  datatype Summary = Summary(content: Option<string>, author: Option<string>)

  /** A feed item, a snapshot of the server's state when it was fetched. */
  datatype Item = Item(
    id: string,
    crawlTimeMsec: Option<string>,
    timestampUsec: Option<string>,
    updated: Option<Usize>,
    published: Option<Usize>,
    title: string,
    canonical: seq<Link>,
    alternate: seq<Link>,
    categories: seq<string>,
    origin: map<string, string>,
    summary: Summary)

  /** One page of the reading list; `continuation`, when present, is the cursor of the next page. */
  datatype Response = Response(
    id: string,
    items: seq<Item>,
    updated: Usize,
    continuation: Option<string>)
}
