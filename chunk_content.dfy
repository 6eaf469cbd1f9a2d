/**
 * The text classification of one streamed chunk (app.py:138-144). A chunk's
 * `content` is either a plain string or a list whose items are strings or
 * dictionaries (the structured-content form some models stream).
 */
module ChunkContent {
  import opened Wrappers

  /** One item of a list-shaped chunk. */
  datatype Item = StrItem(s: string) | DictItem(fields: map<string, string>)

  /** The `content` of a streamed chunk. */
  datatype Chunk = TextChunk(text: string) | ListChunk(items: seq<Item>)

  /** Python's KeyError on a dictionary lookup of `key`. */
  datatype KeyError = KeyError(key: string)

  /** The chunk is a non-empty list whose first item is a dictionary. */
  predicate LeadsWithDict(c: Chunk)
  {
    c.ListChunk? && |c.items| > 0 && c.items[0].DictItem?
  }

  /** The first item's dictionary; only meaningful when `LeadsWithDict(c)`. */
  function LeadDict(c: Chunk): map<string, string>
    requires LeadsWithDict(c)
  {
    c.items[0].fields
  }

  /** The chunk's first item is a dictionary of type "text". */
  predicate LeadsWithTextDict(c: Chunk)
  {
    LeadsWithDict(c) && "type" in LeadDict(c) && LeadDict(c)["type"] == "text"
  }

  /**
   * The text a chunk contributes to the response. A plain string
   * contributes itself; a list whose first item is a dictionary of type
   * "text" contributes that item's "text" (later items are ignored);
   * every other list contributes "". A leading dictionary without "type",
   * or of type "text" without "text", raises KeyError.
   */
  function ExtractText(c: Chunk): (r: Result<string, KeyError>)
    ensures c.TextChunk? ==> r == Ok(c.text)
    ensures LeadsWithTextDict(c) ==>
      r == if "text" in LeadDict(c) then Ok(LeadDict(c)["text"]) else Err(KeyError("text"))
    ensures c.ListChunk? && !LeadsWithTextDict(c) ==>
      r == if LeadsWithDict(c) && "type" !in LeadDict(c) then Err(KeyError("type")) else Ok("")
    ensures r.Err? <==>
      LeadsWithDict(c) &&
      ("type" !in LeadDict(c) || (LeadDict(c)["type"] == "text" && "text" !in LeadDict(c)))
  {
    match c
    case ListChunk(items) =>
      if |items| > 0 && items[0].DictItem? then
        var d := items[0].fields;
        if "type" !in d then Err(KeyError("type"))
        else if d["type"] == "text" then
          if "text" in d then Ok(d["text"]) else Err(KeyError("text"))
        else Ok("")
      else Ok("")
    case TextChunk(s) => Ok(s)
  }

  /** Only the first item of a list chunk is ever inspected. */
  lemma LaterItemsIgnored(first: Item, rest: seq<Item>, rest': seq<Item>)
    ensures ExtractText(ListChunk([first] + rest)) == ExtractText(ListChunk([first] + rest'))
  {
  }
}
