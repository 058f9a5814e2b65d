/**
 * The durable state the bot and its settings window share: the two JSON files
 * (whitelist.json, wordlist.json) and the lines of `.env`.
 */
module Store {
  import opened Wrappers

  /**
   * A JSON object as this system reads it: the value under "whitelist" (sender
   * ids), the value under "words" (trigger words), and whether any other key is present.
   */
  datatype Doc = Doc(whitelist: Option<seq<int>>, words: Option<seq<string>>, otherKeys: bool)

  /** `{}` */
  const EmptyDoc := Doc(None, None, false)

  /** Python's truth value of a dict: it has at least one key. */
  predicate Truthy(d: Doc) {
    d.whitelist.Some? || d.words.Some? || d.otherKeys
  }

  /** What a JSON file on disk holds. */
  datatype FileState = Missing | Malformed | Parsed(doc: Doc)

  /** `load_json` of cogs/shock.py: the parsed object, or `None` when the file is missing or malformed. */
  function LoadJson(f: FileState): (r: Option<Doc>)
    ensures r.None? <==> !f.Parsed?
    ensures r.Some? ==> r.value == f.doc
  {
    match f
    case Parsed(d) => Some(d)
    case _ => None
  }

  /** `load_json` of gui.py: the parsed object, or `{}` when the file is missing or malformed. */
  function LoadJsonOrEmpty(f: FileState): (d: Doc)
    ensures !f.Parsed? ==> d == EmptyDoc
    ensures f.Parsed? ==> d == f.doc
  {
    if f.Parsed? then f.doc else EmptyDoc
  }

  /**
   * The two loaders agree on every file that parses; where the bot's yields
   * `None` the window's yields `{}`, and both are false as truth values.
   */
  lemma LoadersAgree(f: FileState)
    ensures LoadJsonOrEmpty(f) == LoadJson(f).GetOr(EmptyDoc)
    ensures LoadJson(f).None? ==> !Truthy(LoadJsonOrEmpty(f))
  {
  }

  /** One `KEY=value` line of `.env`. */
  datatype EnvLine = EnvLine(key: string, value: string)
}
