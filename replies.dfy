/** The reply format both cogs use: text in a fenced block, errors as `Error: <cause>`. */
module Replies {

  /** Replies are sent as fenced code blocks. */
  function Block(s: string): string {
    "```" + s + "```"
  }

  /** The uniform error reply: `Error: <cause>` in a block. */
  function ErrorReply(cause: string): string {
    Block("Error: " + cause)
  }

  lemma BlockStartsWith(s: string)
    requires s != []
    ensures Block(s)[3] == s[0]
  {
  }
}
