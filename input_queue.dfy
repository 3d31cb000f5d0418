/**
 * The tokenised command input that argument parsers consume: the `Queue<String>`
 * read by the older parsers and the `CommandInput` read by the newer ones.
 */
module Input {

  /** A queue of whitespace-separated tokens, consumed from the front. */
  class TokenQueue {
    var tokens: seq<string>

    constructor (tokens: seq<string>)
      ensures this.tokens == tokens
    {
      this.tokens := tokens;
    }

    /** `Queue.peek()`: the head token, or "" standing for null when the queue is empty. */
    function Peek(): (t: string)
      reads this
      ensures tokens != [] ==> t == tokens[0]
      ensures tokens == [] ==> t == ""
    {
      if tokens == [] then "" else tokens[0]
    }

    /** `Queue.remove()`: drop the head token. */
    method Remove()
      requires tokens != []
      modifies this
      ensures tokens == old(tokens)[1..]
    {
      tokens := tokens[1..];
    }

    /**
     * `CommandInput.readString()`: take the next token. When nothing is left the
     * token is "" and the input stays empty.
     */
    method ReadString() returns (t: string)
      modifies this
      ensures old(tokens) == [] ==> t == "" && tokens == []
      ensures old(tokens) != [] ==> t == old(tokens)[0] && tokens == old(tokens)[1..]
    {
      if tokens == [] {
        t := "";
      } else {
        t := tokens[0];
        tokens := tokens[1..];
      }
    }
  }
}
