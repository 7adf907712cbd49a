/** The reading end of a connection, as asyncio hands its bytes out. */
module Streams {
  import opened Prelude
  import opened Bytes

  /** The transport: the bytes still to come before the end of the stream. */
  class StreamReader {
    var input: bytes

    constructor (input: bytes)
      ensures this.input == input
    {
      this.input := input;
    }

    /** Any non-empty piece of what is to come, at most `max` bytes; nothing at the end of the stream. */
    method Read(max: nat) returns (data: bytes)
      modifies this
      ensures data + input == old(input) && |data| <= max
      ensures data == [] <==> max == 0 || old(input) == []
    {
      if max == 0 || input == [] { return []; }
      var k :| 1 <= k <= max && k <= |input|;
      data, input := input[..k], input[k..];
    }

    /** The next `n` bytes, or None (an IncompleteReadError) when the stream ends first. */
    method ReadExactly(n: nat) returns (data: Option<bytes>)
      modifies this
      ensures data.Some? <==> |old(input)| >= n
      ensures data.Some? ==> data.value == old(input)[..n] && input == old(input)[n..]
      ensures data.None? ==> input == []
    {
      if |input| < n {
        input := [];
        return None;
      }
      data, input := Some(input[..n]), input[n..];
    }
  }
}
