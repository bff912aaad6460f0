/** The byte sinks and sources that the codec is generic over (`impl Write`, `impl Read`).
    A sink takes everything; a source fails when it runs dry. */
module Streams {
  import opened Wrappers
  import opened Words

  class Writer {
    var written: seq<u8>

    constructor ()
      ensures written == []
    {
      written := [];
    }

    method WriteAll(data: seq<u8>)
      modifies this
      ensures written == old(written) + data
    {
      written := written + data;
    }
  }

  class Reader {
    /** What has not been read yet. */
    var rest: seq<u8>

    constructor (data: seq<u8>)
      ensures rest == data
    {
      rest := data;
    }

    /** `read_exact`: fails, having used up the source, when fewer than n bytes are left. */
    method ReadExact(n: nat) returns (r: Option<seq<u8>>)
      modifies this
      ensures n <= |old(rest)| ==> r == Some(old(rest)[..n]) && rest == old(rest)[n..]
      ensures n > |old(rest)| ==> r == None && rest == []
    {
      if n <= |rest| {
        r := Some(rest[..n]);
        rest := rest[n..];
      } else {
        r := None;
        rest := [];
      }
    }
  }
}
