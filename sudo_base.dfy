/** `StringPipe` of src/runas/sudo_base.py: the same framing as base.py over
    two abstract hooks, `_read(size)` and `_write(data)`, plus a `connected`
    flag. The base class leaves the hooks unimplemented; the model gives them
    the behaviour of a byte channel, the behaviour its one concrete subclass
    (`StdPipe` of src/runas/sudo_posix.py) gets from a pair of streams. */
module SudoBase {
  import opened Bytes
  import opened Framing

  class StringPipe {
    var connected: bool
    /** Everything the read hook delivers before end of stream. */
    var input: seq<uint8>
    var cursor: nat
    /** Everything passed to the write hook. */
    var output: seq<uint8>

    ghost predicate Valid()
      reads this
    {
      cursor <= |input|
    }

    ghost function Unread(): seq<uint8>
      reads this
      requires Valid()
    {
      input[cursor..]
    }

    /** `StringPipe()`: a new pipe is not connected. */
    constructor (read: seq<uint8>)
      ensures Valid()
      ensures !connected
      ensures input == read && cursor == 0 && output == []
    {
      connected := false;
      input := read;
      cursor := 0;
      output := [];
    }

    /** The state a subclass starts from when its own initialiser does not
        call this class's one (as `StdPipe` of src/runas/sudo_posix.py
        does): the channel is set up and `connected` is left unset. */
    constructor Over(read: seq<uint8>, written: seq<uint8>)
      ensures Valid()
      ensures input == read && cursor == 0 && output == written
    {
      input := read;
      cursor := 0;
      output := written;
    }

    /** `_read(size)`: at most `size` bytes, fewer only at end of stream. */
    method RawRead(size: nat) returns (chunk: seq<uint8>)
      requires Valid()
      modifies this`cursor
      ensures Valid()
      ensures chunk == Take(old(Unread()), size)
      ensures cursor == old(cursor) + |chunk|
    {
      var end := if cursor + size < |input| then cursor + size else |input|;
      chunk := input[cursor..end];
      cursor := end;
    }

    /** `_write(data)`. */
    method RawWrite(data: seq<uint8>)
      requires Valid()
      modifies this`output
      ensures output == old(output) + data
    {
      output := output + data;
    }

    /** `close()` of the base class only clears `connected`; a second call
        leaves the same state. */
    method Close()
      modifies this`connected
      ensures !connected
    {
      connected := false;
    }

    /** `read()`: the outcome `ReadFrame` gives for the unread bytes; the
        cursor moves past exactly the bytes consumed. */
    method Read() returns (r: Received)
      requires Valid()
      modifies this`cursor
      ensures Valid()
      ensures (r, cursor - old(cursor)) == ReadFrame(old(Unread()))
    {
      ghost var s := Unread();
      var sz := RawRead(4);
      if |sz| < 4 {
        return EndOfStream;
      }
      var n := Unpack32(sz);
      assert Unread() == s[4..];
      var data := RawRead(n);
      if |data| < n {
        return EndOfStream;
      }
      return Payload(data);
    }

    /** `write(d)`: exactly `4 + |d|` bytes, the length word then `d`; an
        oversize payload fails in `struct.pack` before anything is written. */
    method Write(d: seq<uint8>) returns (r: Sent)
      requires Valid()
      modifies this`output
      ensures Valid()
      ensures r == (if Fits(d) then Written else Oversize)
      ensures output == old(output) + (if r == Written then EncodeFrame(d) else [])
    {
      if !Fits(d) {
        return Oversize;
      }
      RawWrite(Pack32(|d|));
      RawWrite(d);
      r := Written;
    }
  }
}
