/** `StdPipe` of src/runas/base.py: framed messages over a pair of byte
    streams (the child's stdout to read, its stdin to write). */
module Base {
  import opened Bytes
  import opened Framing

  class StdPipe {
    /** Everything the read stream delivers before it reports end of file. */
    var input: seq<uint8>
    /** How many bytes of `input` have been read. */
    var cursor: nat
    /** Bytes that have reached the peer through the write stream. */
    var output: seq<uint8>
    /** Bytes handed to the write stream but not yet flushed. */
    var pending: seq<uint8>
    var readOpen: bool
    var writeOpen: bool

    /** Between operations the cursor is inside the stream and nothing
        written is left unflushed. */
    ghost predicate Valid()
      reads this
    {
      cursor <= |input| && pending == []
    }

    /** The bytes not yet read. */
    ghost function Unread(): seq<uint8>
      reads this
      requires Valid()
    {
      input[cursor..]
    }

    /** A pipe over a read stream that will deliver `read` and a write stream
        that already carries `written`. */
    constructor (read: seq<uint8>, written: seq<uint8>)
      ensures Valid()
      ensures input == read && cursor == 0 && output == written
      ensures readOpen && writeOpen
    {
      input := read;
      cursor := 0;
      output := written;
      pending := [];
      readOpen := true;
      writeOpen := true;
    }

    /** `_read(size)`: at most `size` bytes, fewer only at end of stream. */
    method RawRead(size: nat) returns (chunk: seq<uint8>)
      requires Valid() && readOpen
      modifies this`cursor
      ensures Valid()
      ensures chunk == Take(old(Unread()), size)
      ensures cursor == old(cursor) + |chunk|
    {
      var end := if cursor + size < |input| then cursor + size else |input|;
      chunk := input[cursor..end];
      cursor := end;
    }

    /** `_write(data)`: write, then flush, so nothing stays buffered. */
    method RawWrite(data: seq<uint8>)
      requires Valid() && writeOpen
      modifies this`pending, this`output
      ensures Valid()
      ensures output == old(output) + data
    {
      pending := pending + data;
      output := output + pending;
      pending := [];
    }

    /** `read()`: exactly what `ReadFrame` says of the unread bytes, and the
        cursor moves past the bytes it consumed. Reading a closed stream
        fails with `ValueError` and consumes nothing. */
    method Read() returns (r: Received)
      requires Valid()
      modifies this`cursor
      ensures Valid()
      ensures !old(readOpen) ==> r == ClosedFile && cursor == old(cursor)
      ensures old(readOpen) ==> (r, cursor - old(cursor)) == ReadFrame(old(Unread()))
    {
      if !readOpen {
        return ClosedFile;
      }
      ghost var s := Unread();
      var sz := RawRead(4);
      if |sz| < 4 {
        return EndOfStream;
      }
      var n := Unpack32(sz);
      assert Unread() == s[4..];
      var data := RawRead(n);
      if |data| < n {
        return EndOfStream;
      }
      return Payload(data);
    }

    /** `write(d)`: the length word, then `d`, each flushed. The length is
        packed before anything is written, so an oversize payload leaves the
        stream untouched. */
    method Write(d: seq<uint8>) returns (r: Sent)
      requires Valid()
      modifies this`pending, this`output
      ensures Valid()
      ensures r == (if !Fits(d) then Oversize else if !old(writeOpen) then WriteOnClosed else Written)
      ensures output == old(output) + (if r == Written then EncodeFrame(d) else [])
    {
      if !Fits(d) {
        return Oversize;
      }
      var prefix := Pack32(|d|);
      if !writeOpen {
        return WriteOnClosed;
      }
      RawWrite(prefix);
      RawWrite(d);
      r := Written;
    }

    /** `close()`: closes both streams; closing again changes nothing. */
    method Close()
      modifies this`readOpen, this`writeOpen
      ensures !readOpen && !writeOpen
    {
      readOpen := false;
      writeOpen := false;
    }
  }

  /** A client of the class: a frame written on one pipe and carried to the
      read side of another comes out unchanged, and a second read of the now
      exhausted stream reports end of stream. */
  method Transfer(d: seq<uint8>) returns (first: Received, second: Received)
    requires Fits(d)
    ensures first == Payload(d) && second == EndOfStream
  {
    var sender := new StdPipe([], []);
    var sent := sender.Write(d);
    var receiver := new StdPipe(sender.output, []);
    FrameRoundTrip(d, []);
    assert sender.output == EncodeFrame(d) + [];
    first := receiver.Read();
    second := receiver.Read();
  }
}
