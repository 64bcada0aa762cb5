/** A stdio stream as a byte image with a position and an end-of-file flag.  Transfers are
    whole: no partial writes, no buffering, no device errors. */
module Stdio {
  import opened Bytes

  class File {
    var bytes: seq<u8>
    var pos: nat
    var eof: bool

    constructor (contents: seq<u8>)
      ensures bytes == contents && pos == 0 && !eof
    {
      bytes, pos, eof := contents, 0, false;
    }

    /** fseek(SEEK_SET): any offset is allowed, also beyond the end. */
    method Seek(to: nat)
      modifies this
      ensures bytes == old(bytes) && pos == to && !eof
    {
      pos, eof := to, false;
    }

    /** fread: a short read consumes what is there and raises the end-of-file flag. */
    method Read(n: nat) returns (got: seq<u8>)
      modifies this
      ensures bytes == old(bytes)
      ensures got == Slice(bytes, old(pos), n)
      ensures pos == old(pos) + |got|
      ensures eof == (old(eof) || |got| < n)
    {
      got := Slice(bytes, pos, n);
      pos, eof := pos + |got|, eof || |got| < n;
    }

    /** fwrite at the current position. */
    method Write(b: seq<u8>)
      modifies this
      ensures bytes == Patch(old(bytes), old(pos), b)
      ensures pos == old(pos) + |b|
      ensures eof == old(eof)
    {
      bytes := Patch(bytes, pos, b);
      pos := pos + |b|;
    }
  }
}
