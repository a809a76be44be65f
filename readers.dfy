/**
 * The two readers the word counter pulls bytes from, and `readbyte`, which reads one byte
 * through a one-byte buffer. An open file is the bytes it has yet to deliver followed by the
 * error its reads end with; the buffered reader refills its buffer with one read of the file.
 */
module Readers {
  import opened Io
  import opened Unicode

  /** Size of the buffer `bufio.NewReader` allocates. */
  const BufSize: nat := 4096

  /** The opened input file (`*os.File`). */
  class File {
    /** The bytes not yet delivered. */
    var rest: seq<byte>
    /** The error reads report once every byte is delivered. */
    const end: Error

    constructor (data: seq<byte>, end: Error)
      ensures rest == data && this.end == end
    {
      rest := data;
      this.end := end;
    }

    /**
     * `f.Read(p)` with `len(p) == n > 0`: a non-empty prefix of the remaining bytes, at most n
     * of them, or, once none remain, no bytes and the closing error.
     */
    method Read(n: nat) returns (chunk: seq<byte>, err: Option<Error>)
      requires n > 0
      modifies this
      ensures old(rest) == [] ==> chunk == [] && err == Some(end) && rest == []
      ensures old(rest) != [] ==> err == None && 0 < |chunk| <= n && old(rest) == chunk + rest
    {
      if rest == [] {
        chunk, err := [], Some(end);
      } else {
        var k := if n < |rest| then n else |rest|;
        chunk, rest, err := rest[..k], rest[k..], None;
      }
    }
  }

  /** `bufio.Reader` over a file: `buf` holds the bytes read from the file and not yet delivered. */
  class BufReader {
    const rd: File
    var buf: seq<byte>

    /** The bytes this reader has yet to deliver. */
    ghost function Rest(): seq<byte>
      reads this, rd
    {
      buf + rd.rest
    }

    /** `bufio.NewReader(rd)` */
    constructor (rd: File)
      ensures this.rd == rd && buf == []
    {
      this.rd := rd;
      buf := [];
    }

    /**
     * `b.Read(p)` with `len(p) == n > 0`: with an empty buffer, a read as large as the buffer
     * goes straight to the file; a smaller one first refills the buffer with one read of the
     * file and reports the file's error if that read delivers nothing. Then as many buffered
     * bytes as fit are delivered.
     */
    method Read(n: nat) returns (chunk: seq<byte>, err: Option<Error>)
      requires n > 0
      modifies this, rd
      ensures old(Rest()) == [] ==> chunk == [] && err == Some(rd.end) && Rest() == []
      ensures old(Rest()) != [] ==> err == None && 0 < |chunk| <= n && old(Rest()) == chunk + Rest()
    {
      if buf == [] {
        if n >= BufSize {
          chunk, err := rd.Read(n);
          return;
        }
        var data, e := rd.Read(BufSize);
        if data == [] {
          return [], e;
        }
        buf := data;
      }
      var k := if n < |buf| then n else |buf|;
      chunk, buf, err := buf[..k], buf[k..], None;
      assert old(Rest()) == chunk + Rest();
    }
  }

  /** `readbyte(f)`: the next byte as a rune, or the zero rune and the error that stopped the read. */
  method ReadByte(f: File) returns (r: Latin1Rune, err: Option<Error>)
    modifies f
    ensures old(f.rest) == [] ==> r == 0 && err == Some(f.end) && f.rest == []
    ensures old(f.rest) != [] ==> err == None && r == old(f.rest)[0] as int && f.rest == old(f.rest)[1..]
  {
    var buf, e := f.Read(1);
    r := if |buf| == 1 then buf[0] as int else 0;
    err := e;
  }

  /** `readbyte(b)` on the buffered reader. */
  method ReadByteBuffered(b: BufReader) returns (r: Latin1Rune, err: Option<Error>)
    modifies b, b.rd
    ensures old(b.Rest()) == [] ==> r == 0 && err == Some(b.rd.end) && b.Rest() == []
    ensures old(b.Rest()) != [] ==> err == None && r == old(b.Rest())[0] as int && b.Rest() == old(b.Rest())[1..]
  {
    var buf, e := b.Read(1);
    r := if |buf| == 1 then buf[0] as int else 0;
    err := e;
  }
}
