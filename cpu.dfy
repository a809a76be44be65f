/**
 * The two word-counting loops of the CPU-profile program: `v0` reads the file directly,
 * `v1` through a buffered reader. Both are proved to compute the scan specification.
 */
module Cpu {
  import opened Io
  import opened Unicode
  import opened WordCount
  import opened Readers

  /** `v0(f)`: count words reading one byte at a time straight from the file. */
  method V0(f: File) returns (outcome: Outcome)
    modifies f
    ensures outcome == Expected(old(f.rest), f.end)
    ensures f.rest == []
  {
    ghost var input := f.rest;
    ghost var n := 0;
    var words := 0;
    var inword := false;
    while true
      invariant n <= |input| && f.rest == input[n..]
      invariant ScanState(words, inword) == Scan(Start, input[..n])
      decreases |f.rest|
    {
      var r, err := ReadByte(f);
      if err == Some(EOF) {
        break;
      }
      if err.Some? {
        return Fatal(err.value);
      }
      if IsSpace(r) && inword {
        words := words + 1;
        inword := false;
      }
      inword := IsLetter(r);
      n := n + 1;
      assert input[..n][..n - 1] == input[..n - 1];
    }
    assert input[..n] == input;
    outcome := Counted(words);
  }

  /** `v1(f)`: the same loop, reading through `bufio.NewReader(f)`. */
  method V1(f: File) returns (outcome: Outcome)
    modifies f
    ensures outcome == Expected(old(f.rest), f.end)
    ensures f.rest == []
  {
    ghost var input := f.rest;
    ghost var n := 0;
    var words := 0;
    var inword := false;
    var b := new BufReader(f);
    while true
      invariant n <= |input| && b.Rest() == input[n..]
      invariant ScanState(words, inword) == Scan(Start, input[..n])
      decreases |b.Rest()|
    {
      var r, err := ReadByteBuffered(b);
      if err == Some(EOF) {
        break;
      }
      if err.Some? {
        return Fatal(err.value);
      }
      if IsSpace(r) && inword {
        words := words + 1;
        inword := false;
      }
      inword := IsLetter(r);
      n := n + 1;
      assert input[..n][..n - 1] == input[..n - 1];
    }
    assert input[..n] == input;
    outcome := Counted(words);
  }

  /** Buffering does not change the result: both loops agree on every stream. */
  method BothVariants(data: seq<byte>, end: Error) returns (o0: Outcome, o1: Outcome)
    ensures o0 == o1 == Expected(data, end)
  {
    var f0 := new File(data, end);
    o0 := V0(f0);
    var f1 := new File(data, end);
    o1 := V1(f1);
  }
}
