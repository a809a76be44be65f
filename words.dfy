/**
 * The word-counting scan of the CPU-profile program, as a specification: the per-byte
 * transition rule, its fold over a byte stream, the closed form of the count, and what a
 * whole scan yields (a count, or the fatal read error that stopped it).
 */
module WordCount {
  import opened Io
  import opened Unicode

  /** The two locals the scan threads: `words` and `inword`. */
  datatype ScanState = ScanState(words: nat, inword: bool)

  /** `words := 0; inword := false` */
  const Start := ScanState(0, false)

  /** What a scan ends with: the count it returns, or the read error that made it call `log.Fatalf`. */
  datatype Outcome = Counted(words: nat) | Fatal(err: Error)

  /**
   * One loop iteration on rune r: on whitespace inside a word, count the word and clear the
   * flag; then, whatever happened, the flag becomes "r is a letter".
   */
  function Step(st: ScanState, r: Latin1Rune): (next: ScanState)
    ensures next.inword == IsLetter(r)
    ensures next.words == st.words + 1 <==> IsSpace(r) && st.inword
    ensures st.words <= next.words <= st.words + 1
  {
    var afterSpace := if IsSpace(r) && st.inword then ScanState(st.words + 1, false) else st;
    afterSpace.(inword := IsLetter(r))
  }

  /** The state after the scan has consumed the bytes b, one rune per byte, starting in st. */
  function Scan(st: ScanState, b: seq<byte>): (st': ScanState)
    decreases |b|
  {
    if b == [] then st else Step(Scan(st, b[..|b| - 1]), b[|b| - 1] as int)
  }

  /** The count the scan returns after consuming the bytes b up to a clean end of stream. */
  function CountWords(b: seq<byte>): (n: nat)
  {
    Scan(Start, b).words
  }

  /** The positions i >= 1 where byte i is whitespace and byte i-1 a letter. */
  ghost function Boundaries(b: seq<byte>): set<int>
  {
    set i {:trigger b[i]} | 1 <= i < |b| && IsSpace(b[i] as int) && IsLetter(b[i - 1] as int)
  }

  /** The outcome of scanning a stream that delivers the bytes b and then reports end. */
  function Expected(b: seq<byte>, end: Error): (o: Outcome)
    ensures o.Fatal? <==> end != EOF
    ensures o.Fatal? ==> o.err == end
  {
    if end == EOF then Counted(CountWords(b)) else Fatal(end)
  }

  /** The whitespace bytes of b. */
  function SpaceCount(b: seq<byte>): (n: nat)
    decreases |b|
  {
    if b == [] then 0
    else SpaceCount(b[..|b| - 1]) + (if IsSpace(b[|b| - 1] as int) then 1 else 0)
  }

  /** Widens a string of characters below 256 to the bytes a file holding it delivers. */
  function Latin1Bytes(s: string): (b: seq<byte>)
    requires forall i :: 0 <= i < |s| ==> s[i] as int < 256
  {
    seq(|s|, i requires 0 <= i < |s| && forall j :: 0 <= j < |s| ==> s[j] as int < 256 => s[i] as int as byte)
  }

  // ---- Properties -------------------------------------------------------------------------

  /** The boundary set of b extended by one byte x. */
  lemma BoundariesSnoc(b: seq<byte>, x: byte)
    ensures Boundaries(b + [x]) ==
            Boundaries(b) + (if b != [] && IsSpace(x as int) && IsLetter(b[|b| - 1] as int) then {|b|} else {})
    ensures |b| !in Boundaries(b)
  {
    var c := b + [x];
    forall i | i in Boundaries(c) ensures i in Boundaries(b) || i == |b| {
      if i < |b| { assert c[i] == b[i] && c[i - 1] == b[i - 1]; }
    }
    forall i | i in Boundaries(b) ensures i in Boundaries(c) {
      assert c[i] == b[i] && c[i - 1] == b[i - 1];
    }
  }

  /**
   * From the initial state, the count is the number of space-after-letter positions, and the
   * flag is set exactly when the last byte consumed is a letter.
   */
  lemma {:induction false} ScanFromStart(b: seq<byte>)
    ensures Scan(Start, b).words == |Boundaries(b)|
    ensures Scan(Start, b).inword == (b != [] && IsLetter(b[|b| - 1] as int))
    decreases |b|
  {
    if b == [] {
      assert Boundaries(b) == {};
    } else {
      var p := b[..|b| - 1];
      var x := b[|b| - 1];
      assert b == p + [x];
      ScanFromStart(p);
      BoundariesSnoc(p, x);
    }
  }

  /** The closed form of the count. */
  lemma CountIsBoundaries(b: seq<byte>)
    ensures CountWords(b) == |Boundaries(b)|
  {
    ScanFromStart(b);
  }

  /** After at least one byte, the flag depends only on the last byte, whatever the state before. */
  lemma InwordForgetsState(st1: ScanState, st2: ScanState, b: seq<byte>)
    requires b != []
    ensures Scan(st1, b).inword == Scan(st2, b).inword == IsLetter(b[|b| - 1] as int)
  {
  }

  /** The count never decreases and grows by at most one per byte. */
  lemma {:induction false} ScanGrowth(st: ScanState, b: seq<byte>)
    ensures st.words <= Scan(st, b).words <= st.words + |b|
    decreases |b|
  {
    if b != [] {
      ScanGrowth(st, b[..|b| - 1]);
    }
  }

  /** Scan from the start keeps `2*words + inword <= bytes read` and `words <= spaces read`. */
  lemma {:induction false} ScanBudget(b: seq<byte>)
    ensures 2 * Scan(Start, b).words + (if Scan(Start, b).inword then 1 else 0) <= |b|
    ensures Scan(Start, b).words <= SpaceCount(b)
    decreases |b|
  {
    if b != [] {
      ScanBudget(b[..|b| - 1]);
    }
  }

  /** Every counted word costs a letter and a whitespace byte. */
  lemma CountBounds(b: seq<byte>)
    ensures CountWords(b) <= SpaceCount(b)
    ensures 2 * CountWords(b) <= |b|
  {
    ScanBudget(b);
  }

  /** Bytes without whitespace add no word: a final word with nothing after it is not counted. */
  lemma {:induction false} NoSpaceNoWord(b: seq<byte>, c: seq<byte>)
    requires forall i :: 0 <= i < |c| ==> !IsSpace(c[i] as int)
    ensures CountWords(b + c) == CountWords(b)
    decreases |c|
  {
    if c == [] {
      assert b + c == b;
    } else {
      var c' := c[..|c| - 1];
      assert (b + c)[..|b + c| - 1] == b + c';
      NoSpaceNoWord(b, c');
    }
  }

  /** An immediate end of stream yields zero words. */
  lemma EmptyStream()
    ensures Expected([], EOF) == Counted(0)
  {
  }

  /** "hello world" has one word: "world" is not followed by whitespace. */
  lemma HelloWorld()
    ensures CountWords(Latin1Bytes("hello world")) == 1
  {
    var b := Latin1Bytes("hello world");
    var hello := Latin1Bytes("hello ");
    assert b == hello + b[6..];
    NoSpaceNoWord(hello, b[6..]);
    CountIsBoundaries(hello);
    assert Boundaries(hello) == {5} by {
      forall i | i in Boundaries(hello) ensures i == 5 { }
    }
  }

  /** "ab. " has no word: the '.' between the letters and the space clears the flag. */
  lemma PunctuationSuppresses()
    ensures CountWords(Latin1Bytes("ab. ")) == 0
  {
    var b := Latin1Bytes("ab. ");
    CountIsBoundaries(b);
    assert Boundaries(b) == {} by {
      forall i | i in Boundaries(b) ensures false { }
    }
  }

  /** "  a  b  " has two words. */
  lemma TwoSpacedWords()
    ensures CountWords(Latin1Bytes("  a  b  ")) == 2
  {
    var b := Latin1Bytes("  a  b  ");
    CountIsBoundaries(b);
    assert Boundaries(b) == {3, 6} by {
      forall i | i in Boundaries(b) ensures i == 3 || i == 6 { }
      assert 3 in Boundaries(b) && 6 in Boundaries(b);
    }
  }
}
