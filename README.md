# go_profiling workloads, modelled in Dafny

The repository holds small Go programs that each produce one clean signature for a runtime
profiler. Three of them have a sequential core with something to prove, and this project
models those three:

- **The word-counting scan** (`cpu/cpu.go`). `v0` and `v1` read a file one byte at a time
  with `readbyte`, which uses a one-byte buffer. `v0` reads the file directly and `v1` reads it
  through a `bufio.Reader`. Each loop keeps two locals, `words` and `inword`. On whitespace
  while `inword` is set, it counts a word and clears the flag. It then sets
  `inword := IsLetter(byte)` unconditionally.
  - The model is imperative. The file and the buffered reader are classes (`Readers.File`,
    `Readers.BufReader`). `readbyte` becomes one method per reader class (`Readers.ReadByte`,
    `Readers.ReadByteBuffered`), and `v0`/`v1` are loops (`Cpu.V0`, `Cpu.V1`).
  - Both loops are proved equal to one specification (`WordCount.Expected`). That
    specification folds the per-byte rule (`WordCount.Step`) over the stream. Lemmas then show
    the fold's closed form: the number of positions `i >= 1` where byte `i` is whitespace and
    byte `i-1` is a letter.
  - A stream is the bytes the file delivers, followed by the error its reads end with. Ending
    with `io.EOF` yields a count. Any other error is the loop's `log.Fatalf`, modelled as the
    outcome `Fatal(err)` with no count.
- **`Sum`** (`escape/escape.go`). It fills a local 100-element array with 1..100 and adds the
  elements up. `Escape.Fill` is the array and its first loop, and `Escape.Sum` adds the array up in the second loop. `Sum` is proved to return 5050, by
  way of Gauss's formula (`Escape.SumOfOneTo`).
- **The allocation workload** (`memory/memory.go`). `allocate` appends `count` = 100000
  buffers built by `makeByteSlice` to a slice and returns the first one. The random source is
  an oracle `rnd(k, n)`: the value the k-th call of `rand.Intn(n)` returns, somewhere in
  `[0, n)`.
  - Go's `2^14` is bitwise XOR, so every buffer length is `rand.Intn(12)`, in `[0, 12)`.
  - The doc comment at memory/memory.go:31 claims `[0, 16384)`. The model keeps the bound the
    code computes, and `Memory.IntnBoundIsTwelve` records the mismatch.

Unicode classification is tabulated over the runes 0..255, which are the only runes a one-byte
read produces (`Unicode.IsSpace`, `Unicode.IsLetter`). These tables match Go's
`unicode.IsSpace` and `unicode.IsLetter` on that range.

The loop at cpu/cpu.go:60-64 counts a letter run only when whitespace comes immediately
after it. A letter run followed by any other byte before the whitespace is not counted, so
`"ab. "` counts 0 (`WordCount.PunctuationSuppresses`).

Modules: `Io` (bytes, `Option`, read errors), `Unicode`, `WordCount` (the scan's
specification and its lemmas), `Readers`, `Cpu`, `Escape`, `Memory`.

## Model

| member | source | states |
|---|---|---|
| `Unicode.SpaceIsNotLetter` | cpu/cpu.go:60-64 | no rune 0..255 is both whitespace and a letter, so the increment and the new flag never both come from a letter |
| `WordCount.Step` | cpu/cpu.go:60-64 | after a byte, `inword` is whether that byte is a letter, whatever the state before; `words` grows by one exactly when the byte is whitespace and `inword` was set, and otherwise stays put |
| `WordCount.Expected` | cpu/cpu.go:52-67 | a scan ends fatally exactly when the stream ends with an error other than EOF, and then carries that error and no count |
| `WordCount.ScanFromStart` | cpu/cpu.go:50-64 | from `words = 0, inword = false`, the count after any bytes is the number of positions `i >= 1` with byte `i` whitespace and byte `i-1` a letter, and `inword` is whether the last byte is a letter |
| `WordCount.CountIsBoundaries` | cpu/cpu.go:60-64 | the returned count equals the size of the set of space-after-letter positions |
| `WordCount.InwordForgetsState` | cpu/cpu.go:64 | after at least one byte, the flag is the same from any two starting states, and is whether the last byte is a letter |
| `WordCount.ScanGrowth` | cpu/cpu.go:60-62 | from any state, the count never decreases and grows by at most one per byte |
| `WordCount.CountBounds` | cpu/cpu.go:60-62 | the count is at most the number of whitespace bytes, and twice the count is at most the stream length |
| `WordCount.NoSpaceNoWord` | cpu/cpu.go:52-65 | appending bytes without whitespace never changes the count, so a final word with no whitespace after it is not counted |
| `WordCount.EmptyStream` | cpu/cpu.go:50-56 | an immediate EOF yields 0 words |
| `WordCount.HelloWorld` | cpu/cpu.go:60-64 | `"hello world"` counts 1 |
| `WordCount.PunctuationSuppresses` | cpu/cpu.go:60-64 | `"ab. "` counts 0: the `.` clears the flag before the space is seen |
| `WordCount.TwoSpacedWords` | cpu/cpu.go:60-64 | `"  a  b  "` counts 2 |
| `Readers.File.Read` | cpu/cpu.go:18 | a read of up to n bytes delivers a non-empty prefix of the remaining bytes, at most n, and no error; once nothing remains it delivers nothing plus the file's closing error |
| `Readers.BufReader.constructor` | cpu/cpu.go:74 | a new reader holds no buffered bytes, so it has exactly the file's remaining bytes to deliver |
| `Readers.BufReader.Read` | cpu/cpu.go:74 | the buffered reader delivers the same byte stream as the file under it, bytes in order and none lost, and ends with the same error |
| `Readers.ReadByte` | cpu/cpu.go:16-20 | `readbyte(f)` returns the next byte as a rune and removes it from the stream, or returns the zero rune and the closing error when no byte is left |
| `Readers.ReadByteBuffered` | cpu/cpu.go:16-20 | `readbyte(b)` does the same through the buffered reader |
| `Cpu.V0` | cpu/cpu.go:49-68 | `v0` consumes the whole stream and returns the count `Expected` gives, or the fatal read error |
| `Cpu.V1` | cpu/cpu.go:70-92 | `v1` returns the same as `Expected` through the buffered reader |
| `Cpu.BothVariants` | cpu/cpu.go:49-92 | on any byte stream and closing error, `v0` and `v1` return the same outcome |
| `Escape.Fill` | escape/escape.go:8-12 | a freshly allocated array of length `count` holding `i + 1` at every index `i` |
| `Escape.SumOfOneTo` | escape/escape.go:14-17 | the sum of `1..k` is `k(k+1)/2` |
| `Escape.Sum` | escape/escape.go:7-19 | returns 5050; after j additions the sum is at least j, the last element added, and every element added is positive |
| `Memory.MakeByteSlice` | memory/memory.go:31-34 | every buffer is zero-filled and its length is in `[0, 12)` |
| `Memory.IntnBoundIsTwelve` | memory/memory.go:31-33 | the bound passed to `rand.Intn` is `2 XOR 14 = 12`, not the documented 16384 |
| `Memory.Allocate` | memory/memory.go:12-29 | exactly `count` buffers are appended; entry k of the ledger is the k-th buffer made, and earlier entries are never changed; the result is entry 0, which always exists |

## Left out

- Profiler start and stop (`profile.Start(...).Stop()` under `defer`): the profiling engine is an external library with an opaque artifact format.
- `main` of each program: the file is opened from `os.Args[1]`, `VERSION` selects `v0` or `v1`, results are printed, and `runtime.GC()` runs. All of this is process and OS glue. `Cpu.BothVariants` stands for the version switch, since both choices give the same result.
- `log.Fatalf` ending the process: it is modelled as the outcome `Fatal(err)`.
- `readbyte` ignores the byte count its read returns. The model treats a read as "next byte, or no byte with an error", and the model's file never returns bytes together with an error.
- Readers.BufReader.Read: `bufio.Reader` also remembers an error that came with data and reports it on the next read. This is not modelled, because the model's file never returns data and an error together.
- The real random source behind `rand.Intn`: the oracle `rnd` stands for it.
- The global `y` that keeps the first buffer alive. It only matters to the garbage collector, which is not modelled.
- Memory.Allocate: buffers are values (`seq<byte>`), so the model says nothing about their identity or whether they stay reachable.
- Go's 64-bit `int`: unbounded integers are used. The largest constant is 100000, and the word count is at most half the file length (`WordCount.CountBounds`). Both are far below 2^63.
- `block/block.go` and `mutex/mutex.go`: goroutines, channels, sleeps and a contended mutex. Their subject is concurrency, and their arithmetic is trivial.
- `Unicode.IsSpace` and `Unicode.IsLetter` cover only runes 0..255. Go's functions cover all of Unicode, but a one-byte read never produces a larger rune.
