/**
 * The bounded capture of one output stream of a foreground command: however the bytes are
 * cut into chunks, the object holds the first half-limit bytes of the stream and the last
 * bytes of what followed them.
 */
module StreamCapture {
  type Byte = bv8

  const MAX_COMMAND_OUTPUT_BYTES: nat := 64 * 1024

  const HALF: nat := MAX_COMMAND_OUTPUT_BYTES / 2

  function Min(a: nat, b: nat): nat { if a <= b then a else b }

  /** The last `n` bytes of `s`, or all of them. */
  function LastOf(s: seq<Byte>, n: nat): (r: seq<Byte>)
    ensures |r| == Min(|s|, n)
  {
    if |s| <= n then s else s[|s| - n..]
  }

  /** What the head of a capture of the whole stream `s` has to be. */
  function HeadOf(s: seq<Byte>): seq<Byte> { s[..Min(|s|, HALF)] }

  /** What follows the head of the stream. */
  function RestOf(s: seq<Byte>): seq<Byte> { s[Min(|s|, HALF)..] }

  /** The bytes of all chunks in order. */
  function Flatten(chunks: seq<seq<Byte>>): seq<Byte> {
    if chunks == [] then [] else Flatten(chunks[..|chunks| - 1]) + chunks[|chunks| - 1]
  }

  /** The two ends are the whole stream exactly when the stream fits the limit. */
  lemma NothingLostIff(s: seq<Byte>)
    ensures HeadOf(s) + LastOf(RestOf(s), HALF) == s <==> |s| <= MAX_COMMAND_OUTPUT_BYTES
    ensures |HeadOf(s) + LastOf(RestOf(s), HALF)| == Min(|s|, MAX_COMMAND_OUTPUT_BYTES)
  {
    assert HeadOf(s) + RestOf(s) == s;
  }

  /** A stream over the limit loses exactly its middle. */
  lemma OnlyTheMiddleIsLost(s: seq<Byte>)
    requires |s| > MAX_COMMAND_OUTPUT_BYTES
    ensures HeadOf(s) == s[..HALF]
    ensures LastOf(RestOf(s), HALF) == s[|s| - HALF..]
  {
  }

  /** How the end of a sequence changes when more bytes arrive. */
  lemma LastOfGrows(s: seq<Byte>, more: seq<Byte>)
    ensures |more| >= HALF ==> LastOf(s + more, HALF) == LastOf(more, HALF)
    ensures |more| < HALF ==> LastOf(s + more, HALF) == LastOf(s, HALF - |more|) + more
  {
    if |more| < HALF && |s + more| > HALF {
      var k := |s + more| - HALF;
      assert (s + more)[k..] == s[k..] + more;
    }
  }

  /** Keeping fewer last bytes is dropping from the front of the bytes already kept. */
  lemma LastOfLast(s: seq<Byte>, n: nat)
    requires n <= HALF
    ensures var kept := LastOf(s, HALF);
            LastOf(s, n) == kept[if |kept| <= n then 0 else |kept| - n..]
  {
  }

  /** The parts of the stream after a chunk whose first `taken` bytes went to the head. */
  lemma SplitGrows(s: seq<Byte>, data: seq<Byte>, taken: nat)
    requires taken == Min(|data|, HALF - |HeadOf(s)|)
    ensures HeadOf(s + data) == HeadOf(s) + data[..taken]
    ensures RestOf(s + data) == RestOf(s) + data[taken..]
  {
  }

  /** The two ways a chunk replaces or extends the kept tail both keep the last bytes. */
  lemma TailGrows(rest: seq<Byte>, data: seq<Byte>, taken: nat)
    requires taken <= |data|
    ensures |data| - taken >= HALF
            ==> LastOf(rest + data[taken..], HALF) == data[|data| - HALF..]
    ensures |data| - taken < HALF
            ==> LastOf(rest + data[taken..], HALF)
                == LastOf(rest, HALF)[Overflow(|LastOf(rest, HALF)|, |data| - taken)..] + data[taken..]
  {
    LastOfGrows(rest, data[taken..]);
    if |data| - taken < HALF {
      LastOfLast(rest, HALF - (|data| - taken));
    }
  }

  /** How many kept bytes have to go when `more` bytes are added behind them. */
  function Overflow(kept: nat, more: nat): (r: nat)
    ensures kept <= HALF && more <= HALF ==> r <= kept
  {
    if kept + more > HALF then kept + more - HALF else 0
  }

  class Capture {
    var totalBytes: nat
    var head: seq<Byte>
    var tail: seq<Byte>
    /** Everything received so far; never read by the code. */
    ghost var stream: seq<Byte>

    ghost predicate Valid() reads this {
      && totalBytes == |stream|
      && head == HeadOf(stream)
      && tail == LastOf(RestOf(stream), HALF)
    }

    constructor ()
      ensures Valid() && stream == []
    {
      totalBytes, head, tail, stream := 0, [], [], [];
    }

    method Append(data: seq<Byte>)
      requires Valid()
      modifies this
      ensures Valid() && stream == old(stream) + data
    {
      totalBytes := totalBytes + |data|;
      var taken := Min(|data|, HALF - |head|);
      SplitGrows(stream, data, taken);
      TailGrows(RestOf(stream), data, taken);
      head := head + data[..taken];
      var remaining := |data| - taken;
      if remaining >= HALF {
        tail := data[|data| - HALF..];
      } else {
        tail := tail[Overflow(|tail|, remaining)..];
        tail := tail + data[taken..];
      }
      stream := stream + data;
    }

    /** The flag shown to the model is set exactly when the kept bytes are not the stream. */
    method Truncated() returns (truncated: bool)
      requires Valid()
      ensures truncated <==> head + tail != stream
    {
      truncated := totalBytes > MAX_COMMAND_OUTPUT_BYTES;
      NothingLostIff(stream);
    }

    /** The bytes that `text` decodes. */
    method Kept() returns (bytes: seq<Byte>)
      requires Valid()
      ensures |stream| <= MAX_COMMAND_OUTPUT_BYTES ==> bytes == stream
      ensures |stream| > MAX_COMMAND_OUTPUT_BYTES
              ==> bytes == stream[..HALF] + stream[|stream| - HALF..]
      ensures |bytes| == Min(|stream|, MAX_COMMAND_OUTPUT_BYTES)
    {
      bytes := head + tail;
      NothingLostIff(stream);
    }
  }

  /** What is kept of a stream depends on its bytes alone, not on where the chunks end. */
  method CaptureAll(chunks: seq<seq<Byte>>) returns (capture: Capture)
    ensures fresh(capture) && capture.Valid() && capture.stream == Flatten(chunks)
    ensures capture.head == HeadOf(Flatten(chunks))
    ensures capture.tail == LastOf(RestOf(Flatten(chunks)), HALF)
    ensures capture.totalBytes == |Flatten(chunks)|
  {
    capture := new Capture();
    for i := 0 to |chunks|
      invariant fresh(capture) && capture.Valid() && capture.stream == Flatten(chunks[..i])
    {
      assert chunks[..i + 1][..i] == chunks[..i];
      capture.Append(chunks[i]);
    }
    assert chunks[..|chunks|] == chunks;
  }
}
