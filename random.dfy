// Math.random() as an explicit input: the caller supplies the sequence of
// outcomes, and every call in the original consumes the next one.  The
// stream is a value that the drawing methods take and hand back advanced.
module RandomSource {

  /** One outcome of Math.random(). */
  type Draw = r: real | 0.0 <= r < 1.0

  /** The outcomes supplied for a run, and how many have been used. */
  datatype Stream = Stream(draws: seq<Draw>, next: nat) {

    /** Draw number `k` (0 once the supplied outcomes run out). */
    function At(k: nat): (r: Draw)
      ensures k < |draws| ==> r == draws[k]
    {
      if k < |draws| then draws[k] else 0.0
    }

    /** One call of Math.random(): the next outcome, and the stream after it. */
    function Take(): (Draw, Stream) {
      (At(next), this.(next := next + 1))
    }
  }
}
