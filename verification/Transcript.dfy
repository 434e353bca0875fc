/** Hash contexts as transcripts.

    A context is the complete history of what it was fed: the segments it has already
    been asked to digest, and the bytes since. A digest is an arbitrary function of that
    history, so nothing is claimed about a context that was finalized and used again
    without a new init; only on a fresh context is the digest a function of the bytes. */
module Transcript {
  import opened Bytes

  datatype Ctx = Ctx(closed: seq<bytes>, open: bytes)

  const FRESH := Ctx([], [])

  type Hash = Ctx -> bytes

  function Update(c: Ctx, b: bytes): Ctx
  {
    Ctx(c.closed, c.open + b)
  }

  function Final(c: Ctx): Ctx
  {
    Ctx(c.closed + [c.open], [])
  }

  /** The digest of a byte string: a fresh context fed those bytes. */
  function Digest(h: Hash, b: bytes): bytes
  {
    h(Ctx([], b))
  }

  /** Two different byte strings with the same digest. */
  predicate Collision(h: Hash, a: bytes, b: bytes)
  {
    a != b && Digest(h, a) == Digest(h, b)
  }
}
