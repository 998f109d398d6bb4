/**
 * The packed mark task: one 64-bit word holding an object address, two flags, a chunk number and an exponent.
 *
 *     bits 0..1 flags | bits 2..48 object | bits 49..53 pow | bits 54..63 chunk
 */
module MarkTaskCodec {

  const OOP_EXTRACT_MASK: bv64 := 0x1_FFFF_FFFF_FFFC
  const CHUNK_POW_EXTRACT_MASK: bv64 := 0xFFFE_0000_0000_0000

  function EncodeOop(obj: bv64, skipLive: bool, weak: bool): bv64 {
    obj | (if skipLive then 1 else 0) | (if weak then 2 else 0)
  }

  /** `MarkTask::new2`. */
  function Encode(obj: bv64, skipLive: bool, weak: bool, chunk: bv64, pow: bv64): bv64 {
    EncodeOop(obj, skipLive, weak) | (chunk << 54) | (pow << 49)
  }

  function DecodeOop(w: bv64): bv64 { w & OOP_EXTRACT_MASK }

  predicate DecodeSkipLive(w: bv64) { w & 1 != 0 }

  predicate DecodeWeak(w: bv64) { w & 2 != 0 }

  function DecodeChunk(w: bv64): bv64 { (w >> 54) & 0x3FF }

  function DecodePow(w: bv64): bv64 { (w >> 49) & 0x1F }

  predicate IsNotChunked(w: bv64) { w & CHUNK_POW_EXTRACT_MASK == 0 }

  /** A 4-aligned address below 2^49, a 10-bit chunk and a 5-bit exponent. */
  predicate InRange(obj: bv64, chunk: bv64, pow: bv64) {
    obj & 3 == 0 && obj < 0x2_0000_0000_0000 && chunk < 1024 && pow < 32
  }

  /** All five accessors give back what was encoded. */
  predicate RoundTrips(obj: bv64, skipLive: bool, weak: bool, chunk: bv64, pow: bv64) {
    var w := Encode(obj, skipLive, weak, chunk, pow);
    DecodeOop(w) == obj && DecodeChunk(w) == chunk && DecodePow(w) == pow &&
    DecodeSkipLive(w) == skipLive && DecodeWeak(w) == weak
  }

  lemma OopBack(w: bv64, obj: bv64, skipLive: bool, weak: bool, chunk: bv64, pow: bv64)
    requires InRange(obj, chunk, pow) && w == Encode(obj, skipLive, weak, chunk, pow)
    ensures DecodeOop(w) == obj
  {
  }

  lemma FlagsBack(w: bv64, obj: bv64, skipLive: bool, weak: bool, chunk: bv64, pow: bv64)
    requires InRange(obj, chunk, pow) && w == Encode(obj, skipLive, weak, chunk, pow)
    ensures DecodeSkipLive(w) == skipLive && DecodeWeak(w) == weak
  {
  }

  lemma ChunkBack(w: bv64, obj: bv64, skipLive: bool, weak: bool, chunk: bv64, pow: bv64)
    requires InRange(obj, chunk, pow) && w == Encode(obj, skipLive, weak, chunk, pow)
    ensures DecodeChunk(w) == chunk
  {
  }

  lemma PowBack(w: bv64, obj: bv64, skipLive: bool, weak: bool, chunk: bv64, pow: bv64)
    requires InRange(obj, chunk, pow) && w == Encode(obj, skipLive, weak, chunk, pow)
    ensures DecodePow(w) == pow
  {
  }

  /** Decoding inverts encoding for exactly the fields that are in range. */
  lemma RoundTripsIff(obj: bv64, skipLive: bool, weak: bool, chunk: bv64, pow: bv64)
    ensures RoundTrips(obj, skipLive, weak, chunk, pow) <==> InRange(obj, chunk, pow)
  {
    var w := Encode(obj, skipLive, weak, chunk, pow);
    if InRange(obj, chunk, pow) {
      OopBack(w, obj, skipLive, weak, chunk, pow);
      FlagsBack(w, obj, skipLive, weak, chunk, pow);
      ChunkBack(w, obj, skipLive, weak, chunk, pow);
      PowBack(w, obj, skipLive, weak, chunk, pow);
    } else {
      DecodedInRange(w);
    }
  }

  lemma DecodedInRange(w: bv64)
    ensures InRange(DecodeOop(w), DecodeChunk(w), DecodePow(w))
  {
  }

  /** Encoding inverts decoding for every word, so the packing wastes no bit. */
  lemma EncodeDecode(w: bv64)
    ensures Encode(DecodeOop(w), DecodeSkipLive(w), DecodeWeak(w), DecodeChunk(w), DecodePow(w)) == w
  {
  }

  /** A task with a chunk is never mistaken for a whole-object task, and a whole-object task never for a chunk. */
  lemma ChunkedIff(obj: bv64, skipLive: bool, weak: bool, chunk: bv64, pow: bv64)
    requires InRange(obj, chunk, pow)
    ensures IsNotChunked(Encode(obj, skipLive, weak, chunk, pow)) <==> chunk == 0 && pow == 0
  {
  }
}
