/** The size of an object as its header tells it: a 13-bit tag, or recomputed from the type and a 32-bit capacity. */
module ObjectHeader {
  import opened Tiling
  import opened FreeListSpec
  import opened FreeList
  import opened FreeSetModel

  const HEADER: nat := 8

  function Align16(n: nat): nat { (n + 15) / 16 * 16 }

  /** `allocate_varsize`: `fixed` bytes and `length` items of `item` bytes. */
  function AllocatedSize(fixed: nat, item: nat, length: nat): nat {
    Align16(fixed + HEADER + item * length)
  }

  /** The capacity field is read back as 32 bits. */
  function Recomputed(fixed: nat, item: nat, length: nat): nat {
    Align16(fixed + item * (length % TWO32) + HEADER)
  }

  /** `HeapObjectHeader::heap_size`: the tag if it is not zero, else the vtable and the capacity. */
  function HeapSize(fixed: nat, item: nat, length: nat): nat {
    var tagged := SizeToTag(AllocatedSize(fixed, item, length)) * GRANULE;
    if tagged != 0 then tagged else Recomputed(fixed, item, length)
  }

  lemma {:induction false} Times32(item: nat, q: nat)
    requires item >= 1 && q >= 1
    ensures item * (q * TWO32) >= TWO32
  {
    if q > 1 {
      Times32(item, q - 1);
      assert item * (q * TWO32) == item * ((q - 1) * TWO32) + item * TWO32;
    } else if item > 1 {
      assert item * TWO32 == (item - 1) * TWO32 + TWO32;
    }
  }

  /** What the cut takes away from a long array. */
  lemma CutLength(item: nat, length: nat)
    requires item >= 1 && length >= TWO32
    ensures item * length >= item * (length % TWO32) + TWO32
  {
    var q, r := length / TWO32, length % TWO32;
    assert length == q * TWO32 + r;
    Times32(item, q);
    assert item * length == item * (q * TWO32) + item * r;
  }

  /** An object's size reads back if and only if it has no items or fewer than 2^32 of them. */
  lemma HeaderReadsBackIff(fixed: nat, item: nat, length: nat)
    ensures HeapSize(fixed, item, length) == AllocatedSize(fixed, item, length) <==> item == 0 || length < TWO32
  {
    var size := AllocatedSize(fixed, item, length);
    assert size >= 16 && size % 16 == 0;
    if item == 0 {
      assert item * length == item * (length % TWO32) == 0;
    } else if length < TWO32 {
      assert length % TWO32 == length;
    } else {
      CutLength(item, length);
      assert size > MAX_SIZE_TAG;
    }
  }

  /**
   * A byte array of 2^32 elements reads back as 16 bytes, so that a sweep which finds it unmarked trashes one of the
   * 131073 regions it took.
   */
  lemma HugeArrayShrinks(c: Config, length: nat)
    requires c.size == 0x8000 && length == TWO32
    ensures HeapSize(8, 1, length) == 16 && Required(c, HeapSize(8, 1, length)) == 1
    ensures Required(c, AllocatedSize(8, 1, length)) == 131073
  {
    assert AllocatedSize(8, 1, length) == TWO32 + 16;
  }
}
