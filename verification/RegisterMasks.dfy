/** Masked writes to one 32-bit word. */
module RegisterMasks {
  /** A value for the bits of `mask`; no mask stands for all bits. */
  datatype Setting = Setting(mask: bv32, value: bv32)

  function Masked(word: bv32, x: Setting): bv32 {
    if x.mask == 0 then x.value else (word & !x.mask) | (x.value & x.mask)
  }

  /** What a record with this mask reads. */
  function Selected(word: bv32, mask: bv32): bv32 {
    if mask == 0 then word else word & mask
  }

  /** The bits a record with this mask has to do with. */
  function Field(mask: bv32): bv32 {
    if mask == 0 then 0xFFFF_FFFF else mask
  }

  /** The bits under the mask are those of the word and the others zero; without a mask it is the word. */
  predicate Shows(rval: bv32, word: bv32, mask: bv32) {
    if mask == 0 then rval == word else rval & mask == word & mask && rval & !mask == 0
  }

  lemma SelectedShows(word: bv32, mask: bv32)
    ensures Shows(Selected(word, mask), word, mask)
  {
  }

  /** The bits under the mask have their new values, the others are as before; without a mask all are new. */
  predicate Replaces(after: bv32, before: bv32, x: Setting) {
    if x.mask == 0 then after == x.value else after & x.mask == x.value & x.mask && after & !x.mask == before & !x.mask
  }

  lemma MaskedBits(word: bv32, x: Setting)
    ensures x.mask == 0 ==> Masked(word, x) == x.value
    ensures x.mask != 0 ==> Masked(word, x) & x.mask == x.value & x.mask && Masked(word, x) & !x.mask == word & !x.mask
  {
  }

  lemma MaskedReplaces(word: bv32, x: Setting)
    ensures Replaces(Masked(word, x), word, x)
  {
    MaskedBits(word, x);
    assert x.mask == 0 || Masked(word, x) & x.mask == x.value & x.mask;
    assert x.mask == 0 || Masked(word, x) & !x.mask == word & !x.mask;
  }

  /** The word after a history of writes. */
  function Final(word: bv32, xs: seq<Setting>): bv32 {
    if xs == [] then word else Masked(Final(word, xs[..|xs| - 1]), xs[|xs| - 1])
  }

  predicate Covers(x: Setting, field: bv32) {
    field & !Field(x.mask) == 0
  }

  predicate Misses(x: Setting, field: bv32) {
    field & Field(x.mask) == 0
  }

  /** The value last written over all of `field`. */
  function Last(xs: seq<Setting>, field: bv32, before: bv32): bv32 {
    if xs == [] then before
    else if Covers(xs[|xs| - 1], field) then xs[|xs| - 1].value
    else Last(xs[..|xs| - 1], field, before)
  }

  predicate Same(a: bv32, b: bv32, bits: bv32) {
    a & bits == b & bits
  }

  lemma CoveringWrite(word: bv32, x: Setting, field: bv32)
    requires Covers(x, field)
    ensures Same(Masked(word, x), x.value, field)
  {
  }

  lemma MissingWrite(word: bv32, x: Setting, field: bv32, last: bv32)
    requires Misses(x, field) && Same(word, last, field)
    ensures Same(Masked(word, x), last, field)
  {
  }

  /** Where every write covers a field or misses it, it ends with the last value written over it. */
  lemma {:induction false} FieldsKeepLast(word: bv32, xs: seq<Setting>, field: bv32)
    requires forall x | x in xs :: Covers(x, field) || Misses(x, field)
    ensures Same(Final(word, xs), Last(xs, field, word), field)
  {
    if xs != [] {
      var x, ys := xs[|xs| - 1], xs[..|xs| - 1];
      FieldsKeepLast(word, ys, field);
      if Covers(x, field) {
        CoveringWrite(Final(word, ys), x, field);
      } else {
        MissingWrite(Final(word, ys), x, field, Last(ys, field, word));
      }
    }
  }

  /** Bits under no mask stay. */
  lemma {:induction false} BitsNotWritten(word: bv32, xs: seq<Setting>, rest: bv32)
    requires forall x | x in xs :: Misses(x, rest)
    ensures Same(Final(word, xs), word, rest)
  {
    if xs != [] {
      var x, ys := xs[|xs| - 1], xs[..|xs| - 1];
      BitsNotWritten(word, ys, rest);
      MissingWrite(Final(word, ys), x, rest, word);
    }
  }

  // Bit by bit.

  predicate OneBit(bit: bv32) {
    bit != 0 && bit & (bit - 1) == 0
  }

  lemma BitInOrOut(bit: bv32, m: bv32)
    requires OneBit(bit)
    ensures bit & m == 0 || bit & !m == 0
  {
  }

  lemma LowestBit(d: bv32)
    requires d != 0
    ensures OneBit(d & (0 - d))
  {
  }

  lemma DifferAt(a: bv32, b: bv32, bit: bv32)
    requires a != b && bit == (a ^ b) & (0 - (a ^ b))
    ensures !Same(a, b, bit)
  {
  }

  /** Words that agree in every bit are the same. */
  lemma AllBits(a: bv32, b: bv32)
    requires forall bit: bv32 | OneBit(bit) :: Same(a, b, bit)
    ensures a == b
  {
    if a != b {
      var bit := (a ^ b) & (0 - (a ^ b));
      assert a ^ b != 0;
      LowestBit(a ^ b);
      DifferAt(a, b, bit);
    }
  }

  lemma Follow(a: bv32, b: bv32, c: bv32, d: bv32, bits: bv32)
    requires Same(a, b, bits) && Same(c, d, bits)
    ensures Same(a, c, bits) <==> Same(b, d, bits)
  {
  }

  /** The last values of both histories agree, bit by bit. */
  ghost predicate SameLast(word: bv32, xs: seq<Setting>, ys: seq<Setting>) {
    forall bit: bv32 | OneBit(bit) :: Same(Last(xs, bit, word), Last(ys, bit, word), bit)
  }

  lemma BitKeepsLast(word: bv32, xs: seq<Setting>, bit: bv32)
    requires OneBit(bit)
    ensures Same(Final(word, xs), Last(xs, bit, word), bit)
  {
    forall x | x in xs
      ensures Covers(x, bit) || Misses(x, bit)
    {
      BitInOrOut(bit, Field(x.mask));
    }
    FieldsKeepLast(word, xs, bit);
  }

  lemma SameInBit(word: bv32, xs: seq<Setting>, ys: seq<Setting>, bit: bv32)
    requires OneBit(bit)
    ensures Same(Final(word, xs), Final(word, ys), bit) <==> Same(Last(xs, bit, word), Last(ys, bit, word), bit)
  {
    BitKeepsLast(word, xs, bit);
    BitKeepsLast(word, ys, bit);
    Follow(Final(word, xs), Last(xs, bit, word), Final(word, ys), Last(ys, bit, word), bit);
  }

  /** Only the last value of each bit matters: two histories, however often, in whatever order and through
      whatever masks they write, leave the same word exactly when those agree. */
  lemma OnlyLastValuesMatter(word: bv32, xs: seq<Setting>, ys: seq<Setting>)
    ensures Final(word, xs) == Final(word, ys) <==> SameLast(word, xs, ys)
  {
    forall bit: bv32 | OneBit(bit)
      ensures Same(Final(word, xs), Final(word, ys), bit) <==> Same(Last(xs, bit, word), Last(ys, bit, word), bit)
    {
      SameInBit(word, xs, ys, bit);
    }
    if SameLast(word, xs, ys) {
      AllBits(Final(word, xs), Final(word, ys));
    }
  }
}
