/** Register records: fields of a block's data, and masked 32-bit ones. */
module Registers {
  import opened Bytes
  import opened NetworkOrder
  import opened Psc
  import opened RegisterMasks

  /** There are `w` bytes at `offset`. */
  predicate Room(data: seq<byte>, offset: nat, w: nat) {
    offset + w <= |data|
  }

  predicate Fits(data: seq<byte>, offset: nat) {
    Room(data, offset, 4)
  }

  /** `data` with the bytes at `offset` replaced. */
  function Spliced(data: seq<byte>, offset: nat, field: seq<byte>): (d: seq<byte>)
    requires Room(data, offset, |field|)
    ensures |d| == |data|
  {
    data[..offset] + field + data[offset + |field|..]
  }

  /** A number of `w` bytes, as the host leaves it in memory for the network. */
  function Stored(host: Host, x: nat, w: nat): (s: seq<byte>)
    requires Width(w) && x < Pow256(w)
    ensures |s| == w
  {
    Store(host, NSwap(host, w, x), w)
  }

  /** The number at `offset`. */
  function FieldAt(host: Host, data: seq<byte>, offset: nat, w: nat): nat
    requires Width(w) && Room(data, offset, w)
  {
    Bytes2Val(host, data[offset..offset + w])
  }

  /** Four bytes as one number, the first of them most significant. */
  function WordOf(bytes: seq<byte>): bv32
    requires |bytes| == 4
  {
    Widths();
    FromBE(bytes) as bv32
  }

  function BytesOf(word: bv32): (s: seq<byte>)
    ensures |s| == 4
  {
    ToBE(word as nat, 4)
  }

  function WordAt(data: seq<byte>, offset: nat): bv32
    requires Fits(data, offset)
  {
    WordOf(data[offset..offset + 4])
  }

  function PutWord(data: seq<byte>, offset: nat, word: bv32): (d: seq<byte>)
    requires Fits(data, offset)
    ensures |d| == |data|
  {
    Spliced(data, offset, BytesOf(word))
  }

  datatype Write = Write(offset: nat, setting: Setting)

  /** A write that does not fit the block changes nothing. */
  function Apply(data: seq<byte>, x: Write): (d: seq<byte>)
    ensures |d| == |data|
  {
    if Fits(data, x.offset) then PutWord(data, x.offset, Masked(WordAt(data, x.offset), x.setting)) else data
  }

  function ApplyAll(data: seq<byte>, xs: seq<Write>): (d: seq<byte>)
    ensures |d| == |data|
  {
    if xs == [] then data else Apply(ApplyAll(data, xs[..|xs| - 1]), xs[|xs| - 1])
  }

  // The records.

  /** A bad offset leaves the record alone; a lost connection is only reported. */
  datatype Alarm = NoAlarm | BadOffset | Disconnected

  function AlarmOf(data: seq<byte>, connected: bool, offset: nat, w: nat): Alarm {
    if !Room(data, offset, w) then BadOffset else if !connected then Disconnected else NoAlarm
  }

  lemma AlarmMeans(data: seq<byte>, connected: bool, offset: nat, w: nat)
    ensures AlarmOf(data, connected, offset, w) == BadOffset <==> offset + w > |data|
    ensures AlarmOf(data, connected, offset, w) == NoAlarm <==> offset + w <= |data| && connected
  {
  }

  /** The template for any field: `w` is the size of its type, a floating point number its bit pattern. */
  method ReadToField(host: Host, block: Block, connected: bool, offset: nat, w: nat) returns (field: nat, alarm: Alarm)
    requires Width(w)
    ensures alarm == AlarmOf(block.data, connected, offset, w)
    ensures Room(block.data, offset, w) ==> field == FieldAt(host, block.data, offset, w)
  {
    if offset > |block.data| || |block.data| - offset < w {
      return 0, BadOffset;
    }
    alarm := if connected then NoAlarm else Disconnected;
    field := Bytes2Val(host, block.data[offset..offset + w]);
  }

  method ReadWord(host: Host, block: Block, connected: bool, offset: nat) returns (word: bv32, alarm: Alarm)
    ensures alarm == AlarmOf(block.data, connected, offset, 4)
    ensures Fits(block.data, offset) ==> word == WordAt(block.data, offset)
  {
    var field;
    field, alarm := ReadToField(host, block, connected, offset, 4);
    if alarm.BadOffset? {
      return 0, alarm;
    }
    Bytes2ValMeaning(host, block.data[offset..offset + 4]);
    Widths();
    word := field as bv32;
  }

  method Select(word: bv32, mask: bv32) returns (rval: bv32)
    ensures rval == Selected(word, mask) && Shows(rval, word, mask)
  {
    SelectedShows(word, mask);
    rval := word;
    if mask != 0 {
      rval := rval & mask;
    }
  }

  /** `rval0` is what the record holds before. */
  method ReadBinary(host: Host, block: Block, connected: bool, offset: nat, mask: bv32, rval0: bv32)
    returns (rval: bv32, alarm: Alarm)
    ensures alarm == AlarmOf(block.data, connected, offset, 4)
    ensures rval == if Fits(block.data, offset) then Selected(WordAt(block.data, offset), mask) else rval0
    ensures offset + 4 <= |block.data| ==> Shows(rval, WordOf(block.data[offset..offset + 4]), mask)
  {
    var temp: bv32;
    temp, alarm := ReadWord(host, block, connected, offset);
    if alarm.BadOffset? {
      return rval0, alarm;
    }
    rval := Select(temp, mask);
  }

  method WriteFromField(host: Host, block: Block, connected: bool, offset: nat, w: nat, field: nat) returns (alarm: Alarm)
    requires Width(w) && field < Pow256(w)
    modifies block`data
    ensures alarm == AlarmOf(old(block.data), connected, offset, w)
    ensures block.data ==
      if Room(old(block.data), offset, w) then Spliced(old(block.data), offset, Stored(host, field, w)) else old(block.data)
  {
    if offset > |block.data| || |block.data| - offset < w {
      return BadOffset;
    }
    alarm := if connected then NoAlarm else Disconnected;
    block.data := Spliced(block.data, offset, Stored(host, field, w));
  }

  method WriteWord(host: Host, block: Block, connected: bool, offset: nat, word: bv32) returns (alarm: Alarm)
    modifies block`data
    ensures alarm == AlarmOf(old(block.data), connected, offset, 4)
    ensures block.data == if Fits(old(block.data), offset) then PutWord(old(block.data), offset, word) else old(block.data)
  {
    var field := word as nat;
    Widths();
    HtonMeaning(host, field, 4);
    alarm := WriteFromField(host, block, connected, offset, 4, field);
  }

  method Merge(word: bv32, mask: bv32, rval: bv32) returns (temp: bv32)
    requires mask != 0
    ensures temp == Masked(word, Setting(mask, rval))
  {
    temp := word & !mask;
    temp := temp | (rval & mask);
  }

  method WriteBinary(host: Host, block: Block, connected: bool, offset: nat, mask: bv32, rval: bv32) returns (alarm: Alarm)
    modifies block`data
    ensures alarm == AlarmOf(old(block.data), connected, offset, 4)
    ensures block.data == Apply(old(block.data), Write(offset, Setting(mask, rval)))
  {
    var temp: bv32 := 0;
    if mask != 0 {
      temp, alarm := ReadWord(host, block, connected, offset);
      if alarm.BadOffset? {
        return;
      }
      temp := Merge(temp, mask, rval);
    } else {
      temp := rval;
    }
    alarm := WriteWord(host, block, connected, offset, temp);
  }

  // Fields of any width.

  lemma SplicedParts(data: seq<byte>, offset: nat, field: seq<byte>)
    requires Room(data, offset, |field|)
    ensures var d, end := Spliced(data, offset, field), offset + |field|;
      d[offset..end] == field && d[..offset] == data[..offset] && d[end..] == data[end..]
  {
  }

  /** A field that is written is read back, and nothing else in the block changes. */
  lemma FieldRoundTrip(host: Host, data: seq<byte>, offset: nat, w: nat, x: nat)
    requires Width(w) && x < Pow256(w) && Room(data, offset, w)
    ensures var d := Spliced(data, offset, Stored(host, x, w));
      && FieldAt(host, d, offset, w) == x
      && d[..offset] == data[..offset] && d[offset + w..] == data[offset + w..]
  {
    SplicedParts(data, offset, Stored(host, x, w));
    NtohHton(host, x, w);
  }

  /** On the wire it is big-endian, except that a big-endian host exchanges the halves of eight bytes. */
  lemma FieldOnTheWire(host: Host, data: seq<byte>, offset: nat, w: nat, x: nat)
    requires Width(w) && x < Pow256(w) && Room(data, offset, w)
    ensures var s := Spliced(data, offset, Stored(host, x, w))[offset..offset + w];
      s == if w == 8 && host.BigEndian? then ToBE(x, w)[4..] + ToBE(x, w)[..4] else ToBE(x, w)
  {
    SplicedParts(data, offset, Stored(host, x, w));
    HtonMeaning(host, x, w);
  }

  // Words in a block.

  lemma ThereAndBack(word: bv32)
    ensures WordOf(BytesOf(word)) == word
  {
    Widths();
    var n := word as nat;
    assert n < 0x1_0000_0000 && n as bv32 == word;
    DecodeEncode(n, 4);
  }

  /** A word put somewhere is found there again. */
  lemma PutGet(data: seq<byte>, offset: nat, word: bv32)
    requires Fits(data, offset)
    ensures WordAt(PutWord(data, offset, word), offset) == word
  {
    ThereAndBack(word);
    var s := BytesOf(word);
    assert Spliced(data, offset, s)[offset..offset + 4] == s;
  }

  /** Words that have no byte in common. */
  predicate Separate(a: nat, b: nat) {
    a + 4 <= b || b + 4 <= a
  }

  lemma SplicedElsewhere(data: seq<byte>, offset: nat, s: seq<byte>, other: nat)
    requires Fits(data, offset) && Fits(data, other) && Separate(offset, other) && |s| == 4
    ensures Spliced(data, offset, s)[other..other + 4] == data[other..other + 4]
  {
    var d := Spliced(data, offset, s);
    assert forall i | other <= i < other + 4 :: d[i] == data[i];
  }

  lemma PutElsewhere(data: seq<byte>, offset: nat, word: bv32, other: nat)
    requires Fits(data, offset) && Fits(data, other) && Separate(offset, other)
    ensures WordAt(PutWord(data, offset, word), other) == WordAt(data, other)
  {
    SplicedElsewhere(data, offset, BytesOf(word), other);
  }

  lemma SplicesCommute(data: seq<byte>, a: nat, s: seq<byte>, b: nat, t: seq<byte>)
    requires Fits(data, a) && Fits(data, b) && Separate(a, b) && |s| == |t| == 4
    ensures Spliced(Spliced(data, a, s), b, t) == Spliced(Spliced(data, b, t), a, s)
  {
  }

  /** A write changes its own four bytes at most. */
  lemma OtherBytesStay(data: seq<byte>, x: Write, i: nat)
    requires i < |data| && !(x.offset <= i < x.offset + 4)
    ensures Apply(data, x)[i] == data[i]
  {
    if Fits(data, x.offset) {
      var s := BytesOf(Masked(WordAt(data, x.offset), x.setting));
      assert Spliced(data, x.offset, s)[i] == data[i];
    }
  }

  /** Writes to separate words can be exchanged. */
  lemma SeparateWritesCommute(data: seq<byte>, x: Write, y: Write)
    requires Separate(x.offset, y.offset)
    ensures Apply(Apply(data, x), y) == Apply(Apply(data, y), x)
  {
    if Fits(data, x.offset) && Fits(data, y.offset) {
      var u, v := Masked(WordAt(data, x.offset), x.setting), Masked(WordAt(data, y.offset), y.setting);
      PutElsewhere(data, x.offset, u, y.offset);
      PutElsewhere(data, y.offset, v, x.offset);
      SplicesCommute(data, x.offset, BytesOf(u), y.offset, BytesOf(v));
    }
  }

  /** The word whose value the bytes spell, the first of them most significant. */
  lemma WordIs(bytes: seq<byte>, word: bv32)
    requires |bytes| == 4 && word as nat == FromBE(bytes)
    ensures WordOf(bytes) == word
  {
    Widths();
  }

  /** What a write makes of the four bytes at its offset; nothing if they are not all there. */
  lemma WrittenBits(data: seq<byte>, x: Write)
    ensures x.offset + 4 <= |data| ==>
      Replaces(WordOf(Apply(data, x)[x.offset..x.offset + 4]), WordOf(data[x.offset..x.offset + 4]), x.setting)
    ensures x.offset + 4 > |data| ==> Apply(data, x) == data
  {
    if Fits(data, x.offset) {
      var word := WordAt(data, x.offset);
      PutGet(data, x.offset, Masked(word, x.setting));
      MaskedReplaces(word, x.setting);
    }
  }

  // Many writes.

  /** What is written to the word at `offset`. */
  function At(xs: seq<Write>, offset: nat): seq<Setting> {
    if xs == [] then []
    else At(xs[..|xs| - 1], offset) + if xs[|xs| - 1].offset == offset then [xs[|xs| - 1].setting] else []
  }

  lemma ApplyAt(data: seq<byte>, x: Write, offset: nat)
    requires Fits(data, offset) && (x.offset == offset || Separate(x.offset, offset))
    ensures WordAt(Apply(data, x), offset) ==
      if x.offset == offset then Masked(WordAt(data, offset), x.setting) else WordAt(data, offset)
  {
    if Fits(data, x.offset) {
      var u := Masked(WordAt(data, x.offset), x.setting);
      if x.offset == offset {
        PutGet(data, offset, u);
      } else {
        PutElsewhere(data, x.offset, u, offset);
      }
    }
  }

  lemma FinalOneMore(word: bv32, xs: seq<Setting>, x: Setting)
    ensures Final(word, xs + [x]) == Masked(Final(word, xs), x)
  {
    assert (xs + [x])[..|xs|] == xs;
  }

  /** Words that do not overlap behave as registers of their own. */
  lemma {:induction false} RegistersAreIndependent(data: seq<byte>, xs: seq<Write>, offset: nat)
    requires Fits(data, offset)
    requires forall x | x in xs :: x.offset == offset || Separate(x.offset, offset)
    ensures WordAt(ApplyAll(data, xs), offset) == Final(WordAt(data, offset), At(xs, offset))
  {
    if xs != [] {
      var x, ys := xs[|xs| - 1], xs[..|xs| - 1];
      RegistersAreIndependent(data, ys, offset);
      ApplyAt(ApplyAll(data, ys), x, offset);
      if x.offset == offset {
        FinalOneMore(WordAt(data, offset), At(ys, offset), x.setting);
      } else {
        assert At(ys, offset) + [] == At(ys, offset);
      }
    }
  }

  /** Whatever else was written elsewhere or beside it, a record with this mask reads the value last
      written over all its bits, through its own mask or a wider one or none. */
  lemma FieldReadsBack(data: seq<byte>, xs: seq<Write>, offset: nat, mask: bv32)
    requires Fits(data, offset)
    requires forall x | x in xs :: x.offset == offset || Separate(x.offset, offset)
    requires forall s | s in At(xs, offset) :: Covers(s, Field(mask)) || Misses(s, Field(mask))
    ensures Selected(WordAt(ApplyAll(data, xs), offset), mask) ==
      Last(At(xs, offset), Field(mask), WordAt(data, offset)) & Field(mask)
  {
    RegistersAreIndependent(data, xs, offset);
    FieldsKeepLast(WordAt(data, offset), At(xs, offset), Field(mask));
    SelectedBits(WordAt(ApplyAll(data, xs), offset), mask);
  }

  lemma SelectedBits(word: bv32, mask: bv32)
    ensures Selected(word, mask) == word & Field(mask)
  {
  }

  /** Two histories of a register leave it alike exactly when the last values agree, bit by bit. */
  lemma HistoriesAgree(data: seq<byte>, xs: seq<Write>, ys: seq<Write>, offset: nat)
    requires Fits(data, offset)
    requires forall x | x in xs + ys :: x.offset == offset || Separate(x.offset, offset)
    ensures WordAt(ApplyAll(data, xs), offset) == WordAt(ApplyAll(data, ys), offset) <==>
      SameLast(WordAt(data, offset), At(xs, offset), At(ys, offset))
  {
    RegistersAreIndependent(data, xs, offset);
    RegistersAreIndependent(data, ys, offset);
    OnlyLastValuesMatter(WordAt(data, offset), At(xs, offset), At(ys, offset));
  }
}
