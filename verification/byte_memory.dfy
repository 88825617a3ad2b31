/** Memory as a little-endian map of bytes, the reference for loads and stores of one, two and
    four bytes; rows of byte lanes as one form of it; and the simulator's word array as another. */
module ByteMemory {
  import opened Words
  import opened Ram

  datatype Width = OneByte | Half | Full

  function Size(w: Width): nat { match w case OneByte => 1 case Half => 2 case Full => 4 }

  predicate Aligned(a: nat, w: Width) { match w case OneByte => true case Half => a % 2 == 0 case Full => a % 4 == 0 }

  // ---------------------------------------------------------------- the reference

  function SignExtend(x: Word, w: Width): Word {
    match w
    case OneByte => if 128 <= x < 256 then x + 0xffff_ff00 else x
    case Half => if 0x8000 <= x < 0x1_0000 then x + 0xffff_0000 else x
    case Full => x
  }

  function Assemble(b0: Byte, b1: Byte, b2: Byte, b3: Byte): Word { b0 + 0x100 * b1 + 0x1_0000 * b2 + 0x100_0000 * b3 }

  function LoadLE(bytes: seq<Byte>, a: nat, w: Width, signed: bool): Word
    requires a + Size(w) <= |bytes|
  {
    var x := match w
      case OneByte => Assemble(bytes[a], 0, 0, 0)
      case Half => Assemble(bytes[a], bytes[a + 1], 0, 0)
      case Full => Assemble(bytes[a], bytes[a + 1], bytes[a + 2], bytes[a + 3]);
    if signed then SignExtend(x, w) else x
  }

  function StoreLE(bytes: seq<Byte>, a: nat, value: Word, w: Width): (r: seq<Byte>)
    requires a + Size(w) <= |bytes|
    ensures |r| == |bytes|
  {
    match w
    case OneByte => bytes[a := value % 0x100]
    case Half => bytes[a := value % 0x100][a + 1 := value / 0x100 % 0x100]
    case Full =>
      bytes[a := value % 0x100][a + 1 := value / 0x100 % 0x100]
           [a + 2 := value / 0x1_0000 % 0x100][a + 3 := value / 0x100_0000 % 0x100]
  }

  /** A load gives back what a store to the same place put there, cut to the width. */
  lemma {:induction false} LoadAfterStore(bytes: seq<Byte>, a: nat, value: Word, w: Width)
    requires a + Size(w) <= |bytes|
    ensures LoadLE(StoreLE(bytes, a, value, w), a, w, false)
            == match w case OneByte => value % 0x100 case Half => value % 0x1_0000 case Full => value
  {
    assert value % 0x1_0000 == value % 0x100 + 0x100 * (value / 0x100 % 0x100);
    WordLanes(value);
  }

  // ---------------------------------------------------------------- words and lanes

  function LanesOf(x: Word): Lanes { Lanes(x % 0x100, x / 0x100 % 0x100, x / 0x1_0000 % 0x100, x / 0x100_0000) }

  function WordOf(l: Lanes): Word { Assemble(l.b0, l.b1, l.b2, l.b3) }

  lemma WordLanes(x: Word)
    ensures WordOf(LanesOf(x)) == x
    ensures x / 0x100_0000 % 0x100 == x / 0x100_0000
  {
    assert x == 0x100 * (x / 0x100) + x % 0x100;
    assert x / 0x100 == 0x100 * (x / 0x1_0000) + x / 0x100 % 0x100;
    assert x / 0x1_0000 == 0x100 * (x / 0x100_0000) + x / 0x1_0000 % 0x100;
  }

  lemma LanesWord(l: Lanes)
    ensures LanesOf(WordOf(l)) == l
  {
    var x := WordOf(l);
    var high := l.b2 + 0x100 * l.b3;
    DivUnique(x, l.b1 + 0x100 * high, 0x100, l.b0);
    DivUnique(l.b1 + 0x100 * high, high, 0x100, l.b1);
    DivUnique(x, high, 0x1_0000, l.b0 + 0x100 * l.b1);
    DivUnique(high, l.b3, 0x100, l.b2);
    DivUnique(x, l.b3, 0x100_0000, l.b0 + 0x100 * l.b1 + 0x1_0000 * l.b2);
  }

  function Lane(l: Lanes, k: nat): Byte { if k == 0 then l.b0 else if k == 1 then l.b1 else if k == 2 then l.b2 else l.b3 }

  // ---------------------------------------------------------------- rows of lanes

  predicate RowIs(bytes: seq<Byte>, r: nat, l: Lanes) {
    && 4 * r + 3 < |bytes|
    && bytes[4 * r] == l.b0 && bytes[4 * r + 1] == l.b1 && bytes[4 * r + 2] == l.b2 && bytes[4 * r + 3] == l.b3
  }

  ghost predicate Holds(rows: seq<Lanes>, bytes: seq<Byte>) {
    && |bytes| == 4 * |rows|
    && forall r :: 0 <= r < |rows| ==> RowIs(bytes, r, rows[r])
  }

  /** The lanes and strobes of a store inside its row. */
  function StoreLanes(value: Word, w: Width, at: nat): Lanes {
    match w
    case Full => LanesOf(value)
    case Half => if at == 2 then Lanes(0, 0, value % 0x100, value / 0x100 % 0x100)
                 else Lanes(value % 0x100, value / 0x100 % 0x100, 0, 0)
    case OneByte => Lanes(if at == 0 then value % 0x100 else 0, if at == 1 then value % 0x100 else 0,
                          if at == 2 then value % 0x100 else 0, if at == 3 then value % 0x100 else 0)
  }

  function StoreStrobes(w: Width, at: nat): Strobes {
    match w
    case Full => Strobes(true, true, true, true)
    case Half => if at == 2 then Strobes(false, false, true, true) else Strobes(true, true, false, false)
    case OneByte => Strobes(at == 0, at == 1, at == 2, at == 3)
  }

  function LoadLanes(l: Lanes, w: Width, at: nat, signed: bool): Word {
    var x := match w
      case Full => WordOf(l)
      case Half => if at >= 2 then Assemble(l.b2, l.b3, 0, 0) else Assemble(l.b0, l.b1, 0, 0)
      case OneByte => Assemble(Lane(l, at), 0, 0, 0);
    if signed then SignExtend(x, w) else x
  }

  lemma LaneLoadIsByteLoad(rows: seq<Lanes>, bytes: seq<Byte>, r: nat, at: nat, w: Width, signed: bool)
    requires Holds(rows, bytes) && r < |rows| && at < 4 && Aligned(at, w)
    ensures 4 * r + at + Size(w) <= |bytes|
    ensures LoadLanes(rows[r], w, at, signed) == LoadLE(bytes, 4 * r + at, w, signed)
  {
    hide Assemble, SignExtend;
    assert RowIs(bytes, r, rows[r]);
  }

  lemma LaneStoreIsByteStore(rows: seq<Lanes>, bytes: seq<Byte>, r: nat, at: nat, value: Word, w: Width)
    requires Holds(rows, bytes) && r < |rows| && at < 4 && Aligned(at, w)
    ensures 4 * r + at + Size(w) <= |bytes|
    ensures Holds(rows[r := Merge(rows[r], StoreLanes(value, w, at), StoreStrobes(w, at))],
                  StoreLE(bytes, 4 * r + at, value, w))
  {
    WordLanes(value);
    assert RowIs(bytes, r, rows[r]);
    var rows2 := rows[r := Merge(rows[r], StoreLanes(value, w, at), StoreStrobes(w, at))];
    var bytes2 := StoreLE(bytes, 4 * r + at, value, w);
    forall q | 0 <= q < |rows2|
      ensures RowIs(bytes2, q, rows2[q])
    {
      assert RowIs(bytes, q, rows[q]);
    }
  }

  // ---------------------------------------------------------------- the simulator's memory

  function AllLanes(words: seq<Word>): (rows: seq<Lanes>)
    ensures |rows| == |words|
    ensures forall r :: 0 <= r < |words| ==> rows[r] == LanesOf(words[r])
  {
    seq(|words|, r requires 0 <= r < |words| => LanesOf(words[r]))
  }

  ghost predicate HoldsWords(words: seq<Word>, bytes: seq<Byte>) { Holds(AllLanes(words), bytes) }

  function LoadWord(x: Word, w: Width, at: nat, signed: bool): Word {
    match w
    case Full => x
    case Half =>
      var data: Word := if at >= 2 then x / 0x1_0000 else x % 0x1_0000;
      if signed && data >= 0x8000 then data + 0xffff_0000 else data
    case OneByte =>
      var data: Word :=
        if at == 3 then x / 0x100_0000 else if at == 2 then x / 0x1_0000 % 0x100
        else if at == 1 then x / 0x100 % 0x100 else x % 0x100;
      if signed && data >= 128 then data + 0xffff_ff00 else data
  }

  /** Masking and shifting the word is picking its lanes. */
  lemma LoadWordLanes(x: Word, w: Width, at: nat, signed: bool)
    requires at < 4 && Aligned(at, w)
    ensures LoadWord(x, w, at, signed) == LoadLanes(LanesOf(x), w, at, signed)
  {
    WordLanes(x);
    Halves(x);
  }

  lemma {:induction false} WordLoadIsByteLoad(words: seq<Word>, bytes: seq<Byte>, r: nat, at: nat, w: Width, signed: bool)
    requires HoldsWords(words, bytes) && r < |words| && at < 4 && Aligned(at, w)
    ensures 4 * r + at + Size(w) <= |bytes|
    ensures LoadWord(words[r], w, at, signed) == LoadLE(bytes, 4 * r + at, w, signed)
  {
    hide LoadWord, LoadLanes, LoadLE, LanesOf;
    LoadWordLanes(words[r], w, at, signed);
    LaneLoadIsByteLoad(AllLanes(words), bytes, r, at, w, signed);
  }

  /** The word after the simulator's masking and shifting. */
  function StoreWord(x: Word, value: Word, w: Width, at: nat): Word {
    match w
    case Full => value
    case Half => StoreHalf(x, value % 0x1_0000, at >= 2)
    case OneByte => StoreByte(x, value % 0x100, at)
  }

  function StoreHalf(x: Word, half: nat, high: bool): Word
    requires half < 0x1_0000
  {
    if high then x % 0x1_0000 + half * 0x1_0000 else x / 0x1_0000 * 0x1_0000 + half
  }

  function StoreByte(x: Word, b: Byte, at: nat): Word {
    if at == 3 then x % 0x100_0000 + b * 0x100_0000
    else if at == 2 then x / 0x100_0000 * 0x100_0000 + b * 0x1_0000 + x % 0x1_0000
    else if at == 1 then x / 0x1_0000 * 0x1_0000 + b * 0x100 + x % 0x100
    else x / 0x100 * 0x100 + b
  }

  lemma Halves(x: Word)
    ensures x % 0x1_0000 == x % 0x100 + 0x100 * (x / 0x100 % 0x100)
    ensures x / 0x1_0000 == x / 0x1_0000 % 0x100 + 0x100 * (x / 0x100_0000)
    ensures x % 0x100_0000 == x % 0x1_0000 + 0x1_0000 * (x / 0x1_0000 % 0x100)
    ensures x / 0x100 == x / 0x100 % 0x100 + 0x100 * (x / 0x1_0000)
  {
  }

  lemma StoreWordLanes(x: Word, value: Word, w: Width, at: nat)
    requires at < 4 && Aligned(at, w)
    ensures LanesOf(StoreWord(x, value, w, at)) == Merge(LanesOf(x), StoreLanes(value, w, at), StoreStrobes(w, at))
  {
    hide LanesOf, StoreWord, Merge, StoreLanes, StoreStrobes, WordOf, Aligned;
    match w {
      case Full => MergedFull(x, value, at);
      case Half => MergedHalf(x, value, at);
      case OneByte => MergedByte(x, value, at);
    }
    LanesWord(Merge(LanesOf(x), StoreLanes(value, w, at), StoreStrobes(w, at)));
  }

  lemma MergedFull(x: Word, value: Word, at: nat)
    requires at < 4 && Aligned(at, Full)
    ensures StoreWord(x, value, Full, at) == WordOf(Merge(LanesOf(x), StoreLanes(value, Full, at), StoreStrobes(Full, at)))
  {
    WordLanes(value);
  }

  lemma MergedHalf(x: Word, value: Word, at: nat)
    requires at < 4 && Aligned(at, Half)
    ensures StoreWord(x, value, Half, at) == WordOf(Merge(LanesOf(x), StoreLanes(value, Half, at), StoreStrobes(Half, at)))
  {
    Halves(x);
    Halves(value);
  }

  lemma MergedByte(x: Word, value: Word, at: nat)
    requires at < 4
    ensures StoreWord(x, value, OneByte, at)
            == WordOf(Merge(LanesOf(x), StoreLanes(value, OneByte, at), StoreStrobes(OneByte, at)))
  {
    Halves(x);
  }

  lemma {:induction false} WordStoreIsByteStore(words: seq<Word>, bytes: seq<Byte>, r: nat, at: nat, value: Word, w: Width)
    requires HoldsWords(words, bytes) && r < |words| && at < 4 && Aligned(at, w)
    ensures 4 * r + at + Size(w) <= |bytes|
    ensures HoldsWords(words[r := StoreWord(words[r], value, w, at)], StoreLE(bytes, 4 * r + at, value, w))
  {
    var rows := AllLanes(words);
    StoreWordLanes(words[r], value, w, at);
    LaneStoreIsByteStore(rows, bytes, r, at, value, w);
    var words2 := words[r := StoreWord(words[r], value, w, at)];
    assert AllLanes(words2) == rows[r := Merge(rows[r], StoreLanes(value, w, at), StoreStrobes(w, at))];
  }

  /** The simulator's word array, loaded and stored in place. */
  class SimpleMemory {
    const mem: array<Word>
    ghost var bytes: seq<Byte>

    ghost predicate Valid()
      reads this, mem
    { HoldsWords(mem[..], bytes) }

    constructor (size: nat)
      ensures Valid() && fresh(mem) && mem.Length == size
      ensures |bytes| == 4 * size && forall k :: 0 <= k < 4 * size ==> bytes[k] == 0
    {
      mem := new Word[size](_ => 0);
      bytes := seq(4 * size, _ => 0);
    }

    method Load(address: nat, w: Width, signed: bool) returns (data: Word)
      requires Valid() && Aligned(address, w) && address < 4 * mem.Length
      ensures address + Size(w) <= |bytes|
      ensures data == LoadLE(bytes, address, w, signed)
    {
      hide HoldsWords, LoadLE;
      var x := mem[address / 4];
      InRow(address, w);
      WordLoadIsByteLoad(mem[..], bytes, address / 4, address % 4, w, signed);
      match w {
        case Full => data := x;
        case Half =>
          data := if address % 4 >= 2 then x / 0x1_0000 else x % 0x1_0000;
          if signed && data >= 0x8000 {
            data := data + 0xffff_0000;
          }
        case OneByte =>
          data := if address % 4 == 3 then x / 0x100_0000 else if address % 4 == 2 then x / 0x1_0000 % 0x100
                  else if address % 4 == 1 then x / 0x100 % 0x100 else x % 0x100;
          if signed && data >= 128 {
            data := data + 0xffff_ff00;
          }
      }
    }

    method Store(address: nat, value: Word, w: Width)
      requires Valid() && Aligned(address, w) && address < 4 * mem.Length
      requires address + Size(w) <= |bytes|
      modifies this, mem
      ensures Valid() && bytes == StoreLE(old(bytes), address, value, w)
    {
      hide HoldsWords, StoreLE, StoreWord;
      InRow(address, w);
      WordStoreIsByteStore(mem[..], bytes, address / 4, address % 4, value, w);
      mem[address / 4] := StoreWord(mem[address / 4], value, w, address % 4);
      bytes := StoreLE(bytes, address, value, w);
    }
  }

  lemma InRow(a: nat, w: Width)
    requires Aligned(a, w)
    ensures Aligned(a % 4, w) && 4 * (a / 4) + a % 4 == a
  {
    assert a == 4 * (a / 4) + a % 4;
  }
}
