/** The sizes of tensor data by quantization type (GGML_QUANT_SIZES in gguf-py/gguf/constants.py). */
module GgmlQuants {
  import opened Base
  import Arithmetic
  import Loader = GgmlLoader

  function Elements(dims: seq<nat>): nat {
    if dims == [] then 1 else Elements(dims[..|dims| - 1]) * dims[|dims| - 1]
  }

  /** Elements times the size of a block, over the elements of a block, in 64-bit arithmetic. */
  function Bytes(dims: seq<nat>, block: nat, size: nat): (r: Option<nat>)
    requires block > 0
  {
    if Elements(dims) * size < 0x8000_0000_0000_0000 then Some(Elements(dims) * size / block) else None
  }

  function Sized(block: nat, size: nat): seq<nat> -> Option<nat>
    requires block > 0
  {
    dims => Bytes(dims, block, size)
  }

  /** The elements of a block and its bytes. */
  function Block(dtype: nat): (r: Option<(nat, nat)>)
    ensures r.Some? ==> r.value.0 > 0
  {
    match dtype
    case 0 => Some((1, 4))
    case 1 => Some((1, 2))
    case 2 => Some((32, 18))
    case 3 => Some((32, 20))
    case 6 => Some((32, 22))
    case 7 => Some((32, 24))
    case 8 => Some((32, 34))
    case 9 => Some((32, 40))
    case 10 => Some((256, 84))
    case 11 => Some((256, 110))
    case 12 => Some((256, 144))
    case 13 => Some((256, 176))
    case 14 => Some((256, 210))
    case 15 => Some((256, 292))
    case 16 => Some((256, 66))
    case 17 => Some((256, 74))
    case 18 => Some((256, 98))
    case 19 => Some((256, 50))
    case 20 => Some((32, 18))
    case 21 => Some((256, 110))
    case 22 => Some((256, 82))
    case 23 => Some((256, 136))
    case 24 => Some((1, 1))
    case 25 => Some((1, 2))
    case 26 => Some((1, 4))
    case 27 => Some((1, 8))
    case 28 => Some((1, 8))
    case 29 => Some((256, 56))
    case 30 => Some((1, 2))
    case 34 => Some((256, 54))
    case 35 => Some((256, 66))
    case 39 => Some((32, 17))
    case _ => None
  }

  /** A block of `n` elements of some bits each, with some bytes beside them. */
  predicate Packs(dtype: nat, n: nat, bits: nat, beside: nat) {
    Block(dtype) == Some((n, n * bits / 8 + beside))
  }

  lemma PlainTypes()
    ensures Packs(0, 1, 32, 0) && Packs(1, 1, 16, 0) && Packs(30, 1, 16, 0) && Packs(28, 1, 64, 0)
    ensures Packs(24, 1, 8, 0) && Packs(25, 1, 16, 0) && Packs(26, 1, 32, 0) && Packs(27, 1, 64, 0)
  {
  }

  lemma LegacyTypes()
    ensures Packs(2, 32, 4, 2) && Packs(3, 32, 4, 2 + 2) && Packs(6, 32, 5, 2) && Packs(7, 32, 5, 2 + 2)
    ensures Packs(8, 32, 8, 2) && Packs(9, 32, 8, 4 + 4) && Packs(20, 32, 4, 2) && Packs(39, 32, 4, 1)
  {
  }

  lemma KTypes()
    ensures Packs(10, 256, 2, 2 + 2 + 256 / 16) && Packs(11, 256, 3, 2 + 12) && Packs(12, 256, 4, 2 + 2 + 12)
    ensures Packs(13, 256, 5, 2 + 2 + 12) && Packs(14, 256, 6, 2 + 256 / 16) && Packs(15, 256, 8, 4 + 256 / 8)
  {
  }

  lemma CodebookTypes()
    ensures Packs(16, 256, 2, 2) && Packs(17, 256, 2, 2 + 256 / 32) && Packs(22, 256, 2, 2 + 256 / 16)
    ensures Packs(18, 256, 3, 2) && Packs(21, 256, 3, 2 + 256 / 32 + 4) && Packs(23, 256, 4, 2 + 2 + 256 / 64)
    ensures Packs(19, 256, 1, 2 + 256 / 16) && Packs(29, 256, 1, 256 / 16 + 256 / 32)
    ensures Packs(34, 256, 0, 2 + 4 * 13) && Packs(35, 256, 2, 2)
  {
  }

  lemma NoOtherTypes()
    ensures forall dtype :: Block(dtype).Some? ==>
              dtype in {0, 1, 2, 3, 6, 7, 8, 9} || 10 <= dtype <= 30 || dtype in {34, 35, 39}
  {
  }

  /**
   The table type by type: the elements of a block, the bits of an element, and the bytes of scales,
   minima and high bits beside them.
   */
  lemma TypeTable()
    ensures Packs(0, 1, 32, 0) && Packs(1, 1, 16, 0) && Packs(30, 1, 16, 0) && Packs(28, 1, 64, 0)
    ensures Packs(24, 1, 8, 0) && Packs(25, 1, 16, 0) && Packs(26, 1, 32, 0) && Packs(27, 1, 64, 0)
    ensures Packs(2, 32, 4, 2) && Packs(3, 32, 4, 2 + 2) && Packs(6, 32, 5, 2) && Packs(7, 32, 5, 2 + 2)
    ensures Packs(8, 32, 8, 2) && Packs(9, 32, 8, 4 + 4) && Packs(20, 32, 4, 2) && Packs(39, 32, 4, 1)
    ensures Packs(10, 256, 2, 2 + 2 + 256 / 16) && Packs(11, 256, 3, 2 + 12) && Packs(12, 256, 4, 2 + 2 + 12)
    ensures Packs(13, 256, 5, 2 + 2 + 12) && Packs(14, 256, 6, 2 + 256 / 16) && Packs(15, 256, 8, 4 + 256 / 8)
    ensures Packs(16, 256, 2, 2) && Packs(17, 256, 2, 2 + 256 / 32) && Packs(22, 256, 2, 2 + 256 / 16)
    ensures Packs(18, 256, 3, 2) && Packs(21, 256, 3, 2 + 256 / 32 + 4) && Packs(23, 256, 4, 2 + 2 + 256 / 64)
    ensures Packs(19, 256, 1, 2 + 256 / 16) && Packs(29, 256, 1, 256 / 16 + 256 / 32)
    ensures Packs(34, 256, 0, 2 + 4 * 13) && Packs(35, 256, 2, 2)
    ensures forall dtype :: Block(dtype).Some? ==>
              dtype in {0, 1, 2, 3, 6, 7, 8, 9} || 10 <= dtype <= 30 || dtype in {34, 35, 39}
  {
    hide Packs, Block;
    PlainTypes();
    LegacyTypes();
    KTypes();
    CodebookTypes();
    NoOtherTypes();
  }

  function Sizes(): (q: Loader.QuantSizes) {
    map dtype: nat | 0 <= dtype < 40 && Block(dtype).Some? :: Sized(Block(dtype).value.0, Block(dtype).value.1)
  }

  /** A tensor whose elements fill whole blocks takes exactly its blocks. */
  lemma WholeBlocks(dims: seq<nat>, block: nat, size: nat, blocks: nat)
    requires block > 0 && Elements(dims) == blocks * block && blocks * block * size < 0x8000_0000_0000_0000
    ensures Bytes(dims, block, size) == Some(blocks * size)
  {
    FactorsSwapped(blocks, block, size);
    Arithmetic.DivMod(blocks * size, block, 0);
  }

  /** A tensor of the table whose elements fill a number of whole blocks, with the bytes of those blocks. */
  predicate FillsBlocks(r: Loader.Record, blocks: nat) {
    && Block(r.dtype).Some?
    && var (block, size) := Block(r.dtype).value;
       && Elements(r.dims) == blocks * block && blocks * block * size < 0x8000_0000_0000_0000
       && |r.payload| == blocks * size
  }

  predicate Named(r: Loader.Record) {
    |r.name| < 4096 && |r.dims| <= 4 && forall i :: 0 <= i < |r.dims| ==> r.dims[i] < Loader.U32
  }

  /** Every type of the table has an entry, and types that are not in it have none. */
  lemma SizesOf(dtype: nat, dims: seq<nat>)
    ensures dtype in Sizes() <==> Block(dtype).Some?
    ensures Block(dtype).Some? ==> Sizes()[dtype](dims) == Bytes(dims, Block(dtype).value.0, Block(dtype).value.1)
  {
  }

  lemma BlocksFit(r: Loader.Record, blocks: nat)
    requires Named(r) && FillsBlocks(r, blocks)
    ensures Loader.RecordFits(r, Sizes())
  {
    var (block, size) := Block(r.dtype).value;
    SizesOf(r.dtype, r.dims);
    WholeBlocks(r.dims, block, size, blocks);
  }

  ghost predicate RealFile(f: Loader.File, blocks: seq<nat>) {
    && Loader.FrontFits(f) && |blocks| == |f.records|
    && forall i :: 0 <= i < |blocks| ==> Named(f.records[i]) && FillsBlocks(f.records[i], blocks[i])
  }

  lemma RealFileFits(f: Loader.File, blocks: seq<nat>)
    requires RealFile(f, blocks)
    ensures Loader.FileFits(f, Sizes())
  {
    hide Named, FillsBlocks, Sizes, Loader.FrontFits, Loader.RecordFits;
    forall i | 0 <= i < |f.records|
      ensures Loader.RecordFits(f.records[i], Sizes())
    {
      BlocksFit(f.records[i], blocks[i]);
    }
  }

  /** The bytes of such a file. */
  ghost function EncodeReal(f: Loader.File, blocks: seq<nat>): Loader.Bytes
    requires RealFile(f, blocks)
  {
    RealFileFits(f, blocks);
    Loader.EncodeFile(f, Sizes())
  }

  /**
   With the real table of types: a file of tensors in whole blocks is read back, and each tensor is
   found with its name, dimensions and type and exactly the bytes of its blocks.
   */
  lemma RealFileLoads(f: Loader.File, blocks: seq<nat>, data: Loader.Bytes, i: nat)
    requires RealFile(f, blocks) && data == EncodeReal(f, blocks) && i < |blocks|
    ensures var at, padding := |Loader.EncodeFront(f)|, f.header.format == Loader.GGJT;
            var read := Loader.ReadTensors(data, at, padding, Sizes());
            && read.Ok? && read.value.1 == |data| && |read.value.0| == |blocks|
            && var info, r := read.value.0[i], f.records[i];
               && info.name == r.name && info.dims == r.dims && info.dtype == r.dtype
               && info.len == blocks[i] * Block(r.dtype).value.1
               && info.start + info.len <= |data| && data[info.start..info.start + info.len] == r.payload
               && (padding ==> info.start % 32 == 0)
    ensures Loader.LoadModel(data, 0, Sizes()).Ok? <==>
              Loader.FeedForward(Loader.ReadTensors(data, |Loader.EncodeFront(f)|, f.header.format == Loader.GGJT, Sizes()).value.0).Ok?
  {
    hide Named, Block, Sizes, Loader.FrontFits, Loader.RecordFits, Loader.EncodeFront, Loader.EncodeFile, Loader.ReadTensors,
      Loader.LoadModel, Loader.ReadFront, Loader.Positions;
    var at, padding := |Loader.EncodeFront(f)|, f.header.format == Loader.GGJT;
    RealFileFits(f, blocks);
    Loader.LoadsWritten(f, Sizes(), data);
    Loader.TensorsWritten(f, Sizes(), data);
    var infos := Loader.ReadTensors(data, at, padding, Sizes()).value.0;
    Loader.RecordsKept(data, f.records, infos, at, padding, i, Sizes());
  }

  lemma FactorsSwapped(a: nat, b: nat, c: nat)
    ensures a * b * c == a * c * b
  {
  }
}
