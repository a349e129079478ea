/** Reading old GGML, GGMF and GGJT model files (convert_llama_ggml_to_gguf.py). */
module GgmlLoader {
  import opened Base

  type Byte = x: int | 0 <= x < 256
  type Bytes = seq<Byte>

  /** Raised: the program raises an error. TooLarge: the size of a tensor does not fit in 64 bits. */
  datatype Result<+T> = Ok(value: T) | Raised | TooLarge

  datatype Format = GGML | GGMF | GGJT
  datatype Header = Header(format: Format, version: nat)
  datatype Hyperparameters = Hyperparameters(nVocab: nat, nEmbd: nat, nMult: nat, nHead: nat, nLayer: nat, nRot: nat, ftype: nat)

  /** A vocabulary item; the score as its four bytes, absent where the format has none (0.0 then). */
  datatype Item = Item(text: Bytes, score: Option<Bytes>)

  /** What is remembered of a tensor. */
  datatype Info = Info(name: Bytes, dims: seq<nat>, dtype: nat, start: nat, len: nat)

  const U32: int := 0x1_0000_0000

  /** data[from:to] of Python, for non-negative bounds: cut off at the end. */
  function Cut(data: Bytes, from: nat, to: nat): Bytes
    decreases if from < to then to - from else 0
  {
    if from < to && from < |data| then [data[from]] + Cut(data, from + 1, to) else []
  }

  lemma {:induction false} CutIsSlice(data: Bytes, from: nat, to: nat)
    requires from <= to
    ensures to <= |data| ==> Cut(data, from, to) == data[from..to]
    ensures from <= |data| < to ==> Cut(data, from, to) == data[from..]
    ensures |data| < from ==> Cut(data, from, to) == []
    decreases if from < to then to - from else 0
  {
    if from < to && from < |data| {
      CutIsSlice(data, from + 1, to);
    }
  }

  /** The number that `k` bytes stand for, the lowest first. */
  function Little(data: Bytes, offset: nat, k: nat): nat
    requires offset + k <= |data|
    decreases |data| - offset
  {
    if k == 0 then 0 else data[offset] as int + 256 * Little(data, offset + 1, k - 1)
  }

  function EncodeLittle(n: nat, k: nat): (r: Bytes)
    ensures |r| == k
    decreases k, n
  {
    if k == 0 then [] else [n % 256] + EncodeLittle(n / 256, k - 1)
  }

  function ReadU32(data: Bytes, offset: nat): (r: Result<nat>)
    ensures r.Ok? <==> offset + 4 <= |data|
    ensures !r.TooLarge?
  {
    if offset + 4 <= |data| then Ok(Little(data, offset, 4)) else Raised
  }

  function EncodeU32(n: nat): (r: Bytes)
    ensures |r| == 4
  {
    EncodeLittle(n, 4)
  }

  function Power256(k: nat): nat {
    if k == 0 then 1 else 256 * Power256(k - 1)
  }

  /** The bytes `e` stand at an offset. */
  predicate Holds(data: Bytes, offset: nat, e: Bytes)
    decreases |e|
  {
    if e == [] then offset <= |data|
    else offset < |data| && data[offset] == e[0] && Holds(data, offset + 1, e[1..])
  }

  lemma {:induction false} HoldsBoth(data: Bytes, offset: nat, a: Bytes, b: Bytes)
    requires Holds(data, offset, a + b)
    ensures Holds(data, offset, a) && Holds(data, offset + |a|, b)
    decreases |a|
  {
    HoldsRoom(data, offset, a + b);
    if a == [] {
      assert a + b == b;
    } else {
      assert (a + b)[1..] == a[1..] + b;
      HoldsBoth(data, offset + 1, a[1..], b);
    }
  }

  lemma {:induction false} HoldsRoom(data: Bytes, offset: nat, e: Bytes)
    requires Holds(data, offset, e)
    ensures offset + |e| <= |data|
    decreases |e|
  {
    if e != [] {
      HoldsRoom(data, offset + 1, e[1..]);
    }
  }

  lemma {:induction false} HoldsSlice(data: Bytes, offset: nat, e: Bytes)
    requires Holds(data, offset, e)
    ensures offset + |e| <= |data| && data[offset..offset + |e|] == e == Cut(data, offset, offset + |e|)
    decreases |e|
  {
    HoldsRoom(data, offset, e);
    CutIsSlice(data, offset, offset + |e|);
    if e != [] {
      HoldsSlice(data, offset + 1, e[1..]);
      assert data[offset..offset + |e|] == [data[offset]] + data[offset + 1..offset + |e|];
    }
  }

  lemma {:induction false} SliceHolds(data: Bytes, offset: nat, e: Bytes)
    requires offset + |e| <= |data| && data[offset..offset + |e|] == e
    ensures Holds(data, offset, e)
    decreases |e|
  {
    if e != [] {
      assert data[offset] == data[offset..offset + |e|][0];
      assert data[offset + 1..offset + |e|] == data[offset..offset + |e|][1..];
      SliceHolds(data, offset + 1, e[1..]);
    }
  }

  lemma {:induction false} LittleEncoded(n: nat, k: nat, data: Bytes, offset: nat)
    requires n < Power256(k) && Holds(data, offset, EncodeLittle(n, k))
    ensures offset + k <= |data| && Little(data, offset, k) == n
    decreases k
  {
    if k > 0 {
      HoldsRoom(data, offset, EncodeLittle(n, k));
      assert EncodeLittle(n, k)[1..] == EncodeLittle(n / 256, k - 1);
      LittleEncoded(n / 256, k - 1, data, offset + 1);
    }
  }

  lemma ReadEncoded(n: nat, data: Bytes, offset: nat)
    requires n < U32 && Holds(data, offset, EncodeU32(n))
    ensures ReadU32(data, offset) == Ok(n)
  {
    assert Power256(1) == 256 && Power256(2) == 65536 && Power256(3) == 16777216;
    LittleEncoded(n, 4, data, offset);
  }

  function ReadU32s(data: Bytes, offset: nat, n: nat): (r: Result<seq<nat>>)
    ensures !r.TooLarge?
    ensures r.Ok? ==> |r.value| == n && (n > 0 ==> offset + 4 * n <= |data|)
  {
    if n == 0 then Ok([])
    else
      match (ReadU32s(data, offset, n - 1), ReadU32(data, offset + 4 * (n - 1)))
      case (Ok(ns), Ok(m)) => Ok(ns + [m])
      case _ => Raised
  }

  function EncodeU32s(ns: seq<nat>): (r: Bytes)
    requires forall i :: 0 <= i < |ns| ==> ns[i] < U32
    ensures |r| == 4 * |ns|
  {
    if ns == [] then [] else EncodeU32s(ns[..|ns| - 1]) + EncodeU32(ns[|ns| - 1])
  }

  lemma {:induction false} ReadEncodeds(ns: seq<nat>, data: Bytes, offset: nat)
    requires forall i :: 0 <= i < |ns| ==> ns[i] < U32
    requires Holds(data, offset, EncodeU32s(ns))
    ensures ReadU32s(data, offset, |ns|) == Ok(ns)
  {
    if ns != [] {
      var front, last := ns[..|ns| - 1], ns[|ns| - 1];
      HoldsBoth(data, offset, EncodeU32s(front), EncodeU32(last));
      ReadEncodeds(front, data, offset);
      ReadEncoded(last, data, offset + 4 * |front|);
      ReadSnoc(data, offset, front, last);
      assert ns == front + [last];
    }
  }

  lemma ReadSnoc(data: Bytes, offset: nat, ns: seq<nat>, m: nat)
    requires ReadU32s(data, offset, |ns|) == Ok(ns) && ReadU32(data, offset + 4 * |ns|) == Ok(m)
    ensures ReadU32s(data, offset, |ns| + 1) == Ok(ns + [m])
  {
  }

  // ----- the header

  /** The first four bytes of a file. */
  function Magic(format: Format): (r: Bytes)
    ensures |r| == 4
  {
    match format
    case GGML => [0x6c, 0x6d, 0x67, 0x67]
    case GGMF => [0x66, 0x6d, 0x67, 0x67]
    case GGJT => [0x74, 0x6a, 0x67, 0x67]
  }

  function MagicGguf(): Bytes {
    [0x47, 0x47, 0x55, 0x46]
  }

  function ReadHeader(data: Bytes, offset: nat): (r: Result<(Header, nat)>)
    ensures !r.TooLarge?
  {
    var magic := Cut(data, offset, offset + 4);
    if magic == MagicGguf() then Raised
    else if magic == Magic(GGML) then Ok((Header(GGML, 1), 4))
    else match ReadU32(data, offset + 4)
      case Ok(version) =>
        if magic == Magic(GGMF) && version == 1 then Ok((Header(GGMF, 1), 8))
        else if magic == Magic(GGJT) && 1 <= version <= 3 then Ok((Header(GGJT, version), 8))
        else Raised
      case _ => Raised
  }

  predicate HeaderExists(h: Header) {
    match h.format
    case GGML => h.version == 1
    case GGMF => h.version == 1
    case GGJT => 1 <= h.version <= 3
  }

  function EncodeHeader(h: Header): Bytes
    requires HeaderExists(h)
  {
    match h.format
    case GGML => Magic(GGML)
    case GGMF => Magic(GGMF) + EncodeU32(h.version)
    case GGJT => Magic(GGJT) + EncodeU32(h.version)
  }

  /** The values of GGMLFType. */
  predicate FtypeExists(ftype: nat) {
    ftype <= 4 || 7 <= ftype <= 18
  }

  function ReadHyperparameters(data: Bytes, offset: nat): (r: Result<Hyperparameters>)
    ensures !r.TooLarge?
  {
    match ReadU32s(data, offset, 7)
    case Ok(v) =>
      if FtypeExists(v[6]) then Ok(Hyperparameters(v[0], v[1], v[2], v[3], v[4], v[5], v[6])) else Raised
    case _ => Raised
  }

  /** validate_conversion: may files of this format and version be converted with this ftype? */
  predicate Convertible(h: Header, ftype: nat) {
    if h.format != GGJT || h.version < 2 then ftype in [0, 1]
    else h.version == 2 ==> ftype !in [2, 3, 4, 7]
  }

  function HyperparameterValues(hp: Hyperparameters): seq<nat> {
    [hp.nVocab, hp.nEmbd, hp.nMult, hp.nHead, hp.nLayer, hp.nRot, hp.ftype]
  }

  // ----- the vocabulary

  function ReadItem(data: Bytes, offset: nat, scores: bool): (r: Result<(Item, nat)>)
    ensures !r.TooLarge?
    ensures r.Ok? ==> r.value.1 >= offset + 4
  {
    match ReadU32(data, offset)
    case Ok(len) =>
      if len >= 4096 then Raised
      else
        var text, end := Cut(data, offset + 4, offset + 4 + len), offset + 4 + len;
        if !scores then Ok((Item(text, None), end))
        else if end + 4 > |data| then Raised
        else Ok((Item(text, Some(data[end..end + 4])), end + 4))
    case _ => Raised
  }

  function ReadItems(data: Bytes, offset: nat, n: nat, scores: bool): (r: Result<(seq<Item>, nat)>)
    ensures !r.TooLarge?
    ensures r.Ok? ==> r.value.1 >= offset
    decreases n
  {
    if n == 0 then Ok(([], offset))
    else
      match ReadItem(data, offset, scores)
      case Ok((item, next)) =>
        (match ReadItems(data, next, n - 1, scores)
         case Ok((items, end)) => Ok(([item] + items, end))
         case _ => Raised)
      case _ => Raised
  }

  predicate ItemFits(item: Item, scores: bool) {
    && |item.text| < 4096 && item.score.Some? == scores
    && (item.score.Some? ==> |item.score.value| == 4)
  }

  function EncodeItem(item: Item, scores: bool): Bytes
    requires ItemFits(item, scores)
  {
    EncodeU32(|item.text|) + item.text + (if item.score.Some? then item.score.value else [])
  }

  function EncodeItems(items: seq<Item>, scores: bool): Bytes
    requires forall i :: 0 <= i < |items| ==> ItemFits(items[i], scores)
    decreases |items|
  {
    if items == [] then [] else EncodeItem(items[0], scores) + EncodeItems(items[1..], scores)
  }

  // ----- the tensors

  /**
   For every quantization type, by number: the bytes that a tensor of some dimensions takes, None
   when the program's 64-bit arithmetic would overflow.
   */
  type QuantSizes = q: map<nat, seq<nat> -> Option<nat>> | forall d :: d in q ==> d < U32

  /** offset rounded up to a multiple of 32 */
  function Aligned(offset: nat): (r: nat)
    ensures r % 32 == 0 && offset <= r < offset + 32
    ensures offset % 32 == 0 ==> r == offset
  {
    (offset + 31) / 32 * 32
  }

  /** The fields in front of a tensor's data, and the offset behind them. */
  datatype Fields = Fields(name: Bytes, dims: seq<nat>, dtype: nat, end: nat)

  function ReadFields(data: Bytes, offset: nat): (r: Result<Fields>)
    ensures !r.TooLarge?
    ensures r.Ok? ==> offset + 12 <= |data| && offset + 12 <= r.value.end
  {
    var head := ReadU32s(data, offset, 3);
    if !head.Ok? || head.value[0] > 4 || head.value[1] >= 4096 then Raised
    else
      var dims := ReadU32s(data, offset + 12, head.value[0]);
      if !dims.Ok? then Raised
      else
        var from := offset + 12 + 4 * head.value[0];
        Ok(Fields(Cut(data, from, from + head.value[1]), dims.value, head.value[2], from + head.value[1]))
  }

  function ReadTensor(data: Bytes, offset: nat, padding: bool, quants: QuantSizes): (r: Result<(Info, nat)>)
    ensures r.Ok? ==> offset + 12 <= |data| && offset + 12 <= r.value.0.start && r.value.1 == r.value.0.start + r.value.0.len
    ensures r.Ok? && padding ==> r.value.0.start % 32 == 0
  {
    var f := ReadFields(data, offset);
    if !f.Ok? || f.value.dtype !in quants then Raised
    else
      var start := if padding then Aligned(f.value.end) else f.value.end;
      match quants[f.value.dtype](f.value.dims)
      case None => TooLarge
      case Some(len) => Ok((Info(f.value.name, f.value.dims, f.value.dtype, start, len), start + len))
  }

  /** Tensors up to the end of the file. */
  function ReadTensors(data: Bytes, offset: nat, padding: bool, quants: QuantSizes): (r: Result<(seq<Info>, nat)>)
    ensures r.Ok? ==> r.value.1 >= |data|
    decreases if offset < |data| then |data| - offset else 0
  {
    if offset >= |data| then Ok(([], offset))
    else
      match ReadTensor(data, offset, padding, quants)
      case Ok((info, next)) =>
        (match ReadTensors(data, next, padding, quants)
         case Ok((infos, end)) => Ok(([info] + infos, end))
         case Raised => Raised
         case TooLarge => TooLarge)
      case Raised => Raised
      case TooLarge => TooLarge
  }

  /** A tensor to write. */
  datatype Record = Record(name: Bytes, dims: seq<nat>, dtype: nat, payload: Bytes)

  predicate RecordFits(r: Record, quants: QuantSizes) {
    && |r.name| < 4096 && |r.dims| <= 4 && (forall i :: 0 <= i < |r.dims| ==> r.dims[i] < U32)
    && r.dtype in quants && quants[r.dtype](r.dims) == Some(|r.payload|)
  }

  function Zeros(n: nat): (r: Bytes)
    ensures |r| == n
  {
    seq(n, _ => 0)
  }

  /** A tensor as it is laid out at an offset. */
  function EncodeRecord(r: Record, offset: nat, padding: bool, quants: QuantSizes): (e: Bytes)
    requires RecordFits(r, quants)
    ensures |e| == PayloadAt(r, offset, padding) - offset + |r.payload|
  {
    EncodeU32s([|r.dims|, |r.name|, r.dtype]) + (EncodeU32s(r.dims) + (r.name + (Gap(r, offset, padding) + r.payload)))
  }

  /** The padding in front of the data. */
  function Gap(r: Record, offset: nat, padding: bool): Bytes {
    Zeros(PayloadAt(r, offset, padding) - (offset + 12 + 4 * |r.dims| + |r.name|))
  }

  /** Where the data of a tensor begins that is laid out at an offset. */
  function PayloadAt(r: Record, offset: nat, padding: bool): (p: nat)
    ensures p >= offset + 12 + 4 * |r.dims| + |r.name|
  {
    var named := offset + 12 + 4 * |r.dims| + |r.name|;
    if padding then Aligned(named) else named
  }

  function EncodeRecords(rs: seq<Record>, offset: nat, padding: bool, quants: QuantSizes): Bytes
    requires forall i :: 0 <= i < |rs| ==> RecordFits(rs[i], quants)
  {
    if rs == [] then []
    else
      var e := EncodeRecord(rs[0], offset, padding, quants);
      e + EncodeRecords(rs[1..], offset + |e|, padding, quants)
  }

  // ----- reading what was written

  lemma ReadEncodedItem(item: Item, scores: bool, data: Bytes, offset: nat)
    requires ItemFits(item, scores) && Holds(data, offset, EncodeItem(item, scores))
    ensures ReadItem(data, offset, scores) == Ok((item, offset + |EncodeItem(item, scores)|))
  {
    var n := |item.text|;
    var tail := if item.score.Some? then item.score.value else [];
    assert EncodeItem(item, scores) == EncodeU32(n) + (item.text + tail);
    HoldsBoth(data, offset, EncodeU32(n), item.text + tail);
    HoldsBoth(data, offset + 4, item.text, tail);
    ReadEncoded(n, data, offset);
    HoldsSlice(data, offset + 4, item.text);
    HoldsSlice(data, offset + 4 + n, tail);
  }

  lemma {:induction false} ReadEncodedItems(items: seq<Item>, scores: bool, data: Bytes, offset: nat)
    requires forall i :: 0 <= i < |items| ==> ItemFits(items[i], scores)
    requires Holds(data, offset, EncodeItems(items, scores))
    ensures ReadItems(data, offset, |items|, scores) == Ok((items, offset + |EncodeItems(items, scores)|))
    decreases |items|
  {
    if items != [] {
      var first := EncodeItem(items[0], scores);
      HoldsBoth(data, offset, first, EncodeItems(items[1..], scores));
      ReadEncodedItem(items[0], scores, data, offset);
      ReadEncodedItems(items[1..], scores, data, offset + |first|);
      assert items == [items[0]] + items[1..];
    }
  }

  /** What is remembered of a record laid out at an offset. */
  function InfoOf(r: Record, offset: nat, padding: bool): Info {
    Info(r.name, r.dims, r.dtype, PayloadAt(r, offset, padding), |r.payload|)
  }

  /** Record `i` lies where it was laid out: its data behind it, the next record behind that. */
  ghost predicate LaidOut(data: Bytes, r: Record, info: Info, at: nat, next: nat, padding: bool) {
    info == InfoOf(r, at, padding) && info.start + info.len == next && Holds(data, info.start, r.payload)
  }

  lemma ReadEncodedRecord(r: Record, padding: bool, data: Bytes, offset: nat, quants: QuantSizes)
    requires RecordFits(r, quants) && Holds(data, offset, EncodeRecord(r, offset, padding, quants))
    ensures var next := offset + |EncodeRecord(r, offset, padding, quants)|;
            && ReadTensor(data, offset, padding, quants) == Ok((InfoOf(r, offset, padding), next))
            && LaidOut(data, r, InfoOf(r, offset, padding), offset, next, padding)
  {
    hide Holds, EncodeU32s, ReadU32s, ReadFields;
    HoldsRecord(r, padding, data, offset, quants);
    ReadEncodedFields(r, data, offset);
  }

  lemma ReadEncodedFields(r: Record, data: Bytes, offset: nat)
    requires |r.name| < 4096 && |r.dims| <= 4 && r.dtype < U32 && forall i :: 0 <= i < |r.dims| ==> r.dims[i] < U32
    requires Holds(data, offset, EncodeU32s([|r.dims|, |r.name|, r.dtype]))
    requires Holds(data, offset + 12, EncodeU32s(r.dims)) && Holds(data, offset + 12 + 4 * |r.dims|, r.name)
    ensures ReadFields(data, offset) == Ok(Fields(r.name, r.dims, r.dtype, offset + 12 + 4 * |r.dims| + |r.name|))
  {
    ReadEncodeds([|r.dims|, |r.name|, r.dtype], data, offset);
    ReadEncodeds(r.dims, data, offset + 12);
    HoldsSlice(data, offset + 12 + 4 * |r.dims|, r.name);
  }

  lemma HoldsRecord(r: Record, padding: bool, data: Bytes, offset: nat, quants: QuantSizes)
    requires RecordFits(r, quants) && Holds(data, offset, EncodeRecord(r, offset, padding, quants))
    ensures r.dtype < U32 && Holds(data, offset, EncodeU32s([|r.dims|, |r.name|, r.dtype]))
    ensures Holds(data, offset + 12, EncodeU32s(r.dims)) && Holds(data, offset + 12 + 4 * |r.dims|, r.name)
    ensures Holds(data, PayloadAt(r, offset, padding), r.payload)
  {
    var head, gap := EncodeU32s([|r.dims|, |r.name|, r.dtype]), Gap(r, offset, padding);
    HoldsBoth(data, offset, head, EncodeU32s(r.dims) + (r.name + (gap + r.payload)));
    HoldsBoth(data, offset + 12, EncodeU32s(r.dims), r.name + (gap + r.payload));
    HoldsBoth(data, offset + 12 + 4 * |r.dims|, r.name, gap + r.payload);
    HoldsBoth(data, offset + 12 + 4 * |r.dims| + |r.name|, gap, r.payload);
  }

  /** All records lie where they were laid out, one behind the other up to the end of the file. */
  ghost predicate AllLaidOut(data: Bytes, rs: seq<Record>, infos: seq<Info>, offset: nat, padding: bool, quants: QuantSizes)
    requires forall i :: 0 <= i < |rs| ==> RecordFits(rs[i], quants)
    decreases |rs|
  {
    && |infos| == |rs|
    && if rs == [] then offset == |data|
       else
         var next := offset + |EncodeRecord(rs[0], offset, padding, quants)|;
         LaidOut(data, rs[0], infos[0], offset, next, padding) && AllLaidOut(data, rs[1..], infos[1..], next, padding, quants)
  }

  lemma {:induction false} ReadEncodedRecords(rs: seq<Record>, padding: bool, data: Bytes, offset: nat, quants: QuantSizes)
    requires forall i :: 0 <= i < |rs| ==> RecordFits(rs[i], quants)
    requires Holds(data, offset, EncodeRecords(rs, offset, padding, quants))
    requires offset + |EncodeRecords(rs, offset, padding, quants)| == |data|
    ensures var r := ReadTensors(data, offset, padding, quants);
            r.Ok? && r.value.1 == |data| && AllLaidOut(data, rs, r.value.0, offset, padding, quants)
    decreases |rs|
  {
    hide ReadTensor, RecordFits, Aligned;
    if rs != [] {
      var next := offset + |EncodeRecord(rs[0], offset, padding, quants)|;
      SplitRecords(rs, padding, data, offset, quants);
      ReadEncodedRecord(rs[0], padding, data, offset, quants);
      ReadEncodedRecords(rs[1..], padding, data, next, quants);
      MoreLaidOut(data, rs, offset, padding, next, quants);
    }
  }

  lemma SplitRecords(rs: seq<Record>, padding: bool, data: Bytes, offset: nat, quants: QuantSizes)
    requires rs != [] && forall i :: 0 <= i < |rs| ==> RecordFits(rs[i], quants)
    requires Holds(data, offset, EncodeRecords(rs, offset, padding, quants))
    ensures var e := EncodeRecord(rs[0], offset, padding, quants);
            && |EncodeRecords(rs, offset, padding, quants)| == |e| + |EncodeRecords(rs[1..], offset + |e|, padding, quants)|
            && Holds(data, offset, e) && Holds(data, offset + |e|, EncodeRecords(rs[1..], offset + |e|, padding, quants))
  {
    var e := EncodeRecord(rs[0], offset, padding, quants);
    HoldsBoth(data, offset, e, EncodeRecords(rs[1..], offset + |e|, padding, quants));
  }

  lemma MoreLaidOut(data: Bytes, rs: seq<Record>, offset: nat, padding: bool, next: nat, quants: QuantSizes)
    requires rs != [] && (forall i :: 0 <= i < |rs| ==> RecordFits(rs[i], quants)) && offset < |data|
    requires next == offset + |EncodeRecord(rs[0], offset, padding, quants)|
    requires ReadTensor(data, offset, padding, quants) == Ok((InfoOf(rs[0], offset, padding), next))
    requires LaidOut(data, rs[0], InfoOf(rs[0], offset, padding), offset, next, padding)
    requires ReadTensors(data, next, padding, quants).Ok? && ReadTensors(data, next, padding, quants).value.1 == |data|
    requires AllLaidOut(data, rs[1..], ReadTensors(data, next, padding, quants).value.0, next, padding, quants)
    ensures var r := ReadTensors(data, offset, padding, quants);
            r.Ok? && r.value.1 == |data| && AllLaidOut(data, rs, r.value.0, offset, padding, quants)
  {
    hide Aligned, EncodeRecord, InfoOf, LaidOut, ReadTensor, ReadTensors, RecordFits;
    var info, rest := InfoOf(rs[0], offset, padding), ReadTensors(data, next, padding, quants).value.0;
    ReadMore(data, offset, padding, info, next, rest, quants);
    assert ([info] + rest)[1..] == rest;
  }

  lemma ReadMore(data: Bytes, offset: nat, padding: bool, info: Info, next: nat, infos: seq<Info>, quants: QuantSizes)
    requires offset < |data| && ReadTensor(data, offset, padding, quants) == Ok((info, next))
    requires ReadTensors(data, next, padding, quants).Ok? && ReadTensors(data, next, padding, quants).value.0 == infos
    ensures ReadTensors(data, offset, padding, quants) == Ok(([info] + infos, ReadTensors(data, next, padding, quants).value.1))
  {
  }

  /** Every tensor is found again: its fields, its data, the alignment of the data, and room between the ranges. */
  lemma {:induction false} RecordsKept(data: Bytes, rs: seq<Record>, infos: seq<Info>, offset: nat, padding: bool, i: nat, quants: QuantSizes)
    requires forall k :: 0 <= k < |rs| ==> RecordFits(rs[k], quants)
    requires AllLaidOut(data, rs, infos, offset, padding, quants) && i < |rs|
    ensures infos[i].name == rs[i].name && infos[i].dims == rs[i].dims && infos[i].dtype == rs[i].dtype
    ensures infos[i].start + infos[i].len <= |data|
    ensures data[infos[i].start..infos[i].start + infos[i].len] == rs[i].payload
    ensures padding ==> infos[i].start % 32 == 0
    ensures i + 1 < |rs| ==> infos[i].start + infos[i].len + 12 <= infos[i + 1].start
    ensures i + 1 == |rs| ==> infos[i].start + infos[i].len == |data|
    decreases i
  {
    hide RecordFits, Aligned, EncodeRecord, Holds;
    HoldsSlice(data, infos[0].start, rs[0].payload);
    var next := offset + |EncodeRecord(rs[0], offset, padding, quants)|;
    if i > 0 {
      RecordsKept(data, rs[1..], infos[1..], next, padding, i - 1, quants);
    } else if |rs| > 1 {
      assert LaidOut(data, rs[1..][0], infos[1..][0], next,
                     next + |EncodeRecord(rs[1..][0], next, padding, quants)|, padding);
    }
  }

  /** Whatever file is accepted: the ranges lie in order without overlap, and only the last can pass the end. */
  lemma {:induction false} AcceptedRanges(data: Bytes, offset: nat, padding: bool, i: nat, quants: QuantSizes)
    requires ReadTensors(data, offset, padding, quants).Ok?
    requires i < |ReadTensors(data, offset, padding, quants).value.0|
    ensures var (infos, end) := ReadTensors(data, offset, padding, quants).value;
            && offset + 12 <= infos[i].start
            && (padding ==> infos[i].start % 32 == 0)
            && (i + 1 < |infos| ==> infos[i].start + infos[i].len + 12 <= infos[i + 1].start
                                    && infos[i].start + infos[i].len < |data|)
            && (i + 1 == |infos| ==> infos[i].start + infos[i].len == end >= |data|)
    decreases if offset < |data| then |data| - offset else 0
  {
    hide ReadTensor, ReadTensors;
    var infos := ReadTensors(data, offset, padding, quants).value.0;
    var next, rest := FirstRange(data, offset, padding, quants);
    if i > 0 {
      AcceptedRanges(data, next, padding, i - 1, quants);
      assert infos[i] == rest[i - 1];
      assert i + 1 < |infos| ==> infos[i + 1] == rest[i];
    } else if |infos| > 1 {
      AcceptedRanges(data, next, padding, 0, quants);
      assert infos[1] == rest[0];
    }
  }

  lemma FirstRange(data: Bytes, offset: nat, padding: bool, quants: QuantSizes) returns (next: nat, rest: seq<Info>)
    requires ReadTensors(data, offset, padding, quants).Ok? && ReadTensors(data, offset, padding, quants).value.0 != []
    ensures var (infos, end) := ReadTensors(data, offset, padding, quants).value;
            && offset < |data| && offset + 12 <= infos[0].start && next == infos[0].start + infos[0].len
            && (padding ==> infos[0].start % 32 == 0)
            && ReadTensors(data, next, padding, quants) == Ok((rest, end)) && infos == [infos[0]] + rest
            && (rest == [] <==> next >= |data|) && (rest == [] ==> end == next) && end >= |data|
  {
    next := ReadTensor(data, offset, padding, quants).value.1;
    rest := ReadTensors(data, next, padding, quants).value.0;
  }

  // ----- whole files

  /** What loading leaves in the model; `ff` is the feed-forward size. */
  datatype Model = Model(header: Header, hp: Hyperparameters, ff: nat, items: seq<Item>, tensors: seq<Info>)

  function AsciiBytes(s: string): Bytes {
    seq(|s|, i requires 0 <= i < |s| => s[i] as int % 256)
  }

  function FeedForwardName(): Bytes {
    AsciiBytes("layers.0.feed_forward.w1.weight")
  }

  /** The index each name was last seen at. */
  function Positions(infos: seq<Info>): (m: map<Bytes, nat>)
    ensures forall name :: name in m ==> m[name] < |infos| && infos[m[name]].name == name
  {
    if infos == [] then map[] else Positions(infos[..|infos| - 1])[infos[|infos| - 1].name := |infos| - 1]
  }

  lemma PositionsSnoc(infos: seq<Info>, info: Info)
    ensures Positions(infos + [info]) == Positions(infos)[info.name := |infos|]
  {
    assert (infos + [info])[..|infos|] == infos;
  }

  /** The second dimension of the feed-forward tensor of layer 0. */
  function FeedForward(infos: seq<Info>): (r: Result<nat>)
    ensures !r.TooLarge?
  {
    if FeedForwardName() in Positions(infos) && |infos[Positions(infos)[FeedForwardName()]].dims| > 1 then
      Ok(infos[Positions(infos)[FeedForwardName()]].dims[1])
    else Raised
  }

  /** Everything in front of the tensors. */
  datatype Front = Front(header: Header, hp: Hyperparameters, items: seq<Item>, end: nat)

  function ReadFront(data: Bytes, offset: nat): (r: Result<Front>)
    ensures !r.TooLarge?
  {
    var h := ReadHeader(data, offset);
    if !h.Ok? then Raised
    else
      var (header, size) := h.value;
      var hp := ReadHyperparameters(data, offset + size);
      if !hp.Ok? || !Convertible(header, hp.value.ftype) then Raised
      else
        var items := ReadItems(data, offset + size + 28, hp.value.nVocab, header.format != GGML);
        if items.Ok? then Ok(Front(header, hp.value, items.value.0, items.value.1)) else Raised
  }

  /** The whole model; refused without the feed-forward size. */
  function WithTensors(front: Front, infos: seq<Info>, end: nat): Result<(Model, nat)> {
    match FeedForward(infos)
    case Ok(ff) => Ok((Model(front.header, front.hp, ff, front.items, infos), end))
    case _ => Raised
  }

  function LoadModel(data: Bytes, offset: nat, quants: QuantSizes): Result<(Model, nat)> {
    var front := ReadFront(data, offset);
    if !front.Ok? then Raised
    else
      match ReadTensors(data, front.value.end, front.value.header.format == GGJT, quants)
      case Raised => Raised
      case TooLarge => TooLarge
      case Ok((infos, end)) => WithTensors(front.value, infos, end)
  }

  /** What has been read before the rest. */
  function Continued<T>(before: seq<T>, rest: Result<(seq<T>, nat)>): Result<(seq<T>, nat)> {
    match rest
    case Ok((more, end)) => Ok((before + more, end))
    case Raised => Raised
    case TooLarge => TooLarge
  }

  lemma ContinuedEnds<T>(before: seq<T>, rest: Result<(seq<T>, nat)>, end: nat)
    ensures Continued([], rest) == rest
    ensures Continued(before, Ok(([], end))) == Ok((before, end))
  {
    if rest.Ok? {
      assert [] + rest.value.0 == rest.value.0;
    }
    assert before + [] == before;
  }

  lemma MoreItems(data: Bytes, offset: nat, n: nat, scores: bool, before: seq<Item>, item: Item, next: nat)
    requires n > 0 && ReadItem(data, offset, scores) == Ok((item, next))
    ensures Continued(before, ReadItems(data, offset, n, scores))
            == Continued(before + [item], ReadItems(data, next, n - 1, scores))
  {
    var rest := ReadItems(data, next, n - 1, scores);
    if rest.Ok? {
      assert before + ([item] + rest.value.0) == before + [item] + rest.value.0;
    }
  }

  lemma NoMoreTensors(data: Bytes, offset: nat, padding: bool, quants: QuantSizes, before: seq<Info>)
    requires offset < |data| && !ReadTensor(data, offset, padding, quants).Ok?
    ensures Continued(before, ReadTensors(data, offset, padding, quants))
            == if ReadTensor(data, offset, padding, quants).TooLarge? then TooLarge else Raised
  {
  }

  lemma MoreTensors(data: Bytes, offset: nat, padding: bool, quants: QuantSizes, before: seq<Info>, info: Info, next: nat)
    requires offset < |data| && ReadTensor(data, offset, padding, quants) == Ok((info, next))
    ensures Continued(before, ReadTensors(data, offset, padding, quants))
            == Continued(before + [info], ReadTensors(data, next, padding, quants))
  {
    var rest := ReadTensors(data, next, padding, quants);
    if rest.Ok? {
      assert before + ([info] + rest.value.0) == before + [info] + rest.value.0;
    }
  }

  class Vocab {
    const loadScores: bool
    var items: seq<Item>

    constructor (loadScores: bool)
      ensures this.loadScores == loadScores && items == []
    {
      this.loadScores := loadScores;
      items := [];
    }

    /** Adds `nVocab` items; returns the number of bytes they take. */
    method Load(data: Bytes, offset: nat, nVocab: nat) returns (r: Result<nat>)
      modifies this`items
      ensures var read := ReadItems(data, offset, nVocab, loadScores);
              if read.Ok? then r == Ok(read.value.1 - offset) && items == old(items) + read.value.0 else r == Raised
    {
      ghost var before, gained: seq<Item> := items, [];
      ContinuedEnds(gained, ReadItems(data, offset, nVocab, loadScores), offset);
      var position := offset;
      var i := 0;
      while i < nVocab
        invariant i <= nVocab && offset <= position && items == before + gained
        invariant Continued([], ReadItems(data, offset, nVocab, loadScores))
                  == Continued(gained, ReadItems(data, position, nVocab - i, loadScores))
      {
        var itemLen := ReadU32(data, position);
        if !itemLen.Ok? || itemLen.value >= 4096 {
          return Raised;
        }
        ghost var start := position;
        position := position + 4;
        var text := Cut(data, position, position + itemLen.value);
        position := position + itemLen.value;
        var score := None;
        if loadScores {
          if position + 4 > |data| {
            return Raised;
          }
          score := Some(data[position..position + 4]);
          position := position + 4;
        }
        items := items + [Item(text, score)];
        MoreItems(data, start, nVocab - i, loadScores, gained, Item(text, score), position);
        gained := gained + [Item(text, score)];
        i := i + 1;
      }
      ContinuedEnds(gained, ReadItems(data, offset, nVocab, loadScores), position);
      r := Ok(position - offset);
    }
  }

  /** `r` is the number of bytes that were read from an offset on, or the same error. */
  predicate SizeOf(read: Result<(Info, nat)>, offset: nat, r: Result<nat>) {
    match read
    case Ok((_, next)) => next >= offset && r == Ok(next - offset)
    case Raised => r == Raised
    case TooLarge => r == TooLarge
  }

  class TensorReader {
    const usePadding: bool
    const quants: QuantSizes
    var name: Bytes
    var dims: seq<nat>
    var dtype: nat
    var startOffset: nat
    var lenBytes: nat

    constructor (usePadding: bool, quants: QuantSizes)
      ensures this.usePadding == usePadding && this.quants == quants
    {
      this.usePadding := usePadding;
      this.quants := quants;
      name, dims, dtype, startOffset, lenBytes := [], [], 0, 0, 0;
    }

    function Read(): Info
      reads this
    {
      Info(name, dims, dtype, startOffset, lenBytes)
    }

    /** Reads what stands in front of the data; returns the offset behind it. */
    method LoadFields(data: Bytes, offset: nat) returns (r: Result<nat>)
      modifies this`name, this`dims, this`dtype
      ensures match ReadFields(data, offset)
              case Ok(f) => r == Ok(f.end) && name == f.name && dims == f.dims && dtype == f.dtype
              case _ => r == Raised
    {
      var position := offset;
      var head := ReadU32s(data, position, 3);
      if !head.Ok? {
        return Raised;
      }
      var nDims, nameLen := head.value[0], head.value[1];
      if nDims > 4 || nameLen >= 4096 {
        return Raised;
      }
      position := position + 12;
      dtype := head.value[2];
      var read := ReadU32s(data, position, nDims);
      if !read.Ok? {
        return Raised;
      }
      dims := read.value;
      position := position + 4 * nDims;
      name := Cut(data, position, position + nameLen);
      r := Ok(position + nameLen);
    }

    /** Reads the tensor at an offset; returns the number of bytes it takes. */
    method Load(data: Bytes, offset: nat) returns (r: Result<nat>)
      modifies this
      ensures SizeOf(ReadTensor(data, offset, usePadding, quants), offset, r)
      ensures r.Ok? ==> Read() == ReadTensor(data, offset, usePadding, quants).value.0
    {
      var end := LoadFields(data, offset);
      if !end.Ok? || dtype !in quants {
        return Raised;
      }
      var position := end.value;
      var pad := if usePadding then Aligned(position) - position else 0;
      position := position + pad;
      var size := quants[dtype](dims);
      if size.None? {
        return TooLarge;
      }
      startOffset := position;
      lenBytes := size.value;
      position := position + lenBytes;
      r := Ok(position - offset);
    }
  }

  class GGMLModel {
    const quants: QuantSizes
    var header: Header
    var hyperparameters: Hyperparameters
    var ff: nat
    var vocab: seq<Item>
    var tensors: seq<Info>
    var tensorMap: map<Bytes, nat>

    constructor (quants: QuantSizes)
      ensures this.quants == quants && vocab == [] && tensors == [] && tensorMap == map[]
    {
      this.quants := quants;
      header := Header(GGML, 0);
      hyperparameters := Hyperparameters(0, 0, 0, 0, 0, 0, 0);
      ff, vocab, tensors, tensorMap := 0, [], [], map[];
    }

    /** Reads what stands in front of the tensors; returns the offset behind it. */
    method LoadFront(data: Bytes, offset: nat) returns (r: Result<nat>, hp: Hyperparameters, items: seq<Item>)
      modifies this`header
      ensures match ReadFront(data, offset)
              case Ok(f) => r == Ok(f.end) && header == f.header && hp == f.hp && items == f.items
              case _ => r == Raised
    {
      hp, items := hyperparameters, [];
      var position := offset;
      var h := ReadHeader(data, position);
      if !h.Ok? {
        return Raised, hp, [];
      }
      header := h.value.0;
      position := position + h.value.1;
      var read := ReadHyperparameters(data, position);
      if !read.Ok? || !Convertible(header, read.value.ftype) {
        return Raised, hp, [];
      }
      hp := read.value;
      position := position + 28;
      var v := new Vocab(header.format != GGML);
      var size := v.Load(data, position, hp.nVocab);
      if !size.Ok? {
        return Raised, hp, [];
      }
      items := v.items;
      assert [] + items == items;
      r := Ok(position + size.value);
    }

    /** Reads a file; returns the offset behind it. */
    method Load(data: Bytes, offset: nat) returns (r: Result<nat>)
      modifies this
      ensures match LoadModel(data, offset, quants)
              case Ok((model, end)) =>
                r == Ok(end) && Model(header, hyperparameters, ff, vocab, tensors) == model && tensorMap == Positions(tensors)
              case Raised => r == Raised
              case TooLarge => r == TooLarge
    {
      var hp, items, all;
      r, hp, items := LoadFront(data, offset);
      if !r.Ok? {
        return;
      }
      r, all := LoadTensors(data, r.value);
      if !r.Ok? {
        return;
      }
      hyperparameters := hp;
      vocab := items;
      tensors := all;
      var f := FeedForward(all);
      if !f.Ok? {
        return Raised;
      }
      ff := f.value;
    }

    /** The loop over the tensors. */
    method LoadTensors(data: Bytes, offset: nat) returns (r: Result<nat>, all: seq<Info>)
      modifies this`tensorMap
      ensures match ReadTensors(data, offset, header.format == GGJT, quants)
              case Ok((infos, end)) => r == Ok(end) && all == infos && tensorMap == Positions(infos)
              case Raised => r == Raised
              case TooLarge => r == TooLarge
    {
      hide Positions, ReadTensor;
      all := [];
      var position := offset;
      var positions: map<Bytes, nat> := map[];
      var padding := header.format == GGJT;
      ghost var whole := ReadTensors(data, offset, padding, quants);
      ContinuedEnds(all, whole, offset);
      while position < |data|
        invariant positions == Positions(all)
        invariant whole == Continued(all, ReadTensors(data, position, padding, quants))
        decreases |data| - position
      {
        var tensor := new TensorReader(padding, quants);
        r := tensor.Load(data, position);
        if !r.Ok? {
          NoMoreTensors(data, position, padding, quants, all);
          return;
        }
        MoreTensors(data, position, padding, quants, all, tensor.Read(), position + r.value);
        PositionsSnoc(all, tensor.Read());
        positions := positions[tensor.name := |all|];
        position := position + r.value;
        all := all + [tensor.Read()];
      }
      ContinuedEnds(all, whole, position);
      tensorMap := positions;
      r := Ok(position);
    }
  }

  // ----- files as they were written

  datatype File = File(header: Header, hp: Hyperparameters, items: seq<Item>, records: seq<Record>)

  ghost predicate FrontFits(f: File) {
    && HeaderExists(f.header) && FtypeExists(f.hp.ftype) && Convertible(f.header, f.hp.ftype)
    && (forall i :: 0 <= i < 7 ==> HyperparameterValues(f.hp)[i] < U32)
    && f.hp.nVocab == |f.items|
    && (forall i :: 0 <= i < |f.items| ==> ItemFits(f.items[i], f.header.format != GGML))
  }

  ghost predicate FileFits(f: File, quants: QuantSizes) {
    FrontFits(f) && forall i :: 0 <= i < |f.records| ==> RecordFits(f.records[i], quants)
  }

  function EncodeFront(f: File): Bytes
    requires FrontFits(f)
  {
    EncodeHeader(f.header) + (EncodeU32s(HyperparameterValues(f.hp)) + EncodeItems(f.items, f.header.format != GGML))
  }

  function EncodeFile(f: File, quants: QuantSizes): Bytes
    requires FileFits(f, quants)
  {
    var front := EncodeFront(f);
    front + EncodeRecords(f.records, |front|, f.header.format == GGJT, quants)
  }

  lemma MagicsDiffer()
    ensures Magic(GGML) != MagicGguf() && Magic(GGMF) != MagicGguf() && Magic(GGJT) != MagicGguf()
    ensures Magic(GGMF) != Magic(GGML) && Magic(GGJT) != Magic(GGML) && Magic(GGJT) != Magic(GGMF)
  {
    assert Magic(GGML)[0] != MagicGguf()[0] && Magic(GGMF)[0] != MagicGguf()[0] && Magic(GGJT)[0] != MagicGguf()[0];
    assert Magic(GGMF)[0] != Magic(GGML)[0] && Magic(GGJT)[0] != Magic(GGML)[0] && Magic(GGJT)[0] != Magic(GGMF)[0];
  }

  lemma ReadEncodedHeader(h: Header, data: Bytes, offset: nat)
    requires HeaderExists(h) && Holds(data, offset, EncodeHeader(h))
    ensures ReadHeader(data, offset) == Ok((h, |EncodeHeader(h)|))
  {
    hide Cut, EncodeU32, Holds, Magic, MagicGguf, ReadU32;
    MagicsDiffer();
    if h.format.GGML? {
      HoldsSlice(data, offset, Magic(GGML));
    } else {
      HoldsBoth(data, offset, Magic(h.format), EncodeU32(h.version));
      HoldsSlice(data, offset, Magic(h.format));
      ReadEncoded(h.version, data, offset + 4);
    }
  }

  lemma HoldsFile(f: File, quants: QuantSizes, data: Bytes)
    requires FileFits(f, quants) && data == EncodeFile(f, quants)
    ensures Holds(data, 0, EncodeFront(f))
    ensures var at, padding := |EncodeFront(f)|, f.header.format == GGJT;
            && Holds(data, at, EncodeRecords(f.records, at, padding, quants))
            && at + |EncodeRecords(f.records, at, padding, quants)| == |data|
  {
    var front := EncodeFront(f);
    var records := EncodeRecords(f.records, |front|, f.header.format == GGJT, quants);
    SliceHolds(data, 0, front + records);
    HoldsBoth(data, 0, front, records);
  }

  lemma ReadEncodedHyperparameters(hp: Hyperparameters, data: Bytes, offset: nat)
    requires FtypeExists(hp.ftype) && forall i :: 0 <= i < 7 ==> HyperparameterValues(hp)[i] < U32
    requires Holds(data, offset, EncodeU32s(HyperparameterValues(hp)))
    ensures ReadHyperparameters(data, offset) == Ok(hp)
  {
    ReadEncodeds(HyperparameterValues(hp), data, offset);
  }

  lemma HoldsFront(f: File, data: Bytes)
    requires FrontFits(f) && Holds(data, 0, EncodeFront(f))
    ensures Holds(data, 0, EncodeHeader(f.header))
    ensures Holds(data, |EncodeHeader(f.header)|, EncodeU32s(HyperparameterValues(f.hp)))
    ensures Holds(data, |EncodeHeader(f.header)| + 28, EncodeItems(f.items, f.header.format != GGML))
  {
    var h, hp, items := EncodeHeader(f.header), EncodeU32s(HyperparameterValues(f.hp)), EncodeItems(f.items, f.header.format != GGML);
    HoldsBoth(data, 0, h, hp + items);
    HoldsBoth(data, |h|, hp, items);
  }

  lemma FrontParts(f: File, data: Bytes)
    requires FrontFits(f) && Holds(data, 0, EncodeFront(f))
    ensures var h := |EncodeHeader(f.header)|;
            && ReadHeader(data, 0) == Ok((f.header, h)) && ReadHyperparameters(data, h) == Ok(f.hp)
            && ReadItems(data, h + 28, |f.items|, f.header.format != GGML) == Ok((f.items, |EncodeFront(f)|))
  {
    hide Holds, ReadHeader, ReadHyperparameters, ReadItems, EncodeItems, EncodeU32s;
    HoldsFront(f, data);
    ReadEncodedHeader(f.header, data, 0);
    ReadEncodedHyperparameters(f.hp, data, |EncodeHeader(f.header)|);
    ReadEncodedItems(f.items, f.header.format != GGML, data, |EncodeHeader(f.header)| + 28);
  }

  /** What is read of a written file up to its tensors. */
  lemma ReadEncodedFront(f: File, data: Bytes)
    requires FrontFits(f) && Holds(data, 0, EncodeFront(f))
    ensures ReadFront(data, 0) == Ok(Front(f.header, f.hp, f.items, |EncodeFront(f)|))
  {
    FrontParts(f, data);
  }

  /** What is read of the tensors of a written file. */
  lemma TensorsWritten(f: File, quants: QuantSizes, data: Bytes)
    requires FileFits(f, quants) && data == EncodeFile(f, quants)
    ensures Holds(data, 0, EncodeFront(f))
    ensures var at, padding := |EncodeFront(f)|, f.header.format == GGJT;
            var read := ReadTensors(data, at, padding, quants);
            read.Ok? && read.value.1 == |data| && AllLaidOut(data, f.records, read.value.0, at, padding, quants)
  {
    HoldsFile(f, quants, data);
    ReadEncodedRecords(f.records, f.header.format == GGJT, data, |EncodeFront(f)|, quants);
  }

  lemma LoadsAll(data: Bytes, front: Front, quants: QuantSizes)
    requires ReadFront(data, 0) == Ok(front) && ReadTensors(data, front.end, front.header.format == GGJT, quants).Ok?
    ensures var (infos, end) := ReadTensors(data, front.end, front.header.format == GGJT, quants).value;
            LoadModel(data, 0, quants) == WithTensors(front, infos, end)
  {
  }

  /**
   A file as it was written is read back: the same header, hyperparameters and vocabulary, and all
   records in order, one behind the other up to the end of the file. It is refused only if its last
   feed-forward tensor of layer 0 is missing or has less than two dimensions.
   */
  lemma LoadsWritten(f: File, quants: QuantSizes, data: Bytes)
    requires FileFits(f, quants) && data == EncodeFile(f, quants)
    ensures var at, padding := |EncodeFront(f)|, f.header.format == GGJT;
            var read := ReadTensors(data, at, padding, quants);
            && read.Ok? && AllLaidOut(data, f.records, read.value.0, at, padding, quants)
            && LoadModel(data, 0, quants) == WithTensors(Front(f.header, f.hp, f.items, at), read.value.0, |data|)
  {
    TensorsWritten(f, quants, data);
    ReadEncodedFront(f, data);
    LoadsAll(data, Front(f.header, f.hp, f.items, |EncodeFront(f)|), quants);
  }
}
