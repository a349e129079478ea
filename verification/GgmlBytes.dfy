/**
 What stands where in a GGML file, byte by byte (convert_llama_ggml_to_gguf.py): the magics, the
 little-endian numbers, the order of the fields, and the ftypes that each version admits.
 */
module GgmlBytes {
  import opened Base
  import opened GgmlLoader

  /** The number that struct.unpack('<I', …) reads. */
  function Word(data: Bytes, offset: nat): nat
    requires offset + 4 <= |data|
  {
    data[offset] as int + 0x100 * data[offset + 1] as int + 0x1_0000 * data[offset + 2] as int + 0x100_0000 * data[offset + 3] as int
  }

  lemma ReadsWord(data: Bytes, offset: nat)
    ensures offset + 4 <= |data| ==> ReadU32(data, offset) == Ok(Word(data, offset))
  {
    if offset + 4 <= |data| {
      assert Little(data, offset + 3, 1) == data[offset + 3] as int + 256 * Little(data, offset + 4, 0);
      assert Little(data, offset + 2, 2) == data[offset + 2] as int + 256 * Little(data, offset + 3, 1);
      assert Little(data, offset + 1, 3) == data[offset + 1] as int + 256 * Little(data, offset + 2, 2);
    }
  }

  lemma {:induction false} ReadsWords(data: Bytes, offset: nat, n: nat)
    ensures ReadU32s(data, offset, n).Ok? <==> n == 0 || offset + 4 * n <= |data|
    ensures ReadU32s(data, offset, n).Ok? ==>
              forall k :: 0 <= k < n ==> ReadU32s(data, offset, n).value[k] == Word(data, offset + 4 * k)
  {
    hide Word, ReadU32;
    if n > 0 {
      ReadsWords(data, offset, n - 1);
      ReadsWord(data, offset + 4 * (n - 1));
    }
  }

  // ----- the header

  /** The characters stand at an offset. */
  predicate Says(data: Bytes, offset: nat, s: string) {
    && offset + |s| <= |data|
    && forall i :: 0 <= i < |s| ==> data[offset + i] as int == s[i] as int
  }

  /** The magic of a format. */
  function Word4(format: Format): string {
    match format
    case GGML => "lmgg"
    case GGMF => "fmgg"
    case GGJT => "tjgg"
  }

  lemma MagicSays(data: Bytes, offset: nat, format: Format)
    ensures Cut(data, offset, offset + 4) == Magic(format) <==> Says(data, offset, Word4(format))
  {
    hide Cut;
    CutIsSlice(data, offset, offset + 4);
    var m, s := Magic(format), Word4(format);
    assert m[0] as int == s[0] as int && m[1] as int == s[1] as int && m[2] as int == s[2] as int && m[3] as int == s[3] as int;
    if Says(data, offset, s) {
      assert data[offset..offset + 4] == m;
    } else if Cut(data, offset, offset + 4) == m {
      SaysCut(data, offset, m, s);
    }
  }

  lemma SaysCut(data: Bytes, offset: nat, m: Bytes, s: string)
    requires |m| == |s| == 4 && (forall i :: 0 <= i < 4 ==> m[i] as int == s[i] as int)
    requires Cut(data, offset, offset + 4) == m
    ensures Says(data, offset, s)
  {
    hide Cut;
    CutIsSlice(data, offset, offset + 4);
    assert offset + 4 <= |data|;
    forall i | 0 <= i < 4
      ensures data[offset + i] as int == s[i] as int
    {
      assert data[offset..offset + 4][i] == data[offset + i];
    }
  }

  /** A file begins with "lmgg"; with "fmgg" and version 1; or with "tjgg" and version 1, 2 or 3. */
  lemma HeaderSays(data: Bytes, offset: nat)
    ensures ReadHeader(data, offset) ==
            if Says(data, offset, "lmgg") then Ok((Header(GGML, 1), 4))
            else if offset + 8 > |data| then Raised
            else
              var version := Word(data, offset + 4);
              if Says(data, offset, "fmgg") && version == 1 then Ok((Header(GGMF, 1), 8))
              else if Says(data, offset, "tjgg") && version in {1, 2, 3} then Ok((Header(GGJT, version), 8))
              else Raised
  {
    hide Cut, Magic, MagicGguf, Says, Word, ReadU32;
    MagicsDiffer();
    MagicSays(data, offset, GGML);
    MagicSays(data, offset, GGMF);
    MagicSays(data, offset, GGJT);
    ReadsWord(data, offset + 4);
    ShortU32(data, offset + 4);
  }

  lemma ShortU32(data: Bytes, offset: nat)
    ensures ReadU32(data, offset).Ok? <==> offset + 4 <= |data|
  {
  }

  // ----- the hyperparameters and the versions

  /** The file types: numbers 0 to 4 and 7 to 18. */
  const FTYPES := {0, 1, 2, 3, 4, 7, 8, 9, 10, 11, 12, 13, 14, 15, 16, 17, 18}

  /** Seven numbers, the file type last. */
  lemma HyperparametersSay(data: Bytes, offset: nat)
    ensures ReadHyperparameters(data, offset) ==
            if offset + 28 <= |data| && Word(data, offset + 24) in FTYPES then
              Ok(Hyperparameters(Word(data, offset), Word(data, offset + 4), Word(data, offset + 8), Word(data, offset + 12),
                                 Word(data, offset + 16), Word(data, offset + 20), Word(data, offset + 24)))
            else Raised
  {
    hide Word, ReadU32s;
    ReadsWords(data, offset, 7);
    if offset + 28 <= |data| {
      var v := ReadU32s(data, offset, 7).value;
      assert v[0] == Word(data, offset + 4 * 0) && v[1] == Word(data, offset + 4 * 1) && v[2] == Word(data, offset + 4 * 2);
      assert v[3] == Word(data, offset + 4 * 3) && v[4] == Word(data, offset + 4 * 4) && v[5] == Word(data, offset + 4 * 5);
      assert v[6] == Word(data, offset + 4 * 6);
    }
  }

  /** What may be converted: everything of GGJT 3, all but the changed Q4 and Q8 of GGJT 2, unquantized files of the others. */
  function Admitted(h: Header): set<nat> {
    if h == Header(GGJT, 3) then FTYPES
    else if h == Header(GGJT, 2) then {0, 1, 8, 9, 10, 11, 12, 13, 14, 15, 16, 17, 18}
    else {0, 1}
  }

  lemma ConvertibleIs(h: Header, ftype: nat)
    requires HeaderExists(h)
    ensures FtypeExists(ftype) && Convertible(h, ftype) <==> ftype in Admitted(h)
    ensures FtypeExists(ftype) <==> ftype in FTYPES
  {
  }

  /** A front that is written has an admitted file type, and one of any other type is refused. */
  lemma FrontAdmitted(data: Bytes, offset: nat)
    requires ReadHeader(data, offset).Ok?
    ensures var (h, size) := ReadHeader(data, offset).value;
            && HeaderExists(h)
            && (ReadFront(data, offset).Ok? ==>
                  && offset + size + 28 <= |data| && ReadFront(data, offset).value.header == h
                  && ReadFront(data, offset).value.hp.ftype == Word(data, offset + size + 24)
                  && Word(data, offset + size + 24) in Admitted(h))
            && (offset + size + 28 <= |data| && Word(data, offset + size + 24) in Admitted(h) ==>
                  (ReadFront(data, offset).Ok?
                   <==> ReadItems(data, offset + size + 28, Word(data, offset + size), h.format != GGML).Ok?))
  {
    hide Admitted, Convertible, FtypeExists, ReadHeader, ReadHyperparameters, ReadItems, Says, Word;
    HeaderExisting(data, offset);
    var (h, size) := ReadHeader(data, offset).value;
    HyperparametersSay(data, offset + size);
    if offset + size + 28 <= |data| {
      ConvertibleIs(h, Word(data, offset + size + 24));
      AdmittedExist(h);
    }
  }

  lemma HeaderExisting(data: Bytes, offset: nat)
    requires ReadHeader(data, offset).Ok?
    ensures HeaderExists(ReadHeader(data, offset).value.0)
  {
    hide Cut, Magic, MagicGguf, ReadU32;
  }

  lemma AdmittedExist(h: Header)
    ensures Admitted(h) <= FTYPES
  {
  }

  // ----- a vocabulary item and a tensor

  /** The length, the text, and in formats with scores four bytes of score. */
  lemma ItemSays(data: Bytes, offset: nat, scores: bool)
    ensures ReadItem(data, offset, scores).Ok? <==>
              && offset + 4 <= |data| && Word(data, offset) < 4096
              && (scores ==> offset + 4 + Word(data, offset) + 4 <= |data|)
    ensures ReadItem(data, offset, scores).Ok? ==>
              var (item, next) := ReadItem(data, offset, scores).value;
              var end := offset + 4 + Word(data, offset);
              && next == end + (if scores then 4 else 0)
              && item.text == data[offset + 4..if end <= |data| then end else |data|]
              && item.score == (if scores then Some(data[end..end + 4]) else None)
  {
    hide Cut, Word;
    ReadsWord(data, offset);
    if offset + 4 <= |data| {
      CutIsSlice(data, offset + 4, offset + 4 + Word(data, offset));
    }
  }

  lemma FieldsSay(data: Bytes, offset: nat)
    ensures ReadFields(data, offset).Ok? <==>
              && offset + 12 <= |data| && Word(data, offset) <= 4 && Word(data, offset + 4) < 4096
              && offset + 12 + 4 * Word(data, offset) <= |data|
    ensures ReadFields(data, offset).Ok? ==>
              var f := ReadFields(data, offset).value;
              var n, from := Word(data, offset), offset + 12 + 4 * Word(data, offset);
              var end := from + Word(data, offset + 4);
              && f.dtype == Word(data, offset + 8) && f.end == end
              && |f.dims| == n && (forall k :: 0 <= k < n ==> f.dims[k] == Word(data, offset + 12 + 4 * k))
              && f.name == data[from..if end <= |data| then end else |data|]
  {
    hide Cut, Word, ReadU32s;
    ReadsWords(data, offset, 3);
    if offset + 12 <= |data| {
      var head := ReadU32s(data, offset, 3).value;
      assert head[0] == Word(data, offset + 4 * 0) && head[1] == Word(data, offset + 4 * 1) && head[2] == Word(data, offset + 4 * 2);
      ReadsWords(data, offset + 12, head[0]);
      var from := offset + 12 + 4 * head[0];
      CutSays(data, from, from + head[1]);
    }
  }

  lemma CutSays(data: Bytes, from: nat, to: nat)
    requires from <= to
    ensures from <= |data| ==> Cut(data, from, to) == data[from..if to <= |data| then to else |data|]
  {
    hide Cut;
    CutIsSlice(data, from, to);
  }

  ghost predicate TensorIs(data: Bytes, offset: nat, padding: bool, quants: QuantSizes, info: Info, next: nat) {
    && offset + 12 <= |data| && offset + 12 + 4 * Word(data, offset) <= |data|
    && var n, from := Word(data, offset), offset + 12 + 4 * Word(data, offset);
       var end := from + Word(data, offset + 4);
    && info.dtype == Word(data, offset + 8)
    && |info.dims| == n && (forall k :: 0 <= k < n ==> info.dims[k] == Word(data, offset + 12 + 4 * k))
    && info.name == data[from..if end <= |data| then end else |data|]
    && end <= info.start < end + 32 && (if padding then info.start % 32 == 0 else info.start == end)
    && info.dtype in quants && quants[info.dtype](info.dims) == Some(info.len) && next == info.start + info.len
  }

  /** Number of dimensions, length of the name, type; the dimensions; the name; the data, from a multiple of 32 with padding. */
  lemma TensorSays(data: Bytes, offset: nat, padding: bool, quants: QuantSizes)
    ensures var read := ReadTensor(data, offset, padding, quants);
            && (read.Raised? <==>
                  !(&& offset + 12 <= |data| && Word(data, offset) <= 4 && Word(data, offset + 4) < 4096
                    && offset + 12 + 4 * Word(data, offset) <= |data| && Word(data, offset + 8) in quants))
            && (read.Ok? ==> TensorIs(data, offset, padding, quants, read.value.0, read.value.1))
  {
    hide ReadFields, Word;
    FieldsSay(data, offset);
  }

  // ----- the feed-forward size

  /** The record that the size is taken from: the last one of this name. */
  predicate IsFeedForward(rs: seq<Record>, i: nat) {
    && i < |rs| && Says(rs[i].name, 0, "layers.0.feed_forward.w1.weight") && |rs[i].name| == 31
    && forall k :: i < k < |rs| ==> rs[k].name != rs[i].name
  }

  lemma {:induction false} PositionIsLast(infos: seq<Info>, name: Bytes)
    ensures name in Positions(infos) ==>
              forall k :: Positions(infos)[name] < k < |infos| ==> infos[k].name != name
    ensures name !in Positions(infos) ==> forall k :: 0 <= k < |infos| ==> infos[k].name != name
    decreases |infos|
  {
    if infos != [] {
      PositionIsLast(infos[..|infos| - 1], name);
    }
  }

  lemma NameSays(name: Bytes)
    ensures name == FeedForwardName() <==> |name| == 31 && Says(name, 0, "layers.0.feed_forward.w1.weight")
  {
    var s := "layers.0.feed_forward.w1.weight";
    assert |s| == 31 && |FeedForwardName()| == 31;
    AsciiSays(s, name);
  }

  lemma AsciiSays(s: string, name: Bytes)
    requires forall i :: 0 <= i < |s| ==> s[i] as int < 128
    ensures name == AsciiBytes(s) <==> |name| == |s| && Says(name, 0, s)
  {
    if |name| == |s| && Says(name, 0, s) {
      assert forall i :: 0 <= i < |s| ==> name[0 + i] == AsciiBytes(s)[i];
      assert name == AsciiBytes(s);
    }
  }

  lemma LoadedWith(f: File, quants: QuantSizes, data: Bytes) returns (infos: seq<Info>)
    requires FileFits(f, quants) && data == EncodeFile(f, quants)
    ensures |infos| == |f.records|
    ensures forall i :: 0 <= i < |infos| ==> infos[i].name == f.records[i].name && infos[i].dims == f.records[i].dims
    ensures LoadModel(data, 0, quants) == WithTensors(Front(f.header, f.hp, f.items, |EncodeFront(f)|), infos, |data|)
  {
    hide AllLaidOut, EncodeFile, EncodeFront, LoadModel, ReadTensors, WithTensors;
    var at, padding := |EncodeFront(f)|, f.header.format == GGJT;
    LoadsWritten(f, quants, data);
    infos := ReadTensors(data, at, padding, quants).value.0;
    SameNames(f, quants, data, infos, at, padding);
  }

  lemma SameNames(f: File, quants: QuantSizes, data: Bytes, infos: seq<Info>, at: nat, padding: bool)
    requires FileFits(f, quants) && AllLaidOut(data, f.records, infos, at, padding, quants)
    ensures |infos| == |f.records|
    ensures forall i :: 0 <= i < |infos| ==> infos[i].name == f.records[i].name && infos[i].dims == f.records[i].dims
  {
    hide FrontFits, RecordFits, EncodeRecord, LaidOut;
    forall i | 0 <= i < |infos|
      ensures infos[i].name == f.records[i].name && infos[i].dims == f.records[i].dims
    {
      RecordsKept(data, f.records, infos, at, padding, i, quants);
    }
  }

  /** The record of that name that comes last is the one whose position is kept. */
  lemma PositionKept(rs: seq<Record>, infos: seq<Info>, i: nat)
    requires |infos| == |rs| && forall k :: 0 <= k < |infos| ==> infos[k].name == rs[k].name
    ensures IsFeedForward(rs, i)
            <==> FeedForwardName() in Positions(infos) && i == Positions(infos)[FeedForwardName()]
  {
    hide FeedForwardName, Positions, Says;
    PositionIsLast(infos, FeedForwardName());
    if i < |rs| {
      NameSays(rs[i].name);
    }
  }

  /** The feed-forward size of a written file is the second dimension of that record; without it the file is refused. */
  lemma FeedForwardWritten(f: File, quants: QuantSizes, data: Bytes)
    requires FileFits(f, quants) && data == EncodeFile(f, quants)
    ensures forall i: nat :: IsFeedForward(f.records, i) ==>
              if |f.records[i].dims| > 1 then
                LoadModel(data, 0, quants).Ok? && LoadModel(data, 0, quants).value.0.ff == f.records[i].dims[1]
              else LoadModel(data, 0, quants).Raised?
    ensures (forall i: nat :: !IsFeedForward(f.records, i)) ==> LoadModel(data, 0, quants).Raised?
  {
    hide FileFits, FeedForwardName, IsFeedForward, LoadModel, Positions;
    var infos := LoadedWith(f, quants, data);
    forall i: nat
      ensures IsFeedForward(f.records, i) <==> FeedForwardName() in Positions(infos) && i == Positions(infos)[FeedForwardName()]
    {
      PositionKept(f.records, infos, i);
    }
    if FeedForwardName() in Positions(infos) {
      assert IsFeedForward(f.records, Positions(infos)[FeedForwardName()]);
    }
  }
}
