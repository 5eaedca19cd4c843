/** The log file (db/log_writer.cc, db/log_reader.cc): records cut into fragments that
    never cross a 32KB block, and a reader that survives any torn tail. */
module Logs {
  import opened Keys
  import opened Coding

  const KBlockSize: nat := 32768
  const KHeaderSize: nat := 7

  // record types
  const KFullType: Byte := 1
  const KFirstType: Byte := 2
  const KMiddleType: Byte := 3
  const KLastType: Byte := 4

  datatype Fragment = Fragment(kind: Byte, data: Bytes)

  // ----- the layout of a log -----

  function Zeros(n: nat): (z: Bytes)
    ensures |z| == n
  {
    seq(n, i => 0)
  }

  /** Zero bytes that close a block with no room for a header. */
  function Pad(off: nat): nat
    requires off <= KBlockSize
  {
    if KBlockSize - off < KHeaderSize then KBlockSize - off else 0
  }

  /** Where in its block the next header goes. */
  function Home(off: nat): (h: nat)
    requires off <= KBlockSize
    ensures h + KHeaderSize <= KBlockSize
  {
    if KBlockSize - off < KHeaderSize then 0 else off
  }

  function Fits(off: nat, f: Fragment): bool
    requires off <= KBlockSize
  {
    Home(off) + KHeaderSize + |f.data| <= KBlockSize
  }

  function FragmentCrc(step: CrcStep, kind: Byte, data: Bytes): U32 {
    Extend(step, 0, [kind] + data)
  }

  function Header(step: CrcStep, f: Fragment): (h: Bytes)
    requires |f.data| < 0x1_0000
    ensures |h| == KHeaderSize
  {
    EncodeFixed32(Mask(FragmentCrc(step, f.kind, f.data))) + [|f.data| % 256, |f.data| / 256, f.kind]
  }

  /** Padding, header and payload of a fragment written at block offset `off`. */
  function FragmentBytes(step: CrcStep, off: nat, f: Fragment): (b: Bytes)
    requires off <= KBlockSize && Fits(off, f)
    ensures |b| == Pad(off) + KHeaderSize + |f.data|
  {
    Zeros(Pad(off)) + Header(step, f) + f.data
  }

  function After(off: nat, f: Fragment): (r: nat)
    requires off <= KBlockSize && Fits(off, f)
    ensures r <= KBlockSize
  {
    Home(off) + KHeaderSize + |f.data|
  }

  function KindOf(begin: bool, end: bool): Byte {
    if begin && end then KFullType else if begin then KFirstType else if end then KLastType else KMiddleType
  }

  /** How much of `data` the fragment at `off` takes. */
  function Take(off: nat, data: Bytes): (n: nat)
    requires off <= KBlockSize
    ensures n <= |data|
  {
    var avail := KBlockSize - Home(off) - KHeaderSize;
    if |data| < avail then |data| else avail
  }

  /** The fragments of a record of which `data` is still to be written. */
  function Fragments(off: nat, data: Bytes, begin: bool): (fs: seq<Fragment>)
    requires off <= KBlockSize
    ensures fs != []
    decreases |data|, if KBlockSize - off == KHeaderSize then 1 else 0
  {
    var n := Take(off, data);
    var f := Fragment(KindOf(begin, n == |data|), data[..n]);
    if n == |data| then [f] else [f] + Fragments(After(off, f), data[n..], false)
  }

  /** Fragments fit where they are put, one after the other. */
  predicate AllFit(off: nat, fs: seq<Fragment>)
    requires off <= KBlockSize
    decreases |fs|
  {
    fs == [] || (Fits(off, fs[0]) && AllFit(After(off, fs[0]), fs[1..]))
  }

  function Render(step: CrcStep, off: nat, fs: seq<Fragment>): Bytes
    requires off <= KBlockSize && AllFit(off, fs)
    decreases |fs|
  {
    if fs == [] then [] else FragmentBytes(step, off, fs[0]) + Render(step, After(off, fs[0]), fs[1..])
  }

  function AfterAll(off: nat, fs: seq<Fragment>): (r: nat)
    requires off <= KBlockSize && AllFit(off, fs)
    ensures r <= KBlockSize
    decreases |fs|
  {
    if fs == [] then off else AfterAll(After(off, fs[0]), fs[1..])
  }

  lemma {:induction false} FragmentsFit(off: nat, data: Bytes, begin: bool)
    requires off <= KBlockSize
    ensures AllFit(off, Fragments(off, data, begin))
    decreases |data|, if KBlockSize - off == KHeaderSize then 1 else 0
  {
    var n := Take(off, data);
    var f := Fragment(KindOf(begin, n == |data|), data[..n]);
    if n < |data| {
      FragmentsFit(After(off, f), data[n..], false);
      assert ([f] + Fragments(After(off, f), data[n..], false))[1..] == Fragments(After(off, f), data[n..], false);
    }
  }

  /** The bytes of a log that holds `records`, from block offset `off` on. */
  function Stream(step: CrcStep, off: nat, records: seq<Bytes>): Bytes
    requires off <= KBlockSize
    decreases |records|
  {
    if records == [] then []
    else
      FragmentsFit(off, records[0], true);
      var fs := Fragments(off, records[0], true);
      Render(step, off, fs) + Stream(step, AfterAll(off, fs), records[1..])
  }

  function RecordSize(off: nat, r: Bytes): nat
    requires off <= KBlockSize
  {
    FragmentsFit(off, r, true);
    RenderSize(off, Fragments(off, r, true))
  }

  function RenderSize(off: nat, fs: seq<Fragment>): nat
    requires off <= KBlockSize && AllFit(off, fs)
    decreases |fs|
  {
    if fs == [] then 0 else Pad(off) + KHeaderSize + |fs[0].data| + RenderSize(After(off, fs[0]), fs[1..])
  }

  lemma {:induction false} RenderSizeIs(step: CrcStep, off: nat, fs: seq<Fragment>)
    requires off <= KBlockSize && AllFit(off, fs)
    ensures |Render(step, off, fs)| == RenderSize(off, fs)
    decreases |fs|
  {
    if fs != [] { RenderSizeIs(step, After(off, fs[0]), fs[1..]); }
  }

  function NextOff(off: nat, r: Bytes): (o: nat)
    requires off <= KBlockSize
    ensures o <= KBlockSize
  {
    FragmentsFit(off, r, true);
    AfterAll(off, Fragments(off, r, true))
  }

  /** The records whose last fragment lies within the first `t` bytes. */
  function Whole(off: nat, records: seq<Bytes>, t: nat): seq<Bytes>
    requires off <= KBlockSize
    decreases |records|
  {
    if records == [] || RecordSize(off, records[0]) > t then []
    else [records[0]] + Whole(NextOff(off, records[0]), records[1..], t - RecordSize(off, records[0]))
  }

  function OffAll(off: nat, records: seq<Bytes>): (o: nat)
    requires off <= KBlockSize
    ensures o <= KBlockSize
    decreases |records|
  {
    if records == [] then off else OffAll(NextOff(off, records[0]), records[1..])
  }

  function RecordBytes(step: CrcStep, off: nat, r: Bytes): Bytes
    requires off <= KBlockSize
  {
    FragmentsFit(off, r, true);
    Render(step, off, Fragments(off, r, true))
  }

  lemma {:induction false} RecordBytesSize(step: CrcStep, off: nat, r: Bytes)
    requires off <= KBlockSize
    ensures |RecordBytes(step, off, r)| == RecordSize(off, r)
  {
    FragmentsFit(off, r, true);
    RenderSizeIs(step, off, Fragments(off, r, true));
  }

  lemma {:induction false} StreamSnoc(step: CrcStep, off: nat, records: seq<Bytes>, r: Bytes)
    requires off <= KBlockSize
    ensures Stream(step, off, records + [r]) == Stream(step, off, records) + RecordBytes(step, OffAll(off, records), r)
    ensures OffAll(off, records + [r]) == NextOff(OffAll(off, records), r)
    decreases |records|
  {
    var all := records + [r];
    if records == [] {
      assert all[1..] == [];
      assert Stream(step, off, all) == RecordBytes(step, off, r) + Stream(step, NextOff(off, r), []);
    } else {
      assert all[1..] == records[1..] + [r];
      StreamSnoc(step, NextOff(off, records[0]), records[1..], r);
    }
  }

  // ----- the writer -----

  class Writer {
    const step: CrcStep
    const typeCrc: seq<U32>
    var dest: Bytes
    var blockOffset: nat
    /** The records added so far. */
    ghost var records: seq<Bytes>

    ghost predicate Ok()
      reads this
    {
      && |typeCrc| == 5 && (forall t :: 0 <= t < 5 ==> typeCrc[t] == Extend(step, 0, [t]))
      && blockOffset == OffAll(0, records)
      && dest == Stream(step, 0, records)
    }

    constructor (step: CrcStep)
      ensures Ok() && this.step == step && records == []
    {
      this.step := step;
      this.typeCrc := seq(5, t requires 0 <= t < 5 => Extend(step, 0, [t]));
      this.dest, this.blockOffset, this.records := [], 0, [];
    }

    method EmitPhysicalRecord(t: Byte, data: Bytes)
      requires 1 <= t <= 4 && |typeCrc| == 5 && typeCrc[t] == Extend(step, 0, [t])
      requires blockOffset + KHeaderSize + |data| <= KBlockSize
      modifies this`dest, this`blockOffset
      ensures dest == old(dest) + Header(step, Fragment(t, data)) + data
      ensures blockOffset == old(blockOffset) + KHeaderSize + |data|
    {
      var n := |data|;
      ExtendConcat(step, 0, [t], data);
      var crc := Mask(Extend(step, typeCrc[t], data));
      dest := dest + (EncodeFixed32(crc) + [n % 256, n / 256, t]);
      dest := dest + data;
      blockOffset := blockOffset + KHeaderSize + n;
    }

    /** One round of the loop of AddRecord: close the block if it has no room for a
        header, then emit as much of the data as fits. */
    method WriteFragment(data: Bytes, begin: bool) returns (n: nat)
      requires |typeCrc| == 5 && (forall t :: 0 <= t < 5 ==> typeCrc[t] == Extend(step, 0, [t]))
      requires blockOffset <= KBlockSize
      modifies this`dest, this`blockOffset
      ensures n == Take(old(blockOffset), data)
      ensures var f := Fragment(KindOf(begin, n == |data|), data[..n]);
              dest == old(dest) + FragmentBytes(step, old(blockOffset), f) && blockOffset == After(old(blockOffset), f)
    {
      var leftover := KBlockSize - blockOffset;
      if leftover < KHeaderSize {
        if leftover > 0 {
          dest := dest + Zeros(leftover);
        }
        blockOffset := 0;
      }
      assert dest == old(dest) + Zeros(Pad(old(blockOffset))) && blockOffset == Home(old(blockOffset));
      var avail := KBlockSize - blockOffset - KHeaderSize;
      n := if |data| < avail then |data| else avail;
      var end := |data| == n;
      var kind := if begin && end then KFullType
          else if begin then KFirstType else if end then KLastType else KMiddleType;
      ghost var head := Header(step, Fragment(kind, data[..n]));
      EmitPhysicalRecord(kind, data[..n]);
      Regroup(old(dest), Zeros(Pad(old(blockOffset))), head, data[..n]);
    }

    /** Writer::AddRecord: appends the record, cut to fit the blocks. */
    method AddRecord(slice: Bytes)
      requires Ok()
      modifies this
      ensures Ok() && records == old(records) + [slice]
    {
      ghost var off0 := blockOffset;
      FragmentsFit(off0, slice, true);
      ghost var fs := Fragments(off0, slice, true);
      ghost var off := off0;
      var data := slice;
      var begin, more := true, true;
      while more
        invariant |typeCrc| == 5 && forall t :: 0 <= t < 5 ==> typeCrc[t] == Extend(step, 0, [t])
        invariant records == old(records)
        invariant blockOffset <= KBlockSize && AllFit(blockOffset, fs)
        invariant fs == if more then Fragments(blockOffset, data, begin) else []
        invariant dest + Render(step, blockOffset, fs) == old(dest) + RecordBytes(step, off0, slice)
        invariant AfterAll(blockOffset, fs) == NextOff(off0, slice)
        decreases more, |data|, if KBlockSize - blockOffset == KHeaderSize then 1 else 0
      {
        off := blockOffset;
        ghost var dest0 := dest;
        var n := WriteFragment(data, begin);
        RenderHead(step, off, fs, dest0, dest);
        fs := fs[1..];
        data := data[n..];
        begin := false;
        more := |data| > 0;
      }
      records := records + [slice];
      StreamSnoc(step, 0, old(records), slice);
    }
  }

  lemma {:induction false} Regroup(a: Bytes, b: Bytes, c: Bytes, d: Bytes)
    ensures a + b + c + d == a + (b + c + d)
  {
  }

  lemma {:induction false} RenderHead(step: CrcStep, off: nat, fs: seq<Fragment>, dest: Bytes, dest': Bytes)
    requires off <= KBlockSize && fs != [] && AllFit(off, fs)
    requires dest' == dest + FragmentBytes(step, off, fs[0])
    ensures dest + Render(step, off, fs) == dest' + Render(step, After(off, fs[0]), fs[1..])
  {
    var a, b := FragmentBytes(step, off, fs[0]), Render(step, After(off, fs[0]), fs[1..]);
    assert Render(step, off, fs) == a + b;
    Assoc(dest, a, b);
  }

  lemma {:induction false} Assoc(a: Bytes, b: Bytes, c: Bytes)
    ensures (a + b) + c == a + (b + c)
  {
  }

  // ----- the reader -----

  datatype Physical = Eof | BadRecord | Record(kind: Byte, data: Bytes)

  /** Block offset `off` of the writer is byte `pos` of the file, in the block that
      starts at `base` or at the start of the next one. */
  predicate At(off: nat, pos: int, base: int) {
    off <= KBlockSize && (pos - base == off || (off == 0 && pos - base == KBlockSize))
  }

  /** The rest of the file is fragment `f` and then `tail`, or a prefix of that. */
  predicate Faces(step: CrcStep, file: Bytes, pos: nat, off: nat, f: Fragment, tail: Bytes) {
    && pos <= |file| && off <= KBlockSize && Fits(off, f) && 1 <= f.kind <= 4
    && file[pos..] <= FragmentBytes(step, off, f) + tail
  }

  lemma {:induction false} PrefixAt(a: Bytes, b: Bytes, i: nat)
    requires a <= b && i < |a|
    ensures a[i] == b[i]
  {
  }

  /** Past the padding, the file shows the header and the payload. */
  lemma {:induction false} FaceBytes(step: CrcStep, file: Bytes, pos: nat, off: nat, f: Fragment, tail: Bytes)
    requires Faces(step, file, pos, off, f, tail) && pos + Pad(off) <= |file|
    ensures file[pos + Pad(off)..] <= Header(step, f) + (f.data + tail)
  {
    var z, h := Zeros(Pad(off)), Header(step, f);
    assert FragmentBytes(step, off, f) + tail == z + (h + (f.data + tail));
    var rest := file[pos..];
    assert rest <= z + (h + (f.data + tail));
    assert rest[|z|..] == file[pos + Pad(off)..];
    assert (z + (h + (f.data + tail)))[|z|..] == h + (f.data + tail);
    forall i | 0 <= i < |rest[|z|..]| ensures rest[|z|..][i] == (h + (f.data + tail))[i] {
      PrefixAt(rest, z + (h + (f.data + tail)), |z| + i);
    }
  }

  /** The buffer starts with the header of `f`, and with all of `f` if it is long enough. */
  predicate Shows(step: CrcStep, buffer: Bytes, f: Fragment) {
    && |buffer| >= KHeaderSize
    && buffer[4] as int + buffer[5] as int * 256 == |f.data| && buffer[6] == f.kind
    && (KHeaderSize + |f.data| <= |buffer| ==>
          && buffer[KHeaderSize..KHeaderSize + |f.data|] == f.data
          && Unmask(DecodeFixed32(buffer)) == Extend(step, 0, buffer[6..KHeaderSize + |f.data|]))
  }

  /** What the writer wrote parses back. */
  lemma {:induction false} HeaderParses(step: CrcStep, buffer: Bytes, f: Fragment, tail: Bytes)
    requires |f.data| < 0x1_0000 && |buffer| >= KHeaderSize && buffer <= Header(step, f) + (f.data + tail)
    ensures Shows(step, buffer, f)
  {
    var head, body := Header(step, f), f.data + tail;
    forall i | 0 <= i < KHeaderSize ensures buffer[i] == head[i] {
      PrefixAt(buffer, head + body, i);
    }
    if KHeaderSize + |f.data| <= |buffer| {
      forall i | 0 <= i < |f.data| ensures buffer[KHeaderSize + i] == f.data[i] {
        PrefixAt(buffer, head + body, KHeaderSize + i);
      }
      assert buffer[KHeaderSize..KHeaderSize + |f.data|] == f.data;
      assert buffer[6..KHeaderSize + |f.data|] == [f.kind] + f.data;
      CrcParses(step, buffer, f);
    }
  }

  lemma {:induction false} CrcParses(step: CrcStep, buffer: Bytes, f: Fragment)
    requires |f.data| < 0x1_0000 && |buffer| >= KHeaderSize
    requires forall i :: 0 <= i < KHeaderSize ==> buffer[i] == Header(step, f)[i]
    ensures Unmask(DecodeFixed32(buffer)) == Extend(step, 0, [f.kind] + f.data)
  {
    var crc := FragmentCrc(step, f.kind, f.data);
    assert buffer == EncodeFixed32(Mask(crc)) + buffer[4..];
    Fixed32RoundTrip(Mask(crc), buffer[4..]);
    MaskRoundTrip(crc);
  }

  lemma {:induction false} FaceShows(step: CrcStep, file: Bytes, pos: nat, off: nat, f: Fragment, tail: Bytes,
                                     buffer: Bytes)
    requires Faces(step, file, pos, off, f, tail)
    requires |buffer| >= KHeaderSize && pos + Pad(off) + |buffer| <= |file|
    requires buffer == file[pos + Pad(off)..pos + Pad(off) + |buffer|]
    ensures Shows(step, buffer, f)
  {
    FaceBytes(step, file, pos, off, f, tail);
    assert file[pos + Pad(off)..][..|buffer|] == buffer;
    HeaderParses(step, buffer, f, tail);
  }

  /** The rest of the file is the fragments `fs` and then `tail`, or a prefix of that. */
  predicate Holds(step: CrcStep, file: Bytes, pos: nat, off: nat, fs: seq<Fragment>, tail: Bytes) {
    pos <= |file| && off <= KBlockSize && AllFit(off, fs) && file[pos..] <= Render(step, off, fs) + tail
  }

  lemma {:induction false} HoldsHead(step: CrcStep, file: Bytes, pos: nat, off: nat, fs: seq<Fragment>, tail: Bytes)
    requires Holds(step, file, pos, off, fs, tail) && fs != [] && 1 <= fs[0].kind <= 4
    ensures Faces(step, file, pos, off, fs[0], Render(step, After(off, fs[0]), fs[1..]) + tail)
  {
    var a, b := FragmentBytes(step, off, fs[0]), Render(step, After(off, fs[0]), fs[1..]);
    assert Render(step, off, fs) == a + b;
    assert (a + b) + tail == a + (b + tail);
  }

  lemma {:induction false} HoldsRest(step: CrcStep, file: Bytes, pos: nat, off: nat, fs: seq<Fragment>, tail: Bytes)
    requires Holds(step, file, pos, off, fs, tail) && fs != [] && |FragmentBytes(step, off, fs[0])| <= |file| - pos
    ensures Holds(step, file, pos + |FragmentBytes(step, off, fs[0])|, After(off, fs[0]), fs[1..], tail)
  {
    var a, b := FragmentBytes(step, off, fs[0]), Render(step, After(off, fs[0]), fs[1..]);
    assert Render(step, off, fs) == a + b;
    assert (a + b) + tail == a + (b + tail);
    PrefixDrop(file[pos..], a, b + tail);
    assert file[pos..][|a|..] == file[pos + |a|..];
  }

  lemma {:induction false} PrefixDrop(file: Bytes, a: Bytes, b: Bytes)
    requires file <= a + b && |a| <= |file|
    ensures file[|a|..] <= b
  {
    forall i | 0 <= i < |file| - |a| ensures file[|a|..][i] == b[i] {
      PrefixAt(file, a + b, |a| + i);
    }
  }

  function Upcoming(at: nat, rest: Bytes, inFragmented: bool): (fs: seq<Fragment>)
    requires at <= KBlockSize
    ensures AllFit(at, fs) && fs != []
    ensures fs[0].kind == (if |fs| == 1 then if inFragmented then KLastType else KFullType
                           else if inFragmented then KMiddleType else KFirstType)
  {
    FragmentsFit(at, rest, !inFragmented);
    Fragments(at, rest, !inFragmented)
  }

  /** A record to read: its first byte is byte `start` of the file and goes to block
      offset `off`, and `tail` follows it. */
  datatype Target = Target(step: CrcStep, file: Bytes, start: nat, off: nat, record: Bytes, tail: Bytes)

  predicate Poised(t: Target) {
    t.off <= KBlockSize && Holds(t.step, t.file, t.start, t.off, Upcoming(t.off, t.record, false), t.tail)
  }

  /** Reading has come as far as `pos`: what is in the scratch and what is still in the
      file make up the record. */
  predicate Midway(t: Target, pos: nat, at: nat, rest: Bytes, inFragmented: bool, scratch: Bytes) {
    && t.off <= KBlockSize && at <= KBlockSize && scratch + rest == t.record && (!inFragmented ==> scratch == [])
    && Holds(t.step, t.file, pos, at, Upcoming(at, rest, inFragmented), t.tail)
    && pos + RenderSize(at, Upcoming(at, rest, inFragmented)) == t.start + RecordSize(t.off, t.record)
    && AfterAll(at, Upcoming(at, rest, inFragmented)) == NextOff(t.off, t.record)
  }

  lemma {:induction false} MidwayStart(t: Target)
    requires Poised(t)
    ensures Midway(t, t.start, t.off, t.record, false, [])
  {
    assert [] + t.record == t.record;
  }

  lemma {:induction false} MidwayHead(t: Target, pos: nat, at: nat, rest: Bytes, inFragmented: bool, scratch: Bytes)
    returns (f: Fragment, after: Bytes)
    requires Midway(t, pos, at, rest, inFragmented, scratch)
    ensures f == Upcoming(at, rest, inFragmented)[0] && Faces(t.step, t.file, pos, at, f, after)
  {
    var fs := Upcoming(at, rest, inFragmented);
    f, after := fs[0], Render(t.step, After(at, fs[0]), fs[1..]) + t.tail;
    HoldsHead(t.step, t.file, pos, at, fs, t.tail);
  }

  /** One whole fragment further. */
  lemma {:induction false} MidwayStep(t: Target, pos: nat, at: nat, rest: Bytes, inFragmented: bool, scratch: Bytes)
    requires Midway(t, pos, at, rest, inFragmented, scratch)
    requires |t.file| - pos >= Pad(at) + KHeaderSize + |Upcoming(at, rest, inFragmented)[0].data|
    ensures var f := Upcoming(at, rest, inFragmented)[0];
            var pos' := pos + Pad(at) + KHeaderSize + |f.data|;
            if Ends(f.kind)
            then scratch + f.data == t.record && pos' == t.start + RecordSize(t.off, t.record) &&
                 After(at, f) == NextOff(t.off, t.record)
            else |f.data| <= |rest| && Midway(t, pos', After(at, f), rest[|f.data|..], true, scratch + f.data)
  {
    var fs := Upcoming(at, rest, inFragmented);
    UpcomingSplit(at, rest, inFragmented);
    if |fs| > 1 {
      var n := |fs[0].data|;
      HoldsRest(t.step, t.file, pos, at, fs, t.tail);
      Assoc(scratch, fs[0].data, rest[n..]);
    }
  }

  lemma {:induction false} UpcomingSplit(at: nat, rest: Bytes, inFragmented: bool)
    requires at <= KBlockSize
    ensures var fs := Upcoming(at, rest, inFragmented);
            var f := fs[0];
            if |fs| == 1
            then f.data == rest && RenderSize(at, fs) == Pad(at) + KHeaderSize + |f.data| &&
                 AfterAll(at, fs) == After(at, f)
            else
              && |f.data| <= |rest| && f.data + rest[|f.data|..] == rest
              && fs[1..] == Upcoming(After(at, f), rest[|f.data|..], true)
              && RenderSize(at, fs) == Pad(at) + KHeaderSize + |f.data| + RenderSize(After(at, f), fs[1..])
              && AfterAll(at, fs) == AfterAll(After(at, f), fs[1..])
  {
    var fs := Upcoming(at, rest, inFragmented);
    if |fs| == 1 {
      assert fs[1..] == [];
    }
  }

  predicate Ends(kind: Byte) {
    kind == KFullType || kind == KLastType
  }

  predicate Expected(kind: Byte, inFragmented: bool) {
    kind in if inFragmented then {KMiddleType, KLastType} else {KFullType, KFirstType}
  }

  /** What a physical read does that faces fragment `f`. */
  predicate Reads(file: Bytes, pos: int, off: nat, f: Fragment, physical: Physical, pos': int, base': int) {
    && off <= KBlockSize && Fits(off, f)
    && if |file| - pos >= Pad(off) + KHeaderSize + |f.data|
       then physical == Record(f.kind, f.data) && pos' == pos + Pad(off) + KHeaderSize + |f.data| &&
            At(After(off, f), pos', base')
       else physical == Eof
  }

  /** What a physical read does that is midway through a record. */
  predicate Advances(t: Target, inFragmented: bool, scratch: Bytes,
                     physical: Physical, pos': int, base': int, at': nat, rest': Bytes)
  {
    && t.off <= KBlockSize
    && if physical == Eof then |t.file| - t.start < RecordSize(t.off, t.record)
       else
         && physical.Record? && Expected(physical.kind, inFragmented) && At(at', pos', base') && pos' >= 0
         && if Ends(physical.kind)
            then scratch + physical.data == t.record && pos' == t.start + RecordSize(t.off, t.record) &&
                 at' == NextOff(t.off, t.record)
            else Midway(t, pos', at', rest', true, scratch + physical.data)
  }

  lemma {:induction false} MidwayNext(t: Target, pos: nat, at: nat, rest: Bytes, inFragmented: bool, scratch: Bytes,
                   physical: Physical, pos': int, base': int) returns (at': nat, rest': Bytes)
    requires Midway(t, pos, at, rest, inFragmented, scratch)
    requires Reads(t.file, pos, at, Upcoming(at, rest, inFragmented)[0], physical, pos', base')
    ensures Advances(t, inFragmented, scratch, physical, pos', base', at', rest')
  {
    var f := Upcoming(at, rest, inFragmented)[0];
    UpcomingSplit(at, rest, inFragmented);
    if physical == Eof {
      at', rest' := at, rest;
    } else {
      MidwayStep(t, pos, at, rest, inFragmented, scratch);
      at', rest' := After(at, f), rest[|f.data|..];
    }
  }

  datatype Outcome = More | End | Done(record: Bytes)

  /** What reading a record does that is poised on one: the record if all of it is
      there, and the end of the log if not. */
  predicate ReadsRecord(t: Target, outcome: Outcome, pos': int, base': int) {
    && t.off <= KBlockSize
    && if |t.file| - t.start >= RecordSize(t.off, t.record)
       then
         && outcome == Done(t.record)
         && pos' == t.start + RecordSize(t.off, t.record) && At(NextOff(t.off, t.record), pos', base')
       else outcome == End
  }

  /** Reading a cut-off log of `records` has come to `pos`, with `left` not read. */
  predicate Partway(step: CrcStep, file: Bytes, records: seq<Bytes>, read: seq<Bytes>, pos: int, off: nat,
                    left: seq<Bytes>) {
    && 0 <= pos <= |file| && off <= KBlockSize && file[pos..] <= Stream(step, off, left)
    && Whole(0, records, |file|) == read + Whole(off, left, |file| - pos)
  }

  /** The record that comes next, or any if none does. */
  lemma {:induction false} PartwayPoised(step: CrcStep, file: Bytes, records: seq<Bytes>, read: seq<Bytes>, pos: int,
                                         off: nat, left: seq<Bytes>)
    returns (t: Target)
    requires Partway(step, file, records, read, pos, off, left)
    ensures t.step == step && t.file == file && t.start == pos && t.off == off && (left != [] ==> t.record == left[0])
    ensures Poised(t)
  {
    var r := if left == [] then [] else left[0];
    FragmentsFit(off, r, true);
    t := Target(step, file, pos, off, r, if left == [] then [] else Stream(step, NextOff(off, r), left[1..]));
  }

  lemma {:induction false} PartwayNext(step: CrcStep, file: Bytes, records: seq<Bytes>, read: seq<Bytes>, pos: int,
                                       off: nat, left: seq<Bytes>,
                    t: Target, outcome: Outcome, pos': int, base': int) returns (off': nat, left': seq<Bytes>)
    requires Partway(step, file, records, read, pos, off, left)
    requires t.file == file && t.start == pos && t.off == off && (left != [] ==> t.record == left[0])
    requires ReadsRecord(t, outcome, pos', base') && pos' <= |file|
    ensures if outcome.Done? then Partway(step, file, records, read + [outcome.record], pos', off', left') &&
            At(off', pos', base')
            else read == Whole(0, records, |file|)
  {
    off', left' := off, left;
    if outcome.Done? {
      var r := t.record;
      assert left != [];
      off', left' := NextOff(off, r), left[1..];
      var n := |file| - pos;
      var w := Whole(off', left', n - RecordSize(off, r));
      assert Whole(off, left, n) == [r] + w;
      assert read + ([r] + w) == (read + [r]) + w;
      RecordBytesSize(step, off, r);
      PrefixDrop(file[pos..], RecordBytes(step, off, r), Stream(step, off', left'));
      assert file[pos..][RecordSize(off, r)..] == file[pos'..];
    } else {
      assert Whole(off, left, |file| - pos) == [];
    }
  }

  class Reader {
    const step: CrcStep
    const file: Bytes
    /** How much of the file has been read into buffers. */
    var filePos: nat
    var buffer: Bytes
    var eof: bool
    /** Reports made to the Reporter. */
    var corruptions: nat
    /** Where the block now in the buffer starts. */
    ghost var base: int

    ghost predicate Ok()
      reads this
    {
      && |buffer| <= filePos <= |file|
      && buffer == file[filePos - |buffer|..filePos]
      && base <= filePos - |buffer| && filePos <= base + KBlockSize
      && (!eof ==> filePos == base + KBlockSize)
      && (eof ==> filePos == |file|)
    }

    function Pos(): int
      reads this
    {
      filePos - |buffer|
    }

    constructor (step: CrcStep, file: Bytes)
      ensures Ok() && this.step == step && this.file == file
      ensures Pos() == 0 && At(0, 0, base) && corruptions == 0
    {
      this.step, this.file := step, file;
      this.filePos, this.buffer, this.eof, this.corruptions := 0, [], false, 0;
      this.base := 0 - KBlockSize;
    }

    /** Reads the next block; a short read means the end of the file. */
    method ReadBlock()
      requires Ok() && !eof
      modifies this`filePos, this`buffer, this`eof, this`base
      ensures Ok() && base == old(base) + KBlockSize == Pos()
      ensures eof ==> filePos == |file|
    {
      base := filePos;
      var n := if |file| - filePos < KBlockSize then |file| - filePos else KBlockSize;
      buffer := file[filePos..filePos + n];
      filePos := filePos + n;
      if n < KBlockSize {
        eof := true;
      }
    }

    /** Reader::ReadPhysicalRecord, on any file. Where the file goes on with a fragment
        of the writer, it returns that fragment if all of it is there, and the end of
        the file if not; either way nothing is reported. */
    method ReadPhysicalRecord(ghost off: nat, ghost f: Fragment, ghost tail: Bytes) returns (r: Physical)
      requires Ok()
      modifies this
      ensures Ok() && Pos() >= old(Pos()) && (r.Eof? || Pos() > old(Pos()))
      ensures old(Faces(step, file, Pos(), off, f, tail) && At(off, Pos(), base)) ==>
                corruptions == old(corruptions) && Reads(file, old(Pos()), off, f, r, Pos(), base)
    {
      ghost var p0 := Pos();
      ghost var good := Faces(step, file, p0, off, f, tail) && At(off, p0, base);
      var ended := FillBuffer(off);
      if ended {
        return Eof;
      }
      if good {
        FaceShows(step, file, p0, off, f, tail, buffer);
      }
      r := ParseBuffer(f);
    }

    /** The part of ReadPhysicalRecord that sees to it that the buffer holds a header:
        what is left of a block is a trailer to skip, what is left of the file is a torn
        header to ignore. */
    method FillBuffer(ghost off: nat) returns (ended: bool)
      requires Ok()
      modifies this`filePos, this`buffer, this`eof, this`base
      ensures Ok() && Pos() >= old(Pos()) && (ended <==> |buffer| < KHeaderSize)
      ensures old(At(off, Pos(), base)) ==>
                if ended then |file| - old(Pos()) < Pad(off) + KHeaderSize
                else Pos() == old(Pos()) + Pad(off) && Pos() - base == Home(off)
    {
      ghost var p0 := Pos();
      ghost var good := At(off, p0, base);
      while |buffer| < KHeaderSize
        invariant Ok() && Pos() >= p0
        invariant good ==> (Pos() == p0 && At(off, p0, base)) || (Pos() == p0 + Pad(off) && Pos() - base == Home(off))
        decreases !eof, |buffer| < KHeaderSize
      {
        if !eof {
          ReadBlock();
        } else {
          buffer := [];
          return true;
        }
      }
      ended := false;
    }

    /** The part of ReadPhysicalRecord that takes a header off the buffer. */
    method ParseBuffer(ghost f: Fragment) returns (r: Physical)
      requires Ok() && |buffer| >= KHeaderSize
      modifies this`buffer, this`corruptions
      ensures Ok() && (r.Eof? || Pos() > old(Pos())) && Pos() >= old(Pos())
      ensures Shows(step, old(buffer), f) && f.kind != 0 && (eof || KHeaderSize + |f.data| <= |old(buffer)|) ==>
                && corruptions == old(corruptions)
                && if KHeaderSize + |f.data| <= |old(buffer)|
                   then r == Record(f.kind, f.data) && Pos() == old(Pos()) + KHeaderSize + |f.data|
                   else r == Eof
    {
      var length := buffer[4] as int + buffer[5] as int * 256;
      var kind := buffer[6];
      if KHeaderSize + length > |buffer| {
        buffer := [];
        if !eof {
          corruptions := corruptions + 1;
          return BadRecord;
        }
        return Eof;
      }
      if kind == 0 && length == 0 {
        buffer := [];
        return BadRecord;
      }
      var expected := Unmask(DecodeFixed32(buffer));
      var actual := Extend(step, 0, buffer[6..KHeaderSize + length]);
      if actual != expected {
        buffer := [];
        corruptions := corruptions + 1;
        return BadRecord;
      }
      r := Record(kind, buffer[KHeaderSize..KHeaderSize + length]);
      buffer := buffer[KHeaderSize + length..];
    }

    /** Reader::ReadRecord, on any file. Where the file goes on with a record of the
        writer, it returns that record if all its fragments are there, and ends if not;
        either way nothing is reported. */
    method ReadRecord(ghost t: Target) returns (outcome: Outcome)
      requires Ok()
      modifies this
      ensures Ok() && !outcome.More? && Pos() >= old(Pos()) && (outcome.Done? ==> Pos() > old(Pos()))
      ensures old(Aimed(t) && Poised(t) && Pos() == t.start && At(t.off, Pos(), base)) ==>
                corruptions == old(corruptions) && ReadsRecord(t, outcome, Pos(), base)
    {
      ghost var p0, at, rest := Pos(), t.off, t.record;
      ghost var good := Aimed(t) && Poised(t) && p0 == t.start && At(t.off, p0, base);
      if good {
        MidwayStart(t);
      }
      var inFragmented, scratch := false, [];
      outcome := More;
      while outcome.More?
        invariant Ok() && Pos() >= p0 && (outcome.Done? ==> Pos() > p0)
        invariant good ==> corruptions == old(corruptions)
        invariant good ==>
                    if outcome.More? then Midway(t, Pos(), at, rest, inFragmented, scratch) && At(at, Pos(), base)
                           else ReadsRecord(t, outcome, Pos(), base)
        decreases outcome.More?, |file| - Pos()
      {
        outcome, inFragmented, scratch, at, rest := ReadMore(t, inFragmented, scratch, at, rest);
      }
    }

    /** One round of the loop of ReadRecord. */
    method ReadMore(ghost t: Target, inFragmented: bool, scratch: Bytes, ghost at: nat, ghost rest: Bytes)
      returns (outcome: Outcome, inFragmented': bool, scratch': Bytes, ghost at': nat, ghost rest': Bytes)
      requires Ok()
      modifies this
      ensures Ok() && Pos() >= old(Pos()) && (outcome.End? || Pos() > old(Pos()))
      ensures old(Aimed(t) && Midway(t, Pos(), at, rest, inFragmented, scratch) && At(at, Pos(), base)) ==>
                && corruptions == old(corruptions)
                && if outcome.More? then Midway(t, Pos(), at', rest', inFragmented', scratch') && At(at', Pos(), base)
                   else ReadsRecord(t, outcome, Pos(), base)
    {
      var physical;
      physical, at', rest' := ReadFragment(t, at, rest, inFragmented, scratch);
      if physical == Eof {
        return End, false, [], at, rest;
      }
      outcome, inFragmented', scratch' := Assemble(physical, inFragmented, scratch);
    }

    /** The reader reads the file of `t`. */
    ghost predicate Aimed(t: Target) {
      t.step == step && t.file == file
    }

    /** ReadPhysicalRecord, seen from within a record. */
    method ReadFragment(ghost t: Target, ghost at: nat, ghost rest: Bytes, ghost inFragmented: bool,
                        ghost scratch: Bytes)
      returns (physical: Physical, ghost at': nat, ghost rest': Bytes)
      requires Ok()
      modifies this
      ensures Ok() && Pos() >= old(Pos()) && (physical.Eof? || Pos() > old(Pos()))
      ensures old(Aimed(t) && Midway(t, Pos(), at, rest, inFragmented, scratch) && At(at, Pos(), base)) ==>
                && corruptions == old(corruptions)
                && Advances(t, inFragmented, scratch, physical, Pos(), base, at', rest')
    {
      ghost var p1 := Pos();
      ghost var good := Aimed(t) && Midway(t, p1, at, rest, inFragmented, scratch) && At(at, p1, base);
      ghost var f, after := Fragment(1, []), [];
      if good {
        f, after := MidwayHead(t, p1, at, rest, inFragmented, scratch);
      }
      physical := ReadPhysicalRecord(at, f, after);
      at', rest' := at, rest;
      if good {
        at', rest' := MidwayNext(t, p1, at, rest, inFragmented, scratch, physical, Pos(), base);
      }
    }

    /** What ReadRecord does with one physical record. */
    method Assemble(physical: Physical, inFragmented: bool, scratch: Bytes)
      returns (outcome: Outcome, inFragmented': bool, scratch': Bytes)
      requires physical != Eof
      modifies this`corruptions
      ensures !outcome.End?
      ensures (inFragmented || scratch == []) && physical.Record? && Expected(physical.kind, inFragmented) ==>
                && corruptions == old(corruptions)
                && if Ends(physical.kind) then outcome == Done(scratch + physical.data)
                   else outcome == More && inFragmented' && scratch' == scratch + physical.data
    {
      outcome, inFragmented', scratch' := More, inFragmented, scratch;
      match physical {
        case BadRecord =>
          if inFragmented {
            corruptions := corruptions + 1;
            inFragmented', scratch' := false, [];
          }
        case Record(kind, fragment) =>
          if kind == KFullType {
            if inFragmented && scratch != [] {
              corruptions := corruptions + 1;
            }
            outcome := Done(fragment);
          } else if kind == KFirstType {
            if inFragmented && scratch != [] {
              corruptions := corruptions + 1;
            }
            inFragmented', scratch' := true, fragment;
          } else if kind == KMiddleType {
            if !inFragmented {
              corruptions := corruptions + 1;
            } else {
              scratch' := scratch + fragment;
            }
          } else if kind == KLastType {
            if !inFragmented {
              corruptions := corruptions + 1;
            } else {
              outcome := Done(scratch + fragment);
            }
          } else {
            corruptions := corruptions + 1;
            inFragmented', scratch' := false, [];
          }
      }
    }
  }

  /** Reads a log to its end, as recovery does. A log written from empty and cut
      anywhere gives back exactly the records that lie wholly before the cut. */
  method ReadAll(step: CrcStep, file: Bytes, ghost records: seq<Bytes>) returns (read: seq<Bytes>, corruptions: nat)
    ensures file <= Stream(step, 0, records) ==> read == Whole(0, records, |file|) && corruptions == 0
  {
    var reader := new Reader(step, file);
    ghost var good := file <= Stream(step, 0, records);
    ghost var left := records;
    ghost var off: nat := 0;
    read := [];
    while true
      invariant fresh(reader) && reader.Ok() && reader.step == step && reader.file == file && off <= KBlockSize
      invariant good ==>
                  && reader.corruptions == 0 && At(off, reader.Pos(), reader.base)
                  && Partway(step, file, records, read, reader.Pos(), off, left)
      decreases |file| - reader.Pos()
    {
      ghost var t := Target(step, file, 0, 0, [], []);
      if good {
        t := PartwayPoised(step, file, records, read, reader.Pos(), off, left);
      }
      ghost var p := reader.Pos();
      var outcome := reader.ReadRecord(t);
      if good {
        off, left := PartwayNext(step, file, records, read, p, off, left, t, outcome, reader.Pos(), reader.base);
      }
      if outcome == End {
        return read, reader.corruptions;
      }
      read := read + [outcome.record];
    }
  }

  /** Nothing is lost from a log that was not cut. */
  lemma {:induction false} WholeLog(step: CrcStep, off: nat, records: seq<Bytes>)
    requires off <= KBlockSize
    ensures Whole(off, records, |Stream(step, off, records)|) == records
    decreases |records|
  {
    if records != [] {
      RecordBytesSize(step, off, records[0]);
      WholeLog(step, NextOff(off, records[0]), records[1..]);
    }
  }

  /** A cut anywhere leaves a prefix of the records. */
  lemma {:induction false} WholePrefix(off: nat, records: seq<Bytes>, t: nat)
    requires off <= KBlockSize
    ensures Whole(off, records, t) <= records
    decreases |records|
  {
    if records != [] && RecordSize(off, records[0]) <= t {
      WholePrefix(NextOff(off, records[0]), records[1..], t - RecordSize(off, records[0]));
    }
  }
}
