/** The log: records cut into fragments that never cross a block boundary. */
module Log {
  import opened Keys
  import Arith
  import Fixed

  type Bytes = seq<Byte>

  const HEADER_SIZE: nat := 9

  datatype RecordType = Full | First | Middle | Last

  function TypeByte(t: RecordType): Byte {
    match t
    case Full => 1
    case First => 2
    case Middle => 3
    case Last => 4
  }

  function TypeOf(first: bool, last: bool): RecordType {
    if first && last then Full
    else if first then First
    else if last then Last
    else Middle
  }

  /** Checksum, length, type. */
  function Header(crc: Bytes -> nat, t: RecordType, data: Bytes): (r: Bytes)
    ensures |r| == HEADER_SIZE
  {
    Fixed.Encode(crc(data), 4) + Fixed.Encode(|data|, 4) + [TypeByte(t)]
  }

  ghost predicate CrcOk(crc: Bytes -> nat) {
    forall b :: crc(b) < U32
  }

  function Zeros(n: nat): Bytes {
    seq(n, _ => 0)
  }

  // ---- writing ----

  datatype Written = Written(bytes: Bytes, offset: nat)

  /** A fragment is written at the offset, or in the next block if no header fits. */
  function Start(size: nat, offset: nat): (o: nat)
    requires offset <= size && size > HEADER_SIZE
    ensures o + HEADER_SIZE <= size
  {
    if size - offset < HEADER_SIZE then 0 else offset
  }

  /** The rest of a block that has no room for a header is filled with zeros. */
  function Padding(size: nat, offset: nat): Bytes
    requires offset <= size && size > HEADER_SIZE
  {
    if size - offset < HEADER_SIZE then Zeros(size - offset) else []
  }

  /** How much of the record goes into the next fragment: all of it or what fills the block, so nothing if
      only a header fits. */
  function FragmentLen(size: nat, offset: nat, record: Bytes): (n: nat)
    requires offset <= size && size > HEADER_SIZE
    ensures n <= |record| && Start(size, offset) + HEADER_SIZE + n <= size
    ensures record != [] && n == 0 ==> offset + HEADER_SIZE == size
  {
    var avail := size - Start(size, offset) - HEADER_SIZE;
    if |record| < avail then |record| else avail
  }

  function Fragment(crc: Bytes -> nat, size: nat, offset: nat, record: Bytes, first: bool): Bytes
    requires offset <= size && size > HEADER_SIZE
  {
    var n := FragmentLen(size, offset, record);
    Padding(size, offset) + Header(crc, TypeOf(first, n == |record|), record[..n]) + record[..n]
  }

  /** What is written for the rest of a record, and the block offset after it. */
  function Fragments(crc: Bytes -> nat, size: nat, offset: nat, record: Bytes, first: bool): (w: Written)
    requires offset <= size && size > HEADER_SIZE
    ensures w.offset <= size
    decreases |record|, size - offset
  {
    if record == [] then Written([], offset)
    else
      var n := FragmentLen(size, offset, record);
      var rest := Fragments(crc, size, Start(size, offset) + HEADER_SIZE + n, record[n..], false);
      Written(Fragment(crc, size, offset, record, first) + rest.bytes, rest.offset)
  }

  /** Blocks are filled: a fragment that does not end its record ends its block, and padding is shorter than a
      header, zero, and ends the block too. */
  lemma BlocksAreFilled(size: nat, offset: nat, record: Bytes)
    requires offset <= size && size > HEADER_SIZE
    ensures var n, pad := FragmentLen(size, offset, record), Padding(size, offset);
            && (n == |record| || Start(size, offset) + HEADER_SIZE + n == size)
            && |pad| < HEADER_SIZE && (forall i :: 0 <= i < |pad| ==> pad[i] == 0)
            && (pad != [] ==> offset + |pad| == size && Start(size, offset) == 0)
  {
  }

  lemma FragmentsNone(crc: Bytes -> nat, size: nat)
    requires size > HEADER_SIZE
    ensures forall offset: nat, first :: offset <= size ==>
              Fragments(crc, size, offset, [], first) == Written([], offset)
  {
  }

  lemma FragmentsStep(crc: Bytes -> nat, size: nat, offset: nat, record: Bytes, first: bool)
    requires offset <= size && size > HEADER_SIZE && record != []
    ensures var n := FragmentLen(size, offset, record);
            var rest := Fragments(crc, size, Start(size, offset) + HEADER_SIZE + n, record[n..], false);
            Fragments(crc, size, offset, record, first) ==
            Written(Fragment(crc, size, offset, record, first) + rest.bytes, rest.offset)
  {
  }

  function WriteAll(crc: Bytes -> nat, size: nat, offset: nat, records: seq<Bytes>): (w: Written)
    requires offset <= size && size > HEADER_SIZE
    ensures w.offset <= size
    decreases records
  {
    if records == [] then Written([], offset)
    else
      var w := Fragments(crc, size, offset, records[0], true);
      var rest := WriteAll(crc, size, w.offset, records[1..]);
      Written(w.bytes + rest.bytes, rest.offset)
  }

  class LogWriter {
    const crc: Bytes -> nat
    const blockSize: nat
    var dst: Bytes
    var currentBlockOffset: nat

    predicate Valid()
      reads this
    {
      currentBlockOffset <= blockSize && blockSize > HEADER_SIZE
    }

    /** `new_with_off`; `new` is the case of offset 0. */
    constructor (crc: Bytes -> nat, blockSize: nat, dst: Bytes, off: nat)
      requires blockSize > HEADER_SIZE
      ensures Valid() && this.crc == crc && this.blockSize == blockSize && this.dst == dst
      ensures currentBlockOffset == off % blockSize
    {
      this.crc, this.blockSize, this.dst, currentBlockOffset := crc, blockSize, dst, off % blockSize;
    }

    method EmitRecord(t: RecordType, data: Bytes, len: nat) returns (offset: nat)
      requires len <= |data|
      modifies this
      ensures dst == old(dst) + Header(crc, t, data[..len]) + data[..len] && offset == HEADER_SIZE + len
      ensures currentBlockOffset == old(currentBlockOffset) + offset
    {
      var header := Header(crc, t, data[..len]);
      offset := 0;
      dst, offset := dst + header, offset + |header|;
      dst, offset := dst + data[..len], offset + len;
      currentBlockOffset := currentBlockOffset + offset;
    }

    /** One round of `add_record`: padding if needed, then a fragment. */
    method AddFragment(record: Bytes, first: bool) returns (len: nat, n: nat)
      requires Valid()
      modifies this
      ensures Valid() && n == FragmentLen(blockSize, old(currentBlockOffset), record)
      ensures dst == old(dst) + Fragment(crc, blockSize, old(currentBlockOffset), record, first)
      ensures currentBlockOffset == Start(blockSize, old(currentBlockOffset)) + HEADER_SIZE + n && len > 0
    {
      hide Header;
      var spaceLeft := blockSize - currentBlockOffset;
      if spaceLeft < HEADER_SIZE {
        if spaceLeft > 0 {
          dst := dst + Zeros(spaceLeft);
        }
        currentBlockOffset := 0;
      }
      assert dst == old(dst) + Padding(blockSize, old(currentBlockOffset));
      var availForData := blockSize - currentBlockOffset - HEADER_SIZE;
      n := if |record| < availForData then |record| else availForData;
      len := EmitRecord(TypeOf(first, n == |record|), record, n);
    }

    method AddRecord(r: Bytes) returns (len: nat)
      requires Valid()
      modifies this
      ensures Valid()
      ensures var w := Fragments(crc, blockSize, old(currentBlockOffset), r, true);
              dst == old(dst) + w.bytes && currentBlockOffset == w.offset
      ensures len > 0 <==> r != []
    {
      hide Fragment, FragmentLen, Fragments;
      FragmentsNone(crc, blockSize);
      var record := r;
      len := 0;
      ghost var all := Fragments(crc, blockSize, currentBlockOffset, r, true);
      ghost var done: Bytes := [];
      while record != []
        invariant Valid() && dst == old(dst) + done && (len == 0 ==> record == r) && (r == [] ==> len == 0)
        invariant var w := Fragments(crc, blockSize, currentBlockOffset, record, len == 0);
                  all.bytes == done + w.bytes && all.offset == w.offset
        decreases |record|, blockSize - currentBlockOffset
      {
        FragmentsStep(crc, blockSize, currentBlockOffset, record, len == 0);
        done := done + Fragment(crc, blockSize, currentBlockOffset, record, len == 0);
        var n;
        len, n := AddFragment(record, len == 0);
        record := record[n..];
      }
    }
  }

  // ---- reading ----

  datatype Outcome =
    | Done(data: Bytes, rest: Bytes, offset: nat)
    | CrcMismatch
    | UnexpectedEof
    | Panic
    | Stuck

  /** What stands at the head of the bytes: nothing, an incomplete or faulty fragment, or one with
      its data, the bytes behind it and whether it ends its record. */
  datatype Piece = Nothing | Faulty(why: Outcome) | Piece(data: Bytes, rest: Bytes, last: bool)

  /** A partial header makes the source spin (`Stuck`). */
  function Parse(crc: Bytes -> nat, here: Bytes): (p: Piece)
    ensures p.Piece? ==> |p.rest| + HEADER_SIZE + |p.data| == |here|
    ensures p.Faulty? ==> !p.why.Done?
  {
    if here == [] then Nothing
    else if |here| < HEADER_SIZE then Faulty(Stuck)
    else
      var len := Fixed.Decode(here[4..8]);
      if |here| < HEADER_SIZE + len then Faulty(UnexpectedEof)
      else
        var data := here[HEADER_SIZE..HEADER_SIZE + len];
        if crc(data) != Fixed.Decode(here[..4]) then Faulty(CrcMismatch)
        else if !(1 <= here[8] <= 4) then Faulty(Panic)
        else Piece(data, here[HEADER_SIZE + len..], here[8] == 1 || here[8] == 4)
  }

  /** A block with no room for a header is left. */
  function Skipped(size: nat, src: Bytes, offset: nat): (here: Bytes)
    requires offset <= size
    ensures |here| <= |src|
  {
    var left := size - offset;
    if left >= HEADER_SIZE then src else if left <= |src| then src[left..] else []
  }

  /** One `read`, from the bytes not yet consumed; `acc` is what earlier fragments gave. */
  function Read(crc: Bytes -> nat, size: nat, src: Bytes, offset: nat, acc: Bytes): (o: Outcome)
    requires size > HEADER_SIZE
    ensures o.Done? ==> |o.rest| <= |src| && |o.data| >= |acc| && (|o.data| > |acc| ==> |o.rest| < |src|)
    decreases |src|
  {
    if offset > size then Panic
    else
      var start := Start(size, offset);
      match Parse(crc, Skipped(size, src, offset))
      case Nothing => Done(acc, [], start)
      case Faulty(why) => why
      case Piece(data, rest, last) =>
        var next := start + HEADER_SIZE + |data|;
        if last then Done(acc + data, rest, next) else Read(crc, size, rest, next, acc + data)
  }

  lemma ReadStep(crc: Bytes -> nat, size: nat, src: Bytes, offset: nat, acc: Bytes)
    requires size > HEADER_SIZE
    ensures offset > size ==> Read(crc, size, src, offset, acc) == Panic
    ensures offset <= size ==>
              Read(crc, size, src, offset, acc) ==
              match Parse(crc, Skipped(size, src, offset))
              case Nothing => Done(acc, [], Start(size, offset))
              case Faulty(why) => why
              case Piece(data, rest, last) =>
                var next := Start(size, offset) + HEADER_SIZE + |data|;
                if last then Done(acc + data, rest, next) else Read(crc, size, rest, next, acc + data)
  {
  }

  class LogReader {
    const crc: Bytes -> nat
    const blockSize: nat
    const src: Bytes
    var pos: nat
    var offset: nat

    /** The bytes not yet consumed; a seek may go past the end. */
    function Rest(): Bytes
      reads this
    {
      if pos <= |src| then src[pos..] else []
    }

    constructor (crc: Bytes -> nat, blockSize: nat, src: Bytes)
      requires blockSize > HEADER_SIZE
      ensures this.crc == crc && this.blockSize == blockSize && this.src == src && offset == 0 && Rest() == src
    {
      this.crc, this.blockSize, this.src, pos, offset := crc, blockSize, src, 0, 0;
    }

    /** One `read`. */
    method ReadRecord() returns (r: Outcome)
      requires blockSize > HEADER_SIZE
      modifies this
      ensures r == Read(crc, blockSize, old(Rest()), old(offset), [])
      ensures r.Done? ==> Rest() == r.rest && offset == r.offset
    {
      hide Rest, Read, Parse, Skipped, Start;
      var dst: Bytes := [];
      ghost var goal := Read(crc, blockSize, Rest(), offset, []);
      while true
        invariant Read(crc, blockSize, Rest(), offset, dst) == goal
        decreases |Rest()|
      {
        ReadStep(crc, blockSize, Rest(), offset, dst);
        if offset > blockSize {
          return Panic;
        }
        SkipBlock();
        var piece := TakePiece();
        match piece {
          case Nothing =>
            return Done(dst, [], offset);
          case Faulty(why) =>
            return why;
          case Piece(data, rest, last) =>
            dst := dst + data;
            if last {
              return Done(dst, rest, offset);
            }
        }
      }
    }

    /** Seeks over the end of a block that has no room for a header. */
    method SkipBlock()
      requires offset <= blockSize && blockSize > HEADER_SIZE
      modifies this
      ensures Rest() == Skipped(blockSize, old(Rest()), old(offset)) && offset == Start(blockSize, old(offset))
    {
      var leftover := blockSize - offset;
      if leftover < HEADER_SIZE {
        pos, offset := pos + leftover, 0;
      }
    }

    /** Reads a header and its data. */
    method TakePiece() returns (p: Piece)
      modifies this
      ensures p == Parse(crc, old(Rest()))
      ensures p.Piece? ==> Rest() == p.rest && offset == old(offset) + HEADER_SIZE + |p.data|
      ensures p.Nothing? ==> Rest() == [] && offset == old(offset)
    {
      var here := Rest();
      if here == [] {
        return Nothing;
      }
      if |here| < HEADER_SIZE {
        return Faulty(Stuck);
      }
      var crcValue, length := Fixed.Decode(here[..4]), Fixed.Decode(here[4..8]);
      if |here| < HEADER_SIZE + length {
        return Faulty(UnexpectedEof);
      }
      var buf := here[HEADER_SIZE..HEADER_SIZE + length];
      pos, offset := pos + HEADER_SIZE + length, offset + HEADER_SIZE + length;
      assert Rest() == here[HEADER_SIZE + length..];
      if crc(buf) != crcValue {
        return Faulty(CrcMismatch);
      }
      var t := here[8];
      if t < 1 || t > 4 {
        return Faulty(Panic);
      }
      return Piece(buf, Rest(), t == 1 || t == 4);
    }
  }

  // ---- headers ----

  lemma FixedU32(n: nat)
    requires n < U32
    ensures Fixed.Decode(Fixed.Encode(n, 4)) == n
  {
    Fixed.RoundTrip(n, 4);
    assert Fixed.Limit(2) == 0x1_0000 && Fixed.Limit(3) == 0x100_0000 && Fixed.Limit(4) == U32;
  }

  lemma HeaderParts(crc: Bytes -> nat, t: RecordType, data: Bytes)
    requires CrcOk(crc) && |data| < U32
    ensures var h := Header(crc, t, data);
            Fixed.Decode(h[..4]) == crc(data) && Fixed.Decode(h[4..8]) == |data| && h[8] == TypeByte(t)
  {
    var h := Header(crc, t, data);
    FixedU32(crc(data));
    FixedU32(|data|);
    assert h[..4] == Fixed.Encode(crc(data), 4) && h[4..8] == Fixed.Encode(|data|, 4);
  }

  lemma SkipPadding(size: nat, offset: nat, tail: Bytes)
    requires offset <= size && size > HEADER_SIZE
    ensures Skipped(size, Padding(size, offset) + tail, offset) == tail
  {
  }

  // ---- records altered on disk ----

  /** A fragment whose header was written for `record` and whose data is `altered` now. */
  function AlteredFragment(crc: Bytes -> nat, size: nat, offset: nat, record: Bytes, altered: Bytes, first: bool): Bytes
    requires offset <= size && size > HEADER_SIZE && |altered| == |record|
  {
    var n := FragmentLen(size, offset, record);
    Padding(size, offset) + Header(crc, TypeOf(first, n == |record|), record[..n]) + altered[..n]
  }

  /** What `Fragments` wrote, with the data of `altered` in place of the record's. */
  function AlteredFragments(crc: Bytes -> nat, size: nat, offset: nat, record: Bytes, altered: Bytes, first: bool)
    : (w: Written)
    requires offset <= size && size > HEADER_SIZE && |altered| == |record|
    ensures w.offset <= size
    decreases |record|, size - offset
  {
    if record == [] then Written([], offset)
    else
      var n := FragmentLen(size, offset, record);
      var next := Start(size, offset) + HEADER_SIZE + n;
      var rest := AlteredFragments(crc, size, next, record[n..], altered[n..], false);
      Written(AlteredFragment(crc, size, offset, record, altered, first) + rest.bytes, rest.offset)
  }

  /** Some fragment's data no longer has the checksum stored for it. */
  predicate Detectable(crc: Bytes -> nat, size: nat, offset: nat, record: Bytes, altered: Bytes)
    requires offset <= size && size > HEADER_SIZE && |altered| == |record|
    decreases |record|, size - offset
  {
    record != [] &&
    var n := FragmentLen(size, offset, record);
    crc(altered[..n]) != crc(record[..n]) ||
    Detectable(crc, size, Start(size, offset) + HEADER_SIZE + n, record[n..], altered[n..])
  }

  lemma ParseAltered(crc: Bytes -> nat, t: RecordType, data: Bytes, altered: Bytes, tail: Bytes)
    requires CrcOk(crc) && |altered| == |data| < U32
    ensures Parse(crc, Header(crc, t, data) + altered + tail) ==
            if crc(altered) != crc(data) then Faulty(CrcMismatch) else Piece(altered, tail, t == Full || t == Last)
  {
    var h := Header(crc, t, data);
    var here := h + altered + tail;
    HeaderParts(crc, t, data);
    assert here[..4] == h[..4] && here[4..8] == h[4..8] && here[8] == h[8];
    assert here[HEADER_SIZE..HEADER_SIZE + |data|] == altered && here[HEADER_SIZE + |data|..] == tail;
  }

  lemma ReadAlteredFragment(crc: Bytes -> nat, size: nat, offset: nat, record: Bytes, altered: Bytes, first: bool,
                            tail: Bytes, acc: Bytes)
    requires CrcOk(crc) && offset <= size && size > HEADER_SIZE && record != [] && |altered| == |record|
    requires |record| < U32 || size - HEADER_SIZE < U32
    ensures var n := FragmentLen(size, offset, record);
            var next := Start(size, offset) + HEADER_SIZE + n;
            Read(crc, size, AlteredFragment(crc, size, offset, record, altered, first) + tail, offset, acc) ==
            if crc(altered[..n]) != crc(record[..n]) then CrcMismatch
            else if n == |record| then Done(acc + altered, tail, next)
            else Read(crc, size, tail, next, acc + altered[..n])
  {
    hide Parse, Skipped, Header, Padding;
    var n := FragmentLen(size, offset, record);
    var pad, t, data := Padding(size, offset), TypeOf(first, n == |record|), record[..n];
    var here := Header(crc, t, data) + altered[..n] + tail;
    assert AlteredFragment(crc, size, offset, record, altered, first) + tail == pad + here;
    SkipPadding(size, offset, here);
    ParseAltered(crc, t, data, altered[..n], tail);
    assert n == |record| ==> altered[..n] == altered;
  }

  lemma AlteredStep(crc: Bytes -> nat, size: nat, offset: nat, record: Bytes, altered: Bytes, first: bool)
    requires offset <= size && size > HEADER_SIZE && record != [] && |altered| == |record|
    ensures var n := FragmentLen(size, offset, record);
            var next := Start(size, offset) + HEADER_SIZE + n;
            var rest := AlteredFragments(crc, size, next, record[n..], altered[n..], false);
            && AlteredFragments(crc, size, offset, record, altered, first) ==
               Written(AlteredFragment(crc, size, offset, record, altered, first) + rest.bytes, rest.offset)
            && (Detectable(crc, size, offset, record, altered) <==>
                crc(altered[..n]) != crc(record[..n]) || Detectable(crc, size, next, record[n..], altered[n..]))
  {
  }

  lemma AlteredNone(crc: Bytes -> nat, size: nat, offset: nat, first: bool)
    requires offset <= size && size > HEADER_SIZE
    ensures AlteredFragments(crc, size, offset, [], [], first) == Written([], offset)
    ensures !Detectable(crc, size, offset, [], [])
  {
  }

  /** Reading a record whose data was altered on disk reports the checksum exactly if some fragment's
      checksum tells; otherwise it gives the altered data. */
  lemma {:induction false} ReadAltered(crc: Bytes -> nat, size: nat, offset: nat, record: Bytes, altered: Bytes,
                                       first: bool, tail: Bytes, acc: Bytes)
    requires CrcOk(crc) && offset <= size && size > HEADER_SIZE && record != [] && |altered| == |record|
    requires |record| < U32 || size - HEADER_SIZE < U32
    ensures var w := AlteredFragments(crc, size, offset, record, altered, first);
            Read(crc, size, w.bytes + tail, offset, acc) ==
            if Detectable(crc, size, offset, record, altered) then CrcMismatch
            else Done(acc + altered, tail, w.offset)
    decreases |record|, size - offset
  {
    hide Read, AlteredFragment, AlteredFragments, FragmentLen, Detectable;
    var n := FragmentLen(size, offset, record);
    var next := Start(size, offset) + HEADER_SIZE + n;
    var f := AlteredFragment(crc, size, offset, record, altered, first);
    var rest := AlteredFragments(crc, size, next, record[n..], altered[n..], false);
    AlteredStep(crc, size, offset, record, altered, first);
    assert f + rest.bytes + tail == f + (rest.bytes + tail);
    ReadAlteredFragment(crc, size, offset, record, altered, first, rest.bytes + tail, acc);
    if n == |record| {
      assert record[n..] == [] && altered[n..] == [];
      AlteredNone(crc, size, next, false);
    } else {
      ReadAltered(crc, size, next, record[n..], altered[n..], false, tail, acc + altered[..n]);
      assert acc + altered[..n] + altered[n..] == acc + altered;
    }
  }

  /** Such bytes of an unaltered record are the written ones. */
  lemma {:induction false} UnalteredIsWritten(crc: Bytes -> nat, size: nat, offset: nat, record: Bytes, first: bool)
    requires offset <= size && size > HEADER_SIZE
    ensures AlteredFragments(crc, size, offset, record, record, first) == Fragments(crc, size, offset, record, first)
    ensures !Detectable(crc, size, offset, record, record)
    decreases |record|, size - offset
  {
    if record != [] {
      var n := FragmentLen(size, offset, record);
      UnalteredIsWritten(crc, size, Start(size, offset) + HEADER_SIZE + n, record[n..], false);
    }
  }

  // ---- round trip ----

  /** Reading a written record gives it back and leaves reader and writer at the same offset. */
  lemma ReadBack(crc: Bytes -> nat, size: nat, offset: nat, record: Bytes, first: bool, tail: Bytes, acc: Bytes)
    requires CrcOk(crc) && offset <= size && size > HEADER_SIZE && record != []
    requires |record| < U32 || size - HEADER_SIZE < U32
    ensures var w := Fragments(crc, size, offset, record, first);
            Read(crc, size, w.bytes + tail, offset, acc) == Done(acc + record, tail, w.offset)
  {
    hide *;
    UnalteredIsWritten(crc, size, offset, record, first);
    ReadAltered(crc, size, offset, record, record, first, tail, acc);
  }

  // ---- torn records ----

  /** What reading gives if only the first `m` bytes of a written record are there: short of a fragment
      the data read so far, as if complete; inside a header the reader spins; inside data it fails. */
  function Torn(size: nat, offset: nat, record: Bytes, m: nat, acc: Bytes): Outcome
    requires offset <= size && size > HEADER_SIZE
    decreases |record|, size - offset
  {
    var pad, n := |Padding(size, offset)|, FragmentLen(size, offset, record);
    if record == [] || m <= pad then Done(acc, [], Start(size, offset))
    else if m < pad + HEADER_SIZE then Stuck
    else if m < pad + HEADER_SIZE + n then UnexpectedEof
    else
      Torn(size, Start(size, offset) + HEADER_SIZE + n, record[n..], m - pad - HEADER_SIZE - n, acc + record[..n])
  }

  lemma FragmentParts(crc: Bytes -> nat, size: nat, offset: nat, record: Bytes, first: bool)
    requires offset <= size && size > HEADER_SIZE
    ensures var n, pad := FragmentLen(size, offset, record), Padding(size, offset);
            var h := Header(crc, TypeOf(first, n == |record|), record[..n]);
            && Fragment(crc, size, offset, record, first) == pad + (h + record[..n]) && |h| == HEADER_SIZE
            && |Fragment(crc, size, offset, record, first)| == |pad| + HEADER_SIZE + n
  {
  }

  /** A prefix of the bytes behind the padding is what stands at the reader. */
  lemma SkipTorn(size: nat, offset: nat, here: Bytes, m: nat)
    requires offset <= size && size > HEADER_SIZE && m <= |Padding(size, offset)| + |here|
    ensures var pad := Padding(size, offset);
            Skipped(size, (pad + here)[..m], offset) == if m <= |pad| then [] else here[..m - |pad|]
  {
  }

  lemma ParseTorn(crc: Bytes -> nat, t: RecordType, data: Bytes, m: nat)
    requires CrcOk(crc) && |data| < U32 && m < HEADER_SIZE + |data|
    ensures Parse(crc, (Header(crc, t, data) + data)[..m]) ==
            if m == 0 then Nothing else if m < HEADER_SIZE then Faulty(Stuck) else Faulty(UnexpectedEof)
  {
    var h := Header(crc, t, data);
    var here := (h + data)[..m];
    HeaderParts(crc, t, data);
    if m >= HEADER_SIZE {
      assert here[4..8] == h[4..8];
    }
  }

  lemma ReadTornFragment(crc: Bytes -> nat, size: nat, offset: nat, record: Bytes, first: bool, m: nat, acc: Bytes)
    requires CrcOk(crc) && offset <= size && size > HEADER_SIZE && record != []
    requires |record| < U32 || size - HEADER_SIZE < U32
    requires m < |Padding(size, offset)| + HEADER_SIZE + FragmentLen(size, offset, record)
    ensures m <= |Fragment(crc, size, offset, record, first)|
    ensures Read(crc, size, Fragment(crc, size, offset, record, first)[..m], offset, acc) ==
            Torn(size, offset, record, m, acc)
  {
    hide Parse, Skipped, Header, Padding, Fragment;
    var n, pad := FragmentLen(size, offset, record), Padding(size, offset);
    var t, data := TypeOf(first, n == |record|), record[..n];
    FragmentParts(crc, size, offset, record, first);
    SkipTorn(size, offset, Header(crc, t, data) + data, m);
    ParseTorn(crc, t, data, if m <= |pad| then 0 else m - |pad|);
    assert (Header(crc, t, data) + data)[..0] == [];
  }

  lemma ReadWholeFragment(crc: Bytes -> nat, size: nat, offset: nat, record: Bytes, first: bool, tail: Bytes,
                          acc: Bytes)
    requires CrcOk(crc) && offset <= size && size > HEADER_SIZE && record != []
    requires |record| < U32 || size - HEADER_SIZE < U32
    ensures var n := FragmentLen(size, offset, record);
            var next := Start(size, offset) + HEADER_SIZE + n;
            n < |record| ==>
              Read(crc, size, Fragment(crc, size, offset, record, first) + tail, offset, acc) ==
              Read(crc, size, tail, next, acc + record[..n])
  {
    hide Read;
    ReadAlteredFragment(crc, size, offset, record, record, first, tail, acc);
  }

  lemma TakeFrom(a: Bytes, b: Bytes, m: nat)
    requires m <= |a| + |b|
    ensures (a + b)[..m] == if m <= |a| then a[..m] else a + b[..m - |a|]
  {
  }

  /** Reading a record of which only the first `m` bytes were written. */
  lemma {:induction false} ReadTorn(crc: Bytes -> nat, size: nat, offset: nat, record: Bytes, first: bool, m: nat,
                                    acc: Bytes)
    requires CrcOk(crc) && offset <= size && size > HEADER_SIZE && record != []
    requires |record| < U32 || size - HEADER_SIZE < U32
    requires m < |Fragments(crc, size, offset, record, first).bytes|
    ensures Read(crc, size, Fragments(crc, size, offset, record, first).bytes[..m], offset, acc) ==
            Torn(size, offset, record, m, acc)
    decreases |record|, size - offset
  {
    hide Read, Fragment, Fragments, FragmentLen, Padding, Header;
    var n, pad := FragmentLen(size, offset, record), Padding(size, offset);
    var next := Start(size, offset) + HEADER_SIZE + n;
    var f, rest := Fragment(crc, size, offset, record, first), Fragments(crc, size, next, record[n..], false);
    FragmentsStep(crc, size, offset, record, first);
    FragmentParts(crc, size, offset, record, first);
    TakeFrom(f, rest.bytes, m);
    if n == |record| {
      assert record[n..] == [];
      FragmentsNone(crc, size);
    }
    if m < |f| {
      ReadTornFragment(crc, size, offset, record, first, m, acc);
    } else {
      ReadWholeFragment(crc, size, offset, record, first, rest.bytes[..m - |f|], acc);
      assert f[..|f|] == f && f + [] == f;
      ReadTorn(crc, size, next, record[n..], false, m - |f|, acc + record[..n]);
    }
  }

  // ---- whole logs ----

  /** The loader's loop: records until a read gives nothing. */
  function ReadAll(crc: Bytes -> nat, size: nat, src: Bytes, offset: nat): seq<Bytes>
    requires size > HEADER_SIZE
    decreases |src|
  {
    var o := Read(crc, size, src, offset, []);
    if o.Done? && o.data != [] then [o.data] + ReadAll(crc, size, o.rest, o.offset) else []
  }

  function NonEmpty(records: seq<Bytes>): seq<Bytes> {
    if records == [] then []
    else if records[0] == [] then NonEmpty(records[1..])
    else [records[0]] + NonEmpty(records[1..])
  }

  ghost predicate Small(size: nat, records: seq<Bytes>) {
    forall i :: 0 <= i < |records| ==> |records[i]| < U32 || size < U32 + HEADER_SIZE
  }

  /** Reading a written log gives exactly its non-empty records, in order, and then nothing. */
  lemma {:induction false} LogRoundTrip(crc: Bytes -> nat, size: nat, offset: nat, records: seq<Bytes>)
    requires CrcOk(crc) && offset <= size && size > HEADER_SIZE && Small(size, records)
    ensures ReadAll(crc, size, WriteAll(crc, size, offset, records).bytes, offset) == NonEmpty(records)
    decreases records
  {
    hide Fragments, Read;
    if records == [] {
      ReadEnd(crc, size, offset);
    } else {
      var w := Fragments(crc, size, offset, records[0], true);
      var rest := WriteAll(crc, size, w.offset, records[1..]);
      LogRoundTrip(crc, size, w.offset, records[1..]);
      if records[0] == [] {
        FragmentsNone(crc, size);
        assert w.bytes + rest.bytes == rest.bytes;
      } else {
        ReadBack(crc, size, offset, records[0], true, rest.bytes, []);
        assert [] + records[0] == records[0];
      }
    }
  }

  /** At the end of the log a read gives nothing, again and again. */
  lemma ReadEnd(crc: Bytes -> nat, size: nat, offset: nat)
    requires offset <= size && size > HEADER_SIZE
    ensures var o := Read(crc, size, [], offset, []); o.Done? && o.data == [] && o.rest == [] && o.offset <= size
  {
  }

  /** The round trip is the identity exactly when no record is empty. */
  lemma {:induction false} NonEmptyIsIdentity(records: seq<Bytes>)
    ensures |NonEmpty(records)| <= |records|
    ensures NonEmpty(records) == records <==> forall i :: 0 <= i < |records| ==> records[i] != []
  {
    if records != [] {
      NonEmptyIsIdentity(records[1..]);
      assert records == [records[0]] + records[1..];
      assert forall i :: 0 <= i < |records| - 1 ==> records[1..][i] == records[i + 1];
      if records[0] != [] {
        assert NonEmpty(records)[1..] == NonEmpty(records[1..]);
      }
    }
  }

  // ---- resuming ----

  /** A writer at a full block and one at the start of the next write the same. */
  lemma FullBlock(crc: Bytes -> nat, size: nat, record: Bytes, first: bool)
    requires size > HEADER_SIZE && record != []
    ensures Fragments(crc, size, size, record, first) == Fragments(crc, size, 0, record, first)
  {
    hide Fragments, Header, Zeros;
    FragmentsStep(crc, size, size, record, first);
    FragmentsStep(crc, size, 0, record, first);
    assert Zeros(0) == [] by { NoZeros(); }
  }

  lemma NoZeros()
    ensures Zeros(0) == []
  {
  }

  /** The block offset follows the length written. */
  lemma {:induction false} OffsetTracks(crc: Bytes -> nat, size: nat, offset: nat, record: Bytes, first: bool,
                                        q: nat) returns (q': nat)
    requires offset <= size && size > HEADER_SIZE
    ensures var w := Fragments(crc, size, offset, record, first);
            size * q + offset + |w.bytes| == size * q' + w.offset
    decreases |record|, size - offset
  {
    hide Fragments, Fragment, FragmentLen;
    q' := q;
    if record == [] {
      FragmentsNone(crc, size);
    } else {
      FragmentsStep(crc, size, offset, record, first);
      FragmentSize(crc, size, offset, record, first);
      var n := FragmentLen(size, offset, record);
      var q1 := if size - offset < HEADER_SIZE then q + 1 else q;
      assert size * (q + 1) == size * q + size;
      q' := OffsetTracks(crc, size, Start(size, offset) + HEADER_SIZE + n, record[n..], false, q1);
    }
  }

  lemma FragmentSize(crc: Bytes -> nat, size: nat, offset: nat, record: Bytes, first: bool)
    requires offset <= size && size > HEADER_SIZE
    ensures |Fragment(crc, size, offset, record, first)| ==
            (if size - offset < HEADER_SIZE then size - offset else 0) + HEADER_SIZE + FragmentLen(size, offset, record)
  {
  }

  lemma {:induction false} AllTracks(crc: Bytes -> nat, size: nat, offset: nat, records: seq<Bytes>, q: nat)
    returns (q': nat)
    requires offset <= size && size > HEADER_SIZE
    ensures var w := WriteAll(crc, size, offset, records);
            size * q + offset + |w.bytes| == size * q' + w.offset
    decreases records
  {
    q' := q;
    if records != [] {
      var q1 := OffsetTracks(crc, size, offset, records[0], true, q);
      q' := AllTracks(crc, size, Fragments(crc, size, offset, records[0], true).offset, records[1..], q1);
    }
  }

  lemma {:induction false} WriteAppend(crc: Bytes -> nat, size: nat, offset: nat, a: seq<Bytes>, b: seq<Bytes>)
    requires offset <= size && size > HEADER_SIZE
    ensures var w := WriteAll(crc, size, offset, a);
            WriteAll(crc, size, offset, a + b).bytes == w.bytes + WriteAll(crc, size, w.offset, b).bytes
    decreases a
  {
    hide Fragments;
    if a == [] {
      assert a + b == b;
    } else {
      assert (a + b)[1..] == a[1..] + b;
      WriteAppend(crc, size, Fragments(crc, size, offset, a[0], true).offset, a[1..], b);
    }
  }

  lemma {:induction false} WriteFromFull(crc: Bytes -> nat, size: nat, records: seq<Bytes>)
    requires size > HEADER_SIZE
    ensures WriteAll(crc, size, size, records).bytes == WriteAll(crc, size, 0, records).bytes
    decreases records
  {
    hide Fragments;
    if records != [] {
      if records[0] == [] {
        FragmentsNone(crc, size);
        WriteFromFull(crc, size, records[1..]);
      } else {
        FullBlock(crc, size, records[0], true);
      }
    }
  }

  /** A writer resumed with `new_with_off` at the written length continues as if never stopped. */
  lemma Resume(crc: Bytes -> nat, size: nat, a: seq<Bytes>, b: seq<Bytes>)
    requires size > HEADER_SIZE
    ensures var w := WriteAll(crc, size, 0, a).bytes;
            WriteAll(crc, size, 0, a + b).bytes == w + WriteAll(crc, size, |w| % size, b).bytes
  {
    hide WriteAll;
    WriteAppend(crc, size, 0, a, b);
    var w := WriteAll(crc, size, 0, a);
    var q := AllTracks(crc, size, 0, a, 0);
    if w.offset == size {
      WriteFromFull(crc, size, b);
      assert |w.bytes| == size * (q + 1) + 0;
      Arith.DivModUnique(|w.bytes|, size, q + 1, 0);
    } else {
      Arith.DivModUnique(|w.bytes|, size, q, w.offset);
    }
  }
}
