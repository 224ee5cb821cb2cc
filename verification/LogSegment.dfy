/** The segment object: its fields change in place, its files through the directory. */
module LogSegment {
  import opened Bytes
  import opened RecordCodec
  import opened LogFile
  import opened OffsetIndex
  import opened Disk
  import opened SegmentModel
  import Crc32

  datatype AppendStatus = Accepted | RefusedSealed | RefusedSize

  lemma SliceOfPrefix(s: bytes, n: nat, i: nat, j: nat)
    requires i <= j <= n <= |s|
    ensures s[..n][i..j] == s[i..j]
  {
  }

  lemma FieldsOfPrefix(buf: bytes, n: nat)
    requires 28 <= n <= |buf|
    ensures GetU32(buf[..n], 0) == GetU32(buf, 0) && GetU32(buf[..n], 4) == GetU32(buf, 4)
    ensures GetU32(buf[..n], 24) == GetU32(buf, 24)
    ensures GetU64(buf[..n], 8) == GetU64(buf, 8) && GetU64(buf[..n], 16) == GetU64(buf, 16)
  {
  }

  /** Decoding looks at no byte beyond the length that the buffer announces. */
  lemma DecodePrefix(buf: bytes, n: nat)
    requires 28 <= n <= |buf| && GetU32(buf, 0) + 4 == n
    ensures Decode(buf[..n]) == Decode(buf)
  {
    hide Crc32.Checksum, GetU32, GetU64;
    var k := GetU32(buf, 24);
    FieldsOfPrefix(buf, n);
    SliceOfPrefix(buf, n, 8, n);
    if 24 + k <= n - 4 {
      SliceOfPrefix(buf, n, 28, 28 + k);
      SliceOfPrefix(buf, n, 28 + k, n);
    }
  }

  /** A record that does not fit its own announced length is not decoded. */
  lemma TooShort(buf: bytes)
    requires |buf| < 28 || var length := GetU32(buf, 0); length < 24 || length > MAX_RECORD_SIZE || 4 + length > |buf|
    ensures !Decode(buf).Decoded? && !Decode(buf).Overread?
  {
    hide GetU32, GetU64, Crc32.Checksum;
  }

  lemma ScanStep(log: bytes, pos: nat, rs: seq<Stored>, r: Stored)
    requires pos <= |log| && Scan(log) == rs + Scan(log[pos..]) && pos == |Flatten(rs)| &&
             Decode(log[pos..]) == Decoded(r)
    ensures pos + r.Size() <= |log|
    ensures Scan(log) == (rs + [r]) + Scan(log[pos + r.Size()..]) && pos + r.Size() == |Flatten(rs + [r])|
  {
    hide Encode, Decode, Flatten;
    SizeFits(r, log[pos..]);
    assert log[pos..][r.Size()..] == log[pos + r.Size()..];
    FlattenSnoc(rs, r);
  }

  lemma ScanDone(log: bytes, pos: nat, rs: seq<Stored>)
    requires pos <= |log| && Scan(log) == rs + Scan(log[pos..]) && !Decode(log[pos..]).Decoded?
    ensures Scan(log) == rs
  {
    hide Decode;
  }

  lemma OverrunStep(log: bytes, pos: nat)
    requires pos <= |log|
    ensures match Decode(log[pos..])
            case Decoded(r) => pos + r.Size() <= |log| && Overruns(log[pos..]) == Overruns(log[pos + r.Size()..])
            case e => Overruns(log[pos..]) == e.Overread?
  {
    hide Decode;
    if Decode(log[pos..]).Decoded? {
      var r := Decode(log[pos..]).record;
      SizeFits(r, log[pos..]);
      assert log[pos..][r.Size()..] == log[pos + r.Size()..];
    }
  }

  lemma NothingToDecode(log: bytes)
    ensures !Decode(log[|log|..]).Decoded? && !Decode(log[|log|..]).Overread?
  {
  }

  /** What an append leaves on disk. */
  class LogSegment {
    const base: uint64
    const interval: uint32
    const dir: Directory

    var entries: seq<Entry>
    var size: uint32
    var sinceIndex: uint32
    var isSealed: bool
    var crc: bv32
    var count: nat
    var last: uint64
    var maxTimestamp: int64

    /** The segment as a value. */
    function Value(): Segment
      reads this
    {
      Segment(base, interval, entries, size, sinceIndex, isSealed, crc, count, last, maxTimestamp)
    }

    function LogName(): Name { Name(base, Log) }
    function IndexName(): Name { Name(base, Index) }
    function SealedName(): Name { Name(base, Sealed) }

    constructor (base: uint64, interval: uint32, dir: Directory)
      ensures Value() == Fresh(base, interval) && this.dir == dir
    {
      this.base, this.interval, this.dir := base, interval, dir;
      entries, size, sinceIndex, isSealed := [], 0, 0, false;
      crc, count, last, maxTimestamp := Crc32.INITIAL, 0, 0, 0;
    }

    /** `LogSegment::open`. */
    method Open()
      requires Value() == Fresh(base, interval)
      modifies this, dir
      ensures Value() == Opened(base, interval, old(dir.files))
      ensures dir.files == ApplyAll(old(dir.files), OpenWrites(base))
      ensures dir.trace == old(dir.trace) + OpenWrites(base)
    {
      hide Load, ParseMarker, ApplyAll, Apply;
      ghost var d := dir.files;
      dir.OpenOrCreate(LogName());
      dir.OpenOrCreate(IndexName());
      TwoWrites(d, Create(LogName()), Create(IndexName()));
      OpenKeeps(d, base);
      ReadFiles();
    }

    /** The part of `open` that fills the fields from the files. */
    method ReadFiles()
      requires Value() == Fresh(base, interval) && LogName() in dir.files && IndexName() in dir.files
      modifies this
      ensures Value() == Opened(base, interval, dir.files)
    {
      hide Load, ParseMarker;
      size := |dir.files[LogName()]| % U32_SIZE;
      entries := LoadEntries(dir.files[IndexName()]);
      if entries != [] {
        var lastPos := entries[|entries| - 1].pos;
        sinceIndex := if size >= lastPos then size - lastPos else 0;
      } else {
        sinceIndex := size;
      }
      if SealedName() in dir.files {
        var m := ParseMarker(dir.files[SealedName()]);
        if m.Some? {
          count, last, maxTimestamp, isSealed := m.value.count, m.value.last, m.value.maxTimestamp, true;
        }
      }
    }

    /** `LogSegment::append_with_timestamp`. */
    method Append(r: Record) returns (status: AppendStatus)
      modifies this, dir
      ensures status == if old(isSealed) then RefusedSealed else if !r.Appendable() then RefusedSize else Accepted
      ensures status != Accepted ==>
                Value() == old(Value()) && dir.files == old(dir.files) && dir.trace == old(dir.trace)
      ensures status == Accepted ==>
                && Value() == Appended(old(Value()), r)
                && dir.files == ApplyAll(old(dir.files), AppendWrites(old(Value()), r))
                && dir.trace == old(dir.trace) + AppendWrites(old(Value()), r)
    {
      hide Appended, AppendWrites, ApplyAll;
      if isSealed {
        return RefusedSealed;
      }
      if !r.Appendable() {
        return RefusedSize;
      }
      WriteRecord(r);
      status := Accepted;
    }

    /** The log first, then the fields, then the index. */
    method WriteRecord(r: Stored)
      modifies this, dir
      ensures Value() == Appended(old(Value()), r)
      ensures dir.files == ApplyAll(old(dir.files), AppendWrites(old(Value()), r))
      ensures dir.trace == old(dir.trace) + AppendWrites(old(Value()), r)
    {
      hide Encode, SaveEntry, Apply, ApplyAll, Extended, Appended, IndexDue, EntryFor;
      ghost var v, d := Value(), dir.files;
      AppendDisk(v, d, r);
      var encoded := EncodeRecord(r);
      var pos := size;
      dir.WriteAtEnd(LogName(), encoded);
      Count(r, encoded);
      size := (size + |encoded|) % U32_SIZE;
      IndexIfDue(r, pos, |encoded|, v);
    }

    /** The index gets an entry for the first record, and whenever enough bytes have gone by. */
    method IndexIfDue(r: Stored, pos: uint32, bytes: uint32, ghost v: Segment)
      requires Value() == Extended(v, r) && pos == v.size && bytes == r.Size() && v.base == base
      modifies this, dir
      ensures Value() == Appended(v, r)
      ensures dir.files ==
              if IndexDue(v) then Apply(old(dir.files), Disk.Append(IndexName(), SaveEntry(EntryFor(v, r))))
              else old(dir.files)
      ensures dir.trace == old(dir.trace) +
              if IndexDue(v) then [Disk.Append(IndexName(), SaveEntry(EntryFor(v, r)))] else []
    {
      hide Encode, SaveEntry, Apply, Crc32.Feed;
      if entries == [] || sinceIndex >= interval {
        var entry := Entry((r.offset - base) % U32_SIZE, pos);
        entries := entries + [entry];
        dir.WriteAtEnd(IndexName(), SaveEntry(entry));
        sinceIndex := 0;
      } else {
        sinceIndex := (sinceIndex + bytes) % U32_SIZE;
      }
    }

    /** One more record: checksum, count, last offset and newest timestamp. */
    method Count(r: Stored, encoded: bytes)
      requires encoded == Encode(r)
      modifies `crc, `count, `last, `maxTimestamp
      ensures Value().(size := (size + |encoded|) % U32_SIZE) == Extended(old(Value()), r)
    {
      hide Encode, Crc32.Feed;
      crc := Crc32.Update(crc, encoded);
      count := count + 1;
      last := r.offset;
      if r.timestamp > maxTimestamp {
        maxTimestamp := r.timestamp;
      }
    }

    /** `LogSegment::read_record_at`. */
    method ReadRecordAt(pos: nat) returns (r: ReadAt)
      ensures r == RecordAt(Value(), Content(dir.files, LogName()), pos)
    {
      hide Decode, GetU32;
      var log := Content(dir.files, LogName());
      if pos >= size {
        return Beyond;
      }
      if pos + 28 > |log| {
        return Bad;
      }
      var length := GetU32(log, pos);
      if length < 24 || length > MAX_RECORD_SIZE {
        return Bad;
      }
      if pos + 4 + length > |log| {
        return Bad;
      }
      var decoded := DecodeRecord(log[pos..pos + 4 + length]);
      match decoded
      case Decoded(rec) => r := Got(rec);
      case Overread => r := Overrun;
      case _ => r := Bad;
    }

    /** `LogSegment::lookup_file_position`. */
    method LookupFilePosition(target: uint64) returns (pos: uint32)
      ensures pos == LookupPosition(Value(), target)
    {
      if target <= base {
        return 0;
      }
      pos := FindPosition(entries, (target - base) % U32_SIZE);
    }

    /** The guards and the decode that both scans share, with their 32-bit sums. */
    method ScanOne(pos: uint32, logSize: uint32) returns (r: Option<Stored>, overran: bool)
      requires logSize == |Content(dir.files, LogName())| && pos < logSize
      ensures r == match Decode(Content(dir.files, LogName())[pos..])
                   case Decoded(rec) => Some(rec)
                   case _ => None
      ensures overran == Decode(Content(dir.files, LogName())[pos..]).Overread?
    {
      hide Decode;
      var log := Content(dir.files, LogName());
      ghost var rest := log[pos..];
      if (pos + 28) % U32_SIZE > logSize || pos + 28 > |log| {
        TooShort(rest);
        return None, false;
      }
      var length := GetU32(log, pos);
      GetShifted(log, pos);
      if length < 24 || length > MAX_RECORD_SIZE {
        TooShort(rest);
        return None, false;
      }
      var total := 4 + length;
      if (pos + total) % U32_SIZE > logSize || pos + total > |log| {
        TooShort(rest);
        return None, false;
      }
      DecodePrefix(rest, total);
      assert rest[..total] == log[pos..pos + total];
      var decoded := DecodeRecord(log[pos..pos + total]);
      overran := decoded.Overread?;
      match decoded
      case Decoded(rec) => r := Some(rec);
      case _ => r := None;
    }

    /** One more record of a scan at position `pos`. */
    method Take(r: Stored, buf: bytes, pos: uint32, ghost v: Segment, ghost rs: seq<Stored>)
      requires buf == Encode(r)
      requires Value() == Rebuilt(v, rs).(size := size) && pos == Rebuilt(v, rs).size
      modifies this
      ensures Value() == Rebuilt(v, rs + [r]).(size := old(size))
      ensures (pos + r.Size()) % U32_SIZE == Rebuilt(v, rs + [r]).size
    {
      hide Encode, Crc32.Feed;
      assert (rs + [r])[..|rs|] == rs;
      var entry := Entry((r.offset - base) % U32_SIZE, pos);
      if entries == [] || sinceIndex >= interval {
        entries := entries + [entry];
        sinceIndex := 0;
      }
      Count(r, buf);
      sinceIndex := (sinceIndex + |buf|) % U32_SIZE;
    }

    method Restart()
      modifies this
      ensures Value() == Reset(old(Value())).(size := old(size))
    {
      entries, sinceIndex, crc, count, last, maxTimestamp := [], 0, Crc32.INITIAL, 0, base, 0;
    }

    /** The end of both scans: cut what could not be read, and rewrite the index file. */
    method Finish(pos: uint32, ghost v: Segment, ghost log: bytes)
      requires LogName() in dir.files && IndexName() in dir.files && dir.files[LogName()] == log && |log| == size
      requires v.base == base && pos == |Flatten(Scan(log))| <= |log|
      requires Value() == Rebuilt(v, Scan(log)).(size := size) && pos == Rebuilt(v, Scan(log)).size
      modifies this, dir
      ensures Value() == Rebuilt(v, Scan(log))
      ensures dir.files == ApplyAll(old(dir.files), RebuildWrites(v, log))
      ensures dir.trace == old(dir.trace) + RebuildWrites(v, log)
    {
      hide Rebuilt, Scan, Flatten, Save;
      ghost var d0 := dir.files;
      ghost var cut := if pos < size then [Truncate(LogName(), pos)] else [];
      if pos < size {
        dir.Cut(LogName(), pos);
        size := pos;
        ApplyOne(d0, Truncate(LogName(), pos));
      }
      ghost var d1 := dir.files;
      assert d1 == ApplyAll(d0, cut) && dir.trace == old(dir.trace) + cut;
      assert IndexName() in d1;
      RewriteIndex();
      ApplyConcat(d0, cut, IndexWrites(IndexName(), entries));
      assert RebuildWrites(v, log) == cut + IndexWrites(IndexName(), entries);
    }

    /** `OffsetIndex::rewrite_file` on this segment's index file. */
    method RewriteIndex()
      requires IndexName() in dir.files
      modifies dir
      ensures dir.files == ApplyAll(old(dir.files), IndexWrites(IndexName(), entries))
      ensures dir.trace == old(dir.trace) + IndexWrites(IndexName(), entries)
    {
      hide Save, ApplyAll, Apply;
      ghost var d := dir.files;
      dir.Cut(IndexName(), 0);
      ApplyOne(d, Truncate(IndexName(), 0));
      if entries != [] {
        var file := SaveEntries(entries);
        dir.WriteAtEnd(IndexName(), file);
        TwoWrites(d, Truncate(IndexName(), 0), Disk.Append(IndexName(), file));
      } else {
        assert IndexWrites(IndexName(), entries) == [Truncate(IndexName(), 0)];
      }
    }

    /** `LogSegment::recover_and_rebuild_index`: for any content of the log file, keep what successive decodes reach.
        The decoder runs past its buffer exactly on the contents that overrun, and then nothing is promised. */
    method RecoverAndRebuildIndex() returns (next: uint64, overran: bool)
      requires LogName() in dir.files && IndexName() in dir.files && |dir.files[LogName()]| < U32_SIZE
      modifies this, dir
      ensures overran == Overruns(old(dir.files[LogName()]))
      ensures !overran ==>
                var log := old(dir.files[LogName()]);
                && Value() == Rebuilt(old(Value()), Scan(log))
                && next == NextAfter(old(Value()), Scan(log))
                && dir.files == ApplyAll(old(dir.files), RebuildWrites(old(Value()), log))
                && dir.trace == old(dir.trace) + RebuildWrites(old(Value()), log)
    {
      hide Decode, Encode, Rebuilt, Scan, Flatten, ApplyAll, RebuildWrites, Overruns;
      ghost var v := Value();
      var log := dir.files[LogName()];
      size := |log|;
      Restart();
      next, overran := base, false;
      var pos := 0;
      ghost var rs: seq<Stored> := [];
      assert log[0..] == log && [] + Scan(log) == Scan(log);
      NothingFlat();
      RebuiltNone(v);
      while pos < size
        invariant 0 <= pos <= size == |log|
        invariant dir.files == old(dir.files) && dir.trace == old(dir.trace)
        invariant Scan(log) == rs + Scan(log[pos..]) && pos == |Flatten(rs)|
        invariant Overruns(log) == Overruns(log[pos..]) && !overran
        invariant Value() == Rebuilt(v, rs).(size := size) && pos == Rebuilt(v, rs).size
        invariant next == NextAfter(v, rs)
        decreases size - pos
      {
        var r, over := ScanOne(pos, size);
        OverrunStep(log, pos);
        if over {
          return next, true;
        }
        if r.None? {
          break;
        }
        ScanStep(log, pos, rs, r.value);
        assert log[pos..pos + r.value.Size()] == Encode(r.value) by { DecodedBytes(log, pos, r.value); }
        Take(r.value, log[pos..pos + r.value.Size()], pos, v, rs);
        next := (r.value.offset + 1) % 0x1_0000_0000_0000_0000;
        pos := pos + r.value.Size();
        rs := rs + [r.value];
      }
      if pos == size {
        NothingToDecode(log);
      }
      OverrunStep(log, pos);
      ScanDone(log, pos, rs);
      Finish(pos, v, log);
    }

    /** `LogSegment::verify_and_rebuild_full`: the same state and the same files as a recovery scan, and one corruption
        counted exactly when something is cut off. */
    method VerifyAndRebuildFull() returns (scanned: nat, records: nat, corruptions: nat, overran: bool)
      requires LogName() in dir.files && IndexName() in dir.files && |dir.files[LogName()]| < U32_SIZE
      modifies this, dir
      ensures overran == Overruns(old(dir.files[LogName()]))
      ensures !overran ==>
                var log := old(dir.files[LogName()]);
                && Value() == Rebuilt(old(Value()), Scan(log))
                && dir.files == ApplyAll(old(dir.files), RebuildWrites(old(Value()), log))
                && dir.trace == old(dir.trace) + RebuildWrites(old(Value()), log)
                && scanned == |Flatten(Scan(log))| && records == |Scan(log)|
                && corruptions == if |Flatten(Scan(log))| < |log| then 1 else 0
    {
      hide Decode, Encode, Rebuilt, Scan, Flatten, ApplyAll, RebuildWrites, Overruns;
      ghost var v := Value();
      var log := dir.files[LogName()];
      scanned, records, corruptions, overran := 0, 0, 0, false;
      size := |log|;
      Restart();
      var pos := 0;
      ghost var rs: seq<Stored> := [];
      assert log[0..] == log && [] + Scan(log) == Scan(log);
      NothingFlat();
      RebuiltNone(v);
      while pos < size
        invariant 0 <= pos <= size == |log|
        invariant dir.files == old(dir.files) && dir.trace == old(dir.trace)
        invariant Scan(log) == rs + Scan(log[pos..]) && pos == |Flatten(rs)|
        invariant Overruns(log) == Overruns(log[pos..]) && !overran
        invariant Value() == Rebuilt(v, rs).(size := size) && pos == Rebuilt(v, rs).size
        invariant scanned == pos && records == |rs| && corruptions == 0
        decreases size - pos
      {
        var r, over := ScanOne(pos, size);
        OverrunStep(log, pos);
        if over {
          return scanned, records, corruptions, true;
        }
        if r.None? {
          corruptions := corruptions + 1;
          break;
        }
        ScanStep(log, pos, rs, r.value);
        assert log[pos..pos + r.value.Size()] == Encode(r.value) by { DecodedBytes(log, pos, r.value); }
        Take(r.value, log[pos..pos + r.value.Size()], pos, v, rs);
        records := records + 1;
        scanned := scanned + r.value.Size();
        pos := pos + r.value.Size();
        rs := rs + [r.value];
      }
      if pos == size {
        NothingToDecode(log);
      }
      OverrunStep(log, pos);
      ScanDone(log, pos, rs);
      Finish(pos, v, log);
    }

    /** `LogSegment::verify_quick`. */
    method VerifyQuick() returns (result: Quick)
      ensures result == QuickResult(Value(), Content(dir.files, LogName()))
    {
      hide RecordAt, Lookup;
      if size == 0 {
        return Passes;
      }
      if size < 28 {
        return Fails;
      }
      for i := 0 to |entries|
        invariant forall j :: 0 <= j < i ==> entries[j].pos < size
      {
        if entries[i].pos >= size {
          return Fails;
        }
      }
      var first := ReadRecordAt(0);
      if !first.Got? {
        return if first.Overrun? then RunsOver else Fails;
      }
      var lastPos := 0;
      if last >= base && count > 0 {
        lastPos := LookupFilePosition(last);
      } else if entries != [] {
        lastPos := entries[|entries| - 1].pos;
      }
      if lastPos < size {
        var rec := ReadRecordAt(lastPos);
        return if rec.Got? then Passes else if rec.Overrun? then RunsOver else Fails;
      }
      result := Passes;
    }

    method Seal()
      modifies `isSealed
      ensures Value() == old(Value()).(isSealed := true)
    {
      isSealed := true;
    }

    /** `LogSegment::write_sealed_marker`: the summary of the whole log. */
    method WriteSealedMarker()
      modifies dir
      ensures dir.files == ApplyAll(old(dir.files), SealWrites(Value()))
      ensures dir.trace == old(dir.trace) + SealWrites(Value())
    {
      hide MarkerBytes, Apply, ApplyAll;
      ghost var d := dir.files;
      dir.OpenOrCreate(SealedName());
      var marker := Marker(count % 0x1_0000_0000_0000_0000, last, Crc32.Finalize(crc), maxTimestamp);
      dir.WriteAtEnd(SealedName(), MarkerBytes(marker));
      TwoWrites(d, Create(SealedName()), Disk.Append(SealedName(), MarkerBytes(marker)));
    }
  }

  lemma RebuiltNone(v: Segment)
    ensures Rebuilt(v, []) == Reset(v)
  {
  }

  lemma DecodedBytes(log: bytes, pos: nat, r: Stored)
    requires pos <= |log| && Decode(log[pos..]) == Decoded(r)
    ensures pos + r.Size() <= |log| && log[pos..pos + r.Size()] == Encode(r)
  {
    hide Encode, Decode;
    DecodesExactlyEncodings(log[pos..], r);
  }

  /** Creating files that may be missing changes no content. */
  lemma OpenKeeps(d: Files, base: uint64)
    ensures var d' := Apply(Apply(d, Create(Name(base, Log))), Create(Name(base, Index)));
            && Name(base, Log) in d' && Name(base, Index) in d'
            && forall interval :: Opened(base, interval, d') == Opened(base, interval, d)
  {
    hide Load, ParseMarker;
    var d' := Apply(Apply(d, Create(Name(base, Log))), Create(Name(base, Index)));
    assert Content(d', Name(base, Log)) == Content(d, Name(base, Log));
    assert Content(d', Name(base, Index)) == Content(d, Name(base, Index));
    assert Name(base, Sealed) in d' <==> Name(base, Sealed) in d;
  }
}
