/** One log segment as a value: what it keeps in memory, and the writes its operations make. */
module SegmentModel {
  import opened Bytes
  import opened RecordCodec
  import opened LogFile
  import opened OffsetIndex
  import opened Disk
  import Crc32

  const U32_SIZE := 0x1_0000_0000

  datatype Segment = Segment(
    base: uint64,
    interval: uint32,       // bytes between index entries
    entries: seq<Entry>,    // the index in memory
    size: uint32,           // bytes of log
    sinceIndex: uint32,     // bytes counted since the last index entry
    isSealed: bool,
    crc: bv32,              // running register over the whole log
    count: nat,
    last: uint64,
    maxTimestamp: int64)
  {
    function LogName(): Name { Name(base, Log) }
    function IndexName(): Name { Name(base, Index) }
    function SealedName(): Name { Name(base, Sealed) }
  }

  function Fresh(base: uint64, interval: uint32): Segment {
    Segment(base, interval, [], 0, 0, false, Crc32.INITIAL, 0, 0, 0)
  }

  // ---- The sealed marker -------------------------------------------------------------------

  const MAGIC: uint32 := 0x5346534C

  datatype Marker = Marker(count: uint64, last: uint64, crc: uint32, maxTimestamp: int64)

  /** Host order, which is little endian. */
  function Host16(v: uint16): (b: bytes)
    ensures |b| == 2
  {
    [v % 0x100, v / 0x100]
  }

  function Host32(v: uint32): (b: bytes)
    ensures |b| == 4
  {
    Host16(v % 0x1_0000) + Host16(v / 0x1_0000)
  }

  function Host64(v: uint64): (b: bytes)
    ensures |b| == 8
  {
    Host32(v % U32_SIZE) + Host32(v / U32_SIZE)
  }

  function GetHost16(b: bytes, at: nat): uint16
    requires at + 2 <= |b|
  {
    b[at] + (b[at + 1] as int) * 0x100
  }

  function GetHost32(b: bytes, at: nat): uint32
    requires at + 4 <= |b|
  {
    GetHost16(b, at) + (GetHost16(b, at + 2) as int) * 0x1_0000
  }

  function GetHost64(b: bytes, at: nat): uint64
    requires at + 8 <= |b|
  {
    GetHost32(b, at) + (GetHost32(b, at + 4) as int) * U32_SIZE
  }

  function MarkerBytes(m: Marker): (b: bytes)
    ensures |b| == 32
  {
    Host32(MAGIC) + Host64(m.count) + Host64(m.last) + Host32(m.crc) + Host64(ToUnsigned(m.maxTimestamp))
  }

  function ParseMarker(b: bytes): Option<Marker> {
    if |b| < 32 || GetHost32(b, 0) != MAGIC then None
    else Some(Marker(GetHost64(b, 4), GetHost64(b, 12), GetHost32(b, 20), ToSigned(GetHost64(b, 24))))
  }

  lemma AtHost16(b: bytes, at: nat, v: uint16)
    requires At(b, at, Host16(v))
    ensures GetHost16(b, at) == v
  {
    assert b[at..at + 2] == [b[at], b[at + 1]];
  }

  lemma AtHost32(b: bytes, at: nat, v: uint32)
    requires At(b, at, Host32(v))
    ensures GetHost32(b, at) == v
  {
    hide Host16, GetHost16;
    AtConcat(b, at, Host16(v % 0x1_0000), Host16(v / 0x1_0000));
    AtHost16(b, at, v % 0x1_0000);
    AtHost16(b, at + 2, v / 0x1_0000);
  }

  lemma AtHost64(b: bytes, at: nat, v: uint64)
    requires At(b, at, Host64(v))
    ensures GetHost64(b, at) == v
  {
    hide Host32, GetHost32;
    AtConcat(b, at, Host32(v % U32_SIZE), Host32(v / U32_SIZE));
    AtHost32(b, at, v % U32_SIZE);
    AtHost32(b, at + 4, v / U32_SIZE);
  }

  /** A complete marker is read back as written; a cut one is not accepted. */
  lemma MarkerRoundTrip(m: Marker, n: nat)
    requires n <= 32
    ensures ParseMarker(MarkerBytes(m)[..n]) == if n == 32 then Some(m) else None
  {
    hide Host32, Host64, GetHost32, GetHost64;
    var b := MarkerBytes(m);
    var x0, x1, x2, x3, x4 := Host32(MAGIC), Host64(m.count), Host64(m.last), Host32(m.crc),
        Host64(ToUnsigned(m.maxTimestamp));
    AtConcat(b, 0, x0 + x1 + x2 + x3, x4);
    AtConcat(b, 0, x0 + x1 + x2, x3);
    AtConcat(b, 0, x0 + x1, x2);
    AtConcat(b, 0, x0, x1);
    AtHost32(b, 0, MAGIC);
    AtHost64(b, 4, m.count);
    AtHost64(b, 12, m.last);
    AtHost32(b, 20, m.crc);
    AtHost64(b, 24, ToUnsigned(m.maxTimestamp));
    SignRoundTrip(m.maxTimestamp, ToUnsigned(m.maxTimestamp));
    assert b[..32] == b;
  }

  /** What sealing a segment records about it. */
  function MarkerOf(s: Segment): Marker {
    Marker(s.count % 0x1_0000_0000_0000_0000, s.last, Crc32.Finalize(s.crc), s.maxTimestamp)
  }

  // ---- Opening -----------------------------------------------------------------------------

  /** The in-memory state that opening builds from the three files. */
  function Opened(base: uint64, interval: uint32, d: Files): Segment {
    var s := Fresh(base, interval);
    var size := |Content(d, s.LogName())| % U32_SIZE;
    var es := Load(Content(d, s.IndexName()));
    var since :=
      if es == [] then size
      else if size >= es[|es| - 1].pos then size - es[|es| - 1].pos
      else 0;
    var s1 := s.(entries := es, size := size, sinceIndex := since);
    if s.SealedName() in d then
      match ParseMarker(d[s.SealedName()])
      case Some(m) => s1.(count := m.count, last := m.last, maxTimestamp := m.maxTimestamp, isSealed := true)
      case None => s1
    else s1
  }

  function OpenWrites(base: uint64): seq<Write> {
    [Create(Name(base, Log)), Create(Name(base, Index))]
  }

  // ---- Appending ---------------------------------------------------------------------------

  predicate IndexDue(s: Segment) {
    s.entries == [] || s.sinceIndex >= s.interval
  }

  function EntryFor(s: Segment, r: Record): Entry {
    Entry((r.offset - s.base) % U32_SIZE, s.size)
  }

  /** Everything that changes with one more record, apart from the index. */
  function Extended(s: Segment, r: Stored): Segment {
    s.(size := (s.size + r.Size()) % U32_SIZE,
       crc := Crc32.Feed(s.crc, Encode(r)),
       count := s.count + 1,
       last := r.offset,
       maxTimestamp := Max(r.timestamp, s.maxTimestamp))
  }

  function Appended(s: Segment, r: Stored): Segment {
    var s1 := Extended(s, r);
    if IndexDue(s) then s1.(entries := s.entries + [EntryFor(s, r)], sinceIndex := 0)
    else s1.(sinceIndex := (s.sinceIndex + r.Size()) % U32_SIZE)
  }

  function AppendWrites(s: Segment, r: Stored): seq<Write> {
    [Append(s.LogName(), Encode(r))]
    + if IndexDue(s) then [Append(s.IndexName(), SaveEntry(EntryFor(s, r)))] else []
  }

  lemma AppendDisk(s: Segment, d: Files, r: Stored)
    ensures var d1 := Apply(d, Append(s.LogName(), Encode(r)));
            ApplyAll(d, AppendWrites(s, r)) ==
            if IndexDue(s) then Apply(d1, Append(s.IndexName(), SaveEntry(EntryFor(s, r)))) else d1
  {
    hide Encode, SaveEntry, Apply, ApplyAll, IndexDue, EntryFor;
    var first := Append(s.LogName(), Encode(r));
    ApplyOne(d, first);
    if IndexDue(s) {
      TwoWrites(d, first, Append(s.IndexName(), SaveEntry(EntryFor(s, r))));
    } else {
      assert [first] + [] == [first];
    }
  }

  // ---- Scanning ----------------------------------------------------------------------------

  function Reset(s: Segment): Segment {
    s.(entries := [], size := 0, sinceIndex := 0, crc := Crc32.INITIAL, count := 0, last := s.base, maxTimestamp := 0)
  }

  /** One round of the recovery scan; `size` is the scan position. */
  function Scanned(s: Segment, r: Stored): Segment {
    var since := if IndexDue(s) then 0 else s.sinceIndex;
    Extended(s, r).(
      entries := if IndexDue(s) then s.entries + [EntryFor(s, r)] else s.entries,
      sinceIndex := (since + r.Size()) % U32_SIZE)
  }

  /** The state after scanning the given records from the start of the file. */
  function Rebuilt(s: Segment, rs: seq<Stored>): Segment {
    if rs == [] then Reset(s) else Scanned(Rebuilt(s, rs[..|rs| - 1]), rs[|rs| - 1])
  }

  /** The next offset that the scan reports. */
  function NextAfter(s: Segment, rs: seq<Stored>): uint64 {
    if rs == [] then s.base else (rs[|rs| - 1].offset + 1) % 0x1_0000_0000_0000_0000
  }

  /** Truncate the index, then write it anew. */
  function IndexWrites(name: Name, es: seq<Entry>): seq<Write> {
    [Truncate(name, 0)] + if es == [] then [] else [Append(name, Save(es))]
  }

  function RebuildWrites(s: Segment, log: bytes): seq<Write> {
    var rs := Scan(log);
    var kept := |Flatten(rs)|;
    var es := Rebuilt(s, rs).entries;
    (if kept < |log| then [Truncate(s.LogName(), kept)] else []) + IndexWrites(s.IndexName(), es)
  }

  function SealWrites(s: Segment): seq<Write> {
    [Create(s.SealedName()), Append(s.SealedName(), MarkerBytes(MarkerOf(s)))]
  }

  // ---- Reading -----------------------------------------------------------------------------

  datatype ReadAt = Got(record: Stored) | Bad | Beyond | Overrun

  function RecordAt(s: Segment, log: bytes, pos: nat): ReadAt {
    if pos >= s.size then Beyond
    else if pos + 28 > |log| then Bad
    else
      var length := GetU32(log, pos);
      if length < 24 || length > MAX_RECORD_SIZE || pos + 4 + length > |log| then Bad
      else
        match Decode(log[pos..pos + 4 + length])
        case Decoded(r) => Got(r)
        case Overread => Overrun
        case _ => Bad
  }

  function LookupPosition(s: Segment, target: uint64): uint32 {
    if target <= s.base then 0 else Lookup(s.entries, (target - s.base) % U32_SIZE)
  }

  datatype Quick = Passes | Fails | RunsOver

  /** Where the last record is looked for: by the last offset if it is known, else at the last index entry. */
  function LastPos(s: Segment): uint32 {
    if s.last >= s.base && s.count > 0 then LookupPosition(s, s.last)
    else if s.entries != [] then s.entries[|s.entries| - 1].pos
    else 0
  }

  /** The spot check of a sealed segment: index positions, first record, last indexed record. */
  function QuickResult(s: Segment, log: bytes): Quick {
    if s.size == 0 then Passes
    else if s.size < 28 || exists i :: 0 <= i < |s.entries| && s.entries[i].pos >= s.size then Fails
    else
      match RecordAt(s, log, 0)
      case Overrun => RunsOver
      case Got(_) =>
        (if LastPos(s) >= s.size then Passes
         else match RecordAt(s, log, LastPos(s)) case Overrun => RunsOver case Got(_) => Passes case _ => Fails)
      case _ => Fails
  }

  predicate QuickCheck(s: Segment, log: bytes) {
    QuickResult(s, log) == Passes
  }

  // ---- What a segment in memory means ------------------------------------------------------

  /** Offsets run without gaps from the base. */
  ghost predicate Consecutive(base: uint64, rs: seq<Stored>) {
    forall i :: 0 <= i < |rs| ==> rs[i].offset == base + i
  }

  function MaxTimestamp(rs: seq<Stored>): int64 {
    if rs == [] then 0 else Max(rs[|rs| - 1].timestamp, MaxTimestamp(rs[..|rs| - 1]))
  }

  /** Enough to read from: the size is right and the index is sound. */
  ghost predicate Serves(s: Segment, rs: seq<Stored>) {
    && Consecutive(s.base, rs)
    && s.size == |Flatten(rs)|
    && Sound(s.entries, rs)
  }

  /** Record count, last offset and newest timestamp, the summary of a segment, are those of the records. */
  ghost predicate Summarises(s: Segment, rs: seq<Stored>) {
    && s.count == |rs|
    && (rs != [] ==> s.last == s.base + |rs| - 1)
    && s.maxTimestamp == MaxTimestamp(rs)
  }

  /** What a segment knows of its records when its marker could not be read. */
  predicate SummaryLost(s: Segment) {
    s.count == 0 && s.last == 0 && s.maxTimestamp == 0
  }

  /** Everything a segment keeps describes exactly these records. */
  ghost predicate Tracks(s: Segment, rs: seq<Stored>) {
    && Serves(s, rs)
    && (s.entries == [] ==> rs == [])
    && s.crc == Crc32.Feed(Crc32.INITIAL, Flatten(rs))
    && Summarises(s, rs)
  }

  lemma FewRecords(rs: seq<Stored>)
    ensures 28 * |rs| <= |Flatten(rs)|
  {
    hide Flatten;
    PosMonotone(rs, 0, |rs|);
    assert rs[..|rs|] == rs;
  }

  lemma ExtendedTracks(s: Segment, rs: seq<Stored>, r: Stored)
    requires Tracks(s, rs) && r.offset == s.base + |rs|
    requires |Flatten(rs)| + r.Size() < U32_SIZE
    ensures var s' := Extended(s, r);
            && s'.size == |Flatten(rs + [r])|
            && s'.crc == Crc32.Feed(Crc32.INITIAL, Flatten(rs + [r]))
            && s'.count == |rs + [r]|
            && s'.maxTimestamp == MaxTimestamp(rs + [r])
    ensures Consecutive(s.base, rs + [r])
  {
    hide Encode, Flatten, Crc32.Feed;
    FlattenSnoc(rs, r);
    Crc32.FeedConcat(Crc32.INITIAL, Flatten(rs), Encode(r));
    assert (rs + [r])[..|rs|] == rs;
  }

  lemma IndexTracks(s: Segment, rs: seq<Stored>, r: Stored)
    requires Tracks(s, rs) && r.offset == s.base + |rs| && |Flatten(rs)| < U32_SIZE
    ensures Sound(s.entries, rs + [r])
    ensures Sound(s.entries + [EntryFor(s, r)], rs + [r])
  {
    hide Flatten, Sound, Crc32.Feed;
    SoundExtend(s.entries, rs, [r]);
    FewRecords(rs);
    SoundAdd(s.entries, rs, r, EntryFor(s, r));
  }

  /** Appending keeps size, checksum, count, last offset, newest timestamp and index exact. */
  lemma AppendTracks(s: Segment, rs: seq<Stored>, r: Stored)
    requires Tracks(s, rs) && r.offset == s.base + |rs|
    requires |Flatten(rs)| + r.Size() < U32_SIZE
    ensures Tracks(Appended(s, r), rs + [r])
  {
    hide Flatten, Sound, Crc32.Feed, MaxTimestamp, Encode, Consecutive;
    ExtendedTracks(s, rs, r);
    IndexTracks(s, rs, r);
  }

  lemma ScanTracks(s: Segment, rs: seq<Stored>, r: Stored)
    requires Tracks(s, rs) && r.offset == s.base + |rs|
    requires |Flatten(rs)| + r.Size() < U32_SIZE
    ensures Tracks(Scanned(s, r), rs + [r])
  {
    hide Flatten, Sound, Crc32.Feed, MaxTimestamp, Encode, Consecutive;
    ExtendedTracks(s, rs, r);
    IndexTracks(s, rs, r);
  }

  /** A full scan of consecutive records rebuilds all of it. */
  lemma {:induction false} RebuiltTracks(s: Segment, rs: seq<Stored>)
    requires Consecutive(s.base, rs) && |Flatten(rs)| < U32_SIZE
    ensures Tracks(Rebuilt(s, rs), rs)
    ensures Rebuilt(s, rs).base == s.base && Rebuilt(s, rs).interval == s.interval &&
            Rebuilt(s, rs).isSealed == s.isSealed
  {
    hide Flatten, Crc32.Feed, Encode;
    if rs == [] {
      NothingFlat();
      assert Crc32.Feed(Crc32.INITIAL, []) == Crc32.INITIAL by { NothingFed(); }
    } else {
      var k := |rs| - 1;
      FlattenAt(rs, k);
      assert rs == rs[..k] + [rs[k]] && rs[..|rs|] == rs;
      RebuiltTracks(s, rs[..k]);
      ScanTracks(Rebuilt(s, rs[..k]), rs[..k], rs[k]);
    }
  }

  lemma NothingFed()
    ensures Crc32.Feed(Crc32.INITIAL, []) == Crc32.INITIAL
  {
  }

  // ---- Reading from a segment that serves its records ---------------------------------------

  lemma RecordAtStart(s: Segment, rs: seq<Stored>, k: nat)
    requires Serves(s, rs) && k < |rs|
    ensures RecordAt(s, Flatten(rs), Pos(rs, k)) == Got(rs[k])
  {
    hide Encode, Decode, Flatten, GetU32, Sound, RecordAt;
    FlattenAt(rs, k);
    RecordInBytes(s, Flatten(rs), Pos(rs, k), rs[k], Flatten(rs[k + 1..]));
  }

  lemma RecordInBytes(s: Segment, log: bytes, p: nat, r: Stored, rest: bytes)
    requires p < s.size && p <= |log| && log[p..] == Encode(r) + rest
    ensures RecordAt(s, log, p) == Got(r)
  {
    hide Encode, Decode, GetU32;
    var n := r.Size();
    EncodedFields(r);
    SamePrefixFields(log[p..], Encode(r), n);
    GetShifted(log, p);
    assert log[p..p + n] == log[p..][..n] == Encode(r);
    DecodesExactlyEncodings(Encode(r), r);
  }

  lemma GetShifted(log: bytes, p: nat)
    requires p + 4 <= |log|
    ensures GetU32(log, p) == GetU32(log[p..], 0)
  {
  }

  /** The lookup lands on the nearest indexed record start at or before the target. */
  lemma LookupLands(s: Segment, rs: seq<Stored>, target: uint64) returns (k: nat)
    requires Serves(s, rs)
    ensures k <= |rs| && LookupPosition(s, target) == Pos(rs, k)
    ensures s.base + k <= target || k == 0
    ensures s.entries != [] ==> k < |rs|
    ensures target - s.base < U32_SIZE ==>
              forall i :: 0 <= i < |s.entries| && s.base + s.entries[i].rel <= target ==> s.entries[i].rel <= k
  {
    hide Flatten, Crc32.Feed;
    if target <= s.base {
      k := 0;
      assert rs[..0] == [];
      NothingFlat();
    } else {
      k := LookupStartsBefore(s.entries, rs, (target - s.base) % U32_SIZE);
    }
  }

  /** A sealed segment whose files are intact passes the spot check, whatever its marker says. */
  lemma IntactPassesQuickCheck(s: Segment, rs: seq<Stored>)
    requires Serves(s, rs)
    ensures QuickCheck(s, Flatten(rs))
  {
    hide Flatten, RecordAt;
    if rs == [] {
      NothingFlat();
    } else {
      FewRecords(rs);
      assert rs[..0] == [];
      NothingFlat();
      RecordAtStart(s, rs, 0);
      forall i | 0 <= i < |s.entries|
        ensures s.entries[i].pos < s.size
      {
        EntryInside(s, rs, i);
      }
      if s.last >= s.base && s.count > 0 {
        var k := LookupLands(s, rs, s.last);
        if k < |rs| {
          RecordAtStart(s, rs, k);
        }
      } else if s.entries != [] {
        RecordAtStart(s, rs, s.entries[|s.entries| - 1].rel);
      }
    }
  }

  lemma EntryInside(s: Segment, rs: seq<Stored>, i: nat)
    requires Serves(s, rs) && i < |s.entries|
    ensures s.entries[i].pos < s.size
  {
    hide Flatten;
    FlattenAt(rs, s.entries[i].rel);
  }
}
