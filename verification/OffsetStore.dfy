/** The committed offsets: a log, and a cache that is the replay of that log. */
module OffsetStore {
  import opened Bytes
  import opened Text
  import opened RecordCodec
  import opened SegmentModel
  import opened Layout
  import opened PartitionModel
  import opened Reading
  import opened PartitionStore
  import opened OffsetKeys
  import AppendSafety
  import GroupModel
  import opened Assignor

  datatype OffsetEntry = OffsetEntry(offset: int64, timestamp: int64)

  datatype CommitItem = CommitItem(topic: bytes, partition: uint16, offset: uint64, timestamp: int64)

  type Cache = map<bytes, OffsetEntry>

  function KeyOf(group: bytes, item: CommitItem): bytes {
    MakeKey(Key(group, item.topic, item.partition))
  }

  function EncodeValue(item: CommitItem): (v: bytes)
    ensures |v| == 16
  {
    U64(item.offset) + U64(ToUnsigned(item.timestamp))
  }

  function DecodeValue(v: bytes): OffsetEntry
    requires |v| == 16
  {
    OffsetEntry(ToSigned(GetU64(v, 0)), ToSigned(GetU64(v, 8)))
  }

  function EntryOf(item: CommitItem): OffsetEntry {
    OffsetEntry(ToSigned(item.offset), item.timestamp)
  }

  lemma ValueRoundTrip(item: CommitItem)
    ensures DecodeValue(EncodeValue(item)) == EntryOf(item)
  {
    var v := EncodeValue(item);
    assert v[0..8] == U64(item.offset) && v[8..16] == U64(ToUnsigned(item.timestamp));
    At64(v, 0, item.offset);
    At64(v, 8, ToUnsigned(item.timestamp));
    SignRoundTrip(item.timestamp, 0);
  }

  /** The batch that a commit appends. */
  function ItemsOf(group: bytes, items: seq<CommitItem>): (batch: seq<Item>)
    ensures |batch| == |items|
    ensures forall i :: 0 <= i < |items| ==> batch[i] == Item(KeyOf(group, items[i]), EncodeValue(items[i]))
  {
    seq(|items|, i requires 0 <= i < |items| => Item(KeyOf(group, items[i]), EncodeValue(items[i])))
  }

  // ---- Replay ------------------------------------------------------------------------------

  /** The last write to every key wins. */
  function Replay(rs: seq<Stored>): Cache {
    if rs == [] then map[]
    else
      var n := |rs| - 1;
      if |rs[n].value| == 16 then Replay(rs[..n])[rs[n].key := DecodeValue(rs[n].value)] else Replay(rs[..n])
  }

  predicate Writes(r: Stored, key: bytes) {
    r.key == key && |r.value| == 16
  }

  ghost predicate LastWrite(rs: seq<Stored>, key: bytes, i: int) {
    0 <= i < |rs| && Writes(rs[i], key) && forall j :: i < j < |rs| ==> !Writes(rs[j], key)
  }

  lemma {:induction false} NeverWritten(rs: seq<Stored>, key: bytes)
    requires forall i :: 0 <= i < |rs| ==> !Writes(rs[i], key)
    ensures key !in Replay(rs)
    decreases |rs|
  {
    hide DecodeValue;
    if rs != [] {
      NeverWritten(rs[..|rs| - 1], key);
    }
  }

  /** The replay holds what the last record that writes a key says. */
  lemma {:induction false} LastWritten(rs: seq<Stored>, key: bytes, i: nat)
    requires LastWrite(rs, key, i)
    ensures key in Replay(rs) && Replay(rs)[key] == DecodeValue(rs[i].value)
    decreases |rs|
  {
    hide DecodeValue;
    var n := |rs| - 1;
    if i < n {
      assert !Writes(rs[n], key);
      LastWritten(rs[..n], key, i);
    }
  }

  predicate Readable(r: Stored) {
    ParseKey(r.key).Some? && |r.value| == 16
  }

  predicate AllReadable(rs: seq<Stored>) {
    forall i :: 0 <= i < |rs| ==> Readable(rs[i])
  }

  function Cached(c: Cache, group: bytes, items: seq<CommitItem>): Cache {
    if items == [] then c
    else
      var n := |items| - 1;
      Cached(c, group, items[..n])[KeyOf(group, items[n]) := EntryOf(items[n])]
  }

  /** The records of a commit, as the offsets log takes them. */
  ghost predicate IsBatch(batch: seq<Stored>, group: bytes, items: seq<CommitItem>) {
    && |batch| == |items|
    && forall i :: 0 <= i < |items| ==>
         batch[i].key == KeyOf(group, items[i]) && batch[i].value == EncodeValue(items[i])
  }

  /** Appending a commit's batch and updating the cache come to the same. */
  lemma {:induction false} ReplayBatch(rs: seq<Stored>, group: bytes, items: seq<CommitItem>, batch: seq<Stored>)
    requires IsBatch(batch, group, items)
    ensures Replay(rs + batch) == Cached(Replay(rs), group, items)
    decreases |items|
  {
    hide KeyOf, DecodeValue, EncodeValue;
    if items == [] {
      assert rs + batch == rs;
    } else {
      var n := |items| - 1;
      ReplayBatch(rs, group, items[..n], batch[..n]);
      assert (rs + batch)[..|rs| + n] == rs + batch[..n];
      ValueRoundTrip(items[n]);
    }
  }

  /** A commit can be read back after a restart exactly if its group and topics can be part of a key. */
  lemma BatchReadable(rs: seq<Stored>, group: bytes, items: seq<CommitItem>, batch: seq<Stored>)
    requires IsBatch(batch, group, items)
    ensures AllReadable(rs + batch) <==>
            AllReadable(rs) && forall i :: 0 <= i < |items| ==> Plain(Key(group, items[i].topic, items[i].partition))
  {
    hide ParseKey, MakeKey, Plain, EncodeValue;
    forall i | 0 <= i < |items|
      ensures Readable(batch[i]) <==> Plain(Key(group, items[i].topic, items[i].partition))
    {
      KeyRoundTrip(Key(group, items[i].topic, items[i].partition));
    }
    assert forall i :: 0 <= i < |rs| ==> (rs + batch)[i] == rs[i];
    assert forall i :: 0 <= i < |batch| ==> (rs + batch)[|rs| + i] == batch[i];
  }

  /** Commits of members alone never make the log unreadable: their group ids are checked when they join. */
  lemma MemberCommitsReadable(rs: seq<Stored>, group: bytes, items: seq<CommitItem>, batch: seq<Stored>)
    requires AllReadable(rs) && ValidGroupId(group) && IsBatch(batch, group, items)
    requires forall i :: 0 <= i < |items| ==> items[i].topic != [] && PIPE !in items[i].topic
    ensures AllReadable(rs + batch)
  {
    hide ParseKey, MakeKey, EncodeValue;
    assert group != [] && PIPE !in group;
    BatchReadable(rs, group, items, batch);
  }

  /** The coordinator accepts a standalone commit for a group id with a pipe, and once it is in the log, recovery
      fails. */
  lemma StandaloneSpoils(cat: GroupModel.Catalog, marks: GroupModel.Watermarks, s: GroupModel.State, tp: TopicPartition,
                         rs: seq<Stored>, timestamp: int64, r: Stored)
    requires !Reserved(tp.topic) && tp.topic in cat && tp.partition < cat[tp.topic] && tp in marks &&
             [PIPE] !in s.groups
    requires var item := CommitItem(tp.topic, tp.partition, 0, timestamp);
             r.key == KeyOf([PIPE], item) && r.value == EncodeValue(item)
    ensures GroupModel.CommitCode(cat, marks, s, [PIPE], [], GroupModel.STANDALONE, [GroupModel.Entry(tp, 0)]) == 0
    ensures !AllReadable(rs + [r])
  {
    hide ParseKey, MakeKey, EncodeValue;
    var es := [GroupModel.Entry(tp, 0)];
    assert es[1..] == [] && es[0].tp == tp;
    assert GroupModel.EntriesRefusal(cat, es[1..]) == 0;
    assert GroupModel.EntriesRefusal(cat, es) == 0;
    var items := [CommitItem(tp.topic, tp.partition, 0, timestamp)];
    BatchReadable(rs, [PIPE], items, [r]);
    assert !Plain(Key([PIPE], items[0].topic, items[0].partition)) by { assert PIPE in [PIPE]; }
  }

  lemma ExtendsSuffix(cs': seq<Chunk>, cs: seq<Chunk>, rs: seq<Stored>, k: nat)
    requires Extends(cs', cs, rs) && k < |cs|
    ensures k < |cs'| && Flat(cs'[k..]) == Flat(cs[k..]) + rs
  {
    assert cs == cs[..k] + cs[k..] && cs' == cs'[..k] + cs'[k..];
    assert cs'[..k] == cs'[..|cs| - 1][..k] == cs[..|cs| - 1][..k] == cs[..k];
    FlatConcat(cs[..k], cs[k..]);
    FlatConcat(cs'[..k], cs'[k..]);
    var front := Flat(cs[..k]);
    assert front + Flat(cs'[k..]) == front + (Flat(cs[k..]) + rs);
    SameRest(front, Flat(cs'[k..]), Flat(cs[k..]) + rs);
  }

  lemma SameRest(a: seq<Stored>, b: seq<Stored>, c: seq<Stored>)
    requires a + b == a + c
    ensures b == c
  {
    assert (a + b)[|a|..] == b && (a + c)[|a|..] == c;
  }

  // ---- The store ---------------------------------------------------------------------------

  class OffsetStore {
    const part: PartitionLog
    var cache: Cache

    constructor (part: PartitionLog)
      ensures this.part == part && cache == map[]
    {
      this.part := part;
      cache := map[];
    }

    ghost predicate Valid()
      reads this, part, part.segments, part.dir
    {
      part.Valid() && part.lag < |part.chain| && cache == Replay(part.Flattened())
    }

    /** `OffsetStore::commit`: the log first, then the cache. */
    method Commit(group: bytes, items: seq<CommitItem>, now: int64) returns (ok: bool)
      requires Valid() && part.next + |items| < OFFSET_LIMIT
      modifies this, part, part.segments, part.dir
      ensures Valid()
      ensures ok == AllFit(ItemsOf(group, items))
      ensures !ok || items == [] ==> cache == old(cache) && part.Flattened() == old(part.Flattened())
      ensures ok ==> cache == Cached(old(cache), group, items)
      ensures ok && items != [] ==>
                part.Flattened() == old(part.Flattened()) + Batch(ItemsOf(group, items), now, old(part.next))
    {
      hide Good, Flat, Many, ManyWrites, Extends, Replay, KeyOf, EncodeValue, AppendSafety.IsPacked;
      if items == [] {
        return true;
      }
      var batch := MakeBatch(group, items);
      ghost var before, cs, k := part.Flattened(), part.chain, part.lag;
      ghost var first := part.next;
      var status := part.AppendBatch(batch, now);
      ok := status.Produced?;
      if ok {
        ghost var rs := Batch(batch, now, first);
        ExtendsSuffix(part.chain, cs, rs, k);
        cache := UpdateCache(cache, group, items);
        ReplayBatch(before, group, items, rs);
      }
    }

    /** `OffsetStore::open_and_recover`, after the log itself has been recovered: page after page. It succeeds exactly
        if every record is readable, and then the cache is the replay of the whole log. */
    method OpenAndRecover() returns (ok: bool)
      requires part.Valid()
      modifies this`cache
      ensures part.lag < |part.chain| && ok == AllReadable(part.Flattened())
      ensures ok ==> Valid()
    {
      hide Good, Flat, IsPage, LayoutOk, Replay, AllReadable, Consecutive;
      cache := map[];
      ReadStart(part.cfg, part.Value(), part.dir.files, part.chain, part.lag);
      FollowingOffsets(part.chain[part.lag..], part.cfg.segmentMax);
      ghost var flat := part.Flattened();
      var high, curr := part.next, part.Earliest();
      ghost var first := curr;
      ReplayNothing();
      while curr < high
        invariant part.Valid() && first <= curr <= high == first + |flat|
        invariant AllReadable(flat[..curr - first]) && cache == Replay(flat[..curr - first])
        decreases high - curr
      {
        ghost var at := curr - first;
        assert flat[at].offset == curr;
        var status, records := part.Read(curr, 1000, 0x10_0000);
        PageInside(flat, at, records, 1000, 0x10_0000);
        if records == [] {
          break;
        }
        var taken, c := TakePage(records, cache, flat, at);
        cache := c;
        if !taken {
          return false;
        }
        curr := records[|records| - 1].offset + 1;
      }
      assert flat[..|flat|] == flat;
      return true;
    }

    /** `OffsetStore::get`: the offset in the last record of the log that writes this key, or -1 if none does. */
    method Get(group: bytes, topic: bytes, partition: uint16) returns (offset: int64)
      requires Valid()
      ensures var key, flat := MakeKey(Key(group, topic, partition)), part.Flattened();
              && ((forall i :: 0 <= i < |flat| ==> !Writes(flat[i], key)) ==> offset == -1)
              && (forall i :: LastWrite(flat, key, i) ==> offset == ToSigned(GetU64(flat[i].value, 0)))
    {
      hide Good, Flat, MakeKey, Replay, GetU64;
      var key := MakeKey(Key(group, topic, partition));
      ghost var flat := part.Flattened();
      if forall i :: 0 <= i < |flat| ==> !Writes(flat[i], key) {
        NeverWritten(flat, key);
      }
      forall i | LastWrite(flat, key, i)
        ensures key in cache && cache[key].offset == ToSigned(GetU64(flat[i].value, 0))
      {
        LastWritten(flat, key, i);
      }
      if key in cache {
        return cache[key].offset;
      }
      return -1;
    }
  }

  /** The records of one page, into the cache. */
  method TakePage(records: seq<Stored>, before: Cache, ghost flat: seq<Stored>, ghost at: nat)
      returns (ok: bool, c: Cache)
    requires at + |records| <= |flat| && forall i :: 0 <= i < |records| ==> records[i] == flat[at + i]
    requires AllReadable(flat[..at]) && before == Replay(flat[..at])
    ensures ok ==> AllReadable(flat[..at + |records|]) && c == Replay(flat[..at + |records|])
    ensures !ok ==> !AllReadable(flat)
  {
    hide Replay, Readable, ParseKey, DecodeValue;
    c := before;
    for i := 0 to |records|
      invariant AllReadable(flat[..at + i]) && c == Replay(flat[..at + i])
    {
      var r := records[i];
      ReplayNext(flat, at + i);
      if ParseKey(r.key).None? || |r.value| != 16 {
        Unreadable(flat, at + i);
        return false, c;
      }
      c := c[r.key := DecodeValue(r.value)];
    }
    return true, c;
  }

  method MakeBatch(group: bytes, items: seq<CommitItem>) returns (batch: seq<Item>)
    ensures batch == ItemsOf(group, items)
  {
    batch := [];
    for i := 0 to |items|
      invariant |batch| == i
      invariant forall j :: 0 <= j < i ==> batch[j] == Item(KeyOf(group, items[j]), EncodeValue(items[j]))
    {
      batch := batch + [Item(KeyOf(group, items[i]), EncodeValue(items[i]))];
    }
  }

  method UpdateCache(before: Cache, group: bytes, items: seq<CommitItem>) returns (c: Cache)
    ensures c == Cached(before, group, items)
  {
    c := before;
    for i := 0 to |items|
      invariant c == Cached(before, group, items[..i])
    {
      assert items[..i + 1][..i] == items[..i];
      c := c[KeyOf(group, items[i]) := EntryOf(items[i])];
    }
    assert items[..|items|] == items;
  }

  lemma ReplayNothing()
    ensures Replay([]) == map[] && AllReadable([])
  {
  }

  lemma ReplayNext(flat: seq<Stored>, n: nat)
    requires n < |flat|
    ensures Replay(flat[..n + 1]) ==
            if |flat[n].value| == 16 then Replay(flat[..n])[flat[n].key := DecodeValue(flat[n].value)]
                else Replay(flat[..n])
    ensures AllReadable(flat[..n]) && Readable(flat[n]) ==> AllReadable(flat[..n + 1])
    ensures Readable(flat[n]) <==> ParseKey(flat[n].key).Some? && |flat[n].value| == 16
  {
    hide ParseKey, DecodeValue;
    assert flat[..n + 1][..n] == flat[..n];
  }

  lemma Unreadable(flat: seq<Stored>, n: nat)
    requires n < |flat| && !Readable(flat[n])
    ensures !AllReadable(flat)
  {
  }

  // ---- The store as the coordinator sees it ------------------------------------------------------

  function KeyText(k: GroupModel.CommitKey): bytes {
    MakeKey(Key(k.group, k.tp.topic, k.tp.partition))
  }

  /** The cache holds exactly the coordinator's committed offsets. */
  ghost predicate Holds(c: Cache, committed: map<GroupModel.CommitKey, uint64>) {
    forall k: GroupModel.CommitKey :: PIPE !in k.tp.topic ==> HoldsAt(c, committed, k)
  }

  ghost predicate HoldsAt(c: Cache, committed: map<GroupModel.CommitKey, uint64>, k: GroupModel.CommitKey) {
    (KeyText(k) in c <==> k in committed) && (k in committed ==> c[KeyText(k)].offset == ToSigned(committed[k]))
  }

  lemma {:induction false} StoredSnoc(c: map<GroupModel.CommitKey, uint64>, group: bytes, es: seq<GroupModel.Entry>)
    requires es != []
    ensures var n := |es| - 1;
            GroupModel.Stored(c, group, es) ==
            GroupModel.Stored(c, group, es[..n])[GroupModel.CommitKey(group, es[n].tp) := es[n].offset]
    decreases |es|
  {
    var n := |es| - 1;
    if n > 0 {
      var c1 := c[GroupModel.CommitKey(group, es[0].tp) := es[0].offset];
      StoredSnoc(c1, group, es[1..]);
      assert es[1..][..n - 1] == es[..n][1..] && es[1..][n - 1] == es[n];
    }
  }

  ghost predicate SameEntries(items: seq<CommitItem>, es: seq<GroupModel.Entry>) {
    && |items| == |es|
    && forall i :: 0 <= i < |items| ==>
      PIPE !in items[i].topic && es[i] == GroupModel.Entry(TopicPartition(items[i].topic, items[i].partition),
                                                           items[i].offset)
  }

  /** A commit through the store is a commit as the group model has it. */
  lemma {:induction false} CommitRefines(c: Cache, committed: map<GroupModel.CommitKey, uint64>, group: bytes,
                                         items: seq<CommitItem>, es: seq<GroupModel.Entry>)
    requires Holds(c, committed) && SameEntries(items, es)
    ensures Holds(Cached(c, group, items), GroupModel.Stored(committed, group, es))
    decreases |items|
  {
    hide MakeKey, GroupModel.Stored;
    if items == [] {
      StoredNothing(committed, group, es);
    } else {
      var n := |items| - 1;
      CommitRefines(c, committed, group, items[..n], es[..n]);
      StoredSnoc(committed, group, es);
      var c0, s0 := Cached(c, group, items[..n]), GroupModel.Stored(committed, group, es[..n]);
      OneRefines(c0, s0, GroupModel.CommitKey(group, es[n].tp), items[n]);
    }
  }

  lemma StoredNothing(c: map<GroupModel.CommitKey, uint64>, group: bytes, es: seq<GroupModel.Entry>)
    requires es == []
    ensures GroupModel.Stored(c, group, es) == c
  {
  }

  lemma OneRefines(c: Cache, committed: map<GroupModel.CommitKey, uint64>, key: GroupModel.CommitKey, item: CommitItem)
    requires Holds(c, committed) && PIPE !in key.tp.topic
    ensures Holds(c[KeyText(key) := EntryOf(item)], committed[key := item.offset])
  {
    hide MakeKey;
    forall k: GroupModel.CommitKey | PIPE !in k.tp.topic
      ensures HoldsAt(c[KeyText(key) := EntryOf(item)], committed[key := item.offset], k)
    {
      assert HoldsAt(c, committed, k);
      if KeyText(k) == KeyText(key) {
        KeysDiffer(Key(k.group, k.tp.topic, k.tp.partition), Key(key.group, key.tp.topic, key.tp.partition));
      }
    }
  }

  /** What `get` returns is what the group model reads. */
  lemma GetRefines(c: Cache, committed: map<GroupModel.CommitKey, uint64>, group: bytes, tp: TopicPartition)
    requires Holds(c, committed) && PIPE !in tp.topic
    ensures var key := MakeKey(Key(group, tp.topic, tp.partition));
            GroupModel.CommittedOffset(committed, group, tp) == if key in c then c[key].offset else -1
  {
    hide MakeKey;
    assert HoldsAt(c, committed, GroupModel.CommitKey(group, tp));
  }
}
