/** The FETCH request: range check, clamp, read, and the size of the reply. */
module FetchHandler {
  import opened Bytes
  import opened RecordCodec
  import opened Layout
  import opened PartitionModel
  import opened Reading
  import opened PartitionStore
  import Protocol
  import Messages

  const OFFSET_OUT_OF_RANGE := 8
  const INVALID_ARGUMENT := 13
  const MAX_REPLY_BYTES := 1048500

  datatype FetchReply =
    | FetchOk(next: uint64, high: uint64, earliest: uint64, records: seq<Stored>)
    | FetchError(code: nat)

  /** `MessageHandler::handle_fetch`, once topic and partition are found. */
  method HandleFetch(part: PartitionLog, start: uint64, maxBytes: uint32, maxMessages: uint32)
      returns (reply: FetchReply)
    requires part.Valid()
    ensures part.lag < |part.chain|
    ensures maxBytes == 0 || maxMessages == 0 ==> reply == FetchError(INVALID_ARGUMENT)
    ensures maxBytes > 0 && maxMessages > 0 && !(part.Earliest() <= start <= part.next) ==>
            reply == FetchError(OFFSET_OUT_OF_RANGE)
    ensures maxBytes > 0 && maxMessages > 0 && part.Earliest() <= start <= part.next ==>
              && reply.FetchOk? && reply.high == part.next && reply.earliest == part.Earliest()
              && reply.next == start + |reply.records| <= reply.high
              && part.next == part.Earliest() + |part.Flattened()|
              && var rest := part.Flattened()[start - part.Earliest()..];
              && (maxBytes <= 1048500 ==> IsPage(rest, reply.records, maxMessages, maxBytes))
              && (maxBytes > 1048500 ==> IsPage(rest, reply.records, maxMessages, 1048500))
  {
    hide Good, Flat, IsPage, LayoutOk;
    ReadStart(part.cfg, part.Value(), part.dir.files, part.chain, part.lag);
    FollowingOffsets(part.chain[part.lag..], part.cfg.segmentMax);
    if maxBytes == 0 || maxMessages == 0 {
      return FetchError(INVALID_ARGUMENT);
    }
    var high, earliest := part.next, part.Earliest();
    if start == high {
      EmptyPage(maxMessages, Clamp(maxBytes));
      assert part.Flattened()[start - earliest..] == [];
      return FetchOk(high, high, earliest, []);
    }
    if start > high || start < earliest {
      return FetchError(OFFSET_OUT_OF_RANGE);
    }
    var status, records := part.Read(start, maxMessages, Clamp(maxBytes));
    ghost var flat, at := part.Flattened(), start - earliest;
    PageOffsets(flat, at, records, earliest, maxMessages, Clamp(maxBytes));
    return FetchOk(records[|records| - 1].offset + 1, high, earliest, records);
  }

  function Clamp(maxBytes: uint32): nat {
    if maxBytes < MAX_REPLY_BYTES then maxBytes else MAX_REPLY_BYTES
  }

  lemma PageOffsets(flat: seq<Stored>, at: nat, page: seq<Stored>, first: nat, messages: nat, bytes: nat)
    requires at < |flat| && IsPage(flat[at..], page, messages, bytes)
    requires forall i :: 0 <= i < |flat| ==> flat[i].offset == first + i
    ensures page != [] && at + |page| <= |flat| && page[|page| - 1].offset + 1 == first + at + |page|
  {
    var n := |page| - 1;
    assert page[n] == flat[at..][n] == flat[at + n];
  }

  // ---- How large a reply can be ------------------------------------------------------------------

  /** A record as it travels in a reply. */
  function RecordValues(r: Stored): seq<Protocol.Value> {
    [Protocol.Num(r.offset), Protocol.Num(ToUnsigned(r.timestamp)), Protocol.Data(r.key), Protocol.Data(r.value)]
  }

  function RowsOf(rs: seq<Stored>): (rows: seq<seq<Protocol.Value>>)
    ensures |rows| == |rs| && forall i :: 0 <= i < |rs| ==> rows[i] == RecordValues(rs[i])
  {
    seq(|rs|, i requires 0 <= i < |rs| => RecordValues(rs[i]))
  }

  function ReplyValues(reply: FetchReply): seq<Protocol.Value>
    requires reply.FetchOk?
  {
    [Protocol.Num(reply.next), Protocol.Num(reply.high), Protocol.Num(reply.earliest),
     Protocol.Rows(RowsOf(reply.records))]
  }

  lemma {:induction false} SizeAtLeast(rs: seq<Stored>)
    ensures SizeOf(rs) >= 28 * |rs|
    decreases |rs|
  {
    if rs != [] {
      SizeAtLeast(rs[..|rs| - 1]);
    }
  }

  /** A page within the clamp has few records, and its size is the clamp and one record at most. */
  lemma PageBounds(rest: seq<Stored>, page: seq<Stored>, messages: nat, bytes: nat)
    requires IsPage(rest, page, messages, bytes) && bytes <= MAX_REPLY_BYTES
    ensures |page| <= 37447 && (page == [] || SizeOf(page) < MAX_REPLY_BYTES + page[|page| - 1].Size())
  {
    if page != [] {
      SizeAtLeast(page[..|page| - 1]);
    }
  }

  lemma RecordFits(r: Stored)
    ensures Protocol.Fits(Messages.FETCHED, RecordValues(r))
    ensures |Protocol.Print(Messages.FETCHED, RecordValues(r))| == r.Size() - 4
  {
    var vs := RecordValues(r);
    var v1, v2, v3 := vs[1..], vs[1..][1..], vs[1..][1..][1..];
    assert v1 == [vs[1], vs[2], vs[3]] && v2 == [vs[2], vs[3]] && v3 == [vs[3]] && v3[1..] == [];
    assert Protocol.FitsOne(Protocol.Blob, vs[2]) && Protocol.FitsOne(Protocol.Blob, vs[3]);
    assert Protocol.Fits(Protocol.Field(Protocol.Blob, Protocol.End), v3);
    assert |Protocol.Print(Protocol.Field(Protocol.Blob, Protocol.End), v3)| == 4 + |r.value|;
    assert Protocol.Fits(Messages.RECORD, v2) && |Protocol.Print(Messages.RECORD, v2)| == 8 + |r.key| + |r.value|;
    assert Protocol.Fits(Protocol.Field(Protocol.N64, Messages.RECORD), v1);
  }

  lemma {:induction false} RowsSize(rs: seq<Stored>)
    ensures Protocol.FitsRows(Messages.FETCHED, RowsOf(rs))
    ensures |Protocol.PrintRows(Messages.FETCHED, RowsOf(rs))| == SizeOf(rs) - 4 * |rs|
    decreases |rs|
  {
    hide Protocol.Print, Protocol.Fits;
    forall i | 0 <= i < |rs| ensures Protocol.Fits(Messages.FETCHED, RowsOf(rs)[i]) { RecordFits(rs[i]); }
    if rs != [] {
      RowsSize(rs[1..]);
      SizeFirst(rs);
      RecordFits(rs[0]);
      assert RowsOf(rs)[1..] == RowsOf(rs[1..]);
    }
  }

  lemma ReplyPrint(reply: FetchReply)
    requires reply.FetchOk? && |reply.records| < 0x1_0000
    ensures Protocol.Fits(Messages.FETCH_OK, ReplyValues(reply))
    ensures |Protocol.Print(Messages.FETCH_OK, ReplyValues(reply))| == 26 + SizeOf(reply.records) - 4 * |reply.records|
  {
    hide SizeOf, Protocol.PrintRows;
    RowsSize(reply.records);
    var vs := ReplyValues(reply);
    var v1, v2, v3 := vs[1..], vs[1..][1..], vs[1..][1..][1..];
    assert v1 == [vs[1], vs[2], vs[3]] && v2 == [vs[2], vs[3]] && v3 == [vs[3]] && v3[1..] == [];
    var rows := Protocol.Repeated(0, Messages.FETCHED);
    assert Protocol.FitsOne(rows, vs[3]);
    var f3 := Protocol.Field(rows, Protocol.End);
    assert Protocol.Fits(f3, v3) && Protocol.Print(f3, v3) == Protocol.PrintOne(rows, vs[3]) + [];
    var f2 := Protocol.Field(Protocol.N64, f3);
    assert Protocol.Fits(f2, v2) && |Protocol.Print(f2, v2)| == 8 + |Protocol.Print(f3, v3)|;
    var f1 := Protocol.Field(Protocol.N64, f2);
    assert Protocol.Fits(f1, v1) && |Protocol.Print(f1, v1)| == 8 + |Protocol.Print(f2, v2)|;
  }

  /** A FETCH reply carries at most 37,447 records, so that its 16-bit count is exact and it decodes to itself; and
      its body is shorter than 26 + 1,048,500 + 1,048,576 bytes. */
  lemma ReplyBounds(reply: FetchReply, rest: seq<Stored>, messages: nat, maxBytes: uint32)
    requires reply.FetchOk? && IsPage(rest, reply.records, messages, Clamp(maxBytes))
    ensures |reply.records| <= 37447 && Protocol.Fits(Messages.FETCH_OK, ReplyValues(reply))
    ensures var body := Protocol.Print(Messages.FETCH_OK, ReplyValues(reply));
            && Protocol.ParseBody(Messages.FETCH_OK, body) == Some(ReplyValues(reply))
            && |body| < 26 + 1048500 + 1048576
  {
    hide IsPage, SizeOf, Protocol.Print, Protocol.Fits, Protocol.ParseBody;
    PageBounds(rest, reply.records, messages, Clamp(maxBytes));
    ReplyPrint(reply);
    NothingSized();
    Messages.MessageBodies(Messages.FETCH_OK, Protocol.Print(Messages.FETCH_OK, ReplyValues(reply)),
                           ReplyValues(reply));
  }
}
