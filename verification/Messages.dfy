/** The messages of the protocol. */
module Messages {
  import opened Bytes
  import opened Protocol
  import opened BodyIo

  const TOPIC_PARTITION: Fields := Field(Text, Field(N16, End))
  const RECORD: Fields := Field(Blob, Field(Blob, End))
  const FETCHED: Fields := Field(N64, Field(N64, RECORD))
  const COMMITTED: Fields := Field(Text, Field(N16, Field(N64, End)))
  const MEMBER: Fields := Field(Text, Field(N32, Field(N32, Field(Repeated(4, TOPIC_PARTITION), End))))

  const NOTHING: Fields := End
  const PRODUCE: Fields := Field(Text, Field(N32, Field(Repeated(0, RECORD), End)))
  const FETCH: Fields := Field(Text, Field(N16, Field(N64, Field(N32, Field(N32, End)))))
  const NAME: Fields := Field(Text, End)
  const PRODUCE_OK: Fields := Field(N16, Field(N64, Field(N16, End)))
  const FETCH_OK: Fields := Field(N64, Field(N64, Field(N64, Field(Repeated(0, FETCHED), End))))
  const TOPICS: Fields := Field(Repeated(0, TOPIC_PARTITION), End)
  const JOIN_GROUP: Fields :=
    Field(Text, Field(Text, Field(N32, Field(N8, Field(Repeated(2, Field(Text, End)), End)))))
  const HEARTBEAT: Fields := Field(Text, Field(Text, Field(N32, End)))
  const LEAVE_GROUP: Fields := Field(Text, Field(Text, End))
  const COMMIT_OFFSET: Fields := Field(Text, Field(Text, Field(N32, Field(Repeated(12, COMMITTED), End))))
  const FETCH_OFFSET: Fields := Field(Text, Field(Repeated(4, TOPIC_PARTITION), End))
  const JOIN_GROUP_OK: Fields := Field(Text, Field(N32, Field(N32, Field(Repeated(4, TOPIC_PARTITION), End))))
  const OFFSETS: Fields := Field(Repeated(12, COMMITTED), End)
  const GROUP_DESCRIPTION: Fields :=
    Field(Text, Field(N32, Field(Text, Field(N8, Field(Repeated(0, MEMBER), End)))))

  /** All message bodies except the two that are treated below. */
  const MESSAGES: set<Fields> := {
    NOTHING, PRODUCE, FETCH, NAME, PRODUCE_OK, FETCH_OK, TOPICS, JOIN_GROUP, HEARTBEAT, LEAVE_GROUP, COMMIT_OFFSET,
    FETCH_OFFSET, JOIN_GROUP_OK, OFFSETS, GROUP_DESCRIPTION
  }

  /** Every message in range decodes to itself, every body that a decoder accepts encodes to the same bytes, and the
      count guards of the decoders never reject a valid body. */
  lemma MessageBodies(message: Fields, s: bytes, vs: seq<Value>)
    requires message in MESSAGES
    ensures ParseBody(message, s) == Some(vs) <==> Fits(message, vs) && s == Print(message, vs)
  {
    hide Fits, Print, ParseBody;
    BaseGuarded();
    BodiesExactly(message, s, vs);
  }

  lemma BaseGuarded()
    ensures Guarded(NOTHING) && Guarded(PRODUCE) && Guarded(FETCH) && Guarded(NAME) && Guarded(PRODUCE_OK) &&
            Guarded(FETCH_OK)
    ensures Guarded(TOPICS) && Guarded(JOIN_GROUP) && Guarded(HEARTBEAT) && Guarded(LEAVE_GROUP) &&
            Guarded(COMMIT_OFFSET)
    ensures Guarded(FETCH_OFFSET) && Guarded(JOIN_GROUP_OK) && Guarded(OFFSETS) && Guarded(GROUP_DESCRIPTION)
  {
    assert Least(TOPIC_PARTITION) == 4 && Guarded(TOPIC_PARTITION);
    assert Guarded(RECORD) && Guarded(FETCHED);
    assert Least(COMMITTED) == 12 && Guarded(COMMITTED);
    assert Guarded(Field(Repeated(4, TOPIC_PARTITION), End));
    assert Guarded(MEMBER);
    assert Least(Field(Text, End)) == 2;
    assert Guarded(Field(Repeated(2, Field(Text, End)), End));
    assert Guarded(Field(Repeated(12, COMMITTED), End));
    assert Guarded(Field(Repeated(0, MEMBER), End)) && Guarded(Field(N8, Field(Repeated(0, MEMBER), End)));
    assert Guarded(Field(N8, Field(Repeated(2, Field(Text, End)), End)));
    assert Guarded(Field(N32, Field(N8, Field(Repeated(2, Field(Text, End)), End))));
    assert Guarded(Field(Text, Field(N8, Field(Repeated(0, MEMBER), End))));
    assert Guarded(Field(Repeated(0, FETCHED), End)) && Guarded(Field(N64, Field(Repeated(0, FETCHED), End)));
  }

  // ---- CreateTopicRequest: the retention is optional ------------------------------------------------

  const TOPIC_HEAD: Fields := Field(Text, Field(N16, End))
  const RETENTION: Fields := Field(N64, Field(N64, End))

  datatype CreateTopic = CreateTopic(head: seq<Value>, retention: Option<seq<Value>>)

  predicate CreateTopicFits(m: CreateTopic) {
    Fits(TOPIC_HEAD, m.head) && (m.retention.Some? ==> Fits(RETENTION, m.retention.value))
  }

  function PrintCreateTopic(m: CreateTopic): bytes
    requires CreateTopicFits(m)
  {
    Print(TOPIC_HEAD, m.head) + if m.retention.Some? then Print(RETENTION, m.retention.value) else []
  }

  function ParseCreateTopic(s: bytes): Option<CreateTopic> {
    match Parse(TOPIC_HEAD, s)
    case None => None
    case Some(p) =>
      if p.rest == [] then Some(CreateTopic(p.value, None))
      else
        match ParseBody(RETENTION, p.rest)
        case None => None
        case Some(r) => Some(CreateTopic(p.value, Some(r)))
  }

  method DecodeCreateTopic(r: BodyReader) returns (m: Option<CreateTopic>)
    requires r.Valid()
    modifies r
    ensures r.Valid() && m == ParseCreateTopic(old(r.Left()))
  {
    hide Parse;
    var head := r.ReadFields(TOPIC_HEAD);
    if head == None {
      return None;
    }
    var n := r.Remaining();
    if n > 0 {
      var retention := r.ReadFields(RETENTION);
      if retention == None {
        return None;
      }
      var empty := r.RequireEmpty();
      return if empty then Some(CreateTopic(head.value, retention)) else None;
    }
    return Some(CreateTopic(head.value, None));
  }

  /** With and without retention, parser and printer undo each other. */
  lemma CreateTopicExactly(s: bytes, m: CreateTopic)
    ensures ParseCreateTopic(s) == Some(m) <==> CreateTopicFits(m) && s == PrintCreateTopic(m)
  {
    hide Parse, Print, Fits;
    assert Guarded(TOPIC_HEAD) && Guarded(RETENTION) && Least(RETENTION) == 16;
    if ParseCreateTopic(s) == Some(m) {
      PrintParsed(TOPIC_HEAD, s);
      var p := Parse(TOPIC_HEAD, s).value;
      if p.rest != [] {
        BodiesExactly(RETENTION, p.rest, m.retention.value);
      }
    }
    if CreateTopicFits(m) && s == PrintCreateTopic(m) {
      var tail := if m.retention.Some? then Print(RETENTION, m.retention.value) else [];
      ParsePrinted(TOPIC_HEAD, m.head, tail);
      if m.retention.Some? {
        PrintLeast(RETENTION, m.retention.value);
        BodiesExactly(RETENTION, tail, m.retention.value);
      }
    }
  }

  // ---- DescribeTopicResponse: two layouts ------------------------------------------------------------

  const SHORT_ROW: Fields := Field(N64, Field(N64, End))
  const LONG_ROW: Fields := Field(N64, Field(N64, Field(N32, End)))
  const TRAILER: Fields := Field(N64, Field(N64, Field(N8, End)))
  const NO_TRAILER: seq<Value> := [Num(0), Num(0), Num(0)]

  /** Rows of earliest offset, next offset and segment count; and retention time, retention bytes and the degraded
      flag. */
  datatype Description = Description(name: bytes, rows: seq<seq<Value>>, trailer: seq<Value>)

  predicate DescriptionFits(d: Description) {
    && |d.name| < 0x1_0000 && |d.rows| < 0x1_0000 && Fits(TRAILER, d.trailer)
    && forall i :: 0 <= i < |d.rows| ==> Fits(LONG_ROW, d.rows[i])
  }

  function Head(name: bytes, n: nat): bytes
    requires |name| < 0x1_0000 && n < 0x1_0000
  {
    U16(|name|) + name + U16(n)
  }

  /** A short row stands for one segment. */
  function OneSegment(rows: seq<seq<Value>>): (long: seq<seq<Value>>)
    ensures |long| == |rows| && forall i :: 0 <= i < |rows| ==> long[i] == rows[i] + [Num(1)]
  {
    seq(|rows|, i requires 0 <= i < |rows| => rows[i] + [Num(1)])
  }

  function ParseDescription(s: bytes): Option<Description> {
    match Parse(TOPIC_HEAD, s)
    case None => None
    case Some(p) =>
      PrintParsed(TOPIC_HEAD, s);
      HeadValues(p.value);
      ParseDescriptionRows(p.value[0].s, p.value[1].n, p.rest)
  }

  function ParseDescriptionRows(name: bytes, n: nat, s: bytes): Option<Description> {
    if |s| >= n * 20 then
      match ParseRows(LONG_ROW, n, s)
      case None => None
      case Some(q) =>
        if |q.rest| >= 17 then
          (match ParseBody(TRAILER, q.rest)
           case None => None
           case Some(t) => Some(Description(name, q.value, t)))
        else if q.rest == [] then Some(Description(name, q.value, NO_TRAILER)) else None
    else
      match ParseRows(SHORT_ROW, n, s)
      case None => None
      case Some(q) => if q.rest == [] then Some(Description(name, OneSegment(q.value), NO_TRAILER)) else None
  }

  lemma HeadValues(vs: seq<Value>)
    requires Fits(TOPIC_HEAD, vs)
    ensures |vs| == 2 && vs[0].Data? && |vs[0].s| < 0x1_0000 && vs[1].Num? && vs[1].n < 0x1_0000
    ensures Print(TOPIC_HEAD, vs) == Head(vs[0].s, vs[1].n)
  {
    hide U16;
    assert Print(End, vs[1..][1..]) == [];
    assert Print(Field(N16, End), vs[1..]) == U16(vs[1].n) + [];
  }

  method DecodeDescription(r: BodyReader) returns (d: Option<Description>)
    requires r.Valid()
    modifies r
    ensures r.Valid() && d == ParseDescription(old(r.Left()))
  {
    hide Parse, ParseRows;
    var head := r.ReadFields(TOPIC_HEAD);
    if head == None {
      return None;
    }
    PrintParsed(TOPIC_HEAD, old(r.Left()));
    HeadValues(head.value);
    var name, n := head.value[0].s, head.value[1].n;
    var left := r.Remaining();
    if left >= n * 20 {
      var rows := r.ReadRows(LONG_ROW, n);
      if rows == None {
        return None;
      }
      left := r.Remaining();
      if left >= 17 {
        var trailer := r.Decode(TRAILER);
        return if trailer.Some? then Some(Description(name, rows.value, trailer.value)) else None;
      }
      return if left == 0 then Some(Description(name, rows.value, NO_TRAILER)) else None;
    }
    var rows := r.ReadRows(SHORT_ROW, n);
    if rows == None {
      return None;
    }
    var empty := r.RequireEmpty();
    return if empty then Some(Description(name, OneSegment(rows.value), NO_TRAILER)) else None;
  }

  /** Fields of a fixed size. */
  predicate Fixed(fs: Fields) {
    fs.Field? ==> !fs.kind.Repeated? && fs.kind != Text && fs.kind != Blob && Fixed(fs.rest)
  }

  lemma {:induction false} FixedSize(fs: Fields, vs: seq<Value>)
    requires Fixed(fs) && Fits(fs, vs)
    ensures |Print(fs, vs)| == Least(fs)
    decreases fs
  {
    match fs
    case End =>
    case Field(k, rest) => FixedSize(rest, vs[1..]);
  }

  lemma {:induction false} FixedRows(item: Fields, rows: seq<seq<Value>>)
    requires Fixed(item) && FitsRows(item, rows)
    ensures |PrintRows(item, rows)| == |rows| * Least(item)
    decreases |rows|
  {
    hide Print, Least;
    if rows != [] {
      FixedSize(item, rows[0]);
      FixedRows(item, rows[1..]);
      assert |rows| * Least(item) == Least(item) + (|rows| - 1) * Least(item);
    }
  }

  lemma Widths()
    ensures Fixed(SHORT_ROW) && Least(SHORT_ROW) == 16 && Guarded(SHORT_ROW)
    ensures Fixed(LONG_ROW) && Least(LONG_ROW) == 20 && Guarded(LONG_ROW)
    ensures Fixed(TRAILER) && Least(TRAILER) == 17 && Guarded(TRAILER) && Fits(TRAILER, NO_TRAILER)
    ensures Guarded(TOPIC_HEAD)
  {
    assert Fits(Field(N8, End), NO_TRAILER[1..][1..]);
  }

  /** The rest of a body after name and count, in the three layouts: long rows and a trailer, long rows alone, and
      short rows alone. */
  ghost predicate Current(d: Description, s: bytes) {
    FitsRows(LONG_ROW, d.rows) && Fits(TRAILER, d.trailer) && s == PrintRows(LONG_ROW, d.rows) +
        Print(TRAILER, d.trailer)
  }

  ghost predicate Bare(d: Description, s: bytes) {
    FitsRows(LONG_ROW, d.rows) && d.trailer == NO_TRAILER && s == PrintRows(LONG_ROW, d.rows)
  }

  ghost predicate Legacy(d: Description, s: bytes, short: seq<seq<Value>>) {
    short != [] && FitsRows(SHORT_ROW, short) && d.rows == OneSegment(short) && d.trailer == NO_TRAILER &&
        s == PrintRows(SHORT_ROW, short)
  }

  lemma CurrentParses(d: Description, s: bytes)
    requires Current(d, s)
    ensures ParseDescriptionRows(d.name, |d.rows|, s) == Some(d)
  {
    hide Fits, Print, Parse, ParseRows, PrintRows, ParseBody;
    Widths();
    var t := Print(TRAILER, d.trailer);
    FixedRows(LONG_ROW, d.rows);
    FixedSize(TRAILER, d.trailer);
    ParsePrintedRows(LONG_ROW, d.rows, t);
    BodiesExactly(TRAILER, t, d.trailer);
  }

  lemma BareParses(d: Description, s: bytes)
    requires Bare(d, s)
    ensures ParseDescriptionRows(d.name, |d.rows|, s) == Some(d)
  {
    hide Fits, Print, Parse, ParseRows, PrintRows, ParseBody;
    Widths();
    FixedRows(LONG_ROW, d.rows);
    ParsePrintedRows(LONG_ROW, d.rows, []);
    assert s + [] == s;
  }

  lemma LegacyParses(d: Description, s: bytes, short: seq<seq<Value>>)
    requires Legacy(d, s, short)
    ensures ParseDescriptionRows(d.name, |d.rows|, s) == Some(d)
  {
    hide Fits, Print, Parse, ParseRows, PrintRows, ParseBody;
    Widths();
    FixedRows(SHORT_ROW, short);
    ParsePrintedRows(SHORT_ROW, short, []);
    assert s + [] == s;
  }

  lemma RowsParsed(name: bytes, n: nat, s: bytes, d: Description)
    requires ParseDescriptionRows(name, n, s) == Some(d)
    ensures d.name == name && |d.rows| == n
    ensures Current(d, s) || Bare(d, s) || exists short :: Legacy(d, s, short)
  {
    hide Fits, Print, Parse, ParseRows, PrintRows, ParseBody;
    Widths();
    if |s| >= n * 20 {
      PrintParsedRows(LONG_ROW, n, s);
      var q := ParseRows(LONG_ROW, n, s).value;
      if |q.rest| >= 17 {
        BodiesExactly(TRAILER, q.rest, d.trailer);
        assert Current(d, s);
      } else {
        assert Bare(d, s);
      }
    } else {
      PrintParsedRows(SHORT_ROW, n, s);
      var q := ParseRows(SHORT_ROW, n, s).value;
      assert q.value != [];
      assert Legacy(d, s, q.value);
    }
  }

  /** The layouts are told apart: a body is accepted exactly if it is a name, a row count, and one of the three
      layouts; and then the description is the one it was made from, with one segment per partition and no retention
      where the layout does not carry them. */
  lemma DescriptionExactly(s: bytes, d: Description)
    ensures ParseDescription(s) == Some(d) <==>
            && |d.name| < 0x1_0000 && |d.rows| < 0x1_0000
            && var head := Head(d.name, |d.rows|);
            && head <= s
            && var rest := s[|head|..];
            Current(d, rest) || Bare(d, rest) || exists short :: Legacy(d, rest, short)
  {
    hide Parse, Print, Fits, ParseDescriptionRows, Current, Bare, Legacy, Head;
    Widths();
    if ParseDescription(s) == Some(d) {
      PrintParsed(TOPIC_HEAD, s);
      var p := Parse(TOPIC_HEAD, s).value;
      HeadValues(p.value);
      RowsParsed(p.value[0].s, p.value[1].n, p.rest, d);
      assert s[|Head(d.name, |d.rows|)|..] == p.rest;
    }
    if |d.name| < 0x1_0000 && |d.rows| < 0x1_0000 && Head(d.name, |d.rows|) <= s {
      var head := Head(d.name, |d.rows|);
      var rest := s[|head|..];
      HeadParses(d.name, |d.rows|, rest);
      assert s == head + rest;
      if Current(d, rest) {
        CurrentParses(d, rest);
      } else if Bare(d, rest) {
        BareParses(d, rest);
      } else if exists short :: Legacy(d, rest, short) {
        var short :| Legacy(d, rest, short);
        LegacyParses(d, rest, short);
      }
    }
  }

  lemma HeadParses(name: bytes, n: nat, rest: bytes)
    requires |name| < 0x1_0000 && n < 0x1_0000
    ensures Parse(TOPIC_HEAD, Head(name, n) + rest) == Some(Parsed([Data(name), Num(n)], rest))
  {
    hide Parse, Print;
    var vs := [Data(name), Num(n)];
    assert vs[1..] == [Num(n)] && vs[1..][1..] == [];
    assert Fits(Field(N16, End), [Num(n)]);
    assert Fits(TOPIC_HEAD, vs);
    assert Guarded(TOPIC_HEAD);
    HeadValues(vs);
    ParsePrinted(TOPIC_HEAD, vs, rest);
  }
}
