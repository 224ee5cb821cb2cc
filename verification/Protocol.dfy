/** Message bodies: sequences of fields, some of them repeated, and their two readings. */
module Protocol {
  import opened Bytes
  import opened Frames

  /** A field of a message. Signed numbers travel as their two's complement. A repeated field is a 16-bit count and
      that many rows; some decoders first check that `guard` bytes per row are there. */
  datatype Kind = N8 | N16 | N32 | N64 | Text | Blob | Repeated(guard: nat, item: Fields)

  datatype Fields = End | Field(kind: Kind, rest: Fields)

  datatype Value = Num(n: nat) | Data(s: bytes) | Rows(rows: seq<seq<Value>>)

  function Limit(k: Kind): nat {
    match k
    case N8 => 0x100
    case N16 => 0x1_0000
    case N32 => 0x1_0000_0000
    case N64 => 0x1_0000_0000_0000_0000
    case Text => 0x1_0000
    case Blob => MAX_FRAME_LENGTH + 1
    case Repeated(_, _) => 0x1_0000
  }

  // ---- In range ----------------------------------------------------------------------------

  predicate Fits(fs: Fields, vs: seq<Value>)
    decreases fs, 0
  {
    match fs
    case End => vs == []
    case Field(k, rest) => vs != [] && FitsOne(k, vs[0]) && Fits(rest, vs[1..])
  }

  predicate FitsOne(k: Kind, v: Value)
    decreases k, 1
  {
    match k
    case Text => v.Data? && |v.s| < Limit(k)
    case Blob => v.Data? && |v.s| < Limit(k)
    case Repeated(_, item) => v.Rows? && |v.rows| < Limit(k) && forall i :: 0 <= i < |v.rows| ==> Fits(item, v.rows[i])
    case _ => v.Num? && v.n < Limit(k)
  }

  ghost predicate FitsRows(item: Fields, rows: seq<seq<Value>>) {
    forall i :: 0 <= i < |rows| ==> Fits(item, rows[i])
  }

  // ---- Printing ----------------------------------------------------------------------------

  function PrintNumber(k: Kind, n: nat): bytes
    requires !k.Repeated? && k != Text && k != Blob && n < Limit(k)
  {
    match k
    case N8 => [n]
    case N16 => U16(n)
    case N32 => U32(n)
    case N64 => U64(n)
  }

  function Print(fs: Fields, vs: seq<Value>): bytes
    requires Fits(fs, vs)
    decreases fs, 0
  {
    match fs
    case End => []
    case Field(k, rest) => PrintOne(k, vs[0]) + Print(rest, vs[1..])
  }

  function PrintOne(k: Kind, v: Value): bytes
    requires FitsOne(k, v)
    decreases k, 1
  {
    match k
    case Text => U16(|v.s|) + v.s
    case Blob => U32(|v.s|) + v.s
    case Repeated(_, item) => U16(|v.rows|) + PrintRows(item, v.rows)
    case _ => PrintNumber(k, v.n)
  }

  function PrintRows(item: Fields, rows: seq<seq<Value>>): bytes
    requires FitsRows(item, rows)
    decreases item, |rows| + 1
  {
    if rows == [] then [] else Print(item, rows[0]) + PrintRows(item, rows[1..])
  }

  // ---- Parsing -----------------------------------------------------------------------------

  datatype Parsed<T> = Parsed(value: T, rest: bytes)

  function ParseNumber(k: Kind, s: bytes): Option<Parsed<nat>>
    requires !k.Repeated? && k != Text && k != Blob
  {
    match k
    case N8 => if |s| < 1 then None else Some(Parsed(s[0], s[1..]))
    case N16 => if |s| < 2 then None else Some(Parsed(GetU16(s, 0), s[2..]))
    case N32 => if |s| < 4 then None else Some(Parsed(GetU32(s, 0), s[4..]))
    case N64 => if |s| < 8 then None else Some(Parsed(GetU64(s, 0), s[8..]))
  }

  /** A length and that many bytes. */
  function ParseData(width: Kind, limit: nat, s: bytes): Option<Parsed<bytes>>
    requires width == N16 || width == N32
  {
    match ParseNumber(width, s)
    case None => None
    case Some(p) => if p.value > limit || |p.rest| < p.value then None
        else Some(Parsed(p.rest[..p.value], p.rest[p.value..]))
  }

  function Parse(fs: Fields, s: bytes): Option<Parsed<seq<Value>>>
    decreases fs, 0
  {
    match fs
    case End => Some(Parsed([], s))
    case Field(k, rest) =>
      match ParseOne(k, s)
      case None => None
      case Some(p) =>
        match Parse(rest, p.rest)
        case None => None
        case Some(q) => Some(Parsed([p.value] + q.value, q.rest))
  }

  function ParseOne(k: Kind, s: bytes): Option<Parsed<Value>>
    decreases k, 1
  {
    match k
    case Text => (match ParseData(N16, 0xFFFF, s) case None => None case Some(p) => Some(Parsed(Data(p.value), p.rest)))
    case Blob => (match ParseData(N32, MAX_FRAME_LENGTH,
                                  s) case None => None case Some(p) => Some(Parsed(Data(p.value), p.rest)))
    case Repeated(guard, item) =>
      (match ParseNumber(N16, s)
       case None => None
       case Some(p) =>
         if |p.rest| < p.value * guard then None
         else
           match ParseRows(item, p.value, p.rest)
           case None => None
           case Some(q) => Some(Parsed(Rows(q.value), q.rest)))
    case _ => (match ParseNumber(k, s) case None => None case Some(p) => Some(Parsed(Num(p.value), p.rest)))
  }

  function ParseRows(item: Fields, n: nat, s: bytes): Option<Parsed<seq<seq<Value>>>>
    decreases item, n + 1
  {
    if n == 0 then Some(Parsed([], s))
    else
      match Parse(item, s)
      case None => None
      case Some(p) =>
        match ParseRows(item, n - 1, p.rest)
        case None => None
        case Some(q) => Some(Parsed([p.value] + q.value, q.rest))
  }

  /** A whole body: nothing may be left over. */
  function ParseBody(fs: Fields, s: bytes): Option<seq<Value>> {
    match Parse(fs, s)
    case None => None
    case Some(p) => if p.rest == [] then Some(p.value) else None
  }

  // ---- Guards ------------------------------------------------------------------------------

  /** The least number of bytes that a field or a row takes. */
  function Least(fs: Fields): nat {
    match fs
    case End => 0
    case Field(k, rest) => LeastOne(k) + Least(rest)
  }

  function LeastOne(k: Kind): nat {
    match k
    case N8 => 1
    case N16 => 2
    case N32 => 4
    case N64 => 8
    case Text => 2
    case Blob => 4
    case Repeated(_, _) => 2
  }

  /** Every guard asks for no more than the rows take anyway. */
  predicate Guarded(fs: Fields) {
    match fs
    case End => true
    case Field(k, rest) => Guarded(rest) && (k.Repeated? ==> k.guard <= Least(k.item) && Guarded(k.item))
  }

  lemma {:induction false} PrintLeast(fs: Fields, vs: seq<Value>)
    requires Fits(fs, vs)
    ensures |Print(fs, vs)| >= Least(fs)
    decreases fs
  {
    match fs
    case End =>
    case Field(k, rest) => PrintLeast(rest, vs[1..]);
  }

  lemma {:induction false} RowsLeast(item: Fields, rows: seq<seq<Value>>, guard: nat)
    requires FitsRows(item, rows) && guard <= Least(item)
    ensures |PrintRows(item, rows)| >= |rows| * guard
    decreases |rows|
  {
    if rows != [] {
      PrintLeast(item, rows[0]);
      RowsLeast(item, rows[1..], guard);
      assert |rows| * guard == guard + (|rows| - 1) * guard;
    }
  }

  // ---- Parsing inverts printing --------------------------------------------------------------

  lemma NumberRoundTrip(k: Kind, n: nat, rest: bytes)
    requires !k.Repeated? && k != Text && k != Blob && n < Limit(k)
    ensures ParseNumber(k, PrintNumber(k, n) + rest) == Some(Parsed(n, rest))
  {
    var s := PrintNumber(k, n) + rest;
    match k
    case N8 =>
    case N16 => At16(s, 0, n); assert s[0..2] == U16(n);
    case N32 => At32(s, 0, n); assert s[0..4] == U32(n);
    case N64 => At64(s, 0, n); assert s[0..8] == U64(n);
  }

  lemma DataRoundTrip(width: Kind, limit: nat, d: bytes, rest: bytes)
    requires (width == N16 || width == N32) && |d| <= limit < Limit(width)
    ensures ParseData(width, limit, PrintNumber(width, |d|) + d + rest) == Some(Parsed(d, rest))
  {
    hide PrintNumber, ParseNumber;
    var s := PrintNumber(width, |d|) + d + rest;
    assert s == PrintNumber(width, |d|) + (d + rest);
    NumberRoundTrip(width, |d|, d + rest);
    assert (d + rest)[..|d|] == d && (d + rest)[|d|..] == rest;
  }

  lemma {:induction false} ParsePrinted(fs: Fields, vs: seq<Value>, rest: bytes)
    requires Fits(fs, vs) && Guarded(fs)
    ensures Parse(fs, Print(fs, vs) + rest) == Some(Parsed(vs, rest))
    decreases fs, 0
  {
    match fs
    case End =>
      assert Print(fs, vs) + rest == rest;
    case Field(k, more) =>
      hide PrintOne, ParseOne;
      var tail := Print(more, vs[1..]);
      assert Print(fs, vs) + rest == PrintOne(k, vs[0]) + (tail + rest);
      ParsePrintedOne(k, vs[0], tail + rest);
      ParsePrinted(more, vs[1..], rest);
      assert vs == [vs[0]] + vs[1..];
  }

  lemma {:induction false} ParsePrintedOne(k: Kind, v: Value, rest: bytes)
    requires FitsOne(k, v) && (k.Repeated? ==> k.guard <= Least(k.item) && Guarded(k.item))
    ensures ParseOne(k, PrintOne(k, v) + rest) == Some(Parsed(v, rest))
    decreases k, 1
  {
    hide ParseNumber, ParseData;
    match k
    case Text => DataRoundTrip(N16, 0xFFFF, v.s, rest);
    case Blob => DataRoundTrip(N32, MAX_FRAME_LENGTH, v.s, rest);
    case Repeated(guard, item) =>
      var rows := PrintRows(item, v.rows);
      assert PrintOne(k, v) + rest == PrintNumber(N16, |v.rows|) + (rows + rest);
      NumberRoundTrip(N16, |v.rows|, rows + rest);
      RowsLeast(item, v.rows, guard);
      ParsePrintedRows(item, v.rows, rest);
    case _ => NumberRoundTrip(k, v.n, rest);
  }

  lemma {:induction false} ParsePrintedRows(item: Fields, rows: seq<seq<Value>>, rest: bytes)
    requires FitsRows(item, rows) && Guarded(item)
    ensures ParseRows(item, |rows|, PrintRows(item, rows) + rest) == Some(Parsed(rows, rest))
    decreases item, |rows| + 1
  {
    hide Parse, Print;
    if rows == [] {
      assert [] + rest == rest;
    } else {
      var tail := PrintRows(item, rows[1..]);
      assert PrintRows(item, rows) + rest == Print(item, rows[0]) + (tail + rest);
      ParsePrinted(item, rows[0], tail + rest);
      ParsePrintedRows(item, rows[1..], rest);
      assert rows == [rows[0]] + rows[1..];
    }
  }

  // ---- Printing inverts parsing --------------------------------------------------------------

  lemma NumberReprints(k: Kind, s: bytes)
    requires !k.Repeated? && k != Text && k != Blob && ParseNumber(k, s).Some?
    ensures var p := ParseNumber(k, s).value;
            p.value < Limit(k) && s == PrintNumber(k, p.value) + p.rest
  {
    var p := ParseNumber(k, s).value;
    match k
    case N8 =>
    case N16 => At16(s, 0, p.value); assert s == s[0..2] + s[2..];
    case N32 => At32(s, 0, p.value); assert s == s[0..4] + s[4..];
    case N64 => At64(s, 0, p.value); assert s == s[0..8] + s[8..];
  }

  lemma DataReprints(width: Kind, limit: nat, s: bytes)
    requires (width == N16 || width == N32) && ParseData(width, limit, s).Some?
    ensures var p := ParseData(width, limit, s).value;
            |p.value| <= limit && |p.value| < Limit(width) && s == PrintNumber(width, |p.value|) + p.value + p.rest
  {
    hide PrintNumber, ParseNumber;
    NumberReprints(width, s);
    var n := ParseNumber(width, s).value;
    assert n.rest == n.rest[..n.value] + n.rest[n.value..];
  }

  lemma {:induction false} PrintParsed(fs: Fields, s: bytes)
    requires Parse(fs, s).Some?
    ensures var p := Parse(fs, s).value;
            Fits(fs, p.value) && s == Print(fs, p.value) + p.rest
    decreases fs, 0
  {
    match fs
    case End =>
    case Field(k, more) =>
      hide PrintOne, ParseOne, FitsOne, Parse, Print, Fits;
      ParseCons(k, more, s);
      PrintParsedOne(k, s);
      var p := ParseOne(k, s).value;
      PrintParsed(more, p.rest);
      var q := Parse(more, p.rest).value;
      PrintCons(k, more, p.value, q.value, q.rest);
  }

  lemma ParseCons(k: Kind, more: Fields, s: bytes)
    requires Parse(Field(k, more), s).Some?
    ensures ParseOne(k, s).Some? && Parse(more, ParseOne(k, s).value.rest).Some?
    ensures var p := ParseOne(k, s).value;
            var q := Parse(more, p.rest).value;
            Parse(Field(k, more), s).value == Parsed([p.value] + q.value, q.rest)
  {
    hide ParseOne;
  }

  lemma PrintCons(k: Kind, more: Fields, v: Value, vs: seq<Value>, rest: bytes)
    requires FitsOne(k, v) && Fits(more, vs)
    ensures Fits(Field(k, more), [v] + vs)
    ensures Print(Field(k, more), [v] + vs) + rest == PrintOne(k, v) + (Print(more, vs) + rest)
  {
    hide PrintOne, FitsOne;
    assert ([v] + vs)[1..] == vs;
    assert PrintOne(k, v) + (Print(more, vs) + rest) == (PrintOne(k, v) + Print(more, vs)) + rest;
  }

  lemma {:induction false} PrintParsedOne(k: Kind, s: bytes)
    requires ParseOne(k, s).Some?
    ensures var p := ParseOne(k, s).value;
            FitsOne(k, p.value) && s == PrintOne(k, p.value) + p.rest
    decreases k, 1
  {
    hide ParseNumber, ParseData;
    match k
    case Text => DataReprints(N16, 0xFFFF, s);
    case Blob => DataReprints(N32, MAX_FRAME_LENGTH, s);
    case Repeated(guard, item) =>
      NumberReprints(N16, s);
      var p := ParseNumber(N16, s).value;
      PrintParsedRows(item, p.value, p.rest);
      var q := ParseRows(item, p.value, p.rest).value;
      assert U16(p.value) + (PrintRows(item, q.value) + q.rest) == (U16(p.value) + PrintRows(item, q.value)) + q.rest;
    case _ => NumberReprints(k, s);
  }

  lemma {:induction false} PrintParsedRows(item: Fields, n: nat, s: bytes)
    requires ParseRows(item, n, s).Some?
    ensures var p := ParseRows(item, n, s).value;
            |p.value| == n && FitsRows(item, p.value) && s == PrintRows(item, p.value) + p.rest
    decreases item, n + 1
  {
    hide Parse, Print, Fits;
    if n > 0 {
      PrintParsed(item, s);
      var p := Parse(item, s).value;
      PrintParsedRows(item, n - 1, p.rest);
      var q := ParseRows(item, n - 1, p.rest).value;
      var rows := [p.value] + q.value;
      assert rows[1..] == q.value;
      assert Print(item, p.value) + (PrintRows(item, q.value) + q.rest) ==
             (Print(item, p.value) + PrintRows(item, q.value)) + q.rest;
    }
  }

  /** Parser and printer undo each other: a body is accepted with some values exactly if the values are in range and
      the body is their print; and the early guards never reject such a body. */
  lemma BodiesExactly(fs: Fields, s: bytes, vs: seq<Value>)
    requires Guarded(fs)
    ensures ParseBody(fs, s) == Some(vs) <==> Fits(fs, vs) && s == Print(fs, vs)
  {
    hide Parse, Print, Fits, Guarded;
    if ParseBody(fs, s) == Some(vs) {
      PrintParsed(fs, s);
      assert Print(fs, vs) + [] == Print(fs, vs);
    }
    if Fits(fs, vs) && s == Print(fs, vs) {
      assert s == Print(fs, vs) + [];
      ParsePrinted(fs, vs, []);
    }
  }
}
