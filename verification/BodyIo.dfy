/** The reader and the writer that the message decoders and encoders move along. */
module BodyIo {
  import opened Bytes
  import opened Frames
  import opened Protocol

  class BodyReader {
    const data: bytes
    var cursor: nat

    constructor (data: bytes)
      ensures Valid() && this.data == data && Left() == data
    {
      this.data := data;
      cursor := 0;
    }

    ghost predicate Valid()
      reads this
    {
      cursor <= |data|
    }

    /** What has not been read yet. */
    ghost function Left(): bytes
      requires Valid()
      reads this
    {
      data[cursor..]
    }

    method Remaining() returns (n: nat)
      requires Valid()
      ensures n == |Left()|
    {
      n := if cursor < |data| then |data| - cursor else 0;
    }

    method RequireEmpty() returns (ok: bool)
      requires Valid()
      ensures ok <==> Left() == []
    {
      ok := cursor == |data|;
    }

    /** `read_u8`, `read_u16`, `read_u32` and `read_u64`: on failure the cursor stays. */
    method ReadNumber(k: Kind) returns (v: Option<nat>)
      requires Valid() && !k.Repeated? && k != Text && k != Blob
      modifies this
      ensures Valid()
      ensures match ParseNumber(k, old(Left()))
              case None => v == None && cursor == old(cursor)
              case Some(p) => v == Some(p.value) && Left() == p.rest && p.value < Limit(k)
    {
      hide GetU16;
      ghost var left := Left();
      var n := |data| - cursor;
      match k
      case N8 =>
        if n < 1 { return None; }
        v := Some(data[cursor]);
        cursor := cursor + 1;
      case N16 =>
        if n < 2 { return None; }
        Get16(data, cursor, 0);
        v := Some(GetU16(data, cursor));
        cursor := cursor + 2;
      case N32 =>
        if n < 4 { return None; }
        Get16(data, cursor, 0);
        Get16(data, cursor, 2);
        v := Some(GetU32(data, cursor));
        cursor := cursor + 4;
      case N64 =>
        if n < 8 { return None; }
        Get16(data, cursor, 0);
        Get16(data, cursor, 2);
        Get16(data, cursor, 4);
        Get16(data, cursor, 6);
        var high, low := GetU32(data, cursor), GetU32(data, cursor + 4);
        v := Some((high as int) * 0x1_0000_0000 + low);
        cursor := cursor + 8;
    }

    /** `read_string` and `read_bytes`. */
    method ReadData(width: Kind, limit: nat) returns (v: Option<bytes>)
      requires Valid() && (width == N16 || width == N32)
      modifies this
      ensures Valid()
      ensures match ParseData(width, limit, old(Left()))
              case None => v == None
              case Some(p) => v == Some(p.value) && Left() == p.rest
    {
      hide ParseNumber;
      var n := ReadNumber(width);
      if n == None {
        return None;
      }
      if n.value > limit || |data| - cursor < n.value {
        return None;
      }
      v := Some(data[cursor..cursor + n.value]);
      assert v.value == Left()[..n.value];
      cursor := cursor + n.value;
    }

    /** The reads of a decoder, one field after the other. */
    method ReadFields(fields: Fields) returns (v: Option<seq<Value>>)
      requires Valid()
      modifies this
      ensures Valid()
      ensures match Parse(fields, old(Left()))
              case None => v == None
              case Some(p) => v == Some(p.value) && Left() == p.rest
      decreases fields, 0
    {
      hide ParseOne;
      var fs, vs := fields, [];
      assert forall more: seq<Value> :: vs + more == more;
      while fs.Field?
        invariant Valid() && (fs == fields || fs < fields)
        invariant match Parse(fs, Left())
                  case None => Parse(fields, old(Left())) == None
                  case Some(p) => Parse(fields, old(Left())) == Some(Parsed(vs + p.value, p.rest))
        decreases fs
      {
        ghost var before := Left();
        var x := ReadField(fs.kind);
        if x == None {
          return None;
        }
        assert forall more: seq<Value> :: vs + ([x.value] + more) == vs + [x.value] + more;
        vs := vs + [x.value];
        fs := fs.rest;
      }
      assert vs + [] == vs;
      return Some(vs);
    }

    method ReadField(k: Kind) returns (v: Option<Value>)
      requires Valid()
      modifies this
      ensures Valid()
      ensures match ParseOne(k, old(Left()))
              case None => v == None
              case Some(p) => v == Some(p.value) && Left() == p.rest
      decreases k, 1
    {
      hide ParseNumber, ParseData;
      match k
      case Text =>
        var s := ReadData(N16, 0xFFFF);
        v := if s.Some? then Some(Data(s.value)) else None;
      case Blob =>
        var s := ReadData(N32, MAX_FRAME_LENGTH);
        v := if s.Some? then Some(Data(s.value)) else None;
      case Repeated(guard, item) =>
        var n := ReadNumber(N16);
        if n == None {
          return None;
        }
        if |data| - cursor < n.value * guard {
          return None;
        }
        var rows := ReadRows(item, n.value);
        v := if rows.Some? then Some(Rows(rows.value)) else None;
      case _ =>
        var n := ReadNumber(k);
        v := if n.Some? then Some(Num(n.value)) else None;
    }

    /** The loop over the rows of a repeated field. */
    method ReadRows(item: Fields, n: nat) returns (v: Option<seq<seq<Value>>>)
      requires Valid()
      modifies this
      ensures Valid()
      ensures match ParseRows(item, n, old(Left()))
              case None => v == None
              case Some(p) => v == Some(p.value) && Left() == p.rest
      decreases item, 1
    {
      hide Parse;
      var rows := [];
      assert forall more: seq<seq<Value>> :: rows + more == more;
      for i := 0 to n
        invariant Valid()
        invariant match ParseRows(item, n - i, Left())
                  case None => ParseRows(item, n, old(Left())) == None
                  case Some(p) => ParseRows(item, n, old(Left())) == Some(Parsed(rows + p.value, p.rest))
      {
        var row := ReadFields(item);
        if row == None {
          return None;
        }
        assert forall more: seq<seq<Value>> :: rows + ([row.value] + more) == rows + [row.value] + more;
        rows := rows + [row.value];
      }
      assert rows + [] == rows;
      return Some(rows);
    }

    /** A decoder: all fields, and nothing left over. */
    method Decode(fields: Fields) returns (v: Option<seq<Value>>)
      requires Valid()
      modifies this
      ensures Valid() && v == ParseBody(fields, old(Left()))
    {
      hide Parse;
      v := ReadFields(fields);
      if v.Some? {
        var empty := RequireEmpty();
        if !empty {
          v := None;
        }
      }
    }
  }

  lemma Get16(data: bytes, from: nat, at: nat)
    requires from + at + 2 <= |data|
    ensures GetU16(data, from + at) == GetU16(data[from..], at)
  {
  }

  class BodyWriter {
    var buffer: bytes

    constructor ()
      ensures buffer == []
    {
      buffer := [];
    }

    method WriteNumber(k: Kind, n: nat)
      requires !k.Repeated? && k != Text && k != Blob && n < Limit(k)
      modifies this
      ensures buffer == old(buffer) + PrintNumber(k, n)
    {
      match k
      case N8 => buffer := buffer + [n];
      case N16 => buffer := buffer + U16(n);
      case N32 => buffer := buffer + U32(n);
      case N64 =>
        var high, low := n / 0x1_0000_0000, n % 0x1_0000_0000;
        buffer := buffer + U32(high);
        buffer := buffer + U32(low);
    }

    /** `write_string` and `write_bytes`: the size is cut to the width of the length field. */
    method WriteData(width: Kind, s: bytes)
      requires width == N16 || width == N32
      modifies this
      ensures buffer == old(buffer) + PrintNumber(width, |s| % Limit(width)) + s
    {
      hide PrintNumber;
      WriteNumber(width, |s| % Limit(width));
      buffer := buffer + s;
    }

    /** An encoder writes the print of its values. */
    method Encode(fs: Fields, vs: seq<Value>)
      requires Fits(fs, vs)
      modifies this
      ensures buffer == old(buffer) + Print(fs, vs)
      decreases fs, 0
    {
      match fs
      case End =>
      case Field(k, rest) =>
        hide PrintOne;
        WriteField(k, vs[0]);
        ghost var mid := buffer;
        Encode(rest, vs[1..]);
        assert buffer == old(buffer) + (PrintOne(k, vs[0]) + Print(rest, vs[1..]));
    }

    method WriteField(k: Kind, v: Value)
      requires FitsOne(k, v)
      modifies this
      ensures buffer == old(buffer) + PrintOne(k, v)
      decreases k, 1
    {
      hide U16, U32, U64, PrintRows, Print, Fits;
      match k
      case Text =>
        WriteData(N16, v.s);
        assert buffer == old(buffer) + (U16(|v.s|) + v.s);
      case Blob =>
        WriteData(N32, v.s);
        assert buffer == old(buffer) + (U32(|v.s|) + v.s);
      case Repeated(_, item) =>
        WriteNumber(N16, |v.rows|);
        WriteRows(item, v.rows);
        assert buffer == old(buffer) + (U16(|v.rows|) + PrintRows(item, v.rows));
      case _ => WriteNumber(k, v.n);
    }

    /** The loop over the rows of a repeated field. */
    method WriteRows(item: Fields, rows: seq<seq<Value>>)
      requires FitsRows(item, rows)
      modifies this
      ensures buffer == old(buffer) + PrintRows(item, rows)
      decreases item, 1
    {
      hide Print;
      for i := 0 to |rows|
        invariant buffer + PrintRows(item, rows[i..]) == old(buffer) + PrintRows(item, rows)
      {
        ghost var before := buffer;
        Encode(item, rows[i]);
        assert rows[i..][1..] == rows[i + 1..];
        assert before + PrintRows(item, rows[i..]) == buffer + PrintRows(item, rows[i + 1..]);
      }
      assert buffer + [] == buffer;
    }
  }
}
