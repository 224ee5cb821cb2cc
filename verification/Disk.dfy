/** The files of one partition directory, and the writes that change them. */
module Disk {
  import opened Bytes

  datatype Kind = Log | Index | Sealed

  /** The three files of the segment with a given base offset. */
  datatype Name = Name(base: uint64, kind: Kind)

  type Files = map<Name, bytes>

  datatype Write =
    | Create(name: Name)               // open-or-create
    | Append(name: Name, data: bytes)  // every write goes to the end of its file
    | Truncate(name: Name, size: nat)
    | Remove(name: Name)

  function Content(d: Files, n: Name): bytes {
    if n in d then d[n] else []
  }

  function Apply(d: Files, w: Write): Files {
    match w
    case Create(n) => if n in d then d else d[n := []]
    case Append(n, data) => d[n := Content(d, n) + data]
    case Truncate(n, size) => if n in d && size <= |d[n]| then d[n := d[n][..size]] else d
    case Remove(n) => d - {n}
  }

  function ApplyAll(d: Files, ws: seq<Write>): Files
    decreases |ws|
  {
    if ws == [] then d else ApplyAll(Apply(d, ws[0]), ws[1..])
  }

  lemma {:induction false} ApplyConcat(d: Files, a: seq<Write>, b: seq<Write>)
    ensures ApplyAll(d, a + b) == ApplyAll(ApplyAll(d, a), b)
    decreases |a|
  {
    hide Apply;
    if a == [] {
      assert a + b == b;
    } else {
      assert (a + b)[1..] == a[1..] + b;
      ApplyConcat(Apply(d, a[0]), a[1..], b);
    }
  }

  lemma ApplyOne(d: Files, w: Write)
    ensures ApplyAll(d, [w]) == Apply(d, w)
  {
    hide Apply;
    assert ApplyAll(Apply(d, w), [w][1..]) == Apply(d, w);
  }

  lemma ApplySnoc(d: Files, ws: seq<Write>, w: Write)
    ensures ApplyAll(d, ws + [w]) == Apply(ApplyAll(d, ws), w)
  {
    hide Apply, ApplyAll;
    ApplyConcat(d, ws, [w]);
    ApplyOne(ApplyAll(d, ws), w);
  }

  /** The directory, with the writes made so far recorded in order. */
  class Directory {
    var files: Files
    ghost var trace: seq<Write>

    constructor ()
      ensures files == map[] && trace == []
    {
      files := map[];
      trace := [];
    }

    method OpenOrCreate(n: Name)
      modifies this
      ensures files == Apply(old(files), Create(n)) && trace == old(trace) + [Create(n)]
    {
      if n !in files {
        files := files[n := []];
      }
      trace := trace + [Create(n)];
    }

    method WriteAtEnd(n: Name, data: bytes)
      modifies this
      ensures files == Apply(old(files), Append(n, data)) && trace == old(trace) + [Append(n, data)]
    {
      files := files[n := Content(files, n) + data];
      trace := trace + [Append(n, data)];
    }

    method Cut(n: Name, size: nat)
      requires n in files && size <= |files[n]|
      modifies this
      ensures files == Apply(old(files), Truncate(n, size)) && trace == old(trace) + [Truncate(n, size)]
    {
      files := files[n := files[n][..size]];
      trace := trace + [Truncate(n, size)];
    }

    method Delete(n: Name)
      modifies this
      ensures files == Apply(old(files), Remove(n)) && trace == old(trace) + [Remove(n)]
    {
      files := files - {n};
      trace := trace + [Remove(n)];
    }
  }

  lemma TwoWrites(d: Files, a: Write, b: Write)
    ensures ApplyAll(d, [a, b]) == Apply(Apply(d, a), b)
    ensures ApplyAll(d, [a] + [b]) == Apply(Apply(d, a), b)
  {
    hide Apply;
    ApplyConcat(d, [a], [b]);
    ApplyOne(d, a);
    ApplyOne(Apply(d, a), b);
    assert [a, b] == [a] + [b];
  }
}
