/** Newline framing of a byte stream by a buffer that is consumed in place. */
module Framing {
  type Byte = int
  const NEWLINE: Byte := 10

  /** The position of the first newline, or the length. */
  function FirstNewline(s: seq<Byte>): (i: nat)
    ensures i <= |s|
    ensures i < |s| ==> s[i] == NEWLINE
    ensures NEWLINE !in s[..i]
  {
    if s == [] || s[0] == NEWLINE then 0
    else
      var k := FirstNewline(s[1..]);
      assert s[..k + 1] == [s[0]] + s[1..][..k];
      k + 1
  }

  /** The newline-terminated records of a stream, without their newlines. */
  function Records(s: seq<Byte>): (r: seq<seq<Byte>>)
    decreases |s|
  {
    var i := FirstNewline(s);
    if i == |s| then [] else [s[..i]] + Records(s[i + 1..])
  }

  /** What follows the last newline. */
  function Rest(s: seq<Byte>): (r: seq<Byte>)
    decreases |s|
  {
    var i := FirstNewline(s);
    if i == |s| then s else Rest(s[i + 1..])
  }

  function Lines(records: seq<seq<Byte>>): (r: seq<Byte>) {
    if records == [] then [] else records[0] + [NEWLINE] + Lines(records[1..])
  }

  lemma {:induction false} FirstNewlineIsThere(front: seq<Byte>, back: seq<Byte>)
    requires NEWLINE !in front
    ensures FirstNewline(front + [NEWLINE] + back) == |front|
  {
    var s := front + [NEWLINE] + back;
    var k := FirstNewline(s);
    assert s[|front|] == NEWLINE;
    assert forall j :: 0 <= j < |front| ==> s[j] == front[j] && front[j] in front;
    assert forall j :: 0 <= j < k ==> s[..k][j] == s[j] && s[..k][j] in s[..k];
  }

  lemma {:induction false} NoNewline(s: seq<Byte>)
    requires NEWLINE !in s
    ensures Records(s) == [] && Rest(s) == s
  {
    assert FirstNewline(s) == |s|;
  }

  lemma {:induction false} Associate(a: seq<Byte>, b: seq<Byte>, c: seq<Byte>)
    ensures (a + b) + c == a + (b + c)
  {
  }

  lemma {:induction false} FirstRecord(front: seq<Byte>, back: seq<Byte>)
    requires NEWLINE !in front
    ensures Records(front + [NEWLINE] + back) == [front] + Records(back)
    ensures Rest(front + [NEWLINE] + back) == Rest(back)
  {
    FirstNewlineIsThere(front, back);
    var s := front + [NEWLINE] + back;
    assert s[..|front|] == front && s[|front| + 1..] == back;
  }

  /** The records and the rest are the one way to read a stream as newline-free records, each followed
      by a newline, and a newline-free tail. */
  lemma {:induction false} FramingIsUnique(records: seq<seq<Byte>>, rest: seq<Byte>)
    requires forall r :: r in records ==> NEWLINE !in r
    requires NEWLINE !in rest
    ensures Records(Lines(records) + rest) == records && Rest(Lines(records) + rest) == rest
  {
    if records == [] {
      assert Lines(records) + rest == rest;
      NoNewline(rest);
    } else {
      assert records[0] in records;
      var tail := Lines(records[1..]) + rest;
      FramingIsUnique(records[1..], rest);
      FirstRecord(records[0], tail);
      Associate(records[0] + [NEWLINE], Lines(records[1..]), rest);
      assert records == [records[0]] + records[1..];
    }
  }

  lemma {:induction false} RecordsHoldNoNewline(s: seq<Byte>)
    ensures forall r :: r in Records(s) ==> NEWLINE !in r
    decreases |s|
  {
    var i := FirstNewline(s);
    if i < |s| {
      RecordsHoldNoNewline(s[i + 1..]);
    }
  }

  lemma {:induction false} RestHoldsNoNewline(s: seq<Byte>)
    ensures NEWLINE !in Rest(s)
    decreases |s|
  {
    var i := FirstNewline(s);
    if i < |s| {
      RestHoldsNoNewline(s[i + 1..]);
    } else {
      assert s[..i] == s;
    }
  }

  lemma {:induction false} LinesOfCons(r: seq<Byte>, records: seq<seq<Byte>>)
    ensures Lines([r] + records) == r + [NEWLINE] + Lines(records)
  {
    assert ([r] + records)[1..] == records;
  }

  /** Nothing of the stream is lost or reordered. */
  lemma {:induction false} FramingReads(s: seq<Byte>)
    ensures Lines(Records(s)) + Rest(s) == s
    decreases |s|
  {
    var i := FirstNewline(s);
    if i < |s| {
      FramingReads(s[i + 1..]);
      FirstRecordReads(s, i, Records(s[i + 1..]), Rest(s[i + 1..]));
    } else {
      NoNewline(s);
    }
  }

  lemma {:induction false} FirstRecordReads(s: seq<Byte>, i: nat, records: seq<seq<Byte>>, rest: seq<Byte>)
    requires i < |s| && s[i] == NEWLINE && Lines(records) + rest == s[i + 1..]
    ensures Lines([s[..i]] + records) + rest == s
  {
    LinesOfCons(s[..i], records);
    Associate(s[..i] + [NEWLINE], Lines(records), rest);
  }

  /** A stream with a newline: its first record, and what follows. */
  lemma {:induction false} Parted(a: seq<Byte>) returns (front: seq<Byte>, back: seq<Byte>)
    requires NEWLINE in a
    ensures NEWLINE !in front && |back| < |a| && a == front + [NEWLINE] + back
    ensures |front| == FirstNewline(a) && front == a[..|front|] && back == a[|front| + 1..]
    ensures Records(a) == [front] + Records(back) && Rest(a) == Rest(back)
  {
    var i := FirstNewline(a);
    assert a[..|a|] == a;
    front, back := a[..i], a[i + 1..];
  }

  lemma {:induction false} FirstRecordThenMore(front: seq<Byte>, back: seq<Byte>, b: seq<Byte>)
    requires NEWLINE !in front
    ensures Records(front + [NEWLINE] + back + b) == [front] + Records(back + b)
    ensures Rest(front + [NEWLINE] + back + b) == Rest(back + b)
  {
    FirstRecord(front, back + b);
    Associate(front + [NEWLINE], back, b);
  }

  /** Reading on after a first part gives the first part's records, then those of its rest and what follows. */
  lemma {:induction false} FramingSplits(a: seq<Byte>, b: seq<Byte>)
    ensures Records(a + b) == Records(a) + Records(Rest(a) + b)
    ensures Rest(a + b) == Rest(Rest(a) + b)
    decreases |a|
  {
    if NEWLINE in a {
      var front, back := Parted(a);
      FramingSplits(back, b);
      FirstRecordThenMore(front, back, b);
      JoinRecords([front], Records(back), Records(Rest(back) + b));
    } else {
      NoNewline(a);
      assert [] + Records(a + b) == Records(a + b);
    }
  }

  lemma {:induction false} JoinRecords(a: seq<seq<Byte>>, b: seq<seq<Byte>>, c: seq<seq<Byte>>)
    ensures (a + b) + c == a + (b + c)
  {
  }

  lemma {:induction false} LinesGrow(records: seq<seq<Byte>>, r: seq<Byte>)
    ensures Lines(records + [r]) == Lines(records) + r + [NEWLINE]
  {
    if records == [] {
      LinesOfCons(r, []);
      assert records + [r] == [r] + [];
    } else {
      LinesGrow(records[1..], r);
      assert (records + [r])[1..] == records[1..] + [r];
    }
  }

  /** Taking one record from the buffer leaves the stream as it was read. */
  lemma {:induction false} LineMoves(records: seq<seq<Byte>>, r: seq<Byte>, buffer: seq<Byte>)
    ensures Lines(records + [r]) + buffer == Lines(records) + (r + [NEWLINE] + buffer)
  {
    LinesGrow(records, r);
    Associate(Lines(records), r, [NEWLINE]);
    Associate(Lines(records), r + [NEWLINE], buffer);
  }

  function Concat(chunks: seq<seq<Byte>>): (r: seq<Byte>) {
    if chunks == [] then [] else chunks[0] + Concat(chunks[1..])
  }

  /** The records handed on and the buffer left when chunks arrive one after another. */
  function Fed(buffer: seq<Byte>, chunks: seq<seq<Byte>>): (r: (seq<seq<Byte>>, seq<Byte>))
    decreases |chunks|
  {
    if chunks == [] then ([], buffer)
    else
      var s := buffer + chunks[0];
      var (later, rest) := Fed(Rest(s), chunks[1..]);
      (Records(s) + later, rest)
  }

  /** However the stream is cut into chunks, the same records are handed on and the buffer ends as the
      suffix after the last newline. */
  lemma {:induction false} ChunkingDoesNotMatter(buffer: seq<Byte>, chunks: seq<seq<Byte>>)
    requires NEWLINE !in buffer
    ensures Fed(buffer, chunks) == (Records(buffer + Concat(chunks)), Rest(buffer + Concat(chunks)))
    decreases |chunks|
  {
    if chunks == [] {
      assert buffer + Concat(chunks) == buffer;
      NoNewline(buffer);
    } else {
      var s := buffer + chunks[0];
      RestHoldsNoNewline(s);
      ChunkingDoesNotMatter(Rest(s), chunks[1..]);
      FramingSplits(s, Concat(chunks[1..]));
      Associate(buffer, chunks[0], Concat(chunks[1..]));
    }
  }

  /** The buffering loop: records leave the front of the buffer, one `partition` at a time. */
  class LineBuffer {
    var buffer: seq<Byte>

    constructor ()
      ensures buffer == []
    {
      buffer := [];
    }

    method Feed(chunk: seq<Byte>) returns (records: seq<seq<Byte>>)
      modifies this
      ensures records == Records(old(buffer) + chunk)
      ensures buffer == Rest(old(buffer) + chunk)
    {
      records := [];
      buffer := buffer + chunk;
      ghost var s := buffer;
      while NEWLINE in buffer
        invariant Records(s) == records + Records(buffer)
        invariant Rest(s) == Rest(buffer)
        decreases |buffer|
      {
        ghost var front, back := Parted(buffer);
        JoinRecords(records, [front], Records(back));
        var i := FirstNewline(buffer);
        records, buffer := records + [buffer[..i]], buffer[i + 1..];
      }
      NoNewline(buffer);
    }
  }
}
