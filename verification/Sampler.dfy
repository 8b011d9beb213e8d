/** The persistent telemetry stream: rows are framed by a buffer consumed in place, numbered and queued. */
module Sampler {
  import opened Ascending
  import Framing

  type Bytes = seq<Framing.Byte>

  datatype Reading = Reading(sequence: nat, total: int, free: int)

  datatype Answer = Sampled(reading: Reading) | Stalled | Exited | Malformed

  /** An authenticated row's total and free memory; None for any other row. */
  type Parser = Bytes -> Option<(int, int)>

  predicate Authentic(parse: Parser, row: Bytes) {
    row != [] && parse(row).Some?
  }

  /** The readings that rows give rise to: the authentic ones, numbered from one. */
  function Readings(parse: Parser, rows: seq<Bytes>): (r: seq<Reading>) {
    if rows == [] then []
    else
      var before := Readings(parse, rows[..|rows| - 1]);
      var row := rows[|rows| - 1];
      if Authentic(parse, row)
      then before + [Reading(|before| + 1, parse(row).value.0, parse(row).value.1)]
      else before
  }

  lemma {:induction false} ReadingsAreNumbered(parse: Parser, rows: seq<Bytes>, k: nat)
    requires k < |Readings(parse, rows)|
    ensures Readings(parse, rows)[k].sequence == k + 1
  {
    var n := |rows| - 1;
    if k < |Readings(parse, rows[..n])| {
      ReadingsAreNumbered(parse, rows[..n], k);
    }
  }

  class PersistentSampler {
    const parse: Parser

    ghost var stream: Bytes          // everything read so far
    ghost var rows: seq<Bytes>       // the rows taken from the buffer
    ghost var returned: seq<Reading>

    var buffer: Bytes
    var queue: seq<Reading>
    var sequence: nat

    constructor (parse: Parser)
      ensures Valid() && this.parse == parse && stream == [] && returned == []
    {
      this.parse := parse;
      stream, rows, returned, buffer, queue, sequence := [], [], [], [], [], 0;
    }

    /** Every authentic row was handed out or waits, in order and under its own number. */
    ghost predicate Valid()
      reads this
    {
      && stream == Framing.Lines(rows) + buffer
      && (forall r :: r in rows ==> Framing.NEWLINE !in r)
      && returned + queue == Readings(parse, rows)
      && sequence == |returned| + |queue|
    }

    /** One row is numbered and queued, or refused. */
    method ParseLine(row: Bytes) returns (ok: bool)
      requires Framing.NEWLINE !in row && sequence == |returned| + |queue|
      requires returned + queue == Readings(parse, rows)
      modifies this`rows, this`queue, this`sequence
      ensures rows == old(rows) + [row] && ok == Authentic(parse, row)
      ensures returned + queue == Readings(parse, rows) && sequence == |returned| + |queue|
    {
      ok := Authentic(parse, row);
      if ok {
        sequence := sequence + 1;
        var reading := Reading(sequence, parse(row).value.0, parse(row).value.1);
        assert returned + (queue + [reading]) == (returned + queue) + [reading];
        queue := queue + [reading];
      }
      rows := rows + [row];
    }

    method TakeRow() returns (ok: bool)
      requires Valid() && Framing.NEWLINE in buffer
      modifies this`rows, this`queue, this`sequence, this`buffer
      ensures Valid() && |buffer| < |old(buffer)|
      ensures ok == Authentic(parse, rows[|rows| - 1]) && rows != []
    {
      var i := Framing.FirstNewline(buffer);
      assert buffer[..|buffer|] == buffer;
      var row := buffer[..i];
      assert buffer == row + [Framing.NEWLINE] + buffer[i + 1..];
      Framing.LineMoves(rows, row, buffer[i + 1..]);
      buffer := buffer[i + 1..];
      ok := ParseLine(row);
    }

    /** Buffers a chunk and takes its complete rows; false at the first row that is refused. */
    method Absorb(chunk: Bytes) returns (ok: bool)
      requires Valid()
      modifies this`stream, this`rows, this`queue, this`sequence, this`buffer
      ensures Valid() && stream == old(stream) + chunk
      ensures ok ==> Framing.NEWLINE !in buffer
      ensures !ok ==> rows != [] && !Authentic(parse, rows[|rows| - 1])
    {
      stream, buffer := stream + chunk, buffer + chunk;
      ok := true;
      while ok && Framing.NEWLINE in buffer
        invariant Valid() && stream == old(stream) + chunk
        invariant !ok ==> rows != [] && !Authentic(parse, rows[|rows| - 1])
        decreases |buffer|
      {
        ok := TakeRow();
      }
    }

    /** Takes the oldest waiting reading: the next authentic row of the stream that was not handed out. */
    method PopLeft() returns (reading: Reading)
      requires Valid() && queue != []
      modifies this`queue, this`returned
      ensures Valid() && returned == old(returned) + [reading] && queue == old(queue)[1..]
      ensures |returned| <= |Readings(parse, rows)| && reading == Readings(parse, rows)[|returned| - 1]
    {
      reading := queue[0];
      assert returned + queue == (returned + [reading]) + queue[1..];
      queue, returned := queue[1..], returned + [reading];
      assert (returned + queue)[|returned| - 1] == reading;
    }

    /** Waits for readings until one is there, the stream stalls, the sampler exits or a row is refused.
        `selects` bounds how often the stream is waited for. */
    method Sample(selects: nat) returns (answer: Answer)
      requires Valid()
      modifies this
      ensures Valid() && old(stream) <= stream
      ensures answer.Sampled? ==> returned == old(returned) + [answer.reading]
      ensures answer.Sampled? ==>
                |old(returned)| < |Readings(parse, rows)| && answer.reading == Readings(parse, rows)[|old(returned)|]
      ensures !answer.Sampled? ==> returned == old(returned)
      ensures answer.Malformed? ==> rows != [] && !Authentic(parse, rows[|rows| - 1])
    {
      if queue != [] {
        var first := PopLeft();
        return Sampled(first);
      }
      var i := 0;
      while i < selects
        invariant Valid() && returned == old(returned) && old(stream) <= stream
      {
        var ready, exited: bool := *, *;
        if !ready {
          return Stalled;
        }
        var chunk: Bytes := *;
        var ok := Absorb(chunk);
        if !ok {
          return Malformed;
        }
        if queue != [] {
          var first := PopLeft();
          return Sampled(first);
        }
        if exited {
          return Exited;
        }
        i := i + 1;
      }
      return Stalled;
    }

    /** As long as no row was refused half-way through a chunk, the readings handed out and waiting are
        those of the whole stream, however it arrived. */
    lemma {:induction false} ReadingsOfStream()
      requires Valid() && Framing.NEWLINE !in buffer
      ensures returned + queue == Readings(parse, Framing.Records(stream)) && buffer == Framing.Rest(stream)
    {
      Framing.FramingIsUnique(rows, buffer);
    }
  }
}
