/** The ring buffer (device/ioqueue.c) and the pipe operations over it (shell/pipe.c). */
module IoQueue {
  import opened Words

  const BUFSIZE := 2048
  const NOBODY := -1            // a NULL producer or consumer

  /** next_pos */
  function NextPos(pos: int): (p: int)
    requires 0 <= pos < BUFSIZE
    ensures 0 <= p < BUFSIZE
  {
    (pos + 1) % BUFSIZE
  }

  /** The place k steps on from t, around the ring. */
  function Slot(t: int, k: int): (p: int)
    requires 0 <= t < BUFSIZE && 0 <= k < BUFSIZE
    ensures 0 <= p < BUFSIZE
  {
    if t + k < BUFSIZE then t + k else t + k - BUFSIZE
  }

  /** The n bytes from position t on, around the ring. */
  function Ring(b: seq<Byte>, t: int, n: nat): (s: seq<Byte>)
    requires |b| == BUFSIZE && 0 <= t < BUFSIZE && n < BUFSIZE
    ensures |s| == n && forall k :: 0 <= k < n ==> s[k] == b[Slot(t, k)]
  {
    seq(n, k requires 0 <= k < n => b[Slot(t, k)])
  }

  /** ioq_length */
  function Length(head: int, tail: int): (n: nat)
    requires 0 <= head < BUFSIZE && 0 <= tail < BUFSIZE
    ensures n < BUFSIZE && head == Slot(tail, n)
    ensures n == 0 <==> head == tail
    ensures n == BUFSIZE - 1 <==> NextPos(head) == tail
  {
    if head >= tail then head - tail else BUFSIZE - (tail - head)
  }

  lemma RingPut(b: seq<Byte>, head: int, tail: int, x: Byte)
    requires |b| == BUFSIZE && 0 <= head < BUFSIZE && 0 <= tail < BUFSIZE && NextPos(head) != tail
    ensures Length(NextPos(head), tail) == Length(head, tail) + 1
    ensures Ring(b[head := x], tail, Length(head, tail) + 1) == Ring(b, tail, Length(head, tail)) + [x]
  {
    var n := Length(head, tail);
    assert forall k :: 0 <= k < n ==> Slot(tail, k) != head;
  }

  lemma RingGet(b: seq<Byte>, head: int, tail: int)
    requires |b| == BUFSIZE && 0 <= head < BUFSIZE && 0 <= tail < BUFSIZE && head != tail
    ensures Length(head, NextPos(tail)) == Length(head, tail) - 1
    ensures Ring(b, tail, Length(head, tail)) == [b[tail]] + Ring(b, NextPos(tail), Length(head, tail) - 1)
  {
    var n := Length(head, tail);
    assert forall k :: 0 < k < n ==> Slot(tail, k) == Slot(NextPos(tail), k - 1);
  }

  /** A byte was put or got, or the caller has to wait. */
  datatype Turn = Now(byte: Byte) | Waits

  class Queue {
    const buf: array<Byte>
    var head: int
    var tail: int
    var producer: int
    var consumer: int
    ghost var written: seq<Byte>     // all bytes ever put
    ghost var taken: seq<Byte>       // all bytes ever got

    /** Everything got so far and what is in the ring make up everything put, in order. */
    ghost predicate Valid()
      reads this, buf
    {
      && buf.Length == BUFSIZE && 0 <= head < BUFSIZE && 0 <= tail < BUFSIZE
      && written == taken + Contents()
    }

    ghost function Contents(): (s: seq<Byte>)
      requires buf.Length == BUFSIZE && 0 <= head < BUFSIZE && 0 <= tail < BUFSIZE
      reads this, buf
    {
      Ring(buf[..], tail, Length(head, tail))
    }

    /** ioqueue_init */
    constructor ()
      ensures Valid() && fresh(buf) && Contents() == [] && written == [] && producer == consumer == NOBODY
    {
      buf := new Byte[BUFSIZE](_ => 0);
      head, tail, producer, consumer := 0, 0, NOBODY, NOBODY;
      written, taken := [], [];
    }

    predicate Full()
      requires 0 <= head < BUFSIZE
      reads this
    {
      NextPos(head) == tail
    }

    predicate Empty()
      reads this
    {
      head == tail
    }

    /** One try of ioq_putchar by thread me: a full ring makes the producer wait, otherwise the byte
        goes in and a waiting consumer is woken (its number is returned). */
    method PutChar(x: Byte, me: int) returns (turn: Turn, woken: int)
      requires Valid() && (Full() ==> producer == NOBODY)
      modifies this`head, this`producer, this`consumer, this`written, buf
      ensures Valid() && taken == old(taken) && tail == old(tail)
      ensures turn == Waits <==> |old(Contents())| == BUFSIZE - 1
      ensures turn == Waits ==>
        Contents() == old(Contents()) && written == old(written) && producer == me && consumer == old(consumer)
      ensures turn != Waits ==> Contents() == old(Contents()) + [x] && written == old(written) + [x]
      ensures turn != Waits ==> woken == old(consumer) && consumer == NOBODY && producer == old(producer)
    {
      woken := NOBODY;
      if Full() {
        producer := me;
        return Waits, woken;
      }
      RingPut(buf[..], head, tail, x);
      ghost var before := buf[..];
      ghost var now := Contents();
      buf[head] := x;
      assert buf[..] == before[head := x];
      head := NextPos(head);
      written := written + [x];
      woken, consumer := consumer, NOBODY;
      turn := Now(x);
      assert taken + (now + [x]) == taken + now + [x];
    }

    /** One try of ioq_getchar by thread me. */
    method GetChar(me: int) returns (turn: Turn, woken: int)
      requires Valid() && (Empty() ==> consumer == NOBODY)
      modifies this`tail, this`producer, this`consumer, this`taken
      ensures Valid() && written == old(written) && head == old(head)
      ensures turn == Waits <==> old(Contents()) == []
      ensures turn == Waits ==> Contents() == [] && taken == old(taken) && consumer == me && producer == old(producer)
      ensures turn != Waits ==>
        turn.byte == old(Contents())[0] && Contents() == old(Contents())[1..] && taken == old(taken) + [turn.byte]
      ensures turn != Waits ==> woken == old(producer) && producer == NOBODY && consumer == old(consumer)
    {
      woken := NOBODY;
      if Empty() {
        consumer := me;
        return Waits, woken;
      }
      RingGet(buf[..], head, tail);
      ghost var now := Contents();
      var x := buf[tail];
      tail := NextPos(tail);
      taken := taken + [x];
      woken, producer := producer, NOBODY;
      turn := Now(x);
      assert now == [x] + Contents();
      assert taken + Contents() == old(taken) + ([x] + Contents());
    }

    /** pipe_read: as much as there is, up to count, without ever waiting. */
    method PipeRead(count: nat, me: int) returns (bytes: seq<Byte>)
      requires Valid()
      modifies this`tail, this`producer, this`consumer, this`taken
      ensures Valid() && written == old(written) && consumer == old(consumer)
      ensures bytes != [] ==> producer == NOBODY
      ensures bytes == [] ==> producer == old(producer)
      ensures |bytes| == if count < |old(Contents())| then count else |old(Contents())|
      ensures bytes == old(Contents())[..|bytes|] && Contents() == old(Contents())[|bytes|..]
      ensures taken == old(taken) + bytes
    {
      ghost var now := Contents();
      var len := Length(head, tail);
      var size := if len > count then count else len;
      bytes := [];
      while |bytes| < size
        invariant |bytes| <= size <= |now| && Valid() && written == old(written) && consumer == old(consumer)
        invariant bytes == now[..|bytes|] && Contents() == now[|bytes|..] && taken == old(taken) + bytes
        invariant producer == if bytes == [] then old(producer) else NOBODY
      {
        var turn, woken := GetChar(me);
        assert turn != Waits;
        bytes := bytes + [turn.byte];
      }
    }

    /** pipe_write: what fits goes in at once; it waits, with the ring full, exactly when the data is
        more than the 2047 bytes the ring can hold less what it holds. */
    method PipeWrite(data: seq<Byte>, me: int) returns (done: nat, waits: bool)
      requires Valid() && producer == NOBODY
      modifies this`head, this`producer, this`consumer, this`written, buf
      ensures Valid() && taken == old(taken)
      ensures waits <==> |data| > BUFSIZE - 1 - |old(Contents())|
      ensures done == if waits then BUFSIZE - 1 - |old(Contents())| else |data|
      ensures done <= |data| && Contents() == old(Contents()) + data[..done] && written == old(written) + data[..done]
      ensures producer == if waits then me else NOBODY
      ensures waits ==> done < |data| && done + 1 == BUFSIZE - |old(Contents())|
    {
      ghost var now := Contents();
      var left := BUFSIZE - Length(head, tail);
      var size := if left > |data| then |data| else left;
      done, waits := 0, false;
      while done < size
        invariant done <= size <= |data| && Valid() && taken == old(taken) && producer == NOBODY
        invariant Contents() == now + data[..done] && written == old(written) + data[..done]
      {
        var turn, woken := PutChar(data[done], me);
        if turn == Waits {
          waits := true;
          return;
        }
        assert data[..done + 1] == data[..done] + [data[done]];
        done := done + 1;
      }
    }

    /** What a writer that waited does when it runs again: only the last byte was left, so it is done
        unless the ring has become full again. */
    method PipeWriteRest(data: seq<Byte>, done: nat, me: int) returns (count: nat, waits: bool)
      requires Valid() && producer == NOBODY && done < |data|
      modifies this`head, this`producer, this`consumer, this`written, buf
      ensures Valid() && taken == old(taken)
      ensures waits <==> |old(Contents())| == BUFSIZE - 1
      ensures waits ==> producer == me && count == done && Contents() == old(Contents()) && written == old(written)
      ensures !waits ==> producer == NOBODY && count == done + 1
      ensures !waits ==> Contents() == old(Contents()) + [data[done]] && written == old(written) + [data[done]]
    {
      var turn, woken := PutChar(data[done], me);
      waits := turn == Waits;
      count := if waits then done else done + 1;
    }

    /** A read of a full ring by count bytes, at least one, wakes the waiting writer, which then does not
        wait again: the whole write is in order behind what was there. */
    method ReadThenRest(data: seq<Byte>, done: nat, writer: int, count: nat, me: int)
        returns (bytes: seq<Byte>, total: nat)
      requires Valid() && |Contents()| == BUFSIZE - 1 && producer == writer != NOBODY && done < |data| && count >= 1
      modifies this`head, this`tail, this`producer, this`consumer, this`written, this`taken, buf
      ensures Valid() && producer == NOBODY && total == done + 1
      ensures written == old(written) + [data[done]] && taken == old(taken) + bytes && 1 <= |bytes| <= BUFSIZE - 1
      ensures bytes + Contents() == old(Contents()) + [data[done]]
    {
      ghost var now := Contents();
      bytes := PipeRead(count, me);
      assert bytes + Contents() == now;
      var waits;
      total, waits := PipeWriteRest(data, done, writer);
      assert now + [data[done]] == bytes + Contents();
    }
  }
}
