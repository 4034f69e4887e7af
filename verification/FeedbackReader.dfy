/**
 * The receive side of the DDT serial line: finding a motor's answer in a byte stream that may start
 * in the middle of a frame, hold noise, and arrive in pieces of any size.
 */
module FeedbackReader {
  import opened Common
  import opened DdtProtocol

  /** What one turn of the read loop meets. */
  datatype ReadEvent =
    | Deadline               // the response timeout has passed
    | SelectFailed           // select reported a timeout or an error
    | NoBytes                // select reported data but the read gave none
    | Ready(available: nat)  // the read may take up to this many bytes

  predicate Ends(event: ReadEvent) {
    event.Deadline? || event.SelectFailed?
  }

  /** How many turns deliver bytes before the loop has to give up. */
  function Deliveries(events: seq<ReadEvent>): nat {
    if events == [] || Ends(events[0]) then 0
    else (if events[0].Ready? && events[0].available > 0 then 1 else 0) + Deliveries(events[1..])
  }

  /** An answer of motor `id` occupies the ten bytes from `q` on. */
  ghost predicate AnswerAt(stream: Bytes, id: bv8, q: nat) {
    && q + 10 <= |stream|
    && stream[q] == id
    && Checked(stream[q..q + 10])
  }

  /** The plain search the reader refines: the leftmost answer, if the stream holds one. */
  ghost predicate IsLeftmost(stream: Bytes, id: bv8, q: nat) {
    && AnswerAt(stream, id, q)
    && forall p :: 0 <= p < q ==> !AnswerAt(stream, id, p)
  }

  /** What the reader promises about its result and the number of bytes it took. */
  ghost predicate ReadsLeftmost(stream: Bytes, id: bv8, frame: Option<Bytes>, consumed: nat) {
    && consumed <= |stream|
    && match frame
       case Some(f) => consumed >= 10 && f == stream[consumed - 10..consumed] && IsLeftmost(stream, id, consumed - 10)
       case None => forall q: nat :: q + 10 <= consumed ==> !AnswerAt(stream, id, q)
  }

  /** No answer starts at `q`, judging by the first `p` bytes alone. */
  ghost predicate RuledOut(stream: Bytes, id: bv8, q: nat, p: nat)
    requires q < p <= |stream|
  {
    stream[q] != id || (q + 10 <= p && !Checked(stream[q..q + 10]))
  }

  /** The buffer holds the last bytes taken, and no answer starts before it. */
  ghost predicate Sliding(stream: Bytes, id: bv8, buffer: Bytes, p: nat) {
    && |buffer| <= p <= |stream|
    && |buffer| < 10
    && buffer == stream[p - |buffer|..p]
    && forall q :: 0 <= q < p - |buffer| ==> RuledOut(stream, id, q, p)
  }

  /** ... and it starts at the only place an answer may still start. */
  ghost predicate Synchronised(stream: Bytes, id: bv8, buffer: Bytes, p: nat) {
    Sliding(stream, id, buffer, p) && (buffer != [] ==> buffer[0] == id)
  }

  method ReadFeedbackFrame(id: bv8, stream: Bytes, events: seq<ReadEvent>)
    returns (frame: Option<Bytes>, consumed: nat)
    ensures ReadsLeftmost(stream, id, frame, consumed)
    ensures frame.None? ==> consumed >= Deliveries(events) || consumed == |stream|
  {
    hide RuledOut, ReadsLeftmost, Crc8;
    var outFrame: Bytes := [];
    consumed := 0;
    var turn := 0;
    while |outFrame| < 10
      invariant turn <= |events|
      invariant Synchronised(stream, id, outFrame, consumed)
      invariant consumed + Deliveries(events[turn..]) >= Deliveries(events) || consumed == |stream|
      decreases |events| - turn
    {
      if turn == |events| || events[turn].Deadline? || events[turn].SelectFailed? {
        TimedOut(stream, id, outFrame, consumed);
        return None, consumed;
      }
      var event := events[turn];
      assert events[turn..][1..] == events[turn + 1..];
      turn := turn + 1;
      var need := 10 - |outFrame|;
      var n := if event.Ready? then Least(Least(need, 16), Least(event.available, |stream| - consumed)) else 0;
      if n <= 0 {
        continue;
      }
      var buf := stream[consumed..consumed + n];
      ghost var before := consumed;
      for i := 0 to n
        invariant consumed == before + i
        invariant Synchronised(stream, id, outFrame, consumed)
        invariant |outFrame| + (n - i) <= 10
      {
        var b := buf[i];
        consumed := consumed + 1;
        if outFrame == [] && b != id {
          SkipByte(stream, id, consumed - 1, consumed);
          continue;
        }
        TakeByte(stream, id, outFrame, consumed - 1, consumed);
        outFrame := outFrame + [b];
        if |outFrame| >= 10 {
          var crc := Crc8Maxim(outFrame[..9]);
          if crc == outFrame[9] {
            return Some(outFrame), consumed;
          }
          outFrame := outFrame[1..];
          while outFrame != [] && outFrame[0] != id
            invariant |outFrame| <= 9
            invariant Sliding(stream, id, outFrame, consumed)
          {
            DropFront(stream, id, outFrame, consumed);
            outFrame := outFrame[1..];
          }
        }
      }
    }
    assert false;
  }

  function Least(a: int, b: int): int {
    if a <= b then a else b
  }

  /** A byte other than the id cannot start an answer. */
  lemma SkipByte(stream: Bytes, id: bv8, p: nat, p': nat)
    requires p' == p + 1 <= |stream|
    requires Synchronised(stream, id, [], p) && stream[p] != id
    ensures Synchronised(stream, id, [], p')
  {
    StillRuledOut(stream, id, [], p, p');
  }

  /** The tenth byte decides: a checked frame is the leftmost answer, any other one rules its start out. */
  lemma TakeByte(stream: Bytes, id: bv8, buffer: Bytes, p: nat, p': nat)
    requires p' == p + 1 <= |stream|
    requires Synchronised(stream, id, buffer, p) && (buffer == [] ==> stream[p] == id)
    ensures |buffer| < 9 ==> Synchronised(stream, id, buffer + [stream[p]], p')
    ensures |buffer| == 9 && Crc8((buffer + [stream[p]])[..9]) == stream[p] ==>
              ReadsLeftmost(stream, id, Some(buffer + [stream[p]]), p')
    ensures |buffer| == 9 && Crc8((buffer + [stream[p]])[..9]) != stream[p] ==>
              Sliding(stream, id, (buffer + [stream[p]])[1..], p')
  {
    StillRuledOut(stream, id, buffer, p, p');
    var taken := buffer + [stream[p]];
    assert taken == stream[p' - |taken|..p'];
    if |buffer| == 9 {
      var start := p' - 10;
      assert stream[start..start + 10] == taken && stream[start] == id;
      if Crc8(taken[..9]) == stream[p] {
        NothingYet(stream, id, buffer, p);
        assert AnswerAt(stream, id, start);
      } else {
        assert RuledOut(stream, id, start, p');
      }
    }
  }

  lemma DropFront(stream: Bytes, id: bv8, buffer: Bytes, p: nat)
    requires Sliding(stream, id, buffer, p) && buffer != [] && buffer[0] != id
    ensures Sliding(stream, id, buffer[1..], p)
  {
    assert RuledOut(stream, id, p - |buffer|, p);
  }

  /** Taking one more byte brings no ruled-out start back. */
  lemma StillRuledOut(stream: Bytes, id: bv8, buffer: Bytes, p: nat, p': nat)
    requires p' == p + 1 <= |stream| && Sliding(stream, id, buffer, p)
    ensures forall q :: 0 <= q < p - |buffer| ==> RuledOut(stream, id, q, p')
  {
    forall q | 0 <= q < p - |buffer|
      ensures RuledOut(stream, id, q, p')
    {
      assert RuledOut(stream, id, q, p);
    }
  }

  lemma TimedOut(stream: Bytes, id: bv8, buffer: Bytes, p: nat)
    requires Sliding(stream, id, buffer, p)
    ensures ReadsLeftmost(stream, id, None, p)
  {
    NothingYet(stream, id, buffer, p);
  }

  /** A sliding buffer is shorter than an answer, so none has been missed. */
  lemma NothingYet(stream: Bytes, id: bv8, buffer: Bytes, p: nat)
    requires Sliding(stream, id, buffer, p)
    ensures forall q: nat :: q + 10 <= p ==> !AnswerAt(stream, id, q)
  {
    forall q: nat | q + 10 <= p
      ensures !AnswerAt(stream, id, q)
    {
      assert RuledOut(stream, id, q, p);
    }
  }

  /** However the reads cut the stream up, two successful runs return the same frame. */
  lemma ChunkingIsInvisible(stream: Bytes, id: bv8, f: Bytes, c: nat, f': Bytes, c': nat)
    requires ReadsLeftmost(stream, id, Some(f), c)
    requires ReadsLeftmost(stream, id, Some(f'), c')
    ensures f == f' && c == c'
  {
    assert AnswerAt(stream, id, c - 10) && AnswerAt(stream, id, c' - 10);
  }

  /** If every byte arrives before the deadline, an answer is returned exactly when there is one. */
  lemma CompleteStreamDecides(stream: Bytes, id: bv8, frame: Option<Bytes>, consumed: nat)
    requires ReadsLeftmost(stream, id, frame, consumed)
    requires frame.None? ==> consumed == |stream|
    ensures frame.Some? <==> exists q: nat :: IsLeftmost(stream, id, q)
  {
    if frame.Some? {
      assert IsLeftmost(stream, id, consumed - 10);
    }
  }

  /** Whatever the reader returns, the second check in the parser accepts it. */
  lemma FrameReadIsParsed(stream: Bytes, id: bv8, f: Bytes, consumed: nat)
    requires ReadsLeftmost(stream, id, Some(f), consumed)
    ensures ParseFeedbackFrame(id, f).Parsed?
  {
    assert stream[consumed - 10..consumed][0] == stream[consumed - 10];
    assert stream[consumed - 10..consumed - 10 + 10] == f;
  }

  /**
   * A stream that holds nothing but damaged copies of a motor's answers makes the reader time out:
   * if every window that starts with the id is an answer hit by a short burst or an odd number of
   * flips, no frame is returned.
   */
  lemma OnlyDamagedAnswers(stream: Bytes, id: bv8, frame: Option<Bytes>, consumed: nat)
    requires ReadsLeftmost(stream, id, frame, consumed)
    requires forall q: nat :: q + 10 <= |stream| && stream[q] == id ==> Damaged(stream[q..q + 10], id)
    ensures frame.None?
  {
    if frame.Some? {
      var f := stream[consumed - 10..consumed - 10 + 10];
      var a, k, j :| DamagedFrom(f, id, a, k, j);
      DamagedAnswerNeverParsed(id, a, f, k, j);
      FrameReadIsParsed(stream, id, frame.value, consumed);
    }
  }

  ghost predicate Damaged(f: Bytes, id: bv8) {
    exists a: Answer, k: nat, j: nat :: DamagedFrom(f, id, a, k, j)
  }

  ghost predicate DamagedFrom(f: Bytes, id: bv8, a: Answer, k: nat, j: nat) {
    && |f| == 10
    && (Burst(Flips(AnswerFrame(id, a), f), k, j) || OddMessage(Flips(AnswerFrame(id, a), f)))
  }
}
