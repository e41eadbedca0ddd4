/**
 The loop that tails one ring onto a stream. What the rest of the program does to the ring while the
 loop is parked, when the stop channel closes and whether a send fails come in as a schedule of turns;
 the claims hold for every schedule.
 */
module OutputPumps {
  import Rings = OutputRing
  import opened CommandStream
  import opened Alignment
  import opened Lossless
  import opened Options

  type byte = Rings.byte

  datatype Turn = Turn(others: seq<Rings.Interference>, cancelAt: nat, sendFails: bool)

  /** Why the loop ended; Running is a schedule that ran out. */
  datatype PumpEnd = EndOfOutput | StopSeen | Outrun | SendFailed | Running

  /** A ring that can hold anything retains the last byte it was given. */
  lemma StartIsInside(r: Rings.Ring)
    requires r.capacity > 0
    ensures r.hist != [] ==> r.Start() < |r.hist|
  {
  }

  /** The pump of the protocol, waiting to read at an offset. */
  function At(offset: nat): Pump {
    Pump(offset, [], Tailing)
  }

  /** One turn: a read, and a send of what it returned. */
  method PumpTurn(ring: Rings.OutputRing, offset: nat, turn: Turn) returns (chunk: seq<byte>, end: Option<PumpEnd>)
    requires ring.Valid() && ring.capacity > 0
    modifies ring`buf, ring`start, ring`notify, ring`hist, ring`released, ring`space, ring`closed
    modifies ring.notify, ring.space
    ensures ring.Valid() && old(ring.hist) <= ring.hist
    ensures ring.notify == old(ring.notify) || fresh(ring.notify)
    ensures ring.space == old(ring.space) || fresh(ring.space)
    // What was sent is the history from the offset to its end.
    ensures end.None? ==>
              && ring.View().Start() <= offset && chunk != []
              && SliceAt(ring.hist, offset, chunk) && offset + |chunk| == |ring.hist|
    ensures end == Some(EndOfOutput) ==> ring.closed && |ring.hist| <= offset
    ensures end == Some(Outrun) ==> offset < ring.View().Start()
    ensures end == Some(Running) ==> !ring.closed && |ring.hist| <= offset
    ensures end == Some(SendFailed) ==> turn.sendFails
    ensures end == Some(StopSeen) ==> turn.cancelAt < |turn.others|
  {
    var r, canceled := ring.ReadAt(offset, turn.others, turn.cancelAt);
    if canceled {
      return [], Some(StopSeen);
    }
    StartIsInside(ring.View());
    if r.Waiting? {
      return [], Some(Running);
    }
    if r.Eof? {
      return [], Some(EndOfOutput);
    }
    if r.at != offset {
      return [], Some(Outrun);
    }
    if turn.sendFails {
      return [], Some(SendFailed);
    }
    return r.data, None;
  }

  /** What a turn decided is what the protocol's tail step decides on the same ring, in each of its
      four cases. */
  lemma TurnIsTail(r: Rings.Ring, offset: nat)
    requires r.capacity > 0
    ensures Tail(r, At(offset)) ==
      if offset < r.Start() then At(offset).(phase := Halted)
      else if offset < |r.hist| then Pump(|r.hist|, r.hist[offset..], Tailing)
      else if r.closed then At(offset).(phase := AtEof)
      else At(offset)
  {
    StartIsInside(r);
  }

  /** A turn that sent a chunk is the protocol's read step followed by its send step. */
  lemma TurnIsReadThenSend(rings: Pair<Rings.Ring>, st: Stream, k: Kind, offset: nat, chunk: seq<byte>)
    requires st.phase.Serving? && !st.broken && st.pumps.Get(k) == At(offset) && rings.Get(k).capacity > 0
    requires rings.Get(k).Start() <= offset < |rings.Get(k).hist| && chunk == rings.Get(k).hist[offset..]
    ensures SendPump(ReadPump(rings, st, k), k, false)
         == st.(pumps := st.pumps.Set(k, At(offset + |chunk|)), down := st.down + [Output(k, chunk)])
  {
    TurnIsTail(rings.Get(k), offset);
  }

  /** A turn that ended the loop is the protocol's read step: at the end of the output the pump ends,
      and outrun it stops the stream. */
  lemma TurnEndIsRead(rings: Pair<Rings.Ring>, st: Stream, k: Kind, offset: nat)
    requires st.phase.Serving? && st.pumps.Get(k) == At(offset) && rings.Get(k).capacity > 0
    ensures
      var r, st' := rings.Get(k), ReadPump(rings, st, k);
      && (r.closed && |r.hist| <= offset ==> st' == st.(pumps := st.pumps.Set(k, At(offset).(phase := AtEof))))
      && (offset < r.Start() ==> st' == st.(pumps := st.pumps.Set(k, At(offset).(phase := Halted)), stop := true))
      && (!r.closed && |r.hist| <= offset ==> st' == st)
  {
    TurnIsTail(rings.Get(k), offset);
    StartIsInside(rings.Get(k));
    assert st.pumps.Set(k, st.pumps.Get(k)) == st.pumps;
  }

  /** A turn whose send fails is the read step followed by a failed send: the pump has moved past what
      it read, has ended, and stops the stream. */
  lemma FailedTurnIsFailedSend(rings: Pair<Rings.Ring>, st: Stream, k: Kind, offset: nat)
    requires st.phase.Serving? && st.broken && st.pumps.Get(k) == At(offset) && rings.Get(k).capacity > 0
    requires rings.Get(k).Start() <= offset < |rings.Get(k).hist|
    ensures SendPump(ReadPump(rings, st, k), k, true)
         == st.(pumps := st.pumps.Set(k, Pump(|rings.Get(k).hist|, [], Halted)), stop := true)
  {
    TurnIsTail(rings.Get(k), offset);
  }

  /** The chunks sent are the history from `from` up to `offset`, none of them empty. */
  ghost predicate SentUpTo(hist: seq<byte>, from: nat, sent: seq<Chunk>, offset: nat) {
    && offset == from + |Joined(sent)| && SliceAt(hist, from, Joined(sent))
    && forall i :: 0 <= i < |sent| ==> sent[i].bytes != []
  }

  lemma HistoryGrows(hist: seq<byte>, hist': seq<byte>, from: nat, sent: seq<Chunk>, offset: nat)
    requires SentUpTo(hist, from, sent, offset) && hist <= hist'
    ensures SentUpTo(hist', from, sent, offset)
  {
    SliceGrows(hist, hist', from, Joined(sent));
  }

  lemma SentGrows(hist: seq<byte>, from: nat, sent: seq<Chunk>, offset: nat, bytes: seq<byte>)
    requires SentUpTo(hist, from, sent, offset) && bytes != [] && SliceAt(hist, offset, bytes)
    ensures SentUpTo(hist, from, sent + [Chunk(offset, bytes)], offset + |bytes|)
  {
    JoinedAppend(sent, Chunk(offset, bytes));
    SliceJoin(hist, from, Joined(sent), bytes);
  }

  /** Every byte from the offset on is sent once, in order, until the end of the output, a stop, or a
      failed send; a reader outrun by eviction ends the stream instead of skipping bytes. The loop
      closes the stop channel itself exactly when it was outrun or its send failed. */
  method PumpRing(ring: Rings.OutputRing, from: nat, turns: seq<Turn>)
    returns (sent: seq<Chunk>, end: PumpEnd, closedStop: bool)
    requires ring.Valid() && ring.capacity > 0
    modifies ring`buf, ring`start, ring`notify, ring`hist, ring`released, ring`space, ring`closed
    modifies ring.notify, ring.space
    ensures ring.Valid() && old(ring.hist) <= ring.hist
    ensures SentUpTo(ring.hist, from, sent, from + |Joined(sent)|)
    ensures end == EndOfOutput ==> ring.closed && |ring.hist| <= from + |Joined(sent)|
    ensures end == Outrun ==> from + |Joined(sent)| < ring.View().Start()
    ensures closedStop <==> end == Outrun || end == SendFailed
    // Nothing else ends the loop: a stop needs a cancellation, a failed send a failing turn, and a loop that
    // is still running has used up its turns or is parked with nothing to send.
    ensures end == StopSeen ==> exists t :: t in turns && t.cancelAt < |t.others|
    ensures end == SendFailed ==> exists t :: t in turns && t.sendFails
    ensures end == Running ==> |sent| == |turns| || (!ring.closed && |ring.hist| <= from + |Joined(sent)|)
  {
    sent := [];
    var offset: nat := from;
    for turn := 0 to |turns|
      invariant ring.Valid() && old(ring.hist) <= ring.hist
      invariant ring.notify == old(ring.notify) || fresh(ring.notify)
      invariant ring.space == old(ring.space) || fresh(ring.space)
      invariant |sent| == turn && SentUpTo(ring.hist, from, sent, offset)
    {
      ghost var before := ring.hist;
      var chunk, over := PumpTurn(ring, offset, turns[turn]);
      HistoryGrows(before, ring.hist, from, sent, offset);
      if over.Some? {
        return sent, over.value, over.value == Outrun || over.value == SendFailed;
      }
      SentGrows(ring.hist, from, sent, offset, chunk);
      sent := sent + [Chunk(offset, chunk)];
      offset := offset + |chunk|;
    }
    return sent, Running, false;
  }
}
