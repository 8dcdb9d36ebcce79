/** The bounded channel of frames towards the remote portal, and the coroutine that writes them out. */
module OutboundLink {
  import opened JsonValues
  import opened Sequences

  const CAPACITY: nat := 200

  /** Where the writing coroutine is: no link, waiting to receive, or writing a frame. */
  datatype Writer = Offline | Receiving | Writing(frame: Json)

  /** The channel and writer, with the history of the frames: offered by try_send, accepted by the channel,
      taken by a writer, and written without an error. */
  datatype Outbound = Outbound(queue: seq<Json>, writer: Writer,
                               offered: seq<Json>, accepted: seq<Json>, taken: seq<Json>, written: seq<Json>)

  const EMPTY := Outbound([], Offline, [], [], [], [])

  predicate Refuses(o: Outbound) {
    !o.writer.Receiving? && |o.queue| >= CAPACITY
  }

  /** try_send: hands the frame to a waiting receiver, buffers it, or drops it. */
  function TrySend(o: Outbound, f: Json): Outbound {
    var o1 := o.(offered := o.offered + [f]);
    if o.writer.Receiving? then o1.(writer := Writing(f), accepted := o.accepted + [f], taken := o.taken + [f])
    else if |o.queue| < CAPACITY then o1.(queue := o.queue + [f], accepted := o.accepted + [f])
    else o1
  }

  /** async_receive at the top of the writer's loop. */
  function Receive(o: Outbound): Outbound {
    if o.queue == [] then o.(writer := Receiving)
    else o.(writer := Writing(o.queue[0]), queue := o.queue[1..], taken := o.taken + [o.queue[0]])
  }

  /** A write ends, successfully or not, and the loop goes round. */
  function WriteEnds(o: Outbound, ok: bool): Outbound {
    if !o.writer.Writing? then o
    else Receive(if ok then o.(written := o.written + [o.writer.frame]) else o)
  }

  /** A link starts. */
  function Connect(o: Outbound): Outbound {
    if o.writer.Offline? then Receive(o) else o
  }

  /** A link ends; a frame being written is lost. */
  function Disconnect(o: Outbound): Outbound {
    o.(writer := Offline)
  }

  ghost function TrySendAll(o: Outbound, fs: seq<Json>): Outbound {
    if fs == [] then o else TrySend(TrySendAll(o, fs[..|fs| - 1]), fs[|fs| - 1])
  }

  lemma {:induction false} TrySendAllAppend(o: Outbound, a: seq<Json>, b: seq<Json>)
    ensures TrySendAll(o, a + b) == TrySendAll(TrySendAll(o, a), b)
  {
    if b == [] {
      assert a + b == a;
    } else {
      TrySendAllAppend(o, a, b[..|b| - 1]);
      assert (a + b)[..|a + b| - 1] == a + b[..|b| - 1];
    }
  }

  lemma {:induction false} TrySendAllOffers(o: Outbound, fs: seq<Json>)
    ensures TrySendAll(o, fs).offered == o.offered + fs
  {
    if fs != [] {
      TrySendAllOffers(o, fs[..|fs| - 1]);
    }
  }

  // ---------- What every run keeps ----------

  /** The frames a writer is done with, written or lost. */
  function Settled(o: Outbound): seq<Json> {
    if o.writer.Writing? && o.taken != [] then o.taken[..|o.taken| - 1] else o.taken
  }

  /** How many frames were taken and then lost. */
  function Missing(o: Outbound): int {
    |Settled(o)| - |o.written|
  }

  ghost predicate Inv(o: Outbound) {
    && |o.queue| <= CAPACITY
    && (o.writer.Receiving? ==> o.queue == [])
    && (o.writer.Writing? ==> o.taken != [] && o.taken[|o.taken| - 1] == o.writer.frame)
    && o.accepted == o.taken + o.queue
    && IsSubsequence(o.accepted, o.offered)
    && IsSubsequence(o.written, Settled(o))
  }

  lemma TrySendKeepsInv(o: Outbound, f: Json)
    requires Inv(o)
    ensures Inv(TrySend(o, f)) && Missing(TrySend(o, f)) == Missing(o)
  {
    hide IsSubsequence, TrySend;
    OfferTakesEffect(o, f);
    SubsequenceSkip(o.accepted, o.offered, f);
    SubsequenceTake(o.accepted, o.offered, f);
    var o' := TrySend(o, f);
    if o.writer.Receiving? {
      assert o'.taken[..|o'.taken| - 1] == o.taken && Settled(o') == Settled(o);
      assert o'.accepted == o'.taken + o'.queue;
    } else if |o.queue| < CAPACITY {
      Associative(o.taken, o.queue, [f]);
    }
  }

  lemma {:induction false} TrySendAllKeepsInv(o: Outbound, fs: seq<Json>)
    requires Inv(o)
    ensures Inv(TrySendAll(o, fs)) && Missing(TrySendAll(o, fs)) == Missing(o)
  {
    if fs != [] {
      TrySendAllKeepsInv(o, fs[..|fs| - 1]);
      TrySendKeepsInv(TrySendAll(o, fs[..|fs| - 1]), fs[|fs| - 1]);
    }
  }

  /** The writer has gone on: it has taken the oldest of the queued frames, or waits if there is none. */
  predicate GoneOn(o: Outbound, t: Outbound) {
    && t.offered == o.offered && t.accepted == o.accepted
    && if o.queue == [] then t.writer == Receiving && t.queue == [] && t.taken == o.taken
       else t.writer == Writing(o.queue[0]) && [o.queue[0]] + t.queue == o.queue && t.taken == o.taken + [o.queue[0]]
  }

  /** What an offer does, where a waiting writer gets the frame at once. */
  lemma OfferTakesEffect(o: Outbound, f: Json)
    requires Inv(o)
    ensures var t := TrySend(o, f);
            && t.offered == o.offered + [f] && t.written == o.written
            && (o.writer.Receiving? ==> t.writer == Writing(f) && t.queue == [] && t.accepted == o.accepted + [f]
                                        && t.taken == o.taken + [f])
            && (!o.writer.Receiving? ==> t.writer == o.writer && t.taken == o.taken)
            && (!o.writer.Receiving? && |o.queue| < 200 ==>
                  t.queue == o.queue + [f] && t.accepted == o.accepted + [f])
            && (!o.writer.Receiving? && |o.queue| >= 200 ==> t.queue == o.queue && t.accepted == o.accepted)
  {
  }

  /** A link that starts has a writer that takes the first frame or waits for one. */
  lemma ConnectTakesEffect(o: Outbound)
    ensures o.writer.Offline? ==> GoneOn(o, Connect(o)) && Connect(o).written == o.written
    ensures !o.writer.Offline? ==> Connect(o) == o
    ensures !Connect(o).writer.Offline?
  {
  }

  /** A finished write is recorded if it succeeded, and the writer goes on either way. */
  lemma WriteTakesEffect(o: Outbound, ok: bool)
    requires o.writer.Writing?
    ensures GoneOn(o, WriteEnds(o, ok))
    ensures WriteEnds(o, ok).written == o.written + if ok then [o.writer.frame] else []
  {
  }

  /** A link that ends leaves everything in place but the writer. */
  lemma DisconnectTakesEffect(o: Outbound)
    ensures var t := Disconnect(o);
            && t.writer == Offline && t.queue == o.queue && t.offered == o.offered
            && t.accepted == o.accepted && t.taken == o.taken && t.written == o.written
  {
  }

  lemma ReceiveKeepsInv(o: Outbound)
    requires Inv(o) && IsSubsequence(o.written, o.taken)
    ensures Inv(Receive(o)) && Missing(Receive(o)) == |o.taken| - |o.written|
  {
    if o.queue != [] {
      var o' := Receive(o);
      assert o'.taken[..|o'.taken| - 1] == o.taken;
      assert o.taken + o.queue == (o.taken + [o.queue[0]]) + o.queue[1..];
    }
  }

  lemma WriteEndsKeepsInv(o: Outbound, ok: bool)
    requires Inv(o)
    ensures Inv(WriteEnds(o, ok))
    ensures Missing(WriteEnds(o, ok)) == Missing(o) + if o.writer.Writing? && !ok then 1 else 0
    ensures o.writer.Writing? ==> GoneOn(o, WriteEnds(o, ok))
    ensures o.writer.Writing? ==> WriteEnds(o, ok).written == o.written + if ok then [o.writer.frame] else []
  {
    if o.writer.Writing? {
      hide IsSubsequence, GoneOn;
      WriteTakesEffect(o, ok);
      var f := o.writer.frame;
      assert o.taken == Settled(o) + [f];
      SubsequenceTake(o.written, Settled(o), f);
      SubsequenceSkip(o.written, Settled(o), f);
      var o1 := (if ok then o.(written := o.written + [f]) else o).(writer := Offline);
      assert Inv(o1);
      ReceiveKeepsInv(o1);
    }
  }

  lemma DisconnectKeepsInv(o: Outbound)
    requires Inv(o)
    ensures Inv(Disconnect(o))
    ensures Missing(Disconnect(o)) == Missing(o) + if o.writer.Writing? then 1 else 0
  {
    if o.writer.Writing? {
      assert o.taken == Settled(o) + [o.writer.frame];
      SubsequenceSkip(o.written, Settled(o), o.writer.frame);
    }
  }

  lemma ConnectKeepsInv(o: Outbound)
    requires Inv(o)
    ensures Inv(Connect(o)) && Missing(Connect(o)) == Missing(o)
    ensures !Connect(o).writer.Offline? && (o.writer.Offline? ==> GoneOn(o, Connect(o)))
  {
    if o.writer.Offline? {
      ReceiveKeepsInv(o);
    }
  }

  /** Frames are written in the order they were offered, each at most as often as offered. */
  lemma WrittenInOrder(o: Outbound)
    requires Inv(o)
    ensures IsSubsequence(o.written, o.offered)
  {
    SubsequenceReflexive(Settled(o));
    assert o.accepted == Settled(o) + o.accepted[|Settled(o)|..];
    SubsequenceAppend(o.written, Settled(o), o.accepted[|Settled(o)|..]);
    SubsequenceTransitive(o.written, o.accepted, o.offered);
  }

  /** Every accepted frame is written, lost, being written or queued, and without losses all were written. */
  lemma AcceptedAreAccountedFor(o: Outbound)
    requires Inv(o)
    ensures |o.accepted| == |o.written| + Missing(o) + (if o.writer.Writing? then 1 else 0) + |o.queue|
    ensures 0 <= Missing(o) && (Missing(o) == 0 <==> o.written == Settled(o))
    ensures Missing(o) == 0 ==> o.accepted == o.written + (if o.writer.Writing? then [o.writer.frame] else []) + o.queue
  {
    SubsequenceLength(o.written, Settled(o));
    assert o.writer.Writing? ==> o.taken == Settled(o) + [o.writer.frame];
    assert !o.writer.Writing? ==> o.taken == Settled(o) + [];
  }

  /** An offer is dropped exactly when 200 frames are queued and no receiver waits. */
  lemma RefusedIffFull(o: Outbound, f: Json)
    requires Inv(o)
    ensures TrySend(o, f).accepted == o.accepted <==> |o.queue| == 200
    ensures |o.queue| < 200 ==> TrySend(o, f).accepted == o.accepted + [f]
  {
    assert |o.accepted + [f]| == |o.accepted| + 1;
  }

  // ---------- The channel object ----------

  class LinkChannel {
    var queue: seq<Json>
    var writer: Writer
    ghost var offered: seq<Json>
    ghost var accepted: seq<Json>
    ghost var taken: seq<Json>
    ghost var written: seq<Json>

    ghost function View(): Outbound
      reads this
    {
      Outbound(queue, writer, offered, accepted, taken, written)
    }

    constructor ()
      ensures View() == EMPTY
    {
      queue, writer := [], Offline;
      offered, accepted, taken, written := [], [], [], [];
    }

    method Offer(f: Json) returns (ok: bool)
      modifies this
      ensures View() == TrySend(old(View()), f)
      ensures ok == (old(writer).Receiving? || |old(queue)| < 200)
      ensures ok ==> accepted == old(accepted) + [f]
    {
      offered := offered + [f];
      ok := true;
      if writer.Receiving? {
        writer := Writing(f);
        accepted, taken := accepted + [f], taken + [f];
      } else if |queue| < CAPACITY {
        queue, accepted := queue + [f], accepted + [f];
      } else {
        ok := false;
      }
    }

    method Next()
      modifies this
      ensures View() == Receive(old(View()))
      ensures GoneOn(old(View()), View()) && written == old(written)
    {
      if queue == [] {
        writer := Receiving;
      } else {
        writer, taken, queue := Writing(queue[0]), taken + [queue[0]], queue[1..];
      }
    }

    /** The write of the current frame has ended. */
    method FinishWrite(ok: bool)
      modifies this
      ensures View() == WriteEnds(old(View()), ok)
      ensures old(writer).Writing? ==> GoneOn(old(View()), View())
      ensures old(writer).Writing? ==> written == old(written) + if ok then [old(writer).frame] else []
    {
      if writer.Writing? {
        if ok {
          written := written + [writer.frame];
        }
        Next();
      }
    }
  }
}
