/** The bounded work channel between the producers and the workers (a Go
    buffered channel, FIFO), and the enqueue-or-drop step both producers use
    (main.go:200-204, internal/fs/fs.go:46-50). */
module Queue {
  import opened Types

  /** The channel's buffered messages together with the ChannelFullEvents counter. */
  datatype QueueState = QueueState(queue: seq<Message>, fullEvents: nat)

  /** One enqueue-or-drop: below capacity the message is appended, at capacity
      it is dropped and the full-channel counter goes up. */
  function Offer(s: QueueState, capacity: nat, m: Message): (r: QueueState)
    // every offered message is either queued or counted as dropped
    ensures |r.queue| + r.fullEvents == |s.queue| + s.fullEvents + 1
    ensures |s.queue| <= capacity ==> |r.queue| <= capacity
    ensures r.queue == s.queue || r.queue == s.queue + [m]
    ensures |r.queue| > |s.queue| <==> |s.queue| < capacity
  {
    if |s.queue| < capacity then QueueState(s.queue + [m], s.fullEvents)
    else QueueState(s.queue, s.fullEvents + 1)
  }

  /** Offers `ms` one after the other, with no worker receiving in between. */
  function OfferAll(s: QueueState, capacity: nat, ms: seq<Message>): QueueState
    decreases |ms|
  {
    if ms == [] then s else OfferAll(Offer(s, capacity, ms[0]), capacity, ms[1..])
  }

  function Min(a: int, b: int): int { if a < b then a else b }

  /** With no consumer, exactly the messages that fit are accepted, in the
      order offered, and every later one is counted as a full-channel event. */
  lemma {:induction false} OfferAllAcceptsPrefix(s: QueueState, capacity: nat, ms: seq<Message>)
    requires |s.queue| <= capacity
    ensures var k := Min(|ms|, capacity - |s.queue|);
            OfferAll(s, capacity, ms) == QueueState(s.queue + ms[..k], s.fullEvents + |ms| - k)
    decreases |ms|
  {
    if ms != [] {
      var s' := Offer(s, capacity, ms[0]);
      OfferAllAcceptsPrefix(s', capacity, ms[1..]);
      var k := Min(|ms|, capacity - |s.queue|);
      if |s.queue| < capacity {
        assert s'.queue + ms[1..][..k - 1] == s.queue + ms[..k] by {
          assert ms[..k] == [ms[0]] + ms[1..][..k - 1];
        }
      } else {
        assert ms[..k] == [];
      }
    }
  }

  /** Starting from an empty channel, the guarded enqueue never exceeds capacity. */
  lemma OfferAllFromEmptyBounded(capacity: nat, ms: seq<Message>)
    ensures |OfferAll(QueueState([], 0), capacity, ms).queue| <= capacity
    ensures OfferAll(QueueState([], 0), capacity, ms).fullEvents == |ms| - Min(|ms|, capacity)
  {
    OfferAllAcceptsPrefix(QueueState([], 0), capacity, ms);
  }

  /** A Go buffered channel: `make(chan Message, capacity)`. */
  class Channel {
    const capacity: nat
    var buffer: seq<Message>
    var closed: bool

    ghost predicate Valid()
      reads this
    {
      |buffer| <= capacity
    }

    constructor (capacity: nat)
      ensures Valid() && this.capacity == capacity && buffer == [] && !closed
    {
      this.capacity := capacity;
      buffer := [];
      closed := false;
    }

    /** `len(ch)`: never more than the capacity the channel was made with. */
    function Len(): (r: nat)
      reads this
      ensures Valid() ==> r <= capacity
    {
      |buffer|
    }

    /** `ch <- m` where the buffer has room (otherwise Go would block); a send
        on a closed channel panics, so callers never do it. */
    method Send(m: Message)
      requires Valid() && !closed && |buffer| < capacity
      modifies this
      ensures Valid() && !closed
      ensures buffer == old(buffer) + [m]
    {
      buffer := buffer + [m];
    }

    /** `close(ch)`: buffered messages stay to be received. */
    method Close()
      requires Valid() && !closed
      modifies this
      ensures Valid() && closed && buffer == old(buffer)
    {
      closed := true;
    }

    /** `m, ok := <-ch` when it does not block: the head of the buffer, or, on
        a closed and drained channel, the zero message with ok == false. */
    method Receive() returns (m: Message, ok: bool)
      requires Valid() && (buffer != [] || closed)
      modifies this
      ensures Valid() && closed == old(closed)
      ensures ok <==> old(buffer) != []
      ensures ok ==> m == old(buffer)[0] && buffer == old(buffer)[1..]
      ensures !ok ==> m == Message("") && buffer == old(buffer)
    {
      if buffer != [] {
        m, ok := buffer[0], true;
        buffer := buffer[1..];
      } else {
        m, ok := Message(""), false;
      }
    }
  }
}
