/**
 The growing buffer in which encoded messages wait to be published
 (static variables of the C file are the fields of one object).
 */
module MessageAggregator {
  import opened MessagePack
  import opened Messages
  import opened Collections
  import opened Packers

  const INITIAL_SIZE: nat := 1024

  function Pow2(k: nat): (r: nat)
    ensures r > k
  {
    if k == 0 then 1 else 2 * Pow2(k - 1)
  }

  function Max(a: nat, b: nat): nat {
    if a < b then b else a
  }

  class MessageList {
    var messageArray: array<byte>
    var usedMemsize: nat
    var totalCapacity: nat
    var noOfMessages: nat

    // what the C program does not store
    ghost var live: bool              // message_array is allocated
    ghost var messages: seq<bytes>    // queued since the last clear
    ghost var peak: nat               // most bytes ever in use since message_list_new
    ghost var doublings: nat
    ghost var moved: nat              // old capacity moved by all reallocs since message_list_new

    ghost predicate Valid()
      reads this, messageArray
    {
      && noOfMessages == |messages|
      && usedMemsize <= totalCapacity
      && (if live then
            && totalCapacity == messageArray.Length == INITIAL_SIZE * Pow2(doublings)
            && messageArray[..usedMemsize] == Concat(messages)
            && usedMemsize <= peak
            && (totalCapacity == INITIAL_SIZE || totalCapacity < 2 * peak)
            && moved == totalCapacity - INITIAL_SIZE
          else
            totalCapacity == 0 && messages == [])
    }

    /** Before the first message_list_new: all the static variables are zero. */
    constructor ()
      ensures Valid() && !live && fresh(messageArray)
    {
      messageArray := new byte[0];
      usedMemsize, totalCapacity, noOfMessages := 0, 0, 0;
      live, messages, peak, doublings, moved := false, [], 0, 0, 0;
    }

    method New()
      modifies this
      ensures Valid() && live && fresh(messageArray)
      ensures messages == [] && totalCapacity == INITIAL_SIZE == 1024 && usedMemsize == peak == moved == 0
    {
      messageArray := new byte[INITIAL_SIZE];
      totalCapacity := INITIAL_SIZE;
      usedMemsize := 0;
      noOfMessages := 0;
      live, messages, peak, doublings, moved := true, [], 0, 0, 0;
    }

    method Destroy()
      requires live  // a second free of the same array is an error
      modifies this
      ensures Valid() && !live && messages == [] && totalCapacity == 0
      ensures messageArray == old(messageArray)
    {
      usedMemsize := 0;
      totalCapacity := 0;
      noOfMessages := 0;
      live, messages := false, [];
    }

    method Clear()
      requires Valid()
      modifies this
      ensures Valid() && live == old(live) && messages == [] && noOfMessages == 0
      ensures usedMemsize == 0 && totalCapacity == old(totalCapacity) && messageArray == old(messageArray)
      ensures peak == old(peak) && moved == old(moved)
    {
      usedMemsize := 0;
      noOfMessages := 0;
      messages := [];
    }

    predicate HasEnoughSpaceFor(size: nat)
      reads this
    {
      totalCapacity - usedMemsize >= size
    }

    method DoubleTheCapacity()
      requires Valid() && live
      requires totalCapacity < peak
      modifies this
      ensures Valid() && live && fresh(messageArray)
      ensures totalCapacity == 2 * old(totalCapacity)
      ensures messages == old(messages) && usedMemsize == old(usedMemsize) && peak == old(peak)
    {
      moved, doublings := moved + totalCapacity, doublings + 1;
      totalCapacity := totalCapacity * 2;
      var a := new byte[totalCapacity];
      forall i | 0 <= i < messageArray.Length {
        a[i] := messageArray[i];
      }
      assert a[..usedMemsize] == messageArray[..usedMemsize];
      messageArray := a;
    }

    /** Doubles until the message fits; with capacity 0 the loop would never end. */
    method MakeRoom(size: nat)
      requires Valid() && live
      modifies this
      ensures Valid() && live && HasEnoughSpaceFor(size) && peak >= usedMemsize + size
      ensures messages == old(messages) && usedMemsize == old(usedMemsize)
      ensures messageArray == old(messageArray) || fresh(messageArray)
      ensures totalCapacity == old(totalCapacity) || totalCapacity < 2 * (usedMemsize + size)
      ensures moved < totalCapacity && moved - old(moved) == totalCapacity - old(totalCapacity)
      ensures peak == Max(old(peak), usedMemsize + size)
    {
      peak := Max(peak, usedMemsize + size);
      while !HasEnoughSpaceFor(size)
        invariant Valid() && live
        invariant messages == old(messages) && usedMemsize == old(usedMemsize)
        invariant usedMemsize + size <= peak
        invariant peak == Max(old(peak), usedMemsize + size)
        invariant messageArray == old(messageArray) || fresh(messageArray)
        invariant totalCapacity == old(totalCapacity) || totalCapacity < 2 * (usedMemsize + size)
        decreases usedMemsize + size - totalCapacity
      {
        DoubleTheCapacity();
      }
    }

    /** Copies an encoded message behind the others. */
    method QueueMessage(data: bytes)
      requires Valid() && live
      modifies this, messageArray
      ensures Valid() && live
      ensures messages == old(messages) + [data] && usedMemsize == old(usedMemsize) + |data|
      ensures peak == Max(old(peak), usedMemsize)
      ensures moved - old(moved) == totalCapacity - old(totalCapacity)
      ensures messageArray == old(messageArray) || fresh(messageArray)
    {
      MakeRoom(|data|);
      ghost var before := messageArray[..usedMemsize];
      forall i | 0 <= i < |data| {
        messageArray[usedMemsize + i] := data[i];
      }
      assert messageArray[..usedMemsize + |data|] == before + data;
      usedMemsize := usedMemsize + |data|;
      noOfMessages := noOfMessages + 1;
      messages := messages + [data];
      assert messages[..|messages| - 1] == old(messages);
    }

    /** Reads the used part of the buffer, which must not have been freed: the queued messages, end to end. */
    method Contents() returns (data: bytes)
      requires Valid() && live
      ensures data == Concat(messages)
    {
      data := messageArray[..usedMemsize];
    }

    /** An empty queue writes nothing, takes no number and reads no buffer. */
    method GetEventCollectionMessage(sbuf: Packer, counter: MessageCounter, ts: bytes, ghost ms: seq<Message>)
      requires Valid() && messages == Wires(ms)
      requires |ts| == 8 && |ms| < TWO_32 && counter.next < TWO_64
      requires sbuf as object != this && counter as object != this
      modifies sbuf, counter
      ensures ms == [] ==> sbuf.buf == old(sbuf.buf) && counter.next == old(counter.next)
      ensures ms != [] ==> sbuf.buf == BatchWire(Batch(ts, old(counter.next), ms))
      ensures ms != [] ==> counter.next == NextNumber(old(counter.next))
    {
      if noOfMessages == 0 {
        return;
      }
      sbuf.Clear();
      var data := Contents();
      sbuf.PackEventCollectionEvent(counter, ts, data, noOfMessages, ms);
      assert [] + BatchWire(Batch(ts, old(counter.next), ms)) == BatchWire(Batch(ts, old(counter.next), ms));
    }
  }

  /** Whether k doublings make room. */
  predicate RoomAfter(k: nat, used: nat, capacity: nat, size: nat) {
    capacity * Pow2(k) >= used + size
  }

  /**
   The growth loop of queue_message reaches room for a message if and only if
   the capacity is not zero (or there is nothing to copy).
   */
  lemma GrowthTerminatesIff(used: nat, capacity: nat, size: nat)
    requires used <= capacity
    ensures (exists k: nat :: RoomAfter(k, used, capacity, size)) <==> capacity > 0 || size == 0
  {
    if capacity > 0 {
      AtLeast(capacity, Pow2(used + size));
      assert RoomAfter(used + size, used, capacity, size);
    } else if size == 0 {
      assert RoomAfter(0, used, capacity, size);
    }
  }

  lemma AtLeast(a: nat, b: nat)
    requires a > 0
    ensures a * b >= b
  {
  }
}
