/** The two-characteristic transport: an encrypted packet is written as a
    20-byte low fragment followed by the remainder on the high
    characteristic, and the receiver keeps the last low fragment until the
    matching high one arrives. The encryption itself is not part of this
    model: the byte strings here are already encrypted. */
module Fragments {
  import opened Common

  const CHARACTERISTIC_LOW: string := "c4edc000-9daf-11e3-8003-00025b000b00"
  const CHARACTERISTIC_HIGH: string := "c4edc000-9daf-11e3-8004-00025b000b00"

  /** The transport's write-size limit for the low fragment. */
  const LOW_SIZE := 20

  /** One characteristic write, or one notification, in order of arrival. */
  datatype GattWrite = GattWrite(characteristic: string, data: seq<byte>)

  /** `low = p[:20]`, `high = p[20:]`. */
  function Split(p: seq<byte>): (r: (seq<byte>, seq<byte>))
    ensures r.0 + r.1 == p
    ensures |r.0| == Min(LOW_SIZE, |p|)
  {
    var n := Min(LOW_SIZE, |p|);
    (p[..n], p[n..])
  }

  /** The writes of one packet: low fragment first, then high. */
  function FragmentWrites(p: seq<byte>): (ws: seq<GattWrite>)
    ensures |ws| == 2
    ensures ws[0].characteristic == CHARACTERISTIC_LOW && ws[1].characteristic == CHARACTERISTIC_HIGH
    ensures ws[0].data + ws[1].data == p && |ws[0].data| == Min(LOW_SIZE, |p|)
  {
    var (low, high) := Split(p);
    [GattWrite(CHARACTERISTIC_LOW, low), GattWrite(CHARACTERISTIC_HIGH, high)]
  }

  /** The writes of several packets sent one after another. */
  function WritesOf(ps: seq<seq<byte>>): seq<GattWrite>
  {
    if ps == [] then [] else FragmentWrites(ps[0]) + WritesOf(ps[1..])
  }

  /** A connected peripheral, seen through the writes made to it. */
  class GattLink {
    var writes: seq<GattWrite>

    constructor ()
      ensures writes == []
    {
      writes := [];
    }

    /** `mesh_write_gatt` after encryption: the low write completes before
        the high one is issued. */
    method WritePacket(encrypted: seq<byte>) returns (ok: bool)
      modifies this
      ensures ok
      ensures writes == old(writes) + FragmentWrites(encrypted)
    {
      var n := Min(LOW_SIZE, |encrypted|);
      var low := encrypted[..n];
      var high := encrypted[n..];
      writes := writes + [GattWrite(CHARACTERISTIC_LOW, low)];
      writes := writes + [GattWrite(CHARACTERISTIC_HIGH, high)];
      ok := true;
    }
  }

  /** What one notification does in the callback. */
  datatype Received =
    | Stored                             // a low fragment, kept for later
    | Reassembled(encrypted: seq<byte>)  // stored low ++ this high fragment
    | MissingLow                         // a high fragment before any low one: the attribute lookup fails
    | Ignored                            // another characteristic

  /** The callback as a transition on the one-slot low-fragment store: a low
      notification overwrites it, a high one concatenates without clearing it. */
  function Receive(low: Option<seq<byte>>, n: GattWrite): (r: (Option<seq<byte>>, Received))
    ensures r.1.Reassembled? <==> n.characteristic == CHARACTERISTIC_HIGH && low.Some?
    ensures r.1.Reassembled? ==> r.1.encrypted == low.value + n.data
    ensures r.1.Stored? <==> n.characteristic == CHARACTERISTIC_LOW
    ensures r.1.MissingLow? <==> n.characteristic == CHARACTERISTIC_HIGH && low.None?
    ensures r.0 == if n.characteristic == CHARACTERISTIC_LOW then Some(n.data) else low
  {
    if n.characteristic == CHARACTERISTIC_LOW then (Some(n.data), Stored)
    else if n.characteristic == CHARACTERISTIC_HIGH then
      if low.None? then (low, MissingLow) else (low, Reassembled(low.value + n.data))
    else (low, Ignored)
  }

  /** The callback's outcomes for a stream of notifications. */
  function Deliver(low: Option<seq<byte>>, ns: seq<GattWrite>): seq<Received>
    decreases |ns|
  {
    if ns == [] then [] else
      var (next, out) := Receive(low, ns[0]);
      [out] + Deliver(next, ns[1..])
  }

  /** What a receiver should see for packets sent in order: each low
      fragment stored, then the whole packet reassembled. */
  function Reassemblies(ps: seq<seq<byte>>): seq<Received>
  {
    if ps == [] then [] else [Stored, Reassembled(ps[0])] + Reassemblies(ps[1..])
  }

  /** The two writes of one packet, received in order, store the low
      fragment and then reassemble the packet. */
  lemma DeliverPacket(low: Option<seq<byte>>, p: seq<byte>, rest: seq<GattWrite>)
    ensures Deliver(low, FragmentWrites(p) + rest)
         == [Stored, Reassembled(p)] + Deliver(Receive(Receive(low, FragmentWrites(p)[0]).0, FragmentWrites(p)[1]).0, rest)
  {
    var fw := FragmentWrites(p);
    var ws := fw + rest;
    assert ws[0] == fw[0] && ws[1..] == [fw[1]] + rest;
    assert ws[1..][0] == fw[1] && ws[1..][1..] == rest;
  }

  /** When the fragments arrive in the order they were written, every packet
      is reassembled exactly, whatever low fragment was left over before. */
  lemma {:induction false} DeliverInOrder(low: Option<seq<byte>>, ps: seq<seq<byte>>)
    ensures Deliver(low, WritesOf(ps)) == Reassemblies(ps)
    decreases |ps|
  {
    if ps != [] {
      var rest := WritesOf(ps[1..]);
      assert WritesOf(ps) == FragmentWrites(ps[0]) + rest;
      DeliverPacket(low, ps[0], rest);
      var fw := FragmentWrites(ps[0]);
      DeliverInOrder(Receive(Receive(low, fw[0]).0, fw[1]).0, ps[1..]);
    }
  }

  /** The receiving side of a connection: the one-slot low-fragment store
      attached to the connection object. */
  class NotificationBuffer {
    var lowBytes: Option<seq<byte>>

    constructor ()
      ensures lowBytes == None
    {
      lowBytes := None;
    }

    /** The notification callback, up to the point where the reassembled
        bytes are handed to decryption. */
    method OnNotify(characteristic: string, data: seq<byte>) returns (r: Received)
      modifies this
      ensures (lowBytes, r) == Receive(old(lowBytes), GattWrite(characteristic, data))
    {
      if characteristic == CHARACTERISTIC_LOW {
        lowBytes := Some(data);
        r := Stored;
      } else if characteristic == CHARACTERISTIC_HIGH {
        if lowBytes.None? {
          r := MissingLow;
        } else {
          r := Reassembled(lowBytes.value + data);
        }
      } else {
        r := Ignored;
      }
    }
  }
}
