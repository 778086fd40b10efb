/** ZeroMQ packets and the frames that carry them: module_zmq.go. */
module Framing {
  import LuaConv

  datatype Option<+T> = None | Some(value: T)

  type Bytes = seq<bv8>

  /** What a socket hands over: at least one frame. */
  type Request = frames: seq<Bytes> | frames != [] witness [[]]

  /** zmqPacket; a sender that is nil is the empty one. */
  datatype Packet = Packet(sender: Bytes, payload: LuaConv.Go)

  /** encoding/gob, which writes the exported field alone. */
  datatype Gob = Gob(encode: LuaConv.Go -> Option<Bytes>, decode: Bytes -> Option<LuaConv.Go>) {
    /** What is encoded can be decoded. */
    ghost predicate Lawful() {
      forall v :: encode(v).Some? ==> decode(encode(v).value) == Some(v)
    }
  }

  /** The frames of a packet: its sender if it has one, and its payload. */
  function Frames(gob: Gob, p: Packet): Option<Request> {
    match gob.encode(p.payload)
    case None => None
    case Some(b) => Some(if |p.sender| > 0 then [p.sender, b] else [b])
  }

  /** The packet in some frames: the payload is in the last, the sender in the first of several. */
  function Parsed(gob: Gob, frames: Request): Option<Packet>
  {
    match gob.decode(frames[|frames| - 1])
    case None => None
    case Some(v) => Some(Packet(if |frames| > 1 then frames[0] else [], v))
  }

  class ZmqPacket {
    var sender: Bytes
    var payload: LuaConv.Go

    constructor ()
      ensures sender == [] && payload == LuaConv.GoNil
    {
      sender, payload := [], LuaConv.GoNil;
    }

    /** None if the payload cannot be encoded; otherwise the sender's frame if there is a sender, and the payload's. */
    method Serialize(gob: Gob) returns (packet: Option<Request>)
      ensures packet == Frames(gob, Packet(sender, payload))
      ensures packet.Some? <==> gob.encode(payload).Some?
      ensures packet.Some? ==>
                && |packet.value| == (if sender == [] then 1 else 2)
                && packet.value[|packet.value| - 1] == gob.encode(payload).value
                && (sender != [] ==> packet.value[0] == sender)
    {
      var frames: seq<Bytes> := [];
      if |sender| > 0 {
        frames := frames + [sender];
      }
      var buf := gob.encode(payload);
      if buf == None {
        return None;
      }
      packet := Some(frames + [buf.value]);
      assert frames + [buf.value] == if |sender| > 0 then [sender, buf.value] else [buf.value];
    }

    /** Fills a packet that has no sender yet; false if the frames are malformed. */
    method Deserialize(gob: Gob, b: Request) returns (ok: bool)
      requires sender == []
      modifies this
      ensures ok <==> gob.decode(b[|b| - 1]).Some?
      ensures ok ==> payload == gob.decode(b[|b| - 1]).value && sender == if |b| > 1 then b[0] else []
      ensures !ok ==> payload == old(payload) && sender == old(sender)
      ensures ok <==> Parsed(gob, b).Some?
      ensures ok ==> Parsed(gob, b) == Some(Packet(sender, payload))
    {
      var data := gob.decode(b[|b| - 1]);
      if data == None {
        return false;
      }
      payload := data.value;
      if |b| > 1 {
        sender := b[0];
      }
      ok := true;
    }
  }

  /** The frames of a packet hold that packet, with or without a sender. */
  lemma FramesRoundTrip(gob: Gob, p: Packet)
    requires gob.Lawful() && Frames(gob, p).Some?
    ensures Parsed(gob, Frames(gob, p).value) == Some(p)
  {
  }

  /** Frames a router puts between the first and the last are ignored. */
  lemma OnlyEndsMatter(gob: Gob, frames: Request)
    requires |frames| > 1
    ensures Parsed(gob, frames) == Parsed(gob, [frames[0], frames[|frames| - 1]])
  {
  }

  /** A request is malformed exactly if its last frame cannot be decoded; otherwise that is the payload. */
  lemma ParsedIff(gob: Gob, frames: Request)
    ensures Parsed(gob, frames).Some? <==> gob.decode(frames[|frames| - 1]).Some?
    ensures Parsed(gob, frames).Some? ==>
              && Parsed(gob, frames).value.payload == gob.decode(frames[|frames| - 1]).value
              && Parsed(gob, frames).value.sender == if |frames| > 1 then frames[0] else []
  {
  }

  /** The packets of the requests that are well formed, in order. */
  function WellFormed(gob: Gob, requests: seq<Request>): seq<Packet>
  {
    if requests == [] then []
    else
      (match Parsed(gob, requests[0]) case None => [] case Some(p) => [p]) + WellFormed(gob, requests[1..])
  }

  /** Each request is the frames of the packet in the same place. */
  predicate Carry(gob: Gob, requests: seq<Request>, packets: seq<Packet>) {
    |requests| == |packets| && forall i :: 0 <= i < |packets| ==> Frames(gob, packets[i]) == Some(requests[i])
  }

  lemma {:induction false} CarriedPackets(gob: Gob, requests: seq<Request>, packets: seq<Packet>)
    requires gob.Lawful() && Carry(gob, requests, packets)
    ensures WellFormed(gob, requests) == packets
  {
    forall i | 0 <= i < |packets|
      ensures Parsed(gob, requests[i]) == Some(packets[i])
    {
      FramesRoundTrip(gob, packets[i]);
    }
    if requests != [] {
      CarriedPackets(gob, requests[1..], packets[1..]);
    }
  }

  /** The numbers of the requests whose last frame can be decoded, in order, from `k` on. */
  function Decodable(gob: Gob, requests: seq<Request>, k: nat): seq<nat>
    decreases |requests| - k
  {
    if k >= |requests| then []
    else if gob.decode(requests[k][|requests[k]| - 1]).None? then Decodable(gob, requests, k + 1)
    else [k] + Decodable(gob, requests, k + 1)
  }

  lemma {:induction false} DecodableMeans(gob: Gob, requests: seq<Request>, k: nat)
    ensures var ks := Decodable(gob, requests, k);
            && (forall i, j :: 0 <= i < j < |ks| ==> ks[i] < ks[j])
            && (forall r :: r in ks <==>
                  k <= r < |requests| && gob.decode(requests[r][|requests[r]| - 1]).Some?)
    decreases |requests| - k
  {
    if k < |requests| {
      DecodableMeans(gob, requests, k + 1);
      var ks := Decodable(gob, requests, k + 1);
      assert forall j :: 0 <= j < |ks| ==> ks[j] in ks;
    }
  }

  /** The packet a decodable request carries. */
  predicate Holds(gob: Gob, frames: Request, p: Packet) {
    gob.decode(frames[|frames| - 1]) == Some(p.payload) && p.sender == if |frames| > 1 then frames[0] else []
  }

  /** One packet for each of these requests, in their order, and it is the one the request carries. */
  predicate OneEach(gob: Gob, requests: seq<Request>, ks: seq<nat>, packets: seq<Packet>) {
    |packets| == |ks| && forall i :: 0 <= i < |ks| ==> ks[i] < |requests| && Holds(gob, requests[ks[i]], packets[i])
  }

  lemma OneMoreEach(gob: Gob, requests: seq<Request>, k: nat, p: Packet, ks: seq<nat>, packets: seq<Packet>)
    requires k < |requests| && Holds(gob, requests[k], p) && OneEach(gob, requests, ks, packets)
    ensures OneEach(gob, requests, [k] + ks, [p] + packets)
  {
    hide Holds;
  }

  /** Malformed requests add nothing; each of the others adds the packet it carries, in order. */
  lemma {:induction false} WellFormedByDecoding(gob: Gob, requests: seq<Request>, k: nat)
    requires k <= |requests|
    ensures OneEach(gob, requests, Decodable(gob, requests, k), WellFormed(gob, requests[k..]))
    decreases |requests| - k
  {
    if k < |requests| {
      var r, rest := requests[k], requests[k + 1..];
      assert requests[k..][0] == r && requests[k..][1..] == rest;
      WellFormedByDecoding(gob, requests, k + 1);
      hide OneEach;
      match Parsed(gob, r)
      case None => assert [] + WellFormed(gob, rest) == WellFormed(gob, rest);
      case Some(p) => OneMoreEach(gob, requests, k, p, Decodable(gob, requests, k + 1), WellFormed(gob, rest));
    }
  }
}
