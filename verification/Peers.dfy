/** The objects a session works on: active pieces and peers. Each has the value of SessionState as its view. */
module Peers {
  import opened Bytes
  import opened Geometry
  import opened SessionState
  import opened SessionInvariant
  import Bitsets

  class ActivePiece {
    ghost const piece: nat
    var downloaderCount: seq<int>  // -1 means the block is already downloaded
    var buffer: seq<byte>

    ghost function View(): Active
      reads this
    {
      Active(downloaderCount, buffer)
    }

    constructor (pieceCount: nat, pieceLength: nat, ghost piece: nat)
      ensures this.piece == piece
      ensures |downloaderCount| == pieceCount && (forall b | 0 <= b < pieceCount :: downloaderCount[b] == 0)
      ensures buffer == Zeros(pieceLength)
    {
      this.piece := piece;
      downloaderCount := seq(pieceCount, _ => 0);
      buffer := Zeros(pieceLength);
    }

    method ChooseBlockToDownload(endgame: bool) returns (index: int)
      modifies this`downloaderCount
      ensures index >= 0 && endgame ==> EndgameBlock(old(downloaderCount), index)
      ensures index >= 0 && !endgame ==> FreeBlock(old(downloaderCount), index)
      ensures index >= 0 ==> View() == Bumped(old(View()), index)
      ensures index < 0 ==> View() == old(View())
      ensures index < 0 && endgame ==> forall i | 0 <= i < |downloaderCount| :: downloaderCount[i] < 0
      ensures index < 0 && !endgame ==> 0 !in downloaderCount
    {
      if endgame {
        index := ChooseBlockToDownloadEndgame();
      } else {
        index := ChooseBlockToDownloadNormal();
      }
    }

    method ChooseBlockToDownloadNormal() returns (index: int)
      modifies this`downloaderCount
      ensures index >= 0 ==> FreeBlock(old(downloaderCount), index) && View() == Bumped(old(View()), index)
      ensures index < 0 ==> View() == old(View()) && 0 !in downloaderCount
    {
      for i := 0 to |downloaderCount|
        invariant downloaderCount == old(downloaderCount)
        invariant forall j | 0 <= j < i :: downloaderCount[j] != 0
      {
        if downloaderCount[i] == 0 {
          downloaderCount := downloaderCount[i := downloaderCount[i] + 1];
          return i;
        }
      }
      return -1;
    }

    method ChooseBlockToDownloadEndgame() returns (index: int)
      modifies this`downloaderCount
      ensures index >= 0 ==> EndgameBlock(old(downloaderCount), index) && View() == Bumped(old(View()), index)
      ensures index < 0 ==> View() == old(View()) && forall i | 0 <= i < |downloaderCount| :: downloaderCount[i] < 0
    {
      index := -1;
      var minCount := -1;
      for i := 0 to |downloaderCount|
        invariant -1 <= index < i && (index == -1 <==> minCount == -1)
        invariant index == -1 ==> forall j | 0 <= j < i :: downloaderCount[j] < 0
        invariant index >= 0 ==> minCount == downloaderCount[index] >= 0
        invariant index >= 0 ==> forall j | 0 <= j < i && downloaderCount[j] >= 0 :: minCount <= downloaderCount[j]
        invariant index >= 0 ==> forall j | 0 <= j < index && downloaderCount[j] >= 0 :: minCount < downloaderCount[j]
      {
        var v := downloaderCount[i];
        if v >= 0 && (minCount == -1 || minCount > v) {
          index, minCount := i, v;
        }
      }
      if index > -1 {
        downloaderCount := downloaderCount[index := downloaderCount[index] + 1];
      }
    }

    method RecordBlock(index: nat) returns (requestCount: int)
      requires index < |downloaderCount|
      modifies this`downloaderCount
      ensures requestCount == old(downloaderCount[index]) && View() == HereNow(old(View()), index)
    {
      requestCount := downloaderCount[index];
      downloaderCount := downloaderCount[index := -1];
    }

    method IsComplete() returns (complete: bool)
      ensures complete <==> Complete(downloaderCount)
    {
      for i := 0 to |downloaderCount|
        invariant forall b | 0 <= b < i :: downloaderCount[b] == -1
      {
        if downloaderCount[i] != -1 {
          return false;
        }
      }
      return true;
    }

    /** copy(v.buffer[begin:], data) */
    method CopyIn(begin: nat, data: seq<byte>)
      requires begin <= |buffer|
      modifies this`buffer
      ensures View() == Filled(old(View()), begin, data)
    {
      buffer := Splice(buffer, begin, data[..Min(|data|, |buffer| - begin)]);
    }

    method Forget(block: nat)
      requires block < |downloaderCount|
      modifies this`downloaderCount
      ensures buffer == old(buffer)
      ensures downloaderCount == if old(downloaderCount[block]) > 0
                                 then old(downloaderCount)[block := old(downloaderCount[block]) - 1]
                                 else old(downloaderCount)
    {
      if downloaderCount[block] > 0 {
        downloaderCount := downloaderCount[block := downloaderCount[block] - 1];
      }
    }
  }

  /** The channel of the peer's writer is the history of what was given to it. */
  class PeerState {
    const address: Address
    const id: string
    var have: set<nat>
    var amChoking: bool
    var amInterested: bool
    var peerChoking: bool
    var peerInterested: bool
    var ourRequests: map<nat, int>
    var canReceiveBitfield: bool
    var closed: bool  // the connection
    var sent: seq<seq<byte>>

    ghost function View(): Peer
      reads this
    {
      Peer(id, have, amChoking, amInterested, peerChoking, peerInterested, ourRequests, canReceiveBitfield, closed,
           sent)
    }

    constructor (address: Address, id: string)
      ensures this.address == address && View() == NewPeer(id)
    {
      this.address := address;
      this.id := id;
      have := {};
      amChoking, amInterested, peerChoking, peerInterested := true, false, true, false;
      ourRequests := map[];
      canReceiveBitfield, closed := true, false;
      sent := [];
    }

    method SendMessage(b: seq<byte>)
      modifies this`sent
      ensures View() == Send(old(View()), b)
    {
      sent := sent + [b];
    }

    method SetChoke(choke: bool)
      modifies this`sent, this`amChoking
      ensures View() == SessionState.SetChoke(old(View()), choke)
    {
      if choke != amChoking {
        amChoking := choke;
        var b := UNCHOKE;
        if choke {
          b := CHOKE;
        }
        SendMessage([b]);
      }
    }

    method SetInterested(interested: bool)
      modifies this`sent, this`amInterested
      ensures View() == SessionState.SetInterested(old(View()), interested)
    {
      if interested != amInterested {
        amInterested := interested;
        var b := NOT_INTERESTED;
        if interested {
          b := INTERESTED;
        }
        SendMessage([b]);
      }
    }

    method SendBitfield(c: Config, pieceSet: set<nat>)
      modifies this`sent
      ensures View() == Send(old(View()), BitfieldMessage(c, pieceSet))
    {
      SendMessage([BITFIELD] + Bitsets.Encode(c.t.totalPieces, pieceSet));
    }

    method Close()
      modifies this`closed
      ensures View() == old(View()).(closed := true)
    {
      closed := true;
    }

    method KeepAlive()
      modifies this`sent
      ensures View() == Send(old(View()), [])
    {
      SendMessage([]);
    }
  }
}
