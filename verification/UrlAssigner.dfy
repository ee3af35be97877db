/** The URL assigner object of one node. */
module UrlAssigner {
  import opened UrlAssignment

  class UrlAssigner {
    const hash: Hash
    const localPeerId: string
    const localHash: Hex
    var peers: seq<string>        // the keys of the dict, in insertion order
    var hashes: map<string, Hex>  // peer id -> hash

    ghost predicate Valid()
      reads this
    {
      && localHash == hash(localPeerId)
      && localPeerId in peers
      && NoRepeats(peers)
      && hashes.Keys == Known(peers)
      && forall p | p in hashes :: hashes[p] == hash(p)
    }

    ghost function View(): Node
      reads this
    {
      Node(localPeerId, peers)
    }

    constructor (hash: Hash, localPeerId: string)
      ensures Valid() && this.hash == hash && View() == Node(localPeerId, [localPeerId])
    {
      this.hash := hash;
      this.localPeerId := localPeerId;
      localHash := hash(localPeerId);
      peers := [localPeerId];
      hashes := map[localPeerId := hash(localPeerId)];
    }

    method AddPeer(peerId: string)
      requires Valid()
      modifies this`peers, this`hashes
      ensures Valid() && View() == UrlAssignment.AddPeer(old(View()), peerId)
    {
      if peerId !in hashes {
        peers := peers + [peerId];
        hashes := hashes[peerId := hash(peerId)];
      }
    }

    method RemovePeer(peerId: string)
      requires Valid()
      modifies this`peers, this`hashes
      ensures Valid() && View() == UrlAssignment.RemovePeer(old(View()), peerId)
    {
      if peerId != localPeerId {
        DropKnown(peers, peerId);
        DropKeepsDistinct(peers, peerId);
        peers := Drop(peers, peerId);
        hashes := hashes - {peerId};
        assert localPeerId in Known(peers);
      }
    }

    /** The result is a nearest known peer, and this node itself when none is nearer. */
    method ClosestPeer(url: string) returns (best: string)
      requires Valid()
      ensures best == UrlAssignment.ClosestPeer(hash, View(), url)
      ensures IsClosest(hash, url, Known(peers), best)
      ensures best == localPeerId <==> IsClosest(hash, url, Known(peers), localPeerId)
    {
      var urlHash := hash(url);
      best := localPeerId;
      var bestDist := XorDistance(urlHash, localHash);
      for i := 0 to |peers|
        invariant best == Search(hash, url, localPeerId, peers[..i])
        invariant bestDist == Distance(hash, url, best)
      {
        assert peers[..i + 1][..i] == peers[..i];
        assert peers[i] in Known(peers);
        var dist := XorDistance(urlHash, hashes[peers[i]]);
        if dist < bestDist {
          best, bestDist := peers[i], dist;
        }
      }
      assert peers[..|peers|] == peers;
      ClosestIsClosest(hash, View(), url);
    }

    method IsLocalOwner(url: string) returns (mine: bool)
      requires Valid()
      ensures mine <==> IsClosest(hash, url, Known(peers), localPeerId)
      ensures mine == UrlAssignment.IsLocalOwner(hash, View(), url)
    {
      var best := ClosestPeer(url);
      mine := best == localPeerId;
    }

    method FilterLocalUrls(urls: seq<string>) returns (mine: seq<string>)
      requires Valid()
      ensures mine == UrlAssignment.FilterLocalUrls(hash, View(), urls)
    {
      mine := [];
      for i := 0 to |urls|
        invariant mine == UrlAssignment.FilterLocalUrls(hash, View(), urls[..i])
      {
        assert urls[..i + 1][..i] == urls[..i];
        var owned := IsLocalOwner(urls[i]);
        if owned {
          mine := mine + [urls[i]];
        }
      }
      assert urls[..|urls|] == urls;
    }
  }
}
