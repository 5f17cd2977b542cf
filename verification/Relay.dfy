/** The relay's registry of node keys, as the object with its five operations. */
module Relay {
  import opened Packet
  import opened Wrappers

  /** A forwarder is known by the session that owns its stream. */
  type Forwarder = nat

  class RelayPeer {
    const key: Key
    var fwd: Option<Forwarder>

    constructor (key: Key, fwd: Option<Forwarder>)
      ensures this.key == key && this.fwd == fwd
    {
      this.key, this.fwd := key, fwd;
    }
  }

  class MasqueRelay {
    var peers: map<Key, RelayPeer>

    /** Every registered peer is filed under its own key. */
    ghost predicate Valid()
      reads this
    {
      forall k :: k in peers ==> peers[k].key == k
    }

    constructor ()
      ensures Valid() && peers == map[]
    {
      peers := map[];
    }

    /** Claims a free key with a new peer that has no forwarder yet; refuses a taken one. */
    method Reserve(k: Key) returns (p: RelayPeer?)
      requires Valid()
      modifies this
      ensures Valid()
      ensures (p == null) <==> k in old(peers)
      ensures p == null ==> peers == old(peers)
      ensures p != null ==> fresh(p) && p.key == k && p.fwd == None && peers == old(peers)[k := p]
    {
      if k in peers { return null; }
      p := new RelayPeer(k, None);
      peers := peers[k := p];
    }

    /** Publishes a forwarder, once, for the peer that holds the key. */
    method Activate(p: RelayPeer?, fwd: Option<Forwarder>) returns (ok: bool)
      requires Valid()
      modifies p
      ensures Valid() && peers == old(peers)
      ensures ok <==> p != null && fwd.Some? && p.key in peers && peers[p.key] == p && old(p.fwd) == None
      ensures p != null ==> p.fwd == if ok then fwd else old(p.fwd)
    {
      if p == null || fwd.None? || p.key !in peers || peers[p.key] != p || p.fwd.Some? { return false; }
      p.fwd := fwd;
      return true;
    }

    /** The atomic form: files an already usable peer under its key, never over another one. */
    method Register(p: RelayPeer?) returns (ok: bool)
      requires Valid()
      modifies this
      ensures Valid()
      ensures ok <==> p != null && p.fwd.Some? && (p.key in old(peers) ==> old(peers)[p.key] == p)
      ensures peers == if ok then old(peers)[p.key := p] else old(peers)
    {
      if p == null || p.fwd.None? { return false; }
      if p.key in peers && peers[p.key] != p { return false; }
      peers := peers[p.key := p];
      return true;
    }

    /** Gives the key back only if this very peer holds it. */
    method Unregister(p: RelayPeer?)
      requires Valid()
      modifies this
      ensures Valid()
      ensures peers == if p != null && p.key in old(peers) && old(peers)[p.key] == p
                       then old(peers) - {p.key} else old(peers)
    {
      if p == null { return; }
      if p.key in peers && peers[p.key] == p { peers := peers - {p.key}; }
    }

    /** Only peers with a forwarder can be found. */
    method Lookup(k: Key) returns (p: RelayPeer?)
      requires Valid()
      ensures p == (if k in peers && peers[k].fwd.Some? then peers[k] else null)
      ensures p != null ==> p.key == k && p.fwd.Some?
    {
      if k !in peers { return null; }
      p := peers[k];
      if p.fwd.None? { return null; }
    }
  }
}
