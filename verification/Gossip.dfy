/** A gossip node (crates/gossip/src/gossip/mod.rs) and the envelopes it signs and checks
    (crates/core/src/gossip.rs). */
module Gossip {
  import opened Core
  import opened Lru

  type Key = Bytes32

  /** What a signature covers: everything but the hop budget. */
  datatype Signed = Signed(id: MessageId, origin: PeerId, payload: GossipMessage)

  datatype Crypto = Crypto(
    publicKey: Key -> PeerId,
    sign: (Key, Signed) -> Bytes,
    check: (PeerId, Signed, Bytes) -> bool)

  /** What was signed with a key checks against its public key. */
  ghost predicate Sound(crypto: Crypto) {
    forall key, m :: crypto.check(crypto.publicKey(key), m, crypto.sign(key, m))
  }

  datatype Envelope = Envelope(id: MessageId, origin: PeerId, ttl: nat, payload: GossipMessage, signature: Bytes) {
    function Signable(): Signed {
      Signed(id, origin, payload)
    }

    function Sign(crypto: Crypto, key: Key): Envelope {
      this.(signature := crypto.sign(key, Signable()))
    }

    predicate Verify(crypto: Crypto) {
      crypto.check(origin, Signable(), signature)
    }
  }

  /** What a signature binds and what it leaves open: with the same signature and checker, any change to
      id, origin or payload asks about another statement, and none to the hop budget does. */
  lemma SignatureCovers(crypto: Crypto, e: Envelope, f: Envelope, ttl: nat)
    ensures e.Verify(crypto) <==> crypto.check(e.origin, Signed(e.id, e.origin, e.payload), e.signature)
    ensures e.(ttl := ttl).Verify(crypto) <==> e.Verify(crypto)
    ensures e.Signable() == f.Signable() <==> e.id == f.id && e.origin == f.origin && e.payload == f.payload
  {
  }

  type ConnectionId = nat

  /** The connections an envelope may be sent on. */
  function Eligible(connections: set<ConnectionId>, exclude: Option<ConnectionId>): set<ConnectionId> {
    set c | c in connections && Some(c) != exclude
  }

  /** A pick of connections: all the eligible ones, or `fanout` of them if there are more. */
  ghost predicate Picked(eligible: set<ConnectionId>, fanout: nat, targets: seq<ConnectionId>) {
    && |targets| == (if |eligible| <= fanout then |eligible| else fanout)
    && (forall i :: 0 <= i < |targets| ==> targets[i] in eligible)
    && (forall i, k :: 0 <= i < k < |targets| ==> targets[i] != targets[k])
  }

  function SeqSet(targets: seq<ConnectionId>): set<ConnectionId> {
    set c | c in targets
  }

  lemma {:induction false} DistinctSize(targets: seq<ConnectionId>)
    requires forall i, k :: 0 <= i < k < |targets| ==> targets[i] != targets[k]
    ensures |SeqSet(targets)| == |targets|
  {
    if targets == [] {
    } else {
      DistinctSize(targets[1..]);
      assert SeqSet(targets) == SeqSet(targets[1..]) + {targets[0]};
    }
  }

  /** When the fanout suffices, every eligible connection is picked. */
  lemma PickedAll(eligible: set<ConnectionId>, fanout: nat, targets: seq<ConnectionId>)
    requires Picked(eligible, fanout, targets) && |eligible| <= fanout
    ensures forall c :: c in eligible ==> c in targets
  {
    DistinctSize(targets);
    SubsetSize(SeqSet(targets), eligible);
  }

  // ----- what a node does -----------------------------------------------------------------------

  function Stamped(targets: seq<ConnectionId>, e: Envelope): seq<(ConnectionId, Envelope)> {
    seq(|targets|, i requires 0 <= i < |targets| => (targets[i], e))
  }

  /** The envelope a node signs for its own broadcast. */
  function Original(crypto: Crypto, key: Key, maxTtl: nat, id: MessageId, message: GossipMessage): Envelope {
    Envelope(id, crypto.publicKey(key), maxTtl, message, []).Sign(crypto, key)
  }

  /** A node delivers, and passes on, what verifies and is not in its cache. */
  predicate Accepts(crypto: Crypto, seen: seq<MessageId>, e: Envelope) {
    e.Verify(crypto) && e.id !in seen
  }

  /** The cache after an envelope came in: whatever verifies counts as an access. */
  function SeenAfter(crypto: Crypto, seen: seq<MessageId>, e: Envelope, capacity: nat): seq<MessageId> {
    if e.Verify(crypto) then Touch(seen, e.id, capacity) else seen
  }

  /** What a node passes on of an envelope, with one hop less, over the picked connections. */
  function Forwards(crypto: Crypto, seen: seq<MessageId>, e: Envelope, targets: seq<ConnectionId>)
    : seq<(ConnectionId, Envelope)>
  {
    if Accepts(crypto, seen, e) && e.ttl > 1 then Stamped(targets, e.(ttl := e.ttl - 1)) else []
  }

  class GossipNode {
    const crypto: Crypto
    const signingKey: Key
    const fanout: nat
    const maxTtl: nat
    const seen: SeenCache
    var connections: set<ConnectionId>
    var delivered: seq<Envelope>
    var outgoing: seq<(ConnectionId, Envelope)>

    ghost predicate Valid()
      reads this, seen
    {
      seen.Valid()
    }

    constructor (crypto: Crypto, signingKey: Key, fanout: nat, maxTtl: nat, seenCacheSize: nat)
      requires seenCacheSize > 0
      ensures Valid() && fresh(seen) && seen.history == [] && seen.capacity == seenCacheSize
      ensures connections == {} && delivered == [] && outgoing == []
      ensures this.crypto == crypto && this.signingKey == signingKey
      ensures this.fanout == fanout && this.maxTtl == maxTtl
    {
      this.crypto, this.signingKey, this.fanout, this.maxTtl := crypto, signingKey, fanout, maxTtl;
      seen := new SeenCache(seenCacheSize);
      connections, delivered, outgoing := {}, [], [];
    }

    /** Signs a message, remembers its id and sends it to the picked connections; the node does not
        deliver its own broadcast. */
    method Broadcast(message: GossipMessage, id: MessageId) returns (ghost targets: seq<ConnectionId>)
      requires Valid()
      modifies this, seen
      ensures Valid() && connections == old(connections) && delivered == old(delivered)
      ensures seen.history == old(seen.history) + [id]
      ensures seen.entries == Touch(old(seen.entries), id, seen.capacity)
      ensures Picked(connections, fanout, targets)
      ensures outgoing == old(outgoing) + Stamped(targets, Original(crypto, signingKey, maxTtl, id, message))
      ensures var origin := crypto.publicKey(signingKey);
              var signature := crypto.sign(signingKey, Signed(id, origin, message));
              && |outgoing| == |old(outgoing)| + |targets| && outgoing[..|old(outgoing)|] == old(outgoing)
              && (forall i :: 0 <= i < |targets| ==>
                    outgoing[|old(outgoing)| + i] == (targets[i], Envelope(id, origin, maxTtl, message, signature)))
      ensures Sound(crypto) ==>
                forall i {:trigger outgoing[i]} :: |old(outgoing)| <= i < |outgoing| ==>
                  var e := outgoing[i].1;
                  crypto.check(e.origin, Signed(e.id, e.origin, e.payload), e.signature)
    {
      var envelope := Envelope(id, crypto.publicKey(signingKey), maxTtl, message, []);
      envelope := envelope.Sign(crypto, signingKey);
      seen.Put(id);
      assert Eligible(connections, None) == connections;
      targets := SendToPeers(envelope, None);
    }

    /** The eligible connections in a random order, cut off after `fanout`. */
    method SendToPeers(envelope: Envelope, exclude: Option<ConnectionId>) returns (ghost targets: seq<ConnectionId>)
      modifies this
      ensures connections == old(connections) && delivered == old(delivered)
      ensures Picked(Eligible(connections, exclude), fanout, targets)
      ensures forall i :: 0 <= i < |targets| ==> targets[i] in connections && Some(targets[i]) != exclude
      ensures forall i, k :: 0 <= i < k < |targets| ==> targets[i] != targets[k]
      ensures |targets| <= fanout
      ensures |targets| < fanout ==> forall c :: c in connections && Some(c) != exclude ==> c in targets
      ensures outgoing == old(outgoing) + Stamped(targets, envelope)
    {
      var eligible := set c | c in connections && Some(c) != exclude;
      var count := if |eligible| > fanout then fanout else |eligible|;
      targets := [];
      var left := eligible;
      for i := 0 to count
        invariant connections == old(connections) && delivered == old(delivered)
        invariant |targets| == i && left <= eligible && |left| == |eligible| - i
        invariant forall c :: c in targets ==> c in eligible && c !in left
        invariant forall i, k :: 0 <= i < k < |targets| ==> targets[i] != targets[k]
        invariant outgoing == old(outgoing) + Stamped(targets, envelope)
      {
        var c :| c in left;
        left := left - {c};
        outgoing := outgoing + [(c, envelope)];
        targets := targets + [c];
      }
      if |targets| < fanout {
        PickedAll(eligible, fanout, targets);
      }
    }

    /** An envelope that does not verify is dropped. Otherwise its id counts as accessed, and it is
        delivered, and forwarded with one hop less to everyone but its source, exactly when its id
        was never accessed or `capacity` distinct other ids have been accessed since. */
    method ProcessIncoming(envelope: Envelope, source: ConnectionId) returns (ghost targets: seq<ConnectionId>)
      requires Valid()
      modifies this, seen
      ensures Valid() && connections == old(connections)
      ensures seen.history == old(seen.history) + if envelope.Verify(crypto) then [envelope.id] else []
      ensures seen.entries == SeenAfter(crypto, old(seen.entries), envelope, seen.capacity)
      ensures Accepts(crypto, old(seen.entries), envelope) <==>
              && envelope.Verify(crypto)
              && (envelope.id !in old(seen.history) || |Since(old(seen.history), envelope.id)| >= seen.capacity)
      ensures var publishes := Accepts(crypto, old(seen.entries), envelope);
              && delivered == (if publishes then old(delivered) + [envelope] else old(delivered))
              && (publishes && envelope.ttl > 1 ==> Picked(Eligible(connections, Some(source)), fanout, targets))
      ensures outgoing == old(outgoing) + Forwards(crypto, old(seen.entries), envelope, targets)
      ensures var signed := Signed(envelope.id, envelope.origin, envelope.payload);
              var checks := crypto.check(envelope.origin, signed, envelope.signature);
              var isNew :=
                envelope.id !in old(seen.history) || |Since(old(seen.history), envelope.id)| >= seen.capacity;
              && seen.history == old(seen.history) + (if checks then [envelope.id] else [])
              && (!checks ==> seen.entries == old(seen.entries))
              && delivered == old(delivered) + (if checks && isNew then [envelope] else [])
              && (!(checks && isNew && envelope.ttl > 1) ==> outgoing == old(outgoing))
              && (checks && isNew && envelope.ttl > 1 ==>
                    && |outgoing| == |old(outgoing)| + |targets| && outgoing[..|old(outgoing)|] == old(outgoing)
                    && forall i :: 0 <= i < |targets| ==>
                         && targets[i] in connections && targets[i] != source
                         && outgoing[|old(outgoing)| + i] == (targets[i], envelope.(ttl := envelope.ttl - 1)))
    {
      targets := [];
      CachedIff(seen.history, envelope.id, seen.capacity);
      if !envelope.Verify(crypto) { return; }
      var known := seen.Get(envelope.id);
      if known { return; }
      seen.Put(envelope.id);
      delivered := delivered + [envelope];
      if envelope.ttl > 1 {
        var forwarded := envelope;
        forwarded := forwarded.(ttl := forwarded.ttl - 1);
        targets := SendToPeers(forwarded, Some(source));
      }
    }
  }
}
