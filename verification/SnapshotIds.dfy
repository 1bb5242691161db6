/** The ids of the snapshot store, as daemon/src/snapshot_store.cpp computes them: the SHA-256 of a
    canonical serialization, whatever that serialization is. */
module SnapshotIds {
  import opened Models
  import SnapshotStore
  import opened Fips180
  import opened Sha256
  import Validation

  function PayloadHash(serialize: SnapshotPayload -> seq<bv8>): SnapshotStore.Hash {
    payload => Hex(Digest(MessageBits(serialize(payload))))
  }

  /** Every id the store gives out is one that the bus verbs accept. */
  lemma IdsAreValid(serialize: SnapshotPayload -> seq<bv8>, payload: SnapshotPayload)
    ensures Validation.ValidSnapshotId(PayloadHash(serialize)(payload))
    ensures |PayloadHash(serialize)(payload)| == 64
  {
    var words := Digest(MessageBits(serialize(payload)));
    hide Digest, MessageBits, Hex;
    HexIsHex(words);
  }

  /** Two payloads get one id only if their serializations have one digest. */
  lemma OneIdOneDigest(serialize: SnapshotPayload -> seq<bv8>, p: SnapshotPayload, q: SnapshotPayload)
    ensures PayloadHash(serialize)(p) == PayloadHash(serialize)(q)
        <==> Digest(MessageBits(serialize(p))) == Digest(MessageBits(serialize(q)))
  {
    var a, b := Digest(MessageBits(serialize(p))), Digest(MessageBits(serialize(q)));
    hide Digest, MessageBits, Hex;
    if Hex(a) == Hex(b) {
      HexInjective(a, b);
    }
  }

  /** The store's put answers with the 64 hexadecimal characters that the code's hash computes. */
  method IdOf(bytes: seq<bv8>, ghost serialize: SnapshotPayload -> seq<bv8>, ghost payload: SnapshotPayload)
    returns (id: string)
    requires bytes == serialize(payload) && |bytes| < 0x2000_0000_0000_0000
    ensures id == PayloadHash(serialize)(payload)
  {
    id := Sha256Hex(bytes);
  }
}
