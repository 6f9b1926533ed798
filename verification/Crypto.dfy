/**
 The cryptography, idealised. Keys and encapsulations are names drawn from a pool
 that never repeats; what honest parties signed or sealed is on record, and only what
 is on record verifies or opens. Byte representations stay arbitrary functions.
 */
module Crypto {
  import opened Bytes

  type Key = nat
  type Encap = nat

  /** The two HPKE info strings of a session. */
  datatype Info = ArkToHost | HostToArk

  /** An HPKE encryption context, as the recipient key, the encapsulation and the info string fix it. */
  datatype Context = Context(recipient: Key, encap: Encap, info: Info)

  /** One party's end of a context, with its sequence number. */
  datatype Endpoint = Endpoint(ctx: Context, seqno: nat)

  datatype Link = Link(sender: Endpoint, receiver: Endpoint)

  datatype HostHello = HostHello(signer: Key, crypto: Key)

  datatype Payload =
    | ArkHello(attest: Bytes, crypto: Key, encap: Encap)
    | HostAck(encap: Encap)

  /** Authenticated data bound into an envelope. */
  datatype Auth =
    | HelloAuth(hostSigner: Key, hostCrypto: Key)
    | AckAuth(arkSigner: Key, arkCrypto: Key)

  /** A COSE seal: the payload signed, then encrypted, the authenticated data bound to both. */
  datatype Envelope = Envelope(payload: Payload, auth: Auth, signer: Key, recipient: Key)

  /** The encodings and policies of the unseen libraries. */
  datatype Suite = Suite(
    encodeHello: HostHello -> Bytes,
    decodeHello: Bytes -> Option<HostHello>,
    sealEnvelope: Envelope -> Bytes,
    readEnvelope: Bytes -> Option<Envelope>,
    recipientOf: Bytes -> Option<Key>, // Recipient named in the clear part of an envelope
    sealData: (Context, nat, Bytes) -> Bytes,
    decodable: Bytes -> bool, // The bytes are a protobuf message
    wellShaped: Bytes -> bool, // The bytes are a device attestation
    keyOk: Key -> bool, // A sender context can be set up for the key
    encapOk: Encap -> bool, // A receiver context can be set up from the encapsulation
    limit: nat // Messages a context can carry
  )

  /** What is assumed of the libraries: encodings round-trip and sealing adds a tag. */
  ghost predicate Lawful(suite: Suite, overhead: nat) {
    && (forall h :: suite.decodeHello(suite.encodeHello(h)) == Some(h))
    && (forall e :: suite.readEnvelope(suite.sealEnvelope(e)) == Some(e))
    && (forall e :: suite.recipientOf(suite.sealEnvelope(e)) == Some(e.recipient))
    && (forall c, n, m :: |suite.sealData(c, n, m)| == |m| + overhead)
  }

  datatype World = World(
    used: set<nat>, // Names drawn so far
    honest: set<Key>, // Signing keys only genuine parties hold
    signed: set<Envelope>, // Envelopes signed with them
    sealed: map<Context, seq<Bytes>> // Messages sealed in each context, in order
  )

  function SealedIn(w: World, ctx: Context): seq<Bytes> {
    if ctx in w.sealed then w.sealed[ctx] else []
  }

  function Draw(w: World, names: set<nat>): World {
    w.(used := w.used + names)
  }

  function Sign(w: World, e: Envelope): World {
    w.(signed := w.signed + {e})
  }

  /** What others draw, sign and seal in the meantime: it only ever adds to the records. */
  datatype Growth = Growth(used: set<nat>, honest: set<Key>, signed: set<Envelope>, sealed: map<Context, seq<Bytes>>)

  function Grown(w: World, g: Growth): World {
    World(w.used + g.used, w.honest + g.honest, w.signed + g.signed,
          map ctx | ctx in w.sealed.Keys + g.sealed.Keys :: SealedIn(w, ctx) + Added(g, ctx))
  }

  function Added(g: Growth, ctx: Context): seq<Bytes> {
    if ctx in g.sealed then g.sealed[ctx] else []
  }

  lemma GrownSealed(w: World, g: Growth, ctx: Context)
    ensures SealedIn(Grown(w, g), ctx) == SealedIn(w, ctx) + Added(g, ctx)
  {}

  /** Seals a message as the next one of the sender's context. */
  function Seal(suite: Suite, w: World, l: Link, msg: Bytes): Option<(World, Link, Bytes)> {
    var Endpoint(ctx, n) := l.sender;
    if n >= suite.limit then None
    else Some((
           w.(sealed := w.sealed[ctx := SealedIn(w, ctx) + [msg]]),
           l.(sender := Endpoint(ctx, n + 1)),
           suite.sealData(ctx, n, msg)))
  }

  /** Opens a packet, provided it is the next one sealed in the receiver's context. */
  function Open(suite: Suite, w: World, l: Link, packet: Bytes): Option<(Link, Bytes)> {
    var Endpoint(ctx, n) := l.receiver;
    var msgs := SealedIn(w, ctx);
    if n < |msgs| && n < suite.limit && packet == suite.sealData(ctx, n, msgs[n])
    then Some((l.(receiver := Endpoint(ctx, n + 1)), msgs[n]))
    else None
  }

  /** The envelope a packet holds, if its recipient and authenticated data are the expected ones. */
  function Decrypt(suite: Suite, packet: Bytes, auth: Auth, recipient: Key): Option<Envelope> {
    match suite.readEnvelope(packet)
    case None => None
    case Some(e) => if e.recipient == recipient && e.auth == auth then Some(e) else None
  }

  /** The envelope's signature is by `signer`; an honest key's signature is never forged. */
  predicate Verify(w: World, e: Envelope, signer: Key) {
    e.signer == signer && (signer in w.honest ==> e in w.signed)
  }

  /** Holder of the idealised state, with the operations that change it. */
  class Primitives {
    const suite: Suite
    var world: World

    constructor (suite: Suite, world: World)
      ensures this.suite == suite && this.world == world
    {
      this.suite, this.world := suite, world;
    }

    /** A name nobody has drawn before. */
    method Generate() returns (k: nat)
      modifies this
      ensures k !in old(world.used)
      ensures world == Draw(old(world), {k})
    {
      k := 0;
      var rest := world.used;
      while rest != {}
        invariant forall x :: x in world.used && x !in rest ==> x < k
        decreases rest
      {
        var x :| x in rest;
        rest := rest - {x};
        k := if k <= x then x + 1 else k;
      }
      world := Draw(world, {k});
    }
  }
}
