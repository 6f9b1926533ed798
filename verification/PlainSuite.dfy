/**
 A suite that meets all that is assumed of one: numbers are written in unary, one piece
 each, and every value is acceptable.
 */
module PlainSuite {
  import opened Bytes
  import opened Crypto
  import opened Splitter
  import Limits

  function Ones(n: nat): (s: Bytes)
    ensures |s| == n && ZeroFree(s)
  {
    seq(n, _ => 1)
  }

  function Spelled(numbers: seq<nat>): Bytes {
    if numbers == [] then [] else Ones(numbers[0]) + [0] + Spelled(numbers[1..])
  }

  function Unspelled(s: Bytes): seq<nat>
    decreases |s|
  {
    var i := FirstZero(s);
    if i == |s| then [] else [i] + Unspelled(s[i + 1..])
  }

  lemma {:induction false} SpelledBack(numbers: seq<nat>)
    ensures Unspelled(Spelled(numbers)) == numbers
    decreases |numbers|
  {
    if numbers == [] {
      FirstZeroNone([]);
    } else {
      FirstPiece(Spelled(numbers), Ones(numbers[0]), Spelled(numbers[1..]));
      SpelledBack(numbers[1..]);
    }
  }

  lemma {:induction false} SpelledLength(numbers: seq<nat>)
    ensures |Spelled(numbers)| == Sum(numbers) + |numbers|
    decreases |numbers|
  {
    if numbers != [] {
      SpelledLength(numbers[1..]);
      SumFromFront(numbers);
    }
  }

  lemma {:induction false} SumFromFront(numbers: seq<nat>)
    requires numbers != []
    ensures Sum(numbers) == numbers[0] + Sum(numbers[1..])
    decreases |numbers|
  {
    var n := |numbers| - 1;
    if n > 0 {
      SumFromFront(numbers[..n]);
      assert numbers[..n][1..] == numbers[1..][..n - 1];
    }
  }

  // ---------------------------------------------------------------- messages

  function OfHello(h: HostHello): seq<nat> {
    [h.signer, h.crypto]
  }

  function ToHello(ns: seq<nat>): Option<HostHello> {
    if |ns| == 2 then Some(HostHello(ns[0], ns[1])) else None
  }

  function OfAuth(a: Auth): seq<nat> {
    match a
    case HelloAuth(signer, crypto) => [0, signer, crypto]
    case AckAuth(signer, crypto) => [1, signer, crypto]
  }

  function OfPayload(payload: Payload): seq<nat> {
    match payload
    case ArkHello(_, crypto, encap) => [0, crypto, encap]
    case HostAck(encap) => [1, 0, encap]
  }

  function OfEnvelope(e: Envelope): seq<nat> {
    var attest: seq<nat> := if e.payload.ArkHello? then e.payload.attest else [];
    OfPayload(e.payload) + OfAuth(e.auth) + [e.signer, e.recipient] + attest
  }

  function ToBytes(ns: seq<nat>): Bytes {
    seq(|ns|, i requires 0 <= i < |ns| => if ns[i] < 256 then ns[i] as Byte else 0)
  }

  function ToEnvelope(ns: seq<nat>): Option<Envelope> {
    if |ns| < 8 then None
    else
      var payload := if ns[0] == 0 then ArkHello(ToBytes(ns[8..]), ns[1], ns[2]) else HostAck(ns[2]);
      var auth := if ns[3] == 0 then HelloAuth(ns[4], ns[5]) else AckAuth(ns[4], ns[5]);
      Some(Envelope(payload, auth, ns[6], ns[7]))
  }

  lemma EnvelopeBack(e: Envelope)
    ensures ToEnvelope(OfEnvelope(e)) == Some(e)
  {
    var ns := OfEnvelope(e);
    var attest: seq<nat> := if e.payload.ArkHello? then e.payload.attest else [];
    assert ns[8..] == attest;
    if e.payload.ArkHello? {
      assert ToBytes(attest) == e.payload.attest;
    }
  }

  function Plainly(): Suite {
    Suite(
      (h: HostHello) => Spelled(OfHello(h)),
      (s: Bytes) => ToHello(Unspelled(s)),
      (e: Envelope) => Spelled(OfEnvelope(e)),
      (s: Bytes) => ToEnvelope(Unspelled(s)),
      (s: Bytes) => RecipientOf(s),
      (c: Context, n: nat, m: Bytes) => m + Ones(Limits.SEAL_OVERHEAD),
      (s: Bytes) => true,
      (s: Bytes) => true,
      (k: Key) => true,
      (e: Encap) => true,
      1000)
  }

  function RecipientOf(s: Bytes): Option<Key> {
    match ToEnvelope(Unspelled(s))
    case None => None
    case Some(e) => Some(e.recipient)
  }

  lemma PlainlyLawful()
    ensures Lawful(Plainly(), Limits.SEAL_OVERHEAD)
  {
    forall h: HostHello
      ensures ToHello(Unspelled(Spelled(OfHello(h)))) == Some(h)
    {
      SpelledBack(OfHello(h));
    }
    forall e: Envelope
      ensures ToEnvelope(Unspelled(Spelled(OfEnvelope(e)))) == Some(e)
    {
      SpelledBack(OfEnvelope(e));
      EnvelopeBack(e);
    }
  }
}
