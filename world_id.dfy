/** `WorldID`: a Semaphore identity built from a base64 secret, and the
    assembly of a PBH payload from the external-nullifier and proof
    helpers, which stay abstract. */
module WorldIdentity {
  import opened Primitives

  /** semaphore's `Field`, read as a plain 256-bit unsigned integer. */
  type Field = u256

  /** semaphore's `Identity`: the two secrets. */
  datatype Identity = Identity(trapdoor: Field, nullifier: Field)

  datatype WorldId = WorldId(identity: Identity)

  /** The PBH payload: Merkle root, nullifier hash, external nullifier and
      proof. The external-nullifier and proof types belong to other crates
      and stay type parameters. */
  datatype PbhPayload<ExtNullifier, Proof> = PbhPayload(
    root: Field,
    nullifierHash: Field,
    externalNullifier: ExtNullifier,
    proof: Proof)

  /** The helpers `pbh_payload` calls, left uninterpreted.
      `extNullifier(identity, nonce)` is `pbh_ext_nullifier` for the
      current date: the external nullifier, its encoded hash and the
      identity's nullifier hash. `generateProof(signalHash, extHash)` is
      `generate_proof`: a proof and the root it was made against, or an
      error. */
  datatype PbhBackend<ExtNullifier, Proof, Error> = PbhBackend(
    extNullifier: (Identity, u16) -> (ExtNullifier, Field, Field),
    generateProof: (Field, Field) -> Result<(Proof, Field), Error>)

  /** The identity taken from a 32-byte trapdoor followed by a 32-byte
      nullifier, each read big-endian (`Field::from_be_slice`). */
  function IdentityFromBytes(secret: seq<byte>): (id: Identity)
    requires |secret| == 64
    ensures id.trapdoor == BigEndian(secret[..32])
    ensures id.nullifier == BigEndian(secret[32..])
  {
    var trapdoor := secret[..32];
    var nullifier := secret[32..];
    Pow256Limits();
    Identity(BigEndian(trapdoor), BigEndian(nullifier))
  }

  /** The buffer used when the secret does not decode to 64 bytes: the
      bytes 0, 1, ..., 63. */
  function FallbackSecret(): (s: seq<byte>)
    ensures |s| == 64
    ensures forall i :: 0 <= i < 64 ==> s[i] as int == i
  {
    seq(64, i requires 0 <= i < 64 => i as byte)
  }

  /** The bytes `WorldID::new` splits, given what the decoder returned:
      the decoded bytes when there are exactly 64 of them, the fallback
      buffer otherwise. */
  function SecretBytes(decoded: Option<seq<byte>>): (s: seq<byte>)
    ensures |s| == 64
    ensures decoded.Some? && |decoded.value| == 64 ==> s == decoded.value
    ensures !(decoded.Some? && |decoded.value| == 64) ==> s == FallbackSecret()
  {
    match decoded
    case Some(d) => if |d| == 64 then d else FallbackSecret()
    case None => FallbackSecret()
  }

  /** The identity built from any secret whose decoding fails. */
  function FallbackIdentity(): Identity
  {
    IdentityFromBytes(FallbackSecret())
  }

  /** `WorldID::new`. The decoder (`BASE64_STANDARD.decode`) is a parameter.
      On a decode failure or a wrong length the `dummy` buffer is filled in
      place with `i as u8`; the index never leaves 0..64, so no value
      wraps. The result is always `Ok`. */
  method New(secret: string, decode: string -> Option<seq<byte>>) returns (r: Result<WorldId, string>)
    ensures r.Ok?
    ensures r.value.identity == IdentityFromBytes(SecretBytes(decode(secret)))
  {
    var decoded: seq<byte>;
    var result := decode(secret);
    if result.Some? && |result.value| == 64 {
      decoded := result.value;
    } else {
      var dummy := new byte[64](_ => 0);
      for i := 0 to 64
        invariant forall k :: 0 <= k < i ==> dummy[k] as int == k
      {
        dummy[i] := i as byte;
      }
      decoded := dummy[..];
      assert decoded == FallbackSecret();
    }
    var trapdoor := decoded[..32];
    var nullifier := decoded[32..];
    Pow256Limits();
    var identity := Identity(BigEndian(trapdoor), BigEndian(nullifier));
    r := Ok(WorldId(identity));
  }

  /** A successful 64-byte decode yields the trapdoor and nullifier read
      big-endian from its two halves; any other outcome yields the one
      fallback identity. */
  lemma NewIdentityCases(decoded: Option<seq<byte>>)
    ensures decoded.Some? && |decoded.value| == 64 ==>
      IdentityFromBytes(SecretBytes(decoded)) ==
        Identity(BigEndian(decoded.value[..32]), BigEndian(decoded.value[32..]))
    ensures !(decoded.Some? && |decoded.value| == 64) ==>
      IdentityFromBytes(SecretBytes(decoded)) == FallbackIdentity()
  {
  }

  /** Two secrets that both fail to decode to 64 bytes give the same
      identity. */
  lemma FallbackSecretsCollide(d1: Option<seq<byte>>, d2: Option<seq<byte>>)
    requires !(d1.Some? && |d1.value| == 64)
    requires !(d2.Some? && |d2.value| == 64)
    ensures IdentityFromBytes(SecretBytes(d1)) == IdentityFromBytes(SecretBytes(d2))
  {
  }

  /** Splitting loses nothing: the 64 secret bytes are the 32-byte
      big-endian forms of the trapdoor and the nullifier, so distinct
      64-byte secrets give distinct identities. */
  lemma {:induction false} IdentityFromBytesRoundTrip(secret: seq<byte>)
    requires |secret| == 64
    ensures ToBigEndian(IdentityFromBytes(secret).trapdoor, 32)
            + ToBigEndian(IdentityFromBytes(secret).nullifier, 32) == secret
  {
    var id := IdentityFromBytes(secret);
    BigEndianInjective(ToBigEndian(id.trapdoor, 32), secret[..32]);
    BigEndianInjective(ToBigEndian(id.nullifier, 32), secret[32..]);
    assert secret == secret[..32] + secret[32..];
  }

  lemma IdentityFromBytesInjective(s1: seq<byte>, s2: seq<byte>)
    requires |s1| == 64 && |s2| == 64
    requires IdentityFromBytes(s1) == IdentityFromBytes(s2)
    ensures s1 == s2
  {
    IdentityFromBytesRoundTrip(s1);
    IdentityFromBytesRoundTrip(s2);
  }

  /** `WorldID::identity`: the stored identity, unchanged. */
  function GetIdentity(w: WorldId): (id: Identity)
    ensures id == w.identity
  {
    w.identity
  }

  /** `WorldID::pbh_payload`: the external nullifier and the nullifier hash
      come unchanged from `pbh_ext_nullifier`, the root and the proof
      unchanged from `generate_proof` (asked about the signal hash and the
      external nullifier's hash), and a proof error is passed on. */
  function PbhPayloadOf<E, P, Err>(w: WorldId, pbhNonce: u16, signalHash: Field,
                                   backend: PbhBackend<E, P, Err>): (r: Result<PbhPayload<E, P>, Err>)
    ensures var (en, enHash, nullifierHash) := backend.extNullifier(w.identity, pbhNonce);
      var proved := backend.generateProof(signalHash, enHash);
      && (r.Ok? <==> proved.Ok?)
      && (r.Ok? ==> r.value.externalNullifier == en
                    && r.value.nullifierHash == nullifierHash
                    && r.value.root == proved.value.1
                    && r.value.proof == proved.value.0)
      && (r.Err? ==> r.error == proved.error)
  {
    var (externalNullifier, externalNullifierHash, nullifierHash) :=
      backend.extNullifier(GetIdentity(w), pbhNonce);
    match backend.generateProof(signalHash, externalNullifierHash)
    case Err(e) => Err(e)
    case Ok((proof, root)) => Ok(PbhPayload(root, nullifierHash, externalNullifier, proof))
  }
}
