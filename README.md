# Gas-test PBH transaction builder: a Dafny model

This project models the local, byte-level logic of a small tool that sends
gas-consumption transactions to a World Chain contract. The transactions are
either direct or wrapped as Priority-By-Humanity (PBH) multicalls. The model
has three parts:

- **The `consumeGas(address,uint256)` call-data encoders.**
  `consume_gas_calldata` (src/main.rs) and `consume_gas_multicall`
  (src/transaction.rs) each write the selector `41 4c f8 5d`, a 32-byte
  address word (12 zero bytes, then the 20 address bytes) and a 32-byte
  iterations word. Both fill the iterations word by walking a big-endian
  buffer backwards, so the word is little-endian:
  - main.rs reverses a 32-byte buffer, so the value sits at the front of the
    word;
  - transaction.rs reverses an 8-byte buffer into entries 24..32, so the value
    sits at the back.

  The model reproduces both layouts exactly. One method, `ReversedWord`,
  models the reversing loop the two files share. It works on an `array` with
  loop invariants. It proves that every write index `32 - len + i` is in
  bounds, and it gives the word's exact contents.
- **The transaction-builder record updates.** `TransactionRequest` is a
  datatype with the fields the program sets. The model covers `new` with its
  no-fee defaults, the setters `to`, `input` and `nonce`, the observable effect
  of `with_pbh_multicall`, `get_pbh_nonce` (always 0) and `PBH_ENTRY_POINT`
  (the zero address).
- **`WorldID`.** `new` decodes the secret. If the decoder returns exactly 64
  bytes, it splits them into a big-endian trapdoor and nullifier. Otherwise it
  fills a fallback buffer 0, 1, …, 63 in place, so construction never fails.
  The model also covers `identity()` and how data flows through
  `pbh_payload`.

Modules: `Primitives` (bytes, fixed-width integers, big-endian conversion),
`ConsumeGasLayout` (the selector, the address word, the reversing loop),
`GasCalldata` (src/main.rs), `Transaction` (src/transaction.rs) and
`WorldIdentity` (src/world_id.rs).

The following are parameters or type parameters, never defined:
- the base64 decoder (`string -> Option<seq<byte>>`);
- the signal hash of `(from, calls)`;
- `pbh_ext_nullifier`, which reads the current date and yields the external
  nullifier, its hash and the nullifier hash;
- `generate_proof`;
- the provider handle.

Async functions are modelled as ordinary sequential functions.

Two places where the design description and the code disagree; the model
follows the code in both:
- The design says field elements are always reduced modulo the field prime.
  `WorldID::new` performs no reduction, so `Field` is a plain 256-bit
  unsigned value.
- The design says a malformed secret is a hard construction error. The code
  falls back to the fixed buffer instead.

## Model

| member | source | states |
|---|---|---|
| `Primitives.BigEndian` | src/world_id.rs:42-43 | the big-endian value of a byte slice is below 256^length, so a 32-byte slice always fits a 256-bit field |
| `Primitives.ToBigEndian` | src/main.rs:84 | the `len`-byte big-endian form of a value below 256^len has exactly `len` bytes and reads back as the value |
| `Primitives.BigEndianInjective` | src/world_id.rs:42-43 | two byte strings of one length with the same big-endian value are equal |
| `Primitives.ToBigEndianWiden` | src/main.rs:122 | a value below 256^len, written in `pad + len` bytes, is `pad` zero bytes followed by its `len`-byte form (`U256::from(u64)`) |
| `ConsumeGasLayout.Head` | src/main.rs:72-80 | the first 36 bytes: the selector 41 4c f8 5d, then 12 zero bytes, then the 20 address bytes in order |
| `ConsumeGasLayout.ReversedWord` | src/main.rs:83-87 | the reversing loop writes only in-bounds entries; the word is 32 bytes, zero in its first `32 - len` entries, with the buffer reversed in the last `len` |
| `ConsumeGasLayout.LittleEndianOfReversed` | src/main.rs:84-87 | a reversed big-endian buffer, read back in reverse, yields the original value |
| `GasCalldata.IterationsBigEndian` | src/main.rs:84 | `to_be_bytes_vec` of a U256 has 32 bytes and reads back as the value, so the loop index `32 - len + i` is just `i` |
| `GasCalldata.ConsumeGasCalldata` | src/main.rs:69-91 | the call data is 68 bytes: the selector, 12 zero bytes, the address, and byte 36+i equal to byte 31-i of the 32-byte big-endian count |
| `GasCalldata.ConsumeGasRoundTrip` | src/main.rs:78-88 | bytes 16..36 read as the address, and bytes 36..68 reversed and read big-endian, recover (address, iterations) |
| `GasCalldata.ConsumeGasInjective` | src/main.rs:78-88 | different (address, iterations) pairs give different call data |
| `GasCalldata.ConsumeGasSmallTail` | src/main.rs:83-88 | for a count below 2^64 (all `main` passes), bytes 36..44 are the reversed 8-byte form and bytes 44..68 are zero |
| `GasCalldata.ConsumeGasNotAbi` | src/main.rs:84-87 | an ABI decoder reads the word written for a count of 1 as 2^248, not 1 |
| `GasCalldata.AbiConsumeGasRoundTrip` | src/main.rs:82-88 | the corrected, left-padded big-endian word round-trips through an ABI decoder |
| `Transaction.ConsumeGasMulticall` | src/transaction.rs:109-137 | one call to `contract_address` with `allowFailure` false, whose 68-byte call data has the same 36-byte head as the direct encoding, zeros in bytes 36..60, and byte 60+i equal to byte 7-i of the 8-byte big-endian count |
| `Transaction.MulticallRoundTrip` | src/transaction.rs:117-128 | the address and the count are recovered from bytes 16..36 and, reversed, from bytes 60..68 |
| `Transaction.EncodersAgreeIffZero` | src/transaction.rs:123-127 | for the same address and a count below 2^64, the two encoders produce the same bytes if and only if the count is 0 |
| `Transaction.MulticallNotAbi` | src/transaction.rs:124-127 | an ABI decoder reads the multicall word written for a count of 1 as 2^56 |
| `Transaction.New` | src/transaction.rs:34-52 | with no fees given: gas limit 130000, chain id 4801, max fee and max priority fee 100000000, no recipient, input or nonce, and no provider |
| `Transaction.To` | src/transaction.rs:90-93 | sets the recipient; every other request field and the provider are unchanged |
| `Transaction.Input` | src/transaction.rs:96-99 | sets the input; every other request field and the provider are unchanged |
| `Transaction.Nonce` | src/transaction.rs:102-105 | sets the nonce; every other request field and the provider are unchanged |
| `Transaction.SettersCommute` | src/transaction.rs:89-105 | `to`, `input` and `nonce` applied in either order give the same builder |
| `Transaction.SettersOverride` | src/transaction.rs:89-105 | a second use of a setter replaces the value of the first |
| `Transaction.DirectTransaction` | src/main.rs:181-183 | `new`, then `to`, then `input` yield exactly the request with that recipient and input, the default gas and fee values, and no nonce |
| `Transaction.WithPbhMulticall` | src/transaction.rs:54-80 | succeeds exactly when the payload can be built and otherwise passes its error on; on success it sets the recipient to the zero address and the input to 41 42 43 44, and leaves every other field and the provider unchanged |
| `Transaction.WithPbhMulticallIgnoresCalls` | src/transaction.rs:61-79 | on success the builder does not depend on the nonce, the sender or the calls |
| `Transaction.WithPbhMulticallTotal` | src/transaction.rs:62-63 | with a proof backend that never fails, `with_pbh_multicall` never fails |
| `Transaction.GetPbhNonce` | src/transaction.rs:142-150 | returns `Ok(0)` for every bound |
| `WorldIdentity.IdentityFromBytes` | src/world_id.rs:38-44 | the trapdoor is the big-endian value of bytes 0..32 and the nullifier that of bytes 32..64 |
| `WorldIdentity.SecretBytes` | src/world_id.rs:25-36 | the split buffer is the decoded bytes when there are exactly 64 of them, and the buffer 0, 1, …, 63 otherwise |
| `WorldIdentity.New` | src/world_id.rs:23-47 | construction always returns `Ok`; the fallback loop fills byte i with i (no wrap); the identity is the split of the chosen 64 bytes |
| `WorldIdentity.NewIdentityCases` | src/world_id.rs:25-44 | a 64-byte decode gives the two big-endian halves; any other outcome gives the one fallback identity |
| `WorldIdentity.FallbackSecretsCollide` | src/world_id.rs:27-35 | any two secrets that do not decode to 64 bytes give the same identity |
| `WorldIdentity.IdentityFromBytesRoundTrip` | src/world_id.rs:38-44 | the 32-byte big-endian forms of the trapdoor and the nullifier, concatenated, give back the 64 secret bytes |
| `WorldIdentity.IdentityFromBytesInjective` | src/world_id.rs:38-44 | different 64-byte secrets give different identities |
| `WorldIdentity.GetIdentity` | src/world_id.rs:49-51 | returns the stored identity unchanged |
| `WorldIdentity.PbhPayloadOf` | src/world_id.rs:97-117 | the payload's external nullifier and nullifier hash are exactly what `pbh_ext_nullifier` returns for the nonce; its root and proof are exactly what `generate_proof` returns for the signal hash and the external-nullifier hash; a proof error is passed on unchanged |

## Left out

- Transaction.New: only the branches with no gas fee and no priority fee are modelled. The other branches convert a floating-point Gwei amount with `(fee * 1e9) as u128`.
- `main()` is not modelled as a whole. That covers TOML config reading, the `PRIVATE_KEY` variable, argument parsing, printing, building the provider and `send_raw_transaction`. All of it is I/O.
- `build` is not modelled: it does signing and EIP-2718 envelope encoding, which are foreign wallet and alloy calls.
- The base64 decoder `BASE64_STANDARD` is an uninterpreted parameter. The model covers only the length check, the fallback and the split.
- The signal hash `hash_to_field(abi_encode_packed(from, calls))` is a parameter. It is keccak plus library encoding, and the payload built from it is discarded.
- The internals of `pbh_ext_nullifier` are a parameter. They read the wall clock and use a date marker, an external-nullifier encoding and a nullifier-hash function from crates not shown.
- `inclusion_proof` and `generate_proof` are left out; `generate_proof` is a parameter. Both are stubs over a foreign proof type. `WithPbhMulticallTotal` states the only consequence of the stub for this core: it never fails.
- src/bindings.rs is not part of this model. It holds an interface declaration and hard-coded stubs.
- The call `world_id.pbh_payload(...)?` at src/transaction.rs:63 has no `.await`. It is modelled as an awaited call.
- Only the request's field values are modelled. alloy's `TransactionInput` is modelled as the input bytes, `TxKind` as the recipient address, and fields the program never sets are omitted.
- Async execution and the shared `Arc` provider are left out. Async functions are modelled as sequential functions; the provider is an opaque type parameter.

## Findings

| source | as written | input that shows it | evidently intended | confidence | as-written member | corrected member |
|---|---|---|---|---|---|---|
| src/main.rs:84-87 | the iterations word is the 32-byte big-endian count reversed (little-endian) | iterations = 1 gives the word 01 00 … 00, which an ABI decoder reads as 2^248 | the `uint256` head encoding of the Solidity Contract ABI: a left-padded big-endian word | high; not executed | `GasCalldata.ConsumeGasNotAbi` | `GasCalldata.AbiConsumeGasRoundTrip` |
| src/transaction.rs:124-127 | the iterations word holds the 8-byte big-endian count reversed in bytes 24..32 | iterations = 1 gives the word 00 … 00 01 00 00 00 00 00 00 00, which an ABI decoder reads as 2^56 | the same left-padded big-endian `uint256` word | high; not executed | `Transaction.MulticallNotAbi` | `GasCalldata.AbiConsumeGasRoundTrip` |

The corrected encoding is `GasCalldata.AbiConsumeGasData`. The encoders used
everywhere else in the model are the as-written ones, because they are what
the program sends.
