/** The gas-test transaction builder: the transaction request record, its
    setters, the PBH multicall variant, the `consumeGas` multicall encoder
    and the PBH nonce lookup. */
module Transaction {
  import opened Primitives
  import opened ConsumeGasLayout
  import GasCalldata
  import opened WorldIdentity

  /** `PBH_ENTRY_POINT`: the zero address. */
  const PBH_ENTRY_POINT: Address := ZERO_ADDRESS

  /** The placeholder call data `with_pbh_multicall` installs. */
  const PBH_PLACEHOLDER_INPUT: seq<byte> := [0x41, 0x42, 0x43, 0x44]

  /** Defaults `new` installs when no fee is given. */
  const DEFAULT_GAS_LIMIT: u64 := 130000
  const CHAIN_ID: u64 := 4801
  const DEFAULT_FEE_PER_GAS: u128 := 100000000

  /** A Multicall3 `Call3` entry. */
  datatype Call3 = Call3(target: Address, callData: seq<byte>, allowFailure: bool)

  /** The fields of alloy's `TransactionRequest` that this program sets.
      `None` is an unset field. */
  datatype TransactionRequest = TransactionRequest(
    to: Option<Address>,
    input: Option<seq<byte>>,
    nonce: Option<u64>,
    gasLimit: Option<u64>,
    chainId: Option<u64>,
    maxFeePerGas: Option<u128>,
    maxPriorityFeePerGas: Option<u128>)

  /** `TransactionRequest::default()`: every field unset. */
  const EMPTY_REQUEST: TransactionRequest :=
    TransactionRequest(None, None, None, None, None, None, None)

  /** The builder: a transaction request and an optional provider handle,
      whose type stays a parameter. */
  datatype GasTestTransactionBuilder<Provider> = GasTestTransactionBuilder(
    tx: TransactionRequest,
    provider: Option<Provider>)

  /** `GasTestTransactionBuilder::new` when neither fee is given: gas
      limit 130000, chain id 4801, both fees 10^8, nothing else set and no
      provider. The RPC address is ignored. */
  function New<Provider>(rpcAddress: Option<string>): (b: GasTestTransactionBuilder<Provider>)
    ensures b.tx.gasLimit == Some(130000)
    ensures b.tx.chainId == Some(4801)
    ensures b.tx.maxFeePerGas == Some(100000000)
    ensures b.tx.maxPriorityFeePerGas == Some(100000000)
    ensures b.tx.to == None && b.tx.input == None && b.tx.nonce == None
    ensures b.provider == None
  {
    var tx := EMPTY_REQUEST.(gasLimit := Some(DEFAULT_GAS_LIMIT));
    var tx := tx.(chainId := Some(CHAIN_ID));
    var tx := tx.(maxFeePerGas := Some(DEFAULT_FEE_PER_GAS));
    var tx := tx.(maxPriorityFeePerGas := Some(DEFAULT_FEE_PER_GAS));
    GasTestTransactionBuilder(tx, None)
  }

  /** `to`: sets the recipient; putting the old recipient back gives the
      original request, and the provider is kept. */
  function To<Provider>(b: GasTestTransactionBuilder<Provider>, to: Address): (r: GasTestTransactionBuilder<Provider>)
    ensures r.tx.to == Some(to)
    ensures r.tx.(to := b.tx.to) == b.tx
    ensures r.provider == b.provider
  {
    GasTestTransactionBuilder(b.tx.(to := Some(to)), b.provider)
  }

  /** `input`: sets the call data; nothing else changes. */
  function Input<Provider>(b: GasTestTransactionBuilder<Provider>, input: seq<byte>): (r: GasTestTransactionBuilder<Provider>)
    ensures r.tx.input == Some(input)
    ensures r.tx.(input := b.tx.input) == b.tx
    ensures r.provider == b.provider
  {
    GasTestTransactionBuilder(b.tx.(input := Some(input)), b.provider)
  }

  /** `nonce`: sets the account nonce; nothing else changes. */
  function Nonce<Provider>(b: GasTestTransactionBuilder<Provider>, nonce: u64): (r: GasTestTransactionBuilder<Provider>)
    ensures r.tx.nonce == Some(nonce)
    ensures r.tx.(nonce := b.tx.nonce) == b.tx
    ensures r.provider == b.provider
  {
    GasTestTransactionBuilder(b.tx.(nonce := Some(nonce)), b.provider)
  }

  /** The three setters touch different fields, so their order does not
      matter, and a second use of one setter overrides the first. */
  lemma SettersCommute<Provider>(b: GasTestTransactionBuilder<Provider>, to: Address, input: seq<byte>, nonce: u64)
    ensures Input(To(b, to), input) == To(Input(b, input), to)
    ensures Nonce(To(b, to), nonce) == To(Nonce(b, nonce), to)
    ensures Nonce(Input(b, input), nonce) == Input(Nonce(b, nonce), input)
  {
  }

  lemma SettersOverride<Provider>(b: GasTestTransactionBuilder<Provider>, t1: Address, t2: Address,
                                  i1: seq<byte>, i2: seq<byte>, n1: u64, n2: u64)
    ensures To(To(b, t1), t2) == To(b, t2)
    ensures Input(Input(b, i1), i2) == Input(b, i2)
    ensures Nonce(Nonce(b, n1), n2) == Nonce(b, n2)
  {
  }

  /** The direct transaction `main` builds: `new`, then `to`, then `input`. */
  lemma DirectTransaction<Provider>(rpcAddress: Option<string>, contract: Address, calldata: seq<byte>)
    ensures Input(To(New<Provider>(rpcAddress), contract), calldata) ==
      GasTestTransactionBuilder(
        TransactionRequest(Some(contract), Some(calldata), None, Some(130000), Some(4801),
                           Some(100000000), Some(100000000)),
        None)
  {
  }

  /** `with_pbh_multicall`. The signal hash of `(from, calls)` is a
      parameter and the payload built from it is discarded, so the only
      effects are: a proof error is passed on, and otherwise the recipient
      becomes `PBH_ENTRY_POINT` and the input the placeholder selector. */
  function WithPbhMulticall<Provider, E, P, Err>(
    b: GasTestTransactionBuilder<Provider>, worldId: WorldId, pbhNonce: u16, from: Address,
    calls: seq<Call3>, signalHash: (Address, seq<Call3>) -> Field, backend: PbhBackend<E, P, Err>)
    : (r: Result<GasTestTransactionBuilder<Provider>, Err>)
    ensures var payload := PbhPayloadOf(worldId, pbhNonce, signalHash(from, calls), backend);
      && (r.Ok? <==> payload.Ok?)
      && (r.Err? ==> r.error == payload.error)
    ensures r.Ok? ==> (&& r.value.tx.to == Some(ZERO_ADDRESS)
                       && r.value.tx.input == Some([0x41, 0x42, 0x43, 0x44])
                       && r.value.tx.(to := b.tx.to, input := b.tx.input) == b.tx
                       && r.value.provider == b.provider)
  {
    var signal := signalHash(from, calls);
    match PbhPayloadOf(worldId, pbhNonce, signal, backend)
    case Err(e) => Err(e)
    case Ok(_) =>
      var tx := b.tx.(to := Some(PBH_ENTRY_POINT)).(input := Some(PBH_PLACEHOLDER_INPUT));
      Ok(GasTestTransactionBuilder(tx, b.provider))
  }

  /** Whenever it succeeds, `with_pbh_multicall` produces the same builder
      whatever the nonce, sender and calls. */
  lemma WithPbhMulticallIgnoresCalls<Provider, E, P, Err>(
    b: GasTestTransactionBuilder<Provider>, worldId: WorldId,
    n1: u16, from1: Address, calls1: seq<Call3>,
    n2: u16, from2: Address, calls2: seq<Call3>,
    signalHash: (Address, seq<Call3>) -> Field, backend: PbhBackend<E, P, Err>)
    requires WithPbhMulticall(b, worldId, n1, from1, calls1, signalHash, backend).Ok?
    requires WithPbhMulticall(b, worldId, n2, from2, calls2, signalHash, backend).Ok?
    ensures WithPbhMulticall(b, worldId, n1, from1, calls1, signalHash, backend)
         == WithPbhMulticall(b, worldId, n2, from2, calls2, signalHash, backend)
  {
  }

  /** With a proof backend that never fails, as the stubbed
      `generate_proof` never does, `with_pbh_multicall` always succeeds. */
  lemma WithPbhMulticallTotal<Provider, E, P, Err>(
    b: GasTestTransactionBuilder<Provider>, worldId: WorldId, pbhNonce: u16, from: Address,
    calls: seq<Call3>, signalHash: (Address, seq<Call3>) -> Field, backend: PbhBackend<E, P, Err>)
    requires forall s, h :: backend.generateProof(s, h).Ok?
    ensures WithPbhMulticall(b, worldId, pbhNonce, from, calls, signalHash, backend).Ok?
  {
    var (_, extHash, _) := backend.extNullifier(worldId.identity, pbhNonce);
    assert backend.generateProof(signalHash(from, calls), extHash).Ok?;
  }

  /** What `consume_gas_multicall` puts in its call's `callData`: the same
      head as the direct encoding, then 24 zero bytes, then the 8-byte
      big-endian form of the count in reverse. */
  function MulticallData(address: Address, iterations: u64): (data: seq<byte>)
    ensures |data| == CALLDATA_LENGTH
  {
    Pow256Limits();
    Head(address) + (Zeros(24) + Reverse(ToBigEndian(iterations, 8)))
  }

  /** `consume_gas_multicall`: one call to `contractAddress` that may not
      fail, whose call data is built as in the source: selector, padded
      address, then the word from the reversing loop over the 8-byte
      buffer, which writes only entries 24..32. */
  method ConsumeGasMulticall(contractAddress: Address, iterations: u64) returns (calls: seq<Call3>)
    ensures |calls| == 1
    ensures calls[0].target == contractAddress && !calls[0].allowFailure
    ensures |calls[0].callData| == 68
    ensures calls[0].callData[..36] == GasCalldata.ConsumeGasData(contractAddress, iterations)[..36]
    ensures AllZero(calls[0].callData[36..60])
    ensures forall j :: 60 <= j < 68 ==> calls[0].callData[j] == ToBigEndian(iterations, 8)[67 - j]
    ensures calls[0].callData == MulticallData(contractAddress, iterations)
  {
    var calldata := SELECTOR;
    var addressBytes := Zeros(12);
    addressBytes := addressBytes + contractAddress;
    calldata := calldata + addressBytes;
    Pow256Limits();
    var iterationsVec := ToBigEndian(iterations, 8);
    var iterationsBytes := ReversedWord(iterationsVec);
    assert iterationsBytes == Zeros(24) + Reverse(iterationsVec) by {
      assert iterationsBytes == iterationsBytes[..24] + iterationsBytes[24..];
    }
    calldata := calldata + iterationsBytes;
    calls := [Call3(contractAddress, calldata, false)];
    assert calldata[..36] == Head(contractAddress);
  }

  /** Reads back what the multicall encoding stores: the address, and the
      count from bytes 60..68 taken in reverse. */
  function DecodeMulticall(data: seq<byte>): (r: (Address, nat))
    requires |data| == CALLDATA_LENGTH
    ensures r.1 < Pow256(8)
  {
    (data[16..36], LittleEndian(data[60..68]))
  }

  lemma MulticallRoundTrip(address: Address, iterations: u64)
    ensures DecodeMulticall(MulticallData(address, iterations)) == (address, iterations)
  {
    Pow256Limits();
    var data := MulticallData(address, iterations);
    assert data[16..36] == Head(address)[16..36];
    assert data[60..68] == Reverse(ToBigEndian(iterations, 8));
    LittleEndianOfReversed(iterations, 8);
  }

  /** The two encoders agree on a count below 2^64 exactly when the count
      is zero: otherwise the direct one puts the value bytes at the front
      of the word and the multicall one at the back. */
  lemma EncodersAgreeIffZero(address: Address, iterations: u64)
    ensures MulticallData(address, iterations) == GasCalldata.ConsumeGasData(address, iterations)
            <==> iterations == 0
  {
    Pow256Limits();
    var be := ToBigEndian(iterations, 8);
    var multi := MulticallData(address, iterations);
    var direct := GasCalldata.ConsumeGasData(address, iterations);
    GasCalldata.ConsumeGasSmallTail(address, iterations);
    assert multi == Head(address) + multi[36..] && direct == Head(address) + direct[36..];
    WordsAgreeIffZero(be);
  }

  /** The multicall word (zeros, then the reversed 8 bytes) equals the
      direct word (the reversed 8 bytes, then zeros) exactly when the
      8 bytes encode zero. */
  lemma WordsAgreeIffZero(be: seq<byte>)
    requires |be| == 8
    ensures Zeros(24) + Reverse(be) == Reverse(be) + Zeros(24) <==> BigEndian(be) == 0
  {
    BigEndianZeroIff(be);
    if Zeros(24) + Reverse(be) == Reverse(be) + Zeros(24) {
      forall k | 0 <= k < 8 ensures be[k] == 0 {
        assert (Zeros(24) + Reverse(be))[7 - k] == 0;
      }
    }
    if AllZero(be) {
      assert Reverse(be) == Zeros(8);
    }
  }

  /** The multicall word is not the ABI encoding either: a count of 1 is
      read by an ABI decoder as 2^56. */
  lemma MulticallNotAbi(address: Address)
    ensures GasCalldata.AbiDecodeConsumeGas(MulticallData(address, 1)).1 == Pow256(7)
  {
    Pow256Limits();
    var data := MulticallData(address, 1);
    ToBigEndianWiden(1, 7, 1);
    assert ToBigEndian(1, 8) == Zeros(7) + [1];
    assert data[36..68] == Zeros(24) + ([1] + Zeros(7));
    BigEndianConcat(Zeros(24), [1] + Zeros(7));
    BigEndianConcat([1], Zeros(7));
    BigEndianOfZeros(24);
    BigEndianOfZeros(7);
    assert BigEndian([1]) == 1 by {
      assert [1 as byte][..0] == [];
    }
  }

  /** `get_pbh_nonce`: always slot 0, whatever the bound; no slot is
      looked up. */
  function GetPbhNonce<Provider>(worldId: WorldId, provider: Provider, maxPbhNonce: u16): (r: Result<u16, string>)
    ensures r.Ok? && r.value == 0
  {
    Ok(0)
  }
}
