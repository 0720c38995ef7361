/** `consume_gas_calldata`: the call data of a direct call to
    `consumeGas(address,uint256)`. Its iterations word holds the 32-byte
    big-endian form of the count in reverse, so the value's bytes sit at
    the front of the word, least significant first. */
module GasCalldata {
  import opened Primitives
  import opened ConsumeGasLayout

  /** The 32-byte big-endian form of `iterations` (`to_be_bytes_vec`). */
  function IterationsBigEndian(iterations: u256): (be: seq<byte>)
    ensures |be| == 32
    ensures BigEndian(be) == iterations
  {
    Pow256Limits();
    ToBigEndian(iterations, 32)
  }

  /** What `consume_gas_calldata` returns, as a value. */
  function ConsumeGasData(address: Address, iterations: u256): (data: seq<byte>)
    ensures |data| == CALLDATA_LENGTH
  {
    Head(address) + Reverse(IterationsBigEndian(iterations))
  }

  /** Builds the call data step by step as the source does: selector,
      padded address, then the iterations word from the reversing loop. */
  method ConsumeGasCalldata(address: Address, iterations: u256) returns (calldata: seq<byte>)
    ensures |calldata| == 68
    ensures calldata[..4] == [0x41, 0x4c, 0xf8, 0x5d]
    ensures AllZero(calldata[4..16])
    ensures calldata[16..36] == address
    ensures forall j :: 36 <= j < 68 ==> calldata[j] == IterationsBigEndian(iterations)[67 - j]
    ensures calldata == ConsumeGasData(address, iterations)
  {
    calldata := SELECTOR;
    var addressBytes := Zeros(12);
    addressBytes := addressBytes + address;
    calldata := calldata + addressBytes;
    var iterationsVec := IterationsBigEndian(iterations);
    var iterationsBytes := ReversedWord(iterationsVec);
    calldata := calldata + iterationsBytes;
  }

  /** Reads back what the encoding stores: the address from bytes 16..36
      and the count from bytes 36..68 taken in reverse. */
  function DecodeConsumeGas(data: seq<byte>): (r: (Address, nat))
    requires |data| == CALLDATA_LENGTH
    ensures r.1 < Pow256(32)
  {
    (data[16..36], LittleEndian(data[36..68]))
  }

  /** Round trip: the address and the count are recovered exactly. */
  lemma ConsumeGasRoundTrip(address: Address, iterations: u256)
    ensures DecodeConsumeGas(ConsumeGasData(address, iterations)) == (address, iterations)
  {
    var data := ConsumeGasData(address, iterations);
    assert data[16..36] == Head(address)[16..36];
    assert data[36..68] == Reverse(IterationsBigEndian(iterations));
    LittleEndianOfReversed(iterations, 32);
  }

  /** Distinct inputs give distinct call data. */
  lemma ConsumeGasInjective(a1: Address, n1: u256, a2: Address, n2: u256)
    requires ConsumeGasData(a1, n1) == ConsumeGasData(a2, n2)
    ensures a1 == a2 && n1 == n2
  {
    ConsumeGasRoundTrip(a1, n1);
    ConsumeGasRoundTrip(a2, n2);
  }

  /** For a count that fits in 64 bits (the only counts the command line
      can supply), the word is the 8-byte big-endian form reversed,
      followed by 24 zero bytes: bytes 44..68 are zero. */
  lemma ConsumeGasSmallTail(address: Address, iterations: u64)
    ensures ConsumeGasData(address, iterations)[36..68] == Reverse(ToBigEndian(iterations, 8)) + Zeros(24)
    ensures AllZero(ConsumeGasData(address, iterations)[44..68])
  {
    Pow256Limits();
    ToBigEndianWiden(iterations, 24, 8);
    var data := ConsumeGasData(address, iterations);
    var be := IterationsBigEndian(iterations);
    assert be == Zeros(24) + ToBigEndian(iterations, 8);
    assert data[36..68] == Reverse(be);
  }

  /** How a standard Contract ABI decoder reads the call: the count as the
      big-endian value of bytes 36..68. */
  function AbiDecodeConsumeGas(data: seq<byte>): (r: (Address, nat))
    requires |data| == CALLDATA_LENGTH
    ensures r.1 < Pow256(32)
  {
    (data[16..36], BigEndian(data[36..68]))
  }

  /** The encoding as written is not the ABI encoding: a count of 1 is
      read by an ABI decoder as 2^248. */
  lemma ConsumeGasNotAbi(address: Address)
    ensures AbiDecodeConsumeGas(ConsumeGasData(address, 1)).1 == Pow256(31)
    ensures AbiDecodeConsumeGas(ConsumeGasData(address, 1)).1 != 1
  {
    var data := ConsumeGasData(address, 1);
    Pow256Limits();
    ToBigEndianWiden(1, 31, 1);
    assert IterationsBigEndian(1) == Zeros(31) + [1];
    assert data[36..68] == [1] + Zeros(31);
    BigEndianConcat([1], Zeros(31));
    BigEndianOfZeros(31);
    assert BigEndian([1]) == 1 by {
      assert [1 as byte][..0] == [];
    }
    PowMonotone(1, 31);
  }

  /** The head encoding the selector's signature calls for: the count as a
      left-padded big-endian word. */
  function AbiConsumeGasData(address: Address, iterations: u256): (data: seq<byte>)
    ensures |data| == CALLDATA_LENGTH
  {
    Head(address) + IterationsBigEndian(iterations)
  }

  /** The ABI encoding round-trips through an ABI decoder. */
  lemma AbiConsumeGasRoundTrip(address: Address, iterations: u256)
    ensures AbiDecodeConsumeGas(AbiConsumeGasData(address, iterations)) == (address, iterations)
  {
    var data := AbiConsumeGasData(address, iterations);
    assert data[16..36] == Head(address)[16..36];
    assert data[36..68] == IterationsBigEndian(iterations);
  }
}
