/** The byte layout shared by the two `consumeGas(address,uint256)`
    call-data encoders: the selector, the padded address word, and the
    loop that copies a big-endian buffer into a 32-byte word in reverse. */
module ConsumeGasLayout {
  import opened Primitives

  /** The four selector bytes written by both encoders, taken as given. */
  const SELECTOR: seq<byte> := [0x41, 0x4c, 0xf8, 0x5d]

  /** Length of a call: selector, address word, iterations word. */
  const CALLDATA_LENGTH: nat := 68

  /** The first 36 bytes of either encoding: the selector, then 12 zero
      bytes, then the 20 address bytes. */
  function Head(address: Address): (h: seq<byte>)
    ensures |h| == 36
    ensures h[..4] == SELECTOR
    ensures AllZero(h[4..16])
    ensures h[16..36] == address
  {
    var addressWord := Zeros(12) + address;
    SELECTOR + addressWord
  }

  /** The loop both encoders run over a big-endian buffer `be`: a fresh
      all-zero 32-byte array whose entry `32 - |be| + i` receives the
      `i`-th byte of `be` counted from the end. Every write stays inside
      the array, and the buffer ends up in the last `|be|` entries, in
      reverse order. */
  method ReversedWord(be: seq<byte>) returns (word: seq<byte>)
    requires |be| <= 32
    ensures |word| == 32
    ensures AllZero(word[..32 - |be|])
    ensures word[32 - |be|..] == Reverse(be)
  {
    var bytes := new byte[32](_ => 0);
    var len := |be|;
    for i := 0 to len
      invariant forall k :: 0 <= k < 32 - len ==> bytes[k] == 0
      invariant forall j :: 32 - len <= j < 32 - len + i ==> bytes[j] == be[31 - j]
    {
      bytes[32 - len + i] := be[len - 1 - i];
    }
    word := bytes[..];
  }

  /** Reading a reversed word back: the big-endian value of its bytes
      taken in reverse order. */
  function LittleEndian(word: seq<byte>): (n: nat)
    ensures n < Pow256(|word|)
  {
    BigEndian(Reverse(word))
  }

  lemma ReverseInvolution(s: seq<byte>)
    ensures Reverse(Reverse(s)) == s
  {
  }

  /** A buffer copied in reverse reads back, little-endian, as the value
      it held big-endian. */
  lemma LittleEndianOfReversed(n: nat, len: nat)
    requires n < Pow256(len)
    ensures LittleEndian(Reverse(ToBigEndian(n, len))) == n
  {
    ReverseInvolution(ToBigEndian(n, len));
  }
}
