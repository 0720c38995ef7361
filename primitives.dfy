/** Fixed-width integers, bytes, addresses and the big-endian byte
    conversions shared by the call-data encoders and the identity
    construction. */
module Primitives {

  /** Rust's `u8`. */
  newtype byte = x: int | 0 <= x < 0x100

  const U16_LIMIT: nat := 0x1_0000
  const U64_LIMIT: nat := 0x1_0000_0000_0000_0000
  const U128_LIMIT: nat := 0x1_0000_0000_0000_0000_0000_0000_0000_0000
  const U256_LIMIT: nat := 0x1_0000_0000_0000_0000_0000_0000_0000_0000_0000_0000_0000_0000_0000_0000_0000_0000

  type u16 = n: nat | n < 0x1_0000
  type u64 = n: nat | n < 0x1_0000_0000_0000_0000
  type u128 = n: nat | n < 0x1_0000_0000_0000_0000_0000_0000_0000_0000
  /** ruint's `U256`; semaphore's `Field` is this same type. */
  type u256 = n: nat | n < 0x1_0000_0000_0000_0000_0000_0000_0000_0000_0000_0000_0000_0000_0000_0000_0000_0000

  /** An Ethereum address: exactly 20 bytes. */
  type Address = s: seq<byte> | |s| == 20
    witness [0, 0, 0, 0, 0, 0, 0, 0, 0, 0, 0, 0, 0, 0, 0, 0, 0, 0, 0, 0]

  /** `Address::ZERO`. */
  const ZERO_ADDRESS: Address := Zeros(20)

  datatype Option<+T> = None | Some(value: T)

  datatype Result<+T, +E> = Ok(value: T) | Err(error: E)

  /** `vec![0u8; n]`. */
  function Zeros(n: nat): (r: seq<byte>)
    ensures |r| == n
    ensures forall i :: 0 <= i < n ==> r[i] == 0
  {
    seq(n, _ => 0)
  }

  predicate AllZero(s: seq<byte>)
  {
    forall i :: 0 <= i < |s| ==> s[i] == 0
  }

  /** The bytes of `s` in the opposite order (`.iter().rev()`). */
  function Reverse(s: seq<byte>): (r: seq<byte>)
    ensures |r| == |s|
    ensures forall i :: 0 <= i < |s| ==> r[i] == s[|s| - 1 - i]
  {
    seq(|s|, i requires 0 <= i < |s| => s[|s| - 1 - i])
  }

  /** 256 to the power `k`: one more than the largest value `k` bytes hold. */
  function Pow256(k: nat): (p: nat)
    ensures p >= 1
  {
    if k == 0 then 1 else 256 * Pow256(k - 1)
  }

  lemma Pow256Limits()
    ensures Pow256(2) == U16_LIMIT
    ensures Pow256(8) == U64_LIMIT
    ensures Pow256(16) == U128_LIMIT
    ensures Pow256(32) == U256_LIMIT
  {
    assert Pow256(8) == U64_LIMIT;
    PowAdd(8, 8);
    PowAdd(16, 16);
  }

  lemma {:induction false} PowAdd(j: nat, k: nat)
    ensures Pow256(j + k) == Pow256(j) * Pow256(k)
  {
    if k > 0 {
      PowAdd(j, k - 1);
      calc {
        Pow256(j + k);
        256 * Pow256(j + k - 1);
        256 * (Pow256(j) * Pow256(k - 1));
        Pow256(j) * (256 * Pow256(k - 1));
      }
    }
  }

  /** The unsigned value of `s` read most significant byte first
      (`from_be_slice`). */
  function BigEndian(s: seq<byte>): (n: nat)
    ensures n < Pow256(|s|)
  {
    if |s| == 0 then 0
    else
      var prefix := BigEndian(s[..|s| - 1]);
      assert prefix <= Pow256(|s| - 1) - 1;
      assert prefix * 256 <= Pow256(|s|) - 256;
      prefix * 256 + s[|s| - 1] as nat
  }

  /** The `len` low-order bytes of `n`, most significant first
      (`to_be_bytes`, `to_be_bytes_vec`). */
  function ToBigEndian(n: nat, len: nat): (r: seq<byte>)
    requires n < Pow256(len)
    ensures |r| == len
    ensures BigEndian(r) == n
  {
    if len == 0 then []
    else
      var high := ToBigEndian(n / 256, len - 1);
      assert high == (high + [(n % 256) as byte])[..len - 1];
      high + [(n % 256) as byte]
  }

  lemma {:induction false} BigEndianOfZeros(n: nat)
    ensures BigEndian(Zeros(n)) == 0
  {
    if n > 0 {
      assert Zeros(n)[..n - 1] == Zeros(n - 1);
      BigEndianOfZeros(n - 1);
    }
  }

  /** Only the all-zero byte string has value zero. */
  lemma {:induction false} BigEndianZeroIff(s: seq<byte>)
    ensures BigEndian(s) == 0 <==> AllZero(s)
  {
    if |s| > 0 {
      var prefix := s[..|s| - 1];
      BigEndianZeroIff(prefix);
      if AllZero(s) {
        assert AllZero(prefix);
      } else if AllZero(prefix) {
        assert s[|s| - 1] != 0;
      }
    }
  }

  /** Equal-length byte strings with equal values are equal: the
      big-endian encoding of a given length is unique. */
  lemma {:induction false} BigEndianInjective(s: seq<byte>, t: seq<byte>)
    requires |s| == |t|
    requires BigEndian(s) == BigEndian(t)
    ensures s == t
  {
    if |s| > 0 {
      var k := |s| - 1;
      DigitsUnique(BigEndian(s[..k]), s[k] as nat, BigEndian(t[..k]), t[k] as nat);
      BigEndianInjective(s[..k], t[..k]);
      assert s == s[..k] + [s[k]] && t == t[..k] + [t[k]];
    }
  }

  /** A big-endian encoding of a value that fits in `len` bytes, widened to
      `pad + len` bytes, is `pad` zero bytes followed by the narrow one. */
  lemma {:induction false} ToBigEndianWiden(n: nat, pad: nat, len: nat)
    requires n < Pow256(len)
    ensures n < Pow256(pad + len)
    ensures ToBigEndian(n, pad + len) == Zeros(pad) + ToBigEndian(n, len)
  {
    PowMonotone(len, pad + len);
    var wide := Zeros(pad) + ToBigEndian(n, len);
    BigEndianOfZeros(pad);
    BigEndianConcat(Zeros(pad), ToBigEndian(n, len));
    BigEndianInjective(ToBigEndian(n, pad + len), wide);
  }

  lemma {:induction false} PowMonotone(j: nat, k: nat)
    requires j <= k
    ensures Pow256(j) <= Pow256(k)
  {
    if j < k {
      PowMonotone(j, k - 1);
    }
  }

  /** Reading a concatenation big-endian: the high part is shifted by the
      length of the low part. */
  lemma {:induction false} BigEndianConcat(hi: seq<byte>, lo: seq<byte>)
    ensures BigEndian(hi + lo) == BigEndian(hi) * Pow256(|lo|) + BigEndian(lo)
  {
    if |lo| > 0 {
      var k := |lo| - 1;
      assert (hi + lo)[..|hi + lo| - 1] == hi + lo[..k];
      BigEndianConcat(hi, lo[..k]);
      ShiftOneByte(BigEndian(hi), Pow256(k), BigEndian(lo[..k]), lo[k] as nat);
    } else {
      assert hi + lo == hi;
    }
  }

  /** A value written as `high * 256 + low` with `low < 256` determines
      both digits. */
  lemma DigitsUnique(p: nat, a: nat, q: nat, b: nat)
    requires a < 256 && b < 256
    requires p * 256 + a == q * 256 + b
    ensures p == q && a == b
  {
    assert (p * 256 + a) / 256 == p && (q * 256 + b) / 256 == q;
  }

  lemma ShiftOneByte(a: nat, p: nat, b: nat, c: nat)
    ensures (a * p + b) * 256 + c == a * (256 * p) + (b * 256 + c)
  {
  }
}
