/** Bytes, machine words and their network (big-endian) representation. */
module Words {

  const TWO16: int := 0x1_0000
  const TWO32: int := 0x1_0000_0000
  const TWO64: int := 0x1_0000_0000_0000_0000

  type byte = n: int | 0 <= n < 0x100
  type Word16 = n: int | 0 <= n < 0x1_0000
  type Word32 = n: int | 0 <= n < 0x1_0000_0000
  type Word64 = n: int | 0 <= n < 0x1_0000_0000_0000_0000
  type Int16 = n: int | -0x8000 <= n < 0x8000
  type Int32 = n: int | -0x8000_0000 <= n < 0x8000_0000

  /** 256 to the power w: how many values fit in w bytes. */
  function Pow256(w: nat): (p: nat)
    ensures p > 0
  {
    if w == 0 then 1 else 256 * Pow256(w - 1)
  }

  lemma PowValues()
    ensures Pow256(1) == 0x100 && Pow256(2) == TWO16 && Pow256(4) == TWO32 && Pow256(8) == TWO64
  {
    assert Pow256(4) == 256 * (256 * Pow256(2));
    assert Pow256(8) == 256 * (256 * (256 * (256 * Pow256(4))));
  }

  /** The w low bytes of n, most significant first. */
  function BE(n: nat, w: nat): (s: seq<byte>)
    ensures |s| == w
  {
    if w == 0 then [] else BE(n / 256, w - 1) + [n % 256]
  }

  function FromBE(s: seq<byte>): (n: nat)
    ensures n < Pow256(|s|)
  {
    if s == [] then 0 else FromBE(s[..|s| - 1]) * 256 + s[|s| - 1]
  }

  /** Writing a word and reading it back keeps it modulo the width. */
  lemma {:induction false} WordRoundTrip(n: nat, w: nat)
    ensures FromBE(BE(n, w)) == n % Pow256(w)
  {
    if w > 0 {
      WordRoundTrip(n / 256, w - 1);
      assert BE(n, w)[..w - 1] == BE(n / 256, w - 1);
      ModStep(n, Pow256(w - 1));
    }
  }

  lemma ModStep(n: nat, p: nat)
    requires p > 0
    ensures n % (256 * p) == n / 256 % p * 256 + n % 256
  {
    var q, r := n / 256 / p, n / 256 % p;
    DivMod(n / 256, p);
    assert 256 * (p * q) == (256 * p) * q;
    ModUnique(n, 256 * p, q, 256 * r + n % 256);
  }

  lemma DivMod(n: int, d: int)
    requires d > 0
    ensures n == d * (n / d) + n % d && 0 <= n % d < d
  {
  }

  /** The remainder is determined by any division with a remainder in range. */
  lemma ModUnique(n: int, d: int, q: int, r: int)
    requires d > 0 && n == d * q + r && 0 <= r < d
    ensures n % d == r
  {
    DivMod(n, d);
    var k := n / d - q;
    assert d * k == r - n % d by {
      assert d * (n / d - q) == d * (n / d) - d * q;
    }
    MulBound(d, k);
  }

  lemma MulBound(d: int, k: int)
    requires d > 0
    ensures k >= 1 ==> d * k >= d
    ensures k <= -1 ==> d * k <= -d
  {
    if k >= 1 {
      assert d * k == d * (k - 1) + d;
    } else if k <= -1 {
      assert d * k == d * (k + 1) - d;
    }
  }

  function Zeros(n: nat): (s: seq<byte>)
    ensures |s| == n
  {
    seq(n, _ => 0)
  }

  /** The low bits of a number, as an assignment to a narrower unsigned type keeps them. */
  function Low8(n: nat): (r: byte) ensures n < 0x100 ==> r == n { n % 0x100 }
  function Low16(n: nat): (r: Word16) ensures n < 0x1_0000 ==> r == n { n % 0x1_0000 }
  function Low32(n: nat): (r: Word32) ensures n < 0x1_0000_0000 ==> r == n { n % 0x1_0000_0000 }
  function Low64(n: nat): (r: Word64) ensures n < 0x1_0000_0000_0000_0000 ==> r == n { n % 0x1_0000_0000_0000_0000 }

  /** Two's complement: the bits of a signed value, and the signed value of bits. */
  function Bits16(i: Int16): Word16 { if i < 0 then i + 0x1_0000 else i }
  function Signed16(w: Word16): Int16 { if w >= 0x8000 then w - 0x1_0000 else w }
  function Bits32(i: Int32): Word32 { if i < 0 then i + 0x1_0000_0000 else i }
  function Signed32(w: Word32): Int32 { if w >= 0x8000_0000 then w - 0x1_0000_0000 else w }

  /** Unsigned 64-bit subtraction, as the guards on a size_t compute it: below zero it wraps. */
  function SizeSub(a: nat, b: nat): (r: Word64)
    ensures b <= a < 0x1_0000_0000_0000_0000 ==> r == a - b
    ensures a < b <= 0x1_0000_0000_0000_0000 ==> r == a + 0x1_0000_0000_0000_0000 - b
  {
    (a - b) % 0x1_0000_0000_0000_0000
  }

  /** The next multiple of 8 strictly after n: at least 1 and at most 8 bytes on. */
  function PadUp(n: nat): (r: nat)
    ensures n < r <= n + 8 && r % 8 == 0
  {
    n + 8 - n % 8
  }

  /** The first multiple of 8 at or after n. */
  function RoundUp(n: nat): (r: nat)
    ensures n <= r < n + 8 && r % 8 == 0
  {
    if n % 8 == 0 then n else n + 8 - n % 8
  }
}
