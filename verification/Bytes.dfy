// Little-endian integers as they appear in packed structs on the supported
// hosts, and the fixed-width unsigned integer types of the program.
module Bytes {
  newtype byte = n: int | 0 <= n < 256

  const TWO16: nat := 0x1_0000
  const TWO32: nat := 0x1_0000_0000
  const TWO64: nat := 0x1_0000_0000_0000_0000

  type u16 = n: nat | n < TWO16
  type u32 = n: nat | n < TWO32
  type u64 = n: nat | n < TWO64

  datatype Option<+T> = None | Some(value: T)

  // A narrowing conversion to uint32_t
  function Truncate32(n: nat): (r: u32)
    ensures r <= n
    ensures n < TWO32 ==> r == n
  {
    if n < TWO32 then n else Truncate32(n - TWO32)
  }

  lemma {:induction false} TruncateMultiple(n: nat)
    ensures Truncate32(n * TWO32) == 0
  {
    if n > 0 { TruncateMultiple(n - 1); }
  }

  // size_t arithmetic
  function Wrap64(n: int): (w: u64)
    ensures 0 <= n < TWO64 ==> w == n
    decreases if n < 0 then TWO64 - n else n
  {
    if n < 0 then Wrap64(n + TWO64)
    else if n < TWO64 then n
    else Wrap64(n - TWO64)
  }

  function Pow256(width: nat): (p: nat)
    ensures p >= 1
  {
    if width == 0 then 1 else 256 * Pow256(width - 1)
  }

  lemma Pow256Values()
    ensures Pow256(2) == TWO16 && Pow256(4) == TWO32 && Pow256(8) == TWO64
  {
    assert Pow256(2) == 256 * 256;
    assert Pow256(4) == 256 * 256 * Pow256(2);
    assert Pow256(6) == 256 * 256 * Pow256(4);
    assert Pow256(8) == 256 * 256 * Pow256(6);
  }

  // The bytes a struct field of the given width holds for n.
  function LE(n: nat, width: nat): (b: seq<byte>)
    ensures |b| == width
  {
    if width == 0 then [] else [(n % 256) as byte] + LE(n / 256, width - 1)
  }

  function Value(b: seq<byte>): nat {
    if b == [] then 0 else b[0] as nat + 256 * Value(b[1..])
  }

  lemma {:induction false} ValueBound(b: seq<byte>)
    ensures Value(b) < Pow256(|b|)
  {
    if b != [] {
      ValueBound(b[1..]);
      assert Value(b[1..]) + 1 <= Pow256(|b| - 1);
    }
  }

  // Storing a number in a field and loading it again keeps it modulo the
  // field's width: exactly the truncation of a narrowing store.
  lemma {:induction false} LoadStore(n: nat, width: nat)
    ensures Value(LE(n, width)) == n % Pow256(width)
  {
    if width > 0 {
      var p := Pow256(width - 1);
      LoadStore(n / 256, width - 1);
      assert LE(n, width)[1..] == LE(n / 256, width - 1);
      assert Value(LE(n, width)) == n % 256 + 256 * ((n / 256) % p);
      SplitMod(n, p);
    }
  }

  lemma SplitMod(n: nat, p: nat)
    requires p >= 1
    ensures n % (256 * p) == n % 256 + 256 * ((n / 256) % p)
  {
    var q, r := n / 256, n % 256;
    var a, c := q / p, q % p;
    assert q == a * p + c;
    assert n == a * (256 * p) + (256 * c + r) by {
      assert n == 256 * q + r;
      assert 256 * (a * p) == a * (256 * p);
    }
    assert 0 <= 256 * c + r < 256 * p;
    ModUnique(n, 256 * p, a, 256 * c + r);
  }

  lemma ModUnique(n: nat, m: nat, a: nat, r: nat)
    requires m > 0 && n == a * m + r && r < m
    ensures n % m == r && n / m == a
  {
    var b, s := n / m, n % m;
    if a < b {
      MulLower(b - a, m);
      Distribute(b, a, m);
    } else if b < a {
      MulLower(a - b, m);
      Distribute(a, b, m);
    }
  }

  lemma MulLower(x: nat, m: nat)
    requires x >= 1
    ensures x * m >= m
  {
    assert x * m == (x - 1) * m + m;
  }

  lemma Distribute(x: int, y: int, m: int)
    ensures (x - y) * m == x * m - y * m
  {
  }

  function Load16(b: seq<byte>): u16
    requires |b| == 2
  {
    ValueBound(b); Pow256Values(); Value(b)
  }

  function Load32(b: seq<byte>): u32
    requires |b| == 4
  {
    ValueBound(b); Pow256Values(); Value(b)
  }

  function Load64(b: seq<byte>): u64
    requires |b| == 8
  {
    ValueBound(b); Pow256Values(); Value(b)
  }

  lemma LoadStored16(n: u16)
    ensures Load16(LE(n, 2)) == n
  {
    LoadStore(n, 2);
    Pow256Values();
  }

  lemma LoadStored32(n: u32)
    ensures Load32(LE(n, 4)) == n
  {
    LoadStore(n, 4);
    Pow256Values();
  }

  lemma LoadStored64(n: u64)
    ensures Load64(LE(n, 8)) == n
  {
    LoadStore(n, 8);
    Pow256Values();
  }

  lemma LoadStoreFields()
    ensures forall n: u16 :: Load16(LE(n, 2)) == n
    ensures forall n: u32 :: Load32(LE(n, 4)) == n
    ensures forall n: u64 :: Load64(LE(n, 8)) == n
  {
    hide LE, Load16, Load32, Load64;
    forall n: u16 ensures Load16(LE(n, 2)) == n { LoadStored16(n); }
    forall n: u32 ensures Load32(LE(n, 4)) == n { LoadStored32(n); }
    forall n: u64 ensures Load64(LE(n, 8)) == n { LoadStored64(n); }
  }
}
