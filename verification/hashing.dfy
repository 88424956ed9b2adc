/** The 64-bit FNV-1a hash of CORRELATOR/evidence_envelope.cpp, printed as sixteen hexadecimal digits. */
module Hashing {

  const TWO_64: nat := 0x1_0000_0000_0000_0000
  const OFFSET_BASIS: nat := 1469598103934665603
  const PRIME: nat := 1099511628211

  /** One round: exclusive-or with the low byte, then a multiplication that wraps at 64 bits. */
  function Round(hash: nat, c: char): nat {
    var low := ((hash % 256) as bv8 ^ (c as nat % 256) as bv8) as nat;
    (hash / 256 * 256 + low) * PRIME % TWO_64
  }

  function Rounds(s: string): (hash: nat)
    ensures hash < TWO_64
  {
    if s == "" then OFFSET_BASIS else Round(Rounds(s[..|s| - 1]), s[|s| - 1])
  }

  function HexDigits(n: nat, width: nat): (text: string)
    ensures |text| == width
    ensures forall i :: 0 <= i < width ==> text[i] in "0123456789abcdef"
  {
    if width == 0 then "" else HexDigits(n / 16, width - 1) + ["0123456789abcdef"[n % 16]]
  }

  function HexHash(s: string): (text: string)
    ensures |text| == 16
    ensures forall i :: 0 <= i < 16 ==> text[i] in "0123456789abcdef"
  {
    HexDigits(Rounds(s), 16)
  }

  /** The loop of `Fnv1a64Hex`. */
  method Fnv1a64Hex(data: string) returns (text: string)
    ensures text == HexHash(data)
  {
    var hash: nat := OFFSET_BASIS;
    for i := 0 to |data|
      invariant hash == Rounds(data[..i])
    {
      assert data[..i + 1][..i] == data[..i];
      hash := Round(hash, data[i]);
    }
    assert data[..|data|] == data;
    text := HexDigits(hash, 16);
  }
}
