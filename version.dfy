// The kernel version code of include/uapi/linux/version.h: three numbers
// packed into one integer, major in the top bits, then patchlevel, then
// sublevel.
module KernelVersion {

  const PatchShift: nat := 0x1_0000      // 1 << 16
  const MajorShift: nat := 0x100_0000    // 1 << 24

  /** KERNEL_VERSION(a, b, c) = (a << 24) + (b << 16) + c. */
  function Code(a: nat, b: nat, c: nat): (code: nat)
    ensures code >= c && code >= a * MajorShift && code >= b * PatchShift
  {
    a * MajorShift + b * PatchShift + c
  }

  /** The macro is evaluated in a 32-bit C int: with major below 128 and the
      other two fields in range, the code stays below 2^31, so the C value
      and the unbounded one agree. */
  lemma CodeFitsInt(a: nat, b: nat, c: nat)
    requires a < 128 && b < 256 && c < PatchShift
    ensures Code(a, b, c) < 0x8000_0000
  {
    assert b * PatchShift + c < MajorShift;
    assert a * MajorShift <= 127 * MajorShift;
  }

  /** LINUX_VERSION_CODE: the code of the version the tree was built as. */
  function LinuxVersionCode(major: nat, patchlevel: nat, sublevel: nat): (code: nat)
    requires patchlevel < 256 && sublevel < 0x1_0000
    ensures Sublevel(code) == sublevel && Patchlevel(code) == patchlevel && Major(code) == major
  {
    DecodeEncode(major, patchlevel, sublevel);
    Code(major, patchlevel, sublevel)
  }

  /** The three fields read back out of a code. */
  function Sublevel(code: nat): nat { code % PatchShift }
  function Patchlevel(code: nat): nat { (code / PatchShift) % 256 }
  function Major(code: nat): nat { code / MajorShift }

  /** With patchlevel below 256 and sublevel below 65536 no field spills into
      the next, so each field is recovered from the code. */
  lemma DecodeEncode(a: nat, b: nat, c: nat)
    requires b < 256 && c < PatchShift
    ensures Sublevel(Code(a, b, c)) == c
    ensures Patchlevel(Code(a, b, c)) == b
    ensures Major(Code(a, b, c)) == a
  {
    var low := b * PatchShift + c;
    assert low < MajorShift;
    assert Code(a, b, c) == a * MajorShift + low;
    DivModUnique(Code(a, b, c), MajorShift, a, low);
    var hi := a * 256 + b;
    assert Code(a, b, c) == hi * PatchShift + c;
    DivModUnique(Code(a, b, c), PatchShift, hi, c);
    DivModUnique(hi, 256, a, b);
  }

  /** The remainder-quotient pair of a division is unique. */
  lemma DivModUnique(n: nat, d: nat, q: nat, r: nat)
    requires d > 0 && r < d && n == q * d + r
    ensures n / d == q && n % d == r
  {
    var k: int := n / d - q;
    assert k * d == r - n % d;
    assert -(d as int) < k * d < d;
  }

  /** Within the field bounds, comparing codes compares versions
      lexicographically: major first, then patchlevel, then sublevel. */
  lemma {:induction false} CodeOrder(a: nat, b: nat, c: nat, a': nat, b': nat, c': nat)
    requires b < 256 && c < PatchShift && b' < 256 && c' < PatchShift
    ensures Code(a, b, c) < Code(a', b', c') <==>
              a < a' || (a == a' && b < b') || (a == a' && b == b' && c < c')
  {
    var lo, lo' := b * PatchShift + c, b' * PatchShift + c';
    assert lo < MajorShift && lo' < MajorShift;
    if a < a' {
      assert a' * MajorShift >= (a + 1) * MajorShift == a * MajorShift + MajorShift;
    } else if a > a' {
      assert a * MajorShift >= (a' + 1) * MajorShift == a' * MajorShift + MajorShift;
    } else if b < b' {
      assert b' * PatchShift >= (b + 1) * PatchShift == b * PatchShift + PatchShift;
    } else if b > b' {
      assert b * PatchShift >= (b' + 1) * PatchShift == b' * PatchShift + PatchShift;
    }
  }
}
