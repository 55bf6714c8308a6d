// Register windows shared by the UniPhier drivers: a window maps a byte
// offset to a 32-bit word, and every MMIO or regmap write is also appended
// to a log so that the order of writes can be stated.
module Mmio {

  /** One 32-bit write on the bus. */
  datatype Write32 = Write32(off: nat, val: bv32)

  type Window = map<nat, bv32>

  /** A word of the window; an offset never written reads as its reset value 0. */
  function Read(w: Window, off: nat): bv32
  {
    if off in w then w[off] else 0
  }

  /** BIT(n) for a 32-bit word. */
  function Bit(n: nat): bv32
    requires n < 32
  {
    (1 as bv32) << n
  }

  /** The read-modify-write every driver uses:
      `(cur & ~mask) | (val & mask)`. */
  function Masked(cur: bv32, mask: bv32, val: bv32): bv32
  {
    (cur & !mask) | (val & mask)
  }

  /** Truncation of an unbounded integer to an unsigned 32-bit word (C's conversion to u32). */
  function U32(x: int): bv32
  {
    (x % 0x1_0000_0000) as bv32
  }

  /** The window after the writes ws, oldest first. */
  function Apply(w: Window, ws: seq<Write32>): Window
  {
    if ws == [] then w
    else Apply(w, ws[..|ws| - 1])[ws[|ws| - 1].off := ws[|ws| - 1].val]
  }

  /** A word that no write of ws touches keeps the value it held before. */
  lemma {:induction false} ApplyUntouched(w: Window, ws: seq<Write32>, off: nat)
    requires forall i :: 0 <= i < |ws| ==> ws[i].off != off
    ensures Read(Apply(w, ws), off) == Read(w, off)
  {
    if ws != [] {
      var n := |ws| - 1;
      assert forall i :: 0 <= i < n ==> ws[..n][i] == ws[i];
      ApplyUntouched(w, ws[..n], off);
    }
  }

  /** A write that no later write of ws overwrites is what the window holds. */
  lemma {:induction false} ApplyLastWrite(w: Window, ws: seq<Write32>, k: nat)
    requires k < |ws|
    requires forall j :: k < j < |ws| ==> ws[j].off != ws[k].off
    ensures Read(Apply(w, ws), ws[k].off) == ws[k].val
  {
    var n := |ws| - 1;
    if k < n {
      assert ws[..n][k] == ws[k];
      assert forall j :: k < j < n ==> ws[..n][j] == ws[j];
      ApplyLastWrite(w, ws[..n], k);
    }
  }

  /** Applying two batches of writes is applying their concatenation. */
  lemma {:induction false} ApplyAppend(w: Window, a: seq<Write32>, b: seq<Write32>)
    ensures Apply(Apply(w, a), b) == Apply(w, a + b)
    decreases |b|
  {
    if b != [] {
      var n := |b| - 1;
      ApplyAppend(w, a, b[..n]);
      assert (a + b)[..|a + b| - 1] == a + b[..n];
    } else {
      assert a + b == a;
    }
  }
}
