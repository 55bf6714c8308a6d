// The alert and sensor register sequences of the UniPhier thermal driver
// (drivers/thermal/uniphier_thermal.c). Registers are reached through a
// regmap; whether each regmap access succeeds is an input: the k-th access
// of a call fails with code ErrAt(outcomes, k) when that code is non-zero,
// and a failed access changes no register.
module Thermal {
  import opened Mmio

  // block registers, relative to the SoC's block offset
  const PmPvtCtlEn: nat := 0xe000
  const PmPvtCtlEnBit: bv32 := 1            // PMPVTCTLEN_PMPVTCTLEN, START = 1, STOP = 0
  const PmPvtCtlMode: nat := 0xe004
  const PmPvtCtlModeMask: bv32 := 0xf
  const PmPvtCtlModeTempMon: bv32 := 0x5
  const EmonRepeat: nat := 0xe040
  const EmonEndless: bv32 := 0x0100_0000    // BIT(24), also the ENABLE value
  const EmonPeriodMask: bv32 := 0xf
  const EmonPeriod1000000: bv32 := 0x9

  // common registers
  const PmPvtCtlModeSel: nat := 0xe900
  const SetAlert0: nat := 0xe910
  const SetAlertTempMask: bv32 := 0x00ff_0000   // 0xff << 16
  const SetAlertEnable: bv32 := 1               // SETALERT_EALERTEN0, USE = 1
  const PmAlertIntCtl: nat := 0xe920
  const AlertIntAllBits: bv32 := 0x777
  const Tmod: nat := 0xe928
  const TmodMask: bv32 := 0x1ff
  const TmodCoef: nat := 0xee5c

  const CriticalTempLimit: int := 95 * 1000
  const AlertChNum: nat := 3
  const IntMax: int := 0x7fff_ffff

  const EINVAL: int := 22
  const E2BIG: int := 7

  /** The per-SoC parameters of struct uniphier_thermal_priv. */
  datatype Soc = Pxs2 | Ld20 {
    function BlockOffset(): nat {
      match this
      case Pxs2 => 0x000
      case Ld20 => 0x800
    }
    function SetupAddress(): nat {
      match this
      case Pxs2 => 0x904
      case Ld20 => 0x938
    }
    function SetupValue(): bv32 {
      match this
      case Pxs2 => 0x4f86_e844
      case Ld20 => 0x4f22_e8ee
    }
  }

  /** The outcome the regmap gives the k-th access of a call (0: success). */
  function ErrAt(outcomes: seq<int>, k: nat): int
  {
    if k < |outcomes| then outcomes[k] else 0
  }

  /** One regmap access: regmap_write_bits (read, mask, always write back),
      regmap_write, or regmap_read. */
  datatype Access =
    | WriteBits(off: nat, mask: bv32, val: bv32)
    | WriteWord(off: nat, val: bv32)
    | ReadWord(off: nat)

  /** Registers and write log after a successful access. */
  datatype Run = Run(ret: int, regs: Window, trace: seq<Write32>)

  function Perform(regs: Window, trace: seq<Write32>, a: Access): (r: Run)
    ensures r.ret == 0
    ensures a.ReadWord? ==> r.regs == regs && r.trace == trace
    ensures !a.ReadWord? ==> r.trace == trace + [Write32(a.off, Read(r.regs, a.off))]
  {
    match a
    case WriteBits(off, mask, val) =>
      var w := Masked(Read(regs, off), mask, val);
      Run(0, regs[off := w], trace + [Write32(off, w)])
    case WriteWord(off, val) => Run(0, regs[off := val], trace + [Write32(off, val)])
    case ReadWord(_) => Run(0, regs, trace)
  }

  /** A sequence of accesses that all succeed. */
  function RunAll(regs: Window, trace: seq<Write32>, ops: seq<Access>): Run
    decreases |ops|
  {
    if ops == [] then Run(0, regs, trace)
    else
      var r := Perform(regs, trace, ops[0]);
      RunAll(r.regs, r.trace, ops[1..])
  }

  /** One access whose outcome is err: on failure its code and no change. */
  function Step(regs: Window, trace: seq<Write32>, a: Access, err: int): (r: Run)
    ensures r.ret == err
    ensures err != 0 ==> r.regs == regs && r.trace == trace
  {
    if err != 0 then Run(err, regs, trace) else Perform(regs, trace, a)
  }

  /** The accesses ops[i..] as the driver issues them: on the first failure
      its code is returned and nothing later is attempted. */
  function RunStop(regs: Window, trace: seq<Write32>, ops: seq<Access>, outcomes: seq<int>, i: nat): Run
    requires i <= |ops|
    decreases |ops| - i
  {
    if i == |ops| then Run(0, regs, trace)
    else
      var r := Step(regs, trace, ops[i], ErrAt(outcomes, i));
      if r.ret != 0 then r else RunStop(r.regs, r.trace, ops, outcomes, i + 1)
  }

  /** The index of the first failing access in [i, n), or n if none fails. */
  function FirstFailure(outcomes: seq<int>, i: nat, n: nat): (k: nat)
    requires i <= n
    ensures i <= k <= n
    ensures k < n ==> ErrAt(outcomes, k) != 0
    ensures forall j :: i <= j < k ==> ErrAt(outcomes, j) == 0
    decreases n - i
  {
    if i == n || ErrAt(outcomes, i) != 0 then i else FirstFailure(outcomes, i + 1, n)
  }

  /** A sequence of accesses returns the code of its first failing access and
      leaves exactly the effects of the accesses before it. */
  lemma {:induction false} RunStopFirstFailure(regs: Window, trace: seq<Write32>, ops: seq<Access>,
                                               outcomes: seq<int>, i: nat)
    requires i <= |ops|
    ensures var k := FirstFailure(outcomes, i, |ops|);
            var r := RunStop(regs, trace, ops, outcomes, i);
            var done := RunAll(regs, trace, ops[i..k]);
            r.regs == done.regs && r.trace == done.trace
            && r.ret == (if k < |ops| then ErrAt(outcomes, k) else 0)
    decreases |ops| - i
  {
    var k := FirstFailure(outcomes, i, |ops|);
    if i == |ops| || ErrAt(outcomes, i) != 0 {
      assert k == i && ops[i..k] == [];
    } else {
      var p := Perform(regs, trace, ops[i]);
      RunStopFirstFailure(p.regs, p.trace, ops, outcomes, i + 1);
      assert FirstFailure(outcomes, i + 1, |ops|) == k;
      assert ops[i..k][0] == ops[i] && ops[i..k][1..] == ops[i + 1..k];
    }
  }

  /** The accesses of uniphier_thermal_initialize_sensor, given whether
      TMODCOEF read as 0 (no eFuse calibration). */
  function InitOps(soc: Soc, coefMissing: bool): seq<Access>
  {
    InitHead(soc, coefMissing) + InitTail(soc)
  }

  /** Stop the PVT, read TMODCOEF, and write the SoC default if it is 0. */
  function InitHead(soc: Soc, coefMissing: bool): seq<Access>
  {
    [WriteBits(soc.BlockOffset() + PmPvtCtlEn, PmPvtCtlEnBit, 0), ReadWord(TmodCoef)]
    + (if coefMissing then [WriteWord(soc.SetupAddress(), soc.SetupValue())] else [])
  }

  /** Temperature-monitor mode, endless repeat at period code 9, mode select 0. */
  function InitTail(soc: Soc): seq<Access>
  {
    var bo := soc.BlockOffset();
    [WriteBits(bo + PmPvtCtlMode, PmPvtCtlModeMask, PmPvtCtlModeTempMon),
     WriteBits(bo + EmonRepeat, EmonEndless | EmonPeriodMask, EmonEndless | EmonPeriod1000000),
     WriteWord(PmPvtCtlModeSel, 0)]
  }

  /** The accesses of InitOps one by one; j is where the tail starts. */
  lemma InitOpsAt(soc: Soc, coefMissing: bool)
    ensures var ops := InitOps(soc, coefMissing);
      var bo := soc.BlockOffset();
      var j := if coefMissing then 3 else 2;
      && |ops| == j + 3
      && ops[0] == WriteBits(bo + PmPvtCtlEn, PmPvtCtlEnBit, 0)
      && ops[1] == ReadWord(TmodCoef)
      && (coefMissing ==> ops[2] == WriteWord(soc.SetupAddress(), soc.SetupValue()))
      && ops[j] == WriteBits(bo + PmPvtCtlMode, PmPvtCtlModeMask, PmPvtCtlModeTempMon)
      && ops[j + 1] == WriteBits(bo + EmonRepeat, EmonEndless | EmonPeriodMask, EmonEndless | EmonPeriod1000000)
      && ops[j + 2] == WriteWord(PmPvtCtlModeSel, 0)
  {
  }

  /** One step of RunStop: a failing access stops with its code, a
      successful one continues with the next. */
  lemma RunStopNext(regs: Window, trace: seq<Write32>, ops: seq<Access>, outcomes: seq<int>, i: nat)
    requires i < |ops|
    ensures var r := Step(regs, trace, ops[i], ErrAt(outcomes, i));
            RunStop(regs, trace, ops, outcomes, i)
              == if r.ret != 0 then r else RunStop(r.regs, r.trace, ops, outcomes, i + 1)
  {
  }

  /** The SoC default is written exactly when TMODCOEF reads 0. */
  lemma InitOpsSetup(soc: Soc, coefMissing: bool)
    ensures WriteWord(soc.SetupAddress(), soc.SetupValue()) in InitOps(soc, coefMissing) <==> coefMissing
  {
  }

  /** After a fully successful initialisation the PVT is stopped, the monitor
      is in temperature mode, repeating endlessly with period code 9, and the
      mode select register is 0; other bits of those registers are kept. */
  lemma InitSucceeds(soc: Soc, coefMissing: bool, regs: Window, trace: seq<Write32>)
    ensures var r := RunAll(regs, trace, InitOps(soc, coefMissing));
      var bo := soc.BlockOffset();
      && Read(r.regs, bo + PmPvtCtlEn) & PmPvtCtlEnBit == 0
      && Read(r.regs, bo + PmPvtCtlEn) & !PmPvtCtlEnBit == Read(regs, bo + PmPvtCtlEn) & !PmPvtCtlEnBit
      && Read(r.regs, bo + PmPvtCtlMode) & PmPvtCtlModeMask == PmPvtCtlModeTempMon
      && Read(r.regs, bo + EmonRepeat) & (EmonEndless | EmonPeriodMask) == EmonEndless | EmonPeriod1000000
      && Read(r.regs, PmPvtCtlModeSel) == 0
      && |r.trace| == |trace| + (if coefMissing then 5 else 4)
  {
    RunAllAppend(regs, trace, InitHead(soc, coefMissing), InitTail(soc));
    InitHeadEffect(soc, coefMissing, regs, trace);
    var h := RunAll(regs, trace, InitHead(soc, coefMissing));
    InitTailEffect(soc, h.regs, h.trace);
  }

  /** The head stops the PVT, keeping the other bits of PMPVTCTLEN. */
  lemma InitHeadEffect(soc: Soc, coefMissing: bool, regs: Window, trace: seq<Write32>)
    ensures var h := RunAll(regs, trace, InitHead(soc, coefMissing));
      var bo := soc.BlockOffset();
      && Read(h.regs, bo + PmPvtCtlEn) & PmPvtCtlEnBit == 0
      && Read(h.regs, bo + PmPvtCtlEn) & !PmPvtCtlEnBit == Read(regs, bo + PmPvtCtlEn) & !PmPvtCtlEnBit
      && |h.trace| == |trace| + (if coefMissing then 2 else 1)
  {
    var ops := InitHead(soc, coefMissing);
    var r0 := Perform(regs, trace, ops[0]);
    RunAllFrom(regs, trace, ops, 0);
    var r1 := Perform(r0.regs, r0.trace, ops[1]);
    RunAllFrom(r0.regs, r0.trace, ops, 1);
    if coefMissing {
      RunAllFrom(r1.regs, r1.trace, ops, 2);
      assert ops[3..] == [];
    } else {
      assert ops[2..] == [];
    }
  }

  /** The tail sets its three fields and leaves PMPVTCTLEN alone. */
  lemma InitTailEffect(soc: Soc, regs: Window, trace: seq<Write32>)
    ensures var t := RunAll(regs, trace, InitTail(soc));
      var bo := soc.BlockOffset();
      && Read(t.regs, bo + PmPvtCtlEn) == Read(regs, bo + PmPvtCtlEn)
      && Read(t.regs, bo + PmPvtCtlMode) & PmPvtCtlModeMask == PmPvtCtlModeTempMon
      && Read(t.regs, bo + EmonRepeat) & (EmonEndless | EmonPeriodMask) == EmonEndless | EmonPeriod1000000
      && Read(t.regs, PmPvtCtlModeSel) == 0
      && |t.trace| == |trace| + 3
  {
    var ops := InitTail(soc);
    var r0 := Perform(regs, trace, ops[0]);
    RunAllFrom(regs, trace, ops, 0);
    var r1 := Perform(r0.regs, r0.trace, ops[1]);
    RunAllFrom(r0.regs, r0.trace, ops, 1);
    RunAllFrom(r1.regs, r1.trace, ops, 2);
    assert ops[3..] == [];
  }

  /** Running a + b is running a and then b. */
  lemma {:induction false} RunAllAppend(regs: Window, trace: seq<Write32>, a: seq<Access>, b: seq<Access>)
    ensures var h := RunAll(regs, trace, a);
            RunAll(regs, trace, a + b) == RunAll(h.regs, h.trace, b)
    decreases |a|
  {
    if a == [] {
      assert a + b == b;
    } else {
      var p := Perform(regs, trace, a[0]);
      assert (a + b)[0] == a[0] && (a + b)[1..] == a[1..] + b;
      RunAllAppend(p.regs, p.trace, a[1..], b);
    }
  }

  /** RunAll of a suffix is one access followed by RunAll of the next suffix. */
  lemma RunAllFrom(regs: Window, trace: seq<Write32>, ops: seq<Access>, i: nat)
    requires i < |ops|
    ensures var p := Perform(regs, trace, ops[i]);
            RunAll(regs, trace, ops[i..]) == RunAll(p.regs, p.trace, ops[i + 1..])
  {
    assert ops[i..][1..] == ops[i + 1..];
  }

  /** The SETALERT word of channel ch: 0xe910, 0xe914, 0xe918. */
  function SetAlertReg(ch: nat): nat { SetAlert0 + 4 * ch }

  /** The access uniphier_thermal_set_alert issues for a channel below 3:
      enable bit set, temperature field = temp / 1000 (unsigned). */
  function AlertOp(ch: nat, temp: bv32): Access
  {
    WriteBits(SetAlertReg(ch), SetAlertEnable | SetAlertTempMask, SetAlertEnable | ((temp / 1000) << 16))
  }

  /** The word set_alert leaves: enable bit set, bits 23:16 hold the low
      eight bits of q = temp / 1000, every other bit kept. */
  lemma AlertWord(cur: bv32, q: bv32)
    ensures var w := Masked(cur, SetAlertEnable | SetAlertTempMask, SetAlertEnable | (q << 16));
            && w & SetAlertEnable == SetAlertEnable
            && (w >> 16) & 0xff == q & 0xff
            && w & !(SetAlertEnable | SetAlertTempMask) == cur & !(SetAlertEnable | SetAlertTempMask)
  {
  }

  /** PMALERTINTCTL_ALERTINT_EN(ch), _ST(ch), _CLR(ch). */
  function AlertIntEn(ch: nat): bv32 requires ch < AlertChNum
  {
    if ch == 0 then 0x001 else if ch == 1 then 0x010 else 0x100
  }
  function AlertIntSt(ch: nat): bv32 requires ch < AlertChNum
  {
    if ch == 0 then 0x002 else if ch == 1 then 0x020 else 0x200
  }
  function AlertIntClr(ch: nat): bv32 requires ch < AlertChNum
  {
    if ch == 0 then 0x004 else if ch == 1 then 0x040 else 0x400
  }

  /** The enable bits of the channels below n whose alert is in use. */
  function EnableBits(alertEn: seq<bool>, n: nat): bv32
    requires n <= |alertEn| && n <= AlertChNum
  {
    if n == 0 then 0
    else if alertEn[n - 1] then EnableBits(alertEn, n - 1) | AlertIntEn(n - 1)
    else EnableBits(alertEn, n - 1)
  }

  lemma EnableBitsNext(alertEn: seq<bool>, i: nat)
    requires i < |alertEn| && i < AlertChNum
    ensures EnableBits(alertEn, i + 1)
      == if alertEn[i] then EnableBits(alertEn, i) | AlertIntEn(i) else EnableBits(alertEn, i)
  {
  }

  /** For the three channels, exactly bit 4i is set for each channel i in use. */
  lemma {:induction false} EnableBitsExact(alertEn: seq<bool>)
    requires |alertEn| == AlertChNum
    ensures EnableBits(alertEn, AlertChNum)
      == (if alertEn[0] then 0x001 else 0) | (if alertEn[1] then 0x010 else 0) | (if alertEn[2] then 0x100 else 0)
  {
    assert EnableBits(alertEn, 0) == 0;
    assert EnableBits(alertEn, 1) == (if alertEn[0] then 0x001 else 0);
    assert EnableBits(alertEn, 2) == (if alertEn[0] then 0x001 else 0) | (if alertEn[1] then 0x010 else 0);
  }

  /** The CLR and ST bits (mask) and the CLR bits (value) of the channels below n. */
  function ClearMask(n: nat): bv32
    requires n <= AlertChNum
  {
    if n == 0 then 0 else ClearMask(n - 1) | (AlertIntClr(n - 1) | AlertIntSt(n - 1))
  }
  function ClearBits(n: nat): bv32
    requires n <= AlertChNum
  {
    if n == 0 then 0 else ClearBits(n - 1) | AlertIntClr(n - 1)
  }

  /** The channel-by-channel union: 0x6, 0x66, 0x666 under the mask and
      0x4, 0x44, 0x444 set. */
  lemma {:induction false} ClearTable(n: nat)
    requires n <= AlertChNum
    ensures ClearMask(n) == (if n == 0 then 0 else if n == 1 then 0x006 else if n == 2 then 0x066 else 0x666)
    ensures ClearBits(n) == (if n == 0 then 0 else if n == 1 then 0x004 else if n == 2 then 0x044 else 0x444)
  {
    if n > 0 {
      ClearTable(n - 1);
    }
  }

  /** The interrupt clear sets CLR bits 2, 6, 10, clears ST bits 1, 5, 9
      and keeps every other bit. */
  lemma IrqClearWord(cur: bv32)
    ensures var w := Masked(cur, 0x666, 0x444);
            w & 0x444 == 0x444 && w & 0x222 == 0 && w & !0x666 == cur & !0x666
  {
  }

  /** The lowest critical trip temperature among trips[..n], IntMax when
      there is none. */
  function CritTemp(trips: seq<Trip>, n: nat): (c: int)
    requires n <= |trips|
    ensures c <= IntMax
  {
    if n == 0 then IntMax
    else
      var c := CritTemp(trips, n - 1);
      if trips[n - 1].critical && trips[n - 1].temperature < c then trips[n - 1].temperature else c
  }

  /** A thermal trip point: whether its type is THERMAL_TRIP_CRITICAL, and
      its temperature in millicelsius. */
  datatype Trip = Trip(critical: bool, temperature: int)

  /** Registers and write log after set_alert for channels 0..n-1, each
      access with its own outcome (the results are not checked). */
  function AlertsRun(regs: Window, trace: seq<Write32>, trips: seq<Trip>, n: nat, outcomes: seq<int>): Run
    requires n <= |trips| && n <= AlertChNum
  {
    if n == 0 then Run(0, regs, trace)
    else
      var r := AlertsRun(regs, trace, trips, n - 1, outcomes);
      Step(r.regs, r.trace, AlertOp(n - 1, U32(trips[n - 1].temperature)), ErrAt(outcomes, n - 1))
  }

  /** alert_en after the first n channels are marked in use. */
  function InUse(n: nat): (r: seq<bool>)
    ensures |r| == AlertChNum
    ensures forall j :: 0 <= j < AlertChNum ==> r[j] == (j < n)
  {
    [0 < n, 1 < n, 2 < n]
  }

  datatype TempResult = TempResult(ret: int, temp: int)

  class ThermalDev {
    const soc: Soc
    /** alert_en[ALERT_CH_NUM] */
    const alertEn: array<bool>
    /** The syscon registers the regmap reaches. */
    var regs: Window
    /** Every register write that reached the hardware, oldest first. */
    var trace: seq<Write32>

    ghost predicate Valid()
      reads this
    {
      alertEn.Length == AlertChNum
    }

    /** The zero-filled device structure of devm_kzalloc. */
    constructor (soc: Soc, regs0: Window)
      ensures Valid() && fresh(alertEn)
      ensures this.soc == soc && regs == regs0 && trace == []
      ensures alertEn[..] == [false, false, false]
    {
      this.soc := soc;
      alertEn := new bool[AlertChNum](_ => false);
      regs := regs0;
      trace := [];
    }

    /** One regmap write access with outcome err. */
    method Access(a: Access, err: int) returns (ret: int)
      requires !a.ReadWord?
      modifies this
      ensures Run(ret, regs, trace) == Step(old(regs), old(trace), a, err)
    {
      ret := err;
      if err == 0 {
        var r := Perform(regs, trace, a);
        regs, trace := r.regs, r.trace;
      }
    }

    /** regmap_read with outcome err. */
    method ReadReg(off: nat, err: int) returns (ret: int, v: bv32)
      ensures ret == err
      ensures err == 0 ==> v == Read(regs, off)
    {
      ret := err;
      v := if err == 0 then Read(regs, off) else 0;
    }

    /** uniphier_thermal_initialize_sensor: the accesses of InitOps in order,
        stopping at the first failure. */
    method InitializeSensor(outcomes: seq<int>) returns (ret: int)
      modifies this
      ensures var ops := InitOps(soc, Read(old(regs), TmodCoef) == 0);
              Run(ret, regs, trace) == RunStop(old(regs), old(trace), ops, outcomes, 0)
    {
      var bo := soc.BlockOffset();
      ghost var ops := InitOps(soc, Read(regs, TmodCoef) == 0);
      ghost var k0 := if Read(regs, TmodCoef) == 0 then 3 else 2;
      InitOpsAt(soc, Read(regs, TmodCoef) == 0);
      ghost var goal := RunStop(regs, trace, ops, outcomes, 0);
      RunStopNext(regs, trace, ops, outcomes, 0);
      ret := Access(WriteBits(bo + PmPvtCtlEn, PmPvtCtlEnBit, 0), ErrAt(outcomes, 0));
      if ret != 0 {
        return;
      }
      RunStopNext(regs, trace, ops, outcomes, 1);
      var coef;
      ret, coef := ReadReg(TmodCoef, ErrAt(outcomes, 1));
      if ret != 0 {
        return;
      }
      var k := 2;
      if coef == 0 {
        RunStopNext(regs, trace, ops, outcomes, 2);
        ret := Access(WriteWord(soc.SetupAddress(), soc.SetupValue()), ErrAt(outcomes, 2));
        if ret != 0 {
          return;
        }
        k := 3;
      }
      assert k == k0 && goal == RunStop(regs, trace, ops, outcomes, k);
      RunStopNext(regs, trace, ops, outcomes, k);
      ret := Access(WriteBits(bo + PmPvtCtlMode, PmPvtCtlModeMask, PmPvtCtlModeTempMon), ErrAt(outcomes, k));
      if ret != 0 {
        return;
      }
      RunStopNext(regs, trace, ops, outcomes, k + 1);
      ret := Access(WriteBits(bo + EmonRepeat, EmonEndless | EmonPeriodMask, EmonEndless | EmonPeriod1000000),
                    ErrAt(outcomes, k + 1));
      if ret != 0 {
        return;
      }
      RunStopNext(regs, trace, ops, outcomes, k + 2);
      ret := Access(WriteWord(PmPvtCtlModeSel, 0), ErrAt(outcomes, k + 2));
      if ret != 0 {
        return;
      }
      assert goal == RunStop(regs, trace, ops, outcomes, k + 3);
      ret := 0;
    }

    /** uniphier_thermal_set_alert: a channel of 3 or more is refused before
        any access. */
    method SetAlert(ch: nat, temp: bv32, err: int) returns (ret: int)
      modifies this
      ensures ch >= AlertChNum ==> ret == -EINVAL && regs == old(regs) && trace == old(trace)
      ensures ch < AlertChNum ==>
        Run(ret, regs, trace) == Step(old(regs), old(trace), AlertOp(ch, temp), err)
    {
      if ch >= AlertChNum {
        return -EINVAL;
      }
      ret := Access(AlertOp(ch, temp), err);
    }

    /** uniphier_thermal_enable_sensor: the alert enable bits of the channels
        in use, then the PVT start bit; neither result is checked. */
    method EnableSensor(outcomes: seq<int>)
      requires Valid()
      modifies this
      ensures var bits := EnableBits(alertEn[..], AlertChNum);
              var r1 := Step(old(regs), old(trace), WriteBits(PmAlertIntCtl, AlertIntAllBits, bits), ErrAt(outcomes, 0));
              var r2 := Step(r1.regs, r1.trace, WriteBits(soc.BlockOffset() + PmPvtCtlEn, PmPvtCtlEnBit, 1),
                             ErrAt(outcomes, 1));
              regs == r2.regs && trace == r2.trace
    {
      var bits: bv32 := 0;
      ghost var inUse := alertEn[..];
      for i := 0 to AlertChNum
        invariant bits == EnableBits(inUse, i)
        invariant regs == old(regs) && trace == old(trace)
      {
        EnableBitsNext(inUse, i);
        if alertEn[i] {
          bits := bits | AlertIntEn(i);
        }
      }
      var _ := Access(WriteBits(PmAlertIntCtl, AlertIntAllBits, bits), ErrAt(outcomes, 0));
      var _ := Access(WriteBits(soc.BlockOffset() + PmPvtCtlEn, PmPvtCtlEnBit, 1), ErrAt(outcomes, 1));
    }

    /** uniphier_thermal_disable_sensor: all alert bits cleared, then the PVT
        stop bit; neither result is checked. */
    method DisableSensor(outcomes: seq<int>)
      modifies this
      ensures var r1 := Step(old(regs), old(trace), WriteBits(PmAlertIntCtl, AlertIntAllBits, 0), ErrAt(outcomes, 0));
              var r2 := Step(r1.regs, r1.trace, WriteBits(soc.BlockOffset() + PmPvtCtlEn, PmPvtCtlEnBit, 0),
                             ErrAt(outcomes, 1));
              regs == r2.regs && trace == r2.trace
    {
      var _ := Access(WriteBits(PmAlertIntCtl, AlertIntAllBits, 0), ErrAt(outcomes, 0));
      var _ := Access(WriteBits(soc.BlockOffset() + PmPvtCtlEn, PmPvtCtlEnBit, 0), ErrAt(outcomes, 1));
    }

    /** uniphier_thermal_irq_clear: CLR and ST of every channel under the
        mask, CLR set. */
    method IrqClear(err: int)
      modifies this
      ensures var r := Step(old(regs), old(trace), WriteBits(PmAlertIntCtl, 0x666, 0x444), err);
              regs == r.regs && trace == r.trace
    {
      var mask: bv32, bits: bv32 := 0, 0;
      for i := 0 to AlertChNum
        invariant mask == ClearMask(i) && bits == ClearBits(i)
        invariant regs == old(regs) && trace == old(trace)
      {
        ClearTable(i);
        ClearTable(i + 1);
        mask := mask | (AlertIntClr(i) | AlertIntSt(i));
        bits := bits | AlertIntClr(i);
      }
      ClearTable(AlertChNum);
      var _ := Access(WriteBits(PmAlertIntCtl, mask, bits), err);
    }

    /** uniphier_thermal_get_temp: TMOD's low nine bits in millicelsius. */
    function GetTemp(err: int): (r: TempResult)
      reads this
      ensures r.ret == err
      ensures err == 0 ==> 0 <= r.temp <= 511 * 1000 && r.temp % 1000 == 0
      ensures err == 0 ==> r.temp / 1000 == (Read(regs, Tmod) & TmodMask) as int
    {
      if err != 0 then TempResult(err, 0)
      else TempResult(0, (Read(regs, Tmod) & TmodMask) as int * 1000)
    }

    /** The trip-validation part of uniphier_thermal_probe: too many trips
        is refused; otherwise the sensor is initialised (its result ignored),
        each trip programs its alert channel and marks it in use, and a
        critical temperature above the SoC limit, or none, is refused. */
    method ProbeTrips(trips: seq<Trip>, ntrips: int, initOutcomes: seq<int>, alertOutcomes: seq<int>)
      returns (ret: int)
      requires Valid() && ntrips <= |trips|
      requires forall i :: 0 <= i < AlertChNum ==> !alertEn[i]
      modifies this, alertEn
      ensures ntrips > AlertChNum ==> ret == -E2BIG && regs == old(regs) && trace == old(trace)
                                       && alertEn[..] == old(alertEn[..])
      ensures ntrips <= AlertChNum ==>
        && var n := if ntrips < 0 then 0 else ntrips;
        && ret == (if CritTemp(trips, n) > CriticalTempLimit then -EINVAL else 0)
        && (forall i :: 0 <= i < AlertChNum ==> alertEn[i] == (i < n))
        && var init := RunStop(old(regs), old(trace), InitOps(soc, Read(old(regs), TmodCoef) == 0), initOutcomes, 0);
           var alerts := AlertsRun(init.regs, init.trace, trips, n, alertOutcomes);
           regs == alerts.regs && trace == alerts.trace
    {
      if ntrips > AlertChNum {
        return -E2BIG;
      }
      var n := if ntrips < 0 then 0 else ntrips;
      var _ := InitializeSensor(initOutcomes);
      ghost var init := Run(0, regs, trace);
      ghost var done := init;
      var crit := IntMax;
      for i := 0 to n
        invariant crit == CritTemp(trips, i)
        invariant done == AlertsRun(init.regs, init.trace, trips, i, alertOutcomes)
        invariant regs == done.regs && trace == done.trace
        invariant alertEn[..] == InUse(i)
      {
        if trips[i].critical && trips[i].temperature < crit {
          crit := trips[i].temperature;
        }
        var _ := SetAlert(i, U32(trips[i].temperature), ErrAt(alertOutcomes, i));
        done := Step(done.regs, done.trace, AlertOp(i, U32(trips[i].temperature)), ErrAt(alertOutcomes, i));
        alertEn[i] := true;
      }
      if crit > CriticalTempLimit {
        return -EINVAL;
      }
      ret := 0;
    }
  }

  /** CritTemp is the minimum over the critical trips, IntMax when there is
      none. */
  lemma {:induction false} CritTempIsMinimum(trips: seq<Trip>, n: nat)
    requires n <= |trips|
    ensures forall i :: 0 <= i < n && trips[i].critical ==> CritTemp(trips, n) <= trips[i].temperature
    ensures CritTemp(trips, n) == IntMax
            || exists i :: 0 <= i < n && trips[i].critical && CritTemp(trips, n) == trips[i].temperature
  {
    if n > 0 {
      CritTempIsMinimum(trips, n - 1);
    }
  }

  /** With a fully working regmap the probe accepts exactly the trip sets
      whose lowest critical temperature is at most 95 degrees Celsius. */
  lemma ProbeAccepts(trips: seq<Trip>, n: nat)
    requires n <= |trips| && n <= AlertChNum
    ensures CritTemp(trips, n) <= CriticalTempLimit
        <==> exists i :: 0 <= i < n && trips[i].critical && trips[i].temperature <= CriticalTempLimit
  {
    CritTempIsMinimum(trips, n);
  }

  /** A successful set_alert on channel ch < 3 sets that channel's enable
      bit and temperature field and changes no other register or bit. */
  lemma SetAlertEffect(regs: Window, trace: seq<Write32>, ch: nat, temp: bv32)
    requires ch < AlertChNum
    ensures var w := Read(Step(regs, trace, AlertOp(ch, temp), 0).regs, SetAlertReg(ch));
            var cur := Read(regs, SetAlertReg(ch));
            && w & SetAlertEnable == SetAlertEnable
            && (w >> 16) & 0xff == (temp / 1000) & 0xff
            && w & !(SetAlertEnable | SetAlertTempMask) == cur & !(SetAlertEnable | SetAlertTempMask)
    ensures forall off :: off != SetAlertReg(ch) ==>
              Read(Step(regs, trace, AlertOp(ch, temp), 0).regs, off) == Read(regs, off)
  {
    AlertWord(Read(regs, SetAlertReg(ch)), temp / 1000);
  }

  /** With both accesses succeeding, enable_sensor leaves within 0x777 of
      PMALERTINTCTL exactly bit 4i for each channel i in use, and sets the
      PVT enable bit. */
  lemma EnableSensorEffect(soc: Soc, regs: Window, trace: seq<Write32>, alertEn: seq<bool>)
    requires |alertEn| == AlertChNum
    ensures var r1 := Step(regs, trace, WriteBits(PmAlertIntCtl, AlertIntAllBits, EnableBits(alertEn, AlertChNum)), 0);
            var r2 := Step(r1.regs, r1.trace, WriteBits(soc.BlockOffset() + PmPvtCtlEn, PmPvtCtlEnBit, 1), 0);
            && Read(r2.regs, PmAlertIntCtl) & AlertIntAllBits
               == (if alertEn[0] then 0x001 else 0) | (if alertEn[1] then 0x010 else 0) | (if alertEn[2] then 0x100 else 0)
            && Read(r2.regs, soc.BlockOffset() + PmPvtCtlEn) & PmPvtCtlEnBit == PmPvtCtlEnBit
  {
    EnableBitsExact(alertEn);
  }

  /** With both accesses succeeding, disable_sensor clears all of 0x777 in
      PMALERTINTCTL and the PVT enable bit. */
  lemma DisableSensorEffect(soc: Soc, regs: Window, trace: seq<Write32>)
    ensures var r1 := Step(regs, trace, WriteBits(PmAlertIntCtl, AlertIntAllBits, 0), 0);
            var r2 := Step(r1.regs, r1.trace, WriteBits(soc.BlockOffset() + PmPvtCtlEn, PmPvtCtlEnBit, 0), 0);
            && Read(r2.regs, PmAlertIntCtl) & AlertIntAllBits == 0
            && Read(r2.regs, soc.BlockOffset() + PmPvtCtlEn) & PmPvtCtlEnBit == 0
  {
  }

  /** A successful irq_clear sets CLR bits 2, 6, 10, clears ST bits 1, 5, 9
      of PMALERTINTCTL and keeps its other bits. */
  lemma IrqClearEffect(regs: Window, trace: seq<Write32>)
    ensures var w := Read(Step(regs, trace, WriteBits(PmAlertIntCtl, 0x666, 0x444), 0).regs, PmAlertIntCtl);
            var cur := Read(regs, PmAlertIntCtl);
            w & 0x444 == 0x444 && w & 0x222 == 0 && w & !0x666 == cur & !0x666
  {
    IrqClearWord(Read(regs, PmAlertIntCtl));
  }
}
