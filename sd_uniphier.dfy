// The UniPhier SD host glue (drivers/mmc/host/tmio_mmc_uniphier.c): the
// signal-voltage switch, the clock-derived frequency limits and the UHS
// capability fallback of probe. Clock, pinctrl and allocation results are
// inputs; the host's 16-bit control registers are a window of bv16 words.
module UniphierSd {
  import opened Wrappers

  const CtlSdVolt: nat := 0x1e4
  const CtlSdVoltMask: bv16 := 0x3      // GENMASK(1, 0)
  const CtlSdVolt330: bv16 := 1         // 3.3 V signalling
  const CtlSdVolt180: bv16 := 2         // 1.8 V signalling

  // MMC_CAP_UHS_SDR12 .. MMC_CAP_UHS_DDR50 are bits 16..20 of mmc->caps
  const CapUhs: bv32 := 0x1f_0000

  const ENOTSUPP: int := 524
  const ENOMEM: int := 12

  const U32Range: nat := 0x1_0000_0000

  /** ios->signal_voltage */
  datatype SignalVoltage = Voltage330 | Voltage180 | Voltage120

  /** The pinctrl states the driver looked up. */
  datatype PinState = PinDefault | PinUhs

  datatype Write16 = Write16(off: nat, val: bv16)

  /** The new CTL_SD_VOLT word: bits 1:0 replaced by the field value. */
  function VoltWord(cur: bv16, val: bv16): bv16
  {
    (cur & !CtlSdVoltMask) | (val & CtlSdVoltMask)
  }

  /** The update changes only bits 1:0, which then hold the field value. */
  lemma VoltWordField(cur: bv16, val: bv16)
    requires val <= 3
    ensures VoltWord(cur, val) & !CtlSdVoltMask == cur & !CtlSdVoltMask
    ensures VoltWord(cur, val) & CtlSdVoltMask == val
  {
  }

  /** The field value and pin state of a supported voltage. */
  function VoltSetting(v: SignalVoltage): Option<(bv16, PinState)>
  {
    match v
    case Voltage330 => Some((CtlSdVolt330, PinDefault))
    case Voltage180 => Some((CtlSdVolt180, PinUhs))
    case Voltage120 => None
  }

  /** The low 32 bits of an unsigned long (mmc->f_max is a u32). */
  function ToU32(x: nat): (r: nat)
    ensures r < U32Range
    ensures x < U32Range ==> r == x
  {
    x % U32Range
  }

  /** Steps of uniphier_sd_uhs_init: the pinctrl handle, then the default
      and "uhs" states; the first failure is returned. */
  function UhsInit(getRet: int, defaultRet: int, uhsRet: int): int
  {
    if getRet != 0 then getRet else if defaultRet != 0 then defaultRet else uhsRet
  }

  class SdHost {
    var regs: map<nat, bv16>
    var trace: seq<Write16>
    /** The pin state last selected through pinctrl_select_state. */
    var pins: Option<PinState>
    var fMax: nat
    var fMin: nat
    var caps: bv32
    /** Whether start_signal_voltage_switch is installed in the host ops. */
    var voltageSwitch: bool

    ghost predicate Valid()
      reads this
    {
      fMax < U32Range && fMin < U32Range
    }

    constructor (regs0: map<nat, bv16>, fMax0: nat, caps0: bv32)
      requires fMax0 < U32Range
      ensures Valid() && regs == regs0 && trace == [] && pins == None
      ensures fMax == fMax0 && fMin == 0 && caps == caps0 && !voltageSwitch
    {
      regs, trace, pins := regs0, [], None;
      fMax, fMin, caps := fMax0, 0, caps0;
      voltageSwitch := false;
    }

    function ReadVolt(): bv16
      reads this
    {
      if CtlSdVolt in regs then regs[CtlSdVolt] else 0
    }

    /** uniphier_sd_start_signal_voltage_switch */
    method StartSignalVoltageSwitch(v: SignalVoltage) returns (ret: int)
      modifies this
      ensures VoltSetting(v).None? ==> ret == -ENOTSUPP && regs == old(regs) && trace == old(trace) && pins == old(pins)
      ensures VoltSetting(v).Some? ==>
        var (val, pin) := VoltSetting(v).value;
        && ret == 0
        && regs == old(regs)[CtlSdVolt := VoltWord(old(ReadVolt()), val)]
        && trace == old(trace) + [Write16(CtlSdVolt, VoltWord(old(ReadVolt()), val))]
        && pins == Some(pin)
      ensures fMax == old(fMax) && fMin == old(fMin) && caps == old(caps) && voltageSwitch == old(voltageSwitch)
    {
      var val: bv16;
      var pinstate: PinState;
      match v {
        case Voltage330 =>
          val := CtlSdVolt330;
          pinstate := PinDefault;
        case Voltage180 =>
          val := CtlSdVolt180;
          pinstate := PinUhs;
        case Voltage120 =>
          return -ENOTSUPP;
      }
      var tmp := VoltWord(ReadVolt(), val);
      regs := regs[CtlSdVolt := tmp];
      trace := trace + [Write16(CtlSdVolt, tmp)];
      pins := Some(pinstate);
      ret := 0;
    }

    /** uniphier_sd_clk_enable, given the results of clk_prepare_enable and
        clk_set_rate(ULONG_MAX) and the rate clk_get_rate reports. */
    method ClkEnable(prepareRet: int, setRateRet: int, rate: nat) returns (ret: int)
      requires Valid()
      modifies this
      ensures Valid()
      ensures prepareRet != 0 ==> ret == prepareRet && fMax == old(fMax) && fMin == old(fMin)
      ensures prepareRet == 0 && setRateRet != 0 ==> ret == setRateRet && fMax == old(fMax) && fMin == old(fMin)
      ensures prepareRet == 0 && setRateRet == 0 ==>
        && ret == 0
        && fMax == (if rate != 0 then ToU32(rate) else old(fMax))
        && fMin * 1024 <= fMax < (fMin + 1) * 1024
      ensures regs == old(regs) && trace == old(trace) && pins == old(pins) && caps == old(caps)
      ensures voltageSwitch == old(voltageSwitch)
    {
      ret := prepareRet;
      if ret != 0 {
        return;
      }
      ret := setRateRet;
      if ret != 0 {
        return;
      }
      if rate != 0 {
        fMax := ToU32(rate);
      }
      fMin := fMax / 1024;
      return 0;
    }

    /** The UHS part of uniphier_sd_probe: when the DT grants any UHS mode,
        the pinctrl states are looked up; on failure every UHS capability is
        dropped and probe goes on. */
    method UhsFallback(getRet: int, defaultRet: int, uhsRet: int)
      modifies this
      ensures old(caps) & CapUhs == 0 ==> caps == old(caps) && voltageSwitch == old(voltageSwitch)
      ensures old(caps) & CapUhs != 0 && UhsInit(getRet, defaultRet, uhsRet) != 0 ==>
                caps == old(caps) & !CapUhs && voltageSwitch == old(voltageSwitch)
      ensures old(caps) & CapUhs != 0 && UhsInit(getRet, defaultRet, uhsRet) == 0 ==>
                caps == old(caps) && voltageSwitch
      ensures regs == old(regs) && trace == old(trace) && pins == old(pins)
      ensures fMax == old(fMax) && fMin == old(fMin)
    {
      if caps & CapUhs != 0 {
        var ret := getRet;
        if ret == 0 {
          ret := defaultRet;
        }
        if ret == 0 {
          ret := uhsRet;
        }
        if ret == 0 {
          voltageSwitch := true;
        } else {
          caps := caps & !CapUhs;
        }
      }
    }
  }

  /** f_min is f_max / 1024 rounded down. */
  lemma FMinBounds(fMax: nat)
    ensures (fMax / 1024) * 1024 <= fMax < (fMax / 1024 + 1) * 1024
    ensures fMax >= 1024 ==> fMax / 1024 >= 1
  {
  }

  /** Dropping the UHS capabilities clears exactly bits 16..20 and keeps
      every other capability. */
  lemma UhsDropped(caps: bv32)
    ensures (caps & !CapUhs) & CapUhs == 0
    ensures (caps & !CapUhs) & !CapUhs == caps & !CapUhs
  {
  }

  /** A supported voltage always selects a field value that fits bits 1:0,
      and the two supported voltages select different values and pin states. */
  lemma VoltSettingDistinct()
    ensures VoltSetting(Voltage330).value.0 != VoltSetting(Voltage180).value.0
    ensures VoltSetting(Voltage330).value.1 != VoltSetting(Voltage180).value.1
    ensures forall v :: VoltSetting(v).Some? ==> VoltSetting(v).value.0 <= 3
  {
  }

  /** Where uniphier_sd_probe stands after the host allocation and the
      device-tree parse: going on, leaving through free_host (or returning)
      with an error, or faulting on a NULL host while an error code is still
      pending in ret (None while ret has not been assigned). */
  datatype AllocStep = Proceed | Fail(err: int) | NullDeref(pending: Option<int>)

  /** Lines 185-191 of uniphier_sd_probe as written, one statement at a
      time; hostOk is whether tmio_mmc_host_alloc returned a host, parseRet
      what mmc_of_parse returns. A failed allocation only stores -ENOMEM;
      the parse call then reads host->mmc, and only afterwards is ret
      overwritten with the parse result and tested. */
  function HostAllocAsWritten(hostOk: bool, parseRet: int): AllocStep
  {
    var ret := if hostOk then None else Some(-ENOMEM);
    if !hostOk then NullDeref(ret)
    else
      var ret := parseRet;
      if ret != 0 then Fail(ret) else Proceed
  }

  /** As written, a failed allocation reaches the NULL dereference whatever
      the parse would return, with -ENOMEM stored but never returned. */
  lemma HostAllocAsWrittenDerefs(parseRet: int)
    ensures HostAllocAsWritten(false, parseRet) == NullDeref(Some(-ENOMEM))
  {
  }

  /** As written, the -ENOMEM store never reaches the result: every error
      probe leaves with comes from a successful allocation and is the parse
      result. */
  lemma HostAllocStoreLost(hostOk: bool, parseRet: int)
    ensures HostAllocAsWritten(hostOk, parseRet).Fail? ==>
              hostOk && HostAllocAsWritten(hostOk, parseRet).err == parseRet
    ensures HostAllocAsWritten(hostOk, parseRet) == Proceed <==> hostOk && parseRet == 0
    ensures HostAllocAsWritten(hostOk, parseRet).NullDeref? <==> !hostOk
  {
  }

  /** The evident intent: a failed allocation returns -ENOMEM before
      host->mmc is read; the rest is as written. */
  function HostAlloc(hostOk: bool, parseRet: int): AllocStep
  {
    if !hostOk then Fail(-ENOMEM)
    else
      var ret := parseRet;
      if ret != 0 then Fail(ret) else Proceed
  }

  /** The corrected probe never dereferences a NULL host, returns -ENOMEM
      for a failed allocation, and agrees with the code as written whenever
      the allocation succeeds. */
  lemma HostAllocNeverDerefs(hostOk: bool, parseRet: int)
    ensures !HostAlloc(hostOk, parseRet).NullDeref?
    ensures !hostOk ==> HostAlloc(hostOk, parseRet) == Fail(-ENOMEM)
    ensures hostOk ==> HostAlloc(hostOk, parseRet) == HostAllocAsWritten(hostOk, parseRet)
    ensures HostAllocAsWritten(hostOk, parseRet).NullDeref? <==>
              HostAllocAsWritten(hostOk, parseRet) != HostAlloc(hostOk, parseRet)
  {
  }
}
