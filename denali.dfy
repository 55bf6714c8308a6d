// The device-tree glue of the Denali NAND controller
// (drivers/mtd/nand/raw/denali_dt.c): which chip selects of a NAND chip node
// are taken, how the three clocks are chosen, enabled and released, and the
// fallback clock rates. Device-tree reads, clock-framework results and the
// controller-level init routines are inputs.
module DenaliDt {
  import opened Wrappers
  import opened Mmio

  /** DENALI_NR_BANKS: chip selects of the controller (denali.h). */
  const NrBanks: nat := 4

  const EINVAL: int := 22
  const ENOMEM: int := 12

  /** Rates used when the "nand_x" clock is missing. */
  const DefaultClkRate: nat := 50000000
  const DefaultClkXRate: nat := 200000000

  // ---------------------------------------------------------------------
  // denali_dt_chip_init: the "reg" bank list of one chip node
  // ---------------------------------------------------------------------

  /** One of_property_read_u32_index call: its return code and the value it
      stored (meaningful only when the code is 0). */
  datatype Cell = Cell(ret: int, bank: nat)

  /** The inputs of one chip node: the result of
      of_property_count_u32_elems (negative on failure, otherwise the number
      of cells), whether devm_kzalloc succeeded, the reads of the "reg"
      cells, and what denali_chip_init returns. */
  datatype ChildIn = ChildIn(countErr: int, allocOk: bool, cells: seq<Cell>, chipInitRet: int)

  /** Is bank `b` set in the probed_banks mask? */
  predicate Probed(probed: bv32, b: nat)
    requires b < NrBanks
  {
    probed & Bit(b) != 0
  }

  /** A cell that is stored and lets the scan go on. */
  predicate Accepts(probed: bv32, c: Cell)
  {
    c.ret == 0 && c.bank < NrBanks && Probed(probed, c.bank)
  }

  /** A cell that ends the scan without an error: a valid bank with no chip. */
  predicate Stops(probed: bv32, c: Cell)
  {
    c.ret == 0 && c.bank < NrBanks && !Probed(probed, c.bank)
  }

  /** A cell that ends the scan with error e: a failed read, returned as
      is, or a bank beyond the controller's chip selects. */
  predicate FailsWith(probed: bv32, c: Cell, e: int)
  {
    (c.ret != 0 && e == c.ret) || (c.ret == 0 && c.bank >= NrBanks && e == -EINVAL)
  }

  datatype Scan = Accepted(n: nat) | Failed(err: int)

  /** The bank loop from index i: the number of accepted leading cells, or
      the error that ends the loop. */
  function ScanFrom(probed: bv32, cells: seq<Cell>, i: nat): (r: Scan)
    requires i <= |cells|
    ensures r.Accepted? ==> i <= r.n <= |cells|
    decreases |cells| - i
  {
    if i == |cells| then Accepted(i)
    else if cells[i].ret != 0 then Failed(cells[i].ret)
    else if cells[i].bank >= NrBanks then Failed(-EINVAL)
    else if !Probed(probed, cells[i].bank) then Accepted(i)
    else ScanFrom(probed, cells, i + 1)
  }

  /** The banks stored in the chip: the values of the accepted cells. */
  function Banks(cells: seq<Cell>): (r: seq<nat>)
    ensures |r| == |cells|
    ensures forall j :: 0 <= j < |cells| ==> r[j] == cells[j].bank
  {
    if cells == [] then [] else Banks(cells[..|cells| - 1]) + [cells[|cells| - 1].bank]
  }

  datatype ChipOutcome = ChipOutcome(ret: int, chip: Option<seq<nat>>)

  /** denali_dt_chip_init as a function: the return code and the bank list
      handed to denali_chip_init (None when it is not reached). */
  function ChipInitSpec(probed: bv32, c: ChildIn): ChipOutcome
  {
    if c.countErr < 0 then ChipOutcome(c.countErr, None)
    else if !c.allocOk then ChipOutcome(-ENOMEM, None)
    else match ScanFrom(probed, c.cells, 0)
      case Failed(e) => ChipOutcome(e, None)
      case Accepted(n) => ChipOutcome(c.chipInitRet, Some(Banks(c.cells[..n])))
  }

  /** denali_dt_chip_init: the banks array is filled while the loop runs and
      nbanks is the loop counter at the exit. */
  method ChipInit(probed: bv32, c: ChildIn) returns (ret: int, chip: Option<seq<nat>>)
    ensures ChipOutcome(ret, chip) == ChipInitSpec(probed, c)
  {
    if c.countErr < 0 {
      return c.countErr, None;
    }
    if !c.allocOk {
      return -ENOMEM, None;
    }
    var nbanks := |c.cells|;
    var banks := new nat[nbanks];
    var i := 0;
    while i < nbanks
      invariant 0 <= i <= nbanks
      invariant ScanFrom(probed, c.cells, i) == ScanFrom(probed, c.cells, 0)
      invariant forall j :: 0 <= j < i ==> banks[j] == c.cells[j].bank
    {
      var cell := c.cells[i];
      if cell.ret != 0 {
        return cell.ret, None;
      }
      if cell.bank >= NrBanks {
        return -EINVAL, None;
      }
      if !Probed(probed, cell.bank) {
        break;
      }
      banks[i] := cell.bank;
      i := i + 1;
    }
    assert banks[..i] == Banks(c.cells[..i]);
    return c.chipInitRet, Some(banks[..i]);
  }

  /** Every cell before the scan's end is accepted, and the cell it ends on,
      if any, is a valid bank with no chip. */
  lemma {:induction false} ScanAcceptedShape(probed: bv32, cells: seq<Cell>, i: nat, n: nat)
    requires i <= |cells| && ScanFrom(probed, cells, i) == Accepted(n)
    ensures i <= n <= |cells|
    ensures forall j :: i <= j < n ==> Accepts(probed, cells[j])
    ensures n < |cells| ==> Stops(probed, cells[n])
    decreases |cells| - i
  {
    if i < |cells| && cells[i].ret == 0 && cells[i].bank < NrBanks && Probed(probed, cells[i].bank) {
      ScanAcceptedShape(probed, cells, i + 1, n);
    }
  }

  /** The scan accepts exactly n leading cells iff those n cells are all
      accepted and the list ends or stops right after them. */
  lemma {:induction false} ScanAcceptedIff(probed: bv32, cells: seq<Cell>, i: nat, n: nat)
    requires i <= n <= |cells|
    ensures ScanFrom(probed, cells, i) == Accepted(n) <==>
      (forall j :: i <= j < n ==> Accepts(probed, cells[j])) &&
      (n == |cells| || Stops(probed, cells[n]))
    decreases |cells| - i
  {
    if ScanFrom(probed, cells, i) == Accepted(n) {
      ScanAcceptedShape(probed, cells, i, n);
    } else if i < n {
      if Accepts(probed, cells[i]) {
        ScanAcceptedIff(probed, cells, i + 1, n);
      }
    }
  }

  /** The scan fails at some cell k: every cell before it is accepted and
      k carries a read error (returned as is) or a bank out of range
      (-EINVAL). */
  lemma {:induction false} ScanFailedShape(probed: bv32, cells: seq<Cell>, i: nat, e: int)
    requires i <= |cells| && ScanFrom(probed, cells, i) == Failed(e)
    ensures exists k :: i <= k < |cells| && (forall j :: i <= j < k ==> Accepts(probed, cells[j])) &&
                        FailsWith(probed, cells[k], e)
    decreases |cells| - i
  {
    if cells[i].ret != 0 || cells[i].bank >= NrBanks {
      assert i <= i < |cells|;
    } else {
      ScanFailedShape(probed, cells, i + 1, e);
      var k :| i + 1 <= k < |cells| && (forall j :: i + 1 <= j < k ==> Accepts(probed, cells[j])) &&
        FailsWith(probed, cells[k], e);
      assert forall j :: i <= j < k ==> Accepts(probed, cells[j]);
    }
  }

  /** Cells after the one that stops the scan are never examined: replacing
      them, even by read errors or out-of-range banks, changes nothing. */
  lemma ScanIgnoresTail(probed: bv32, cells: seq<Cell>, n: nat, tail: seq<Cell>)
    requires ScanFrom(probed, cells, 0) == Accepted(n) && n < |cells|
    ensures ScanFrom(probed, cells[..n + 1] + tail, 0) == Accepted(n)
  {
    ScanAcceptedShape(probed, cells, 0, n);
    var cells' := cells[..n + 1] + tail;
    assert forall j :: 0 <= j <= n ==> cells'[j] == cells[j];
    ScanAcceptedIff(probed, cells', 0, n);
  }

  /** What the chip receives: nbanks is the number of accepted leading
      cells and banks[] holds their values in order. */
  lemma ChipInitBanks(probed: bv32, c: ChildIn)
    requires c.countErr >= 0 && c.allocOk
    ensures ChipInitSpec(probed, c).chip.Some? <==> ScanFrom(probed, c.cells, 0).Accepted?
    ensures ChipInitSpec(probed, c).chip.Some? ==>
      var banks := ChipInitSpec(probed, c).chip.value;
      && ChipInitSpec(probed, c).ret == c.chipInitRet
      && |banks| <= |c.cells|
      && (forall j :: 0 <= j < |banks| ==> banks[j] == c.cells[j].bank && banks[j] < NrBanks && Probed(probed, banks[j]))
      && (|banks| < |c.cells| ==> Stops(probed, c.cells[|banks|]))
  {
    match ScanFrom(probed, c.cells, 0)
    case Failed(e) =>
    case Accepted(n) =>
      ScanAcceptedShape(probed, c.cells, 0, n);
  }

  // ---------------------------------------------------------------------
  // denali_dt_probe / denali_dt_remove: clocks
  // ---------------------------------------------------------------------

  /** The core clock, the bus interface clock "nand_x" and the ECC clock. */
  datatype Clk = Core | X | Ecc

  /** Which handle dt->clk holds: the named "nand" clock or, for old device
      trees, the anonymous one. */
  datatype CoreClk = NandClk | AnonymousClk

  /** clk_prepare_enable and clk_disable_unprepare on a clock that exists
      (the calls on a NULL clock do nothing). */
  datatype ClkEvent = Enable(clk: Clk) | Disable(clk: Clk)

  /** The inputs of probe: allocation, IRQ and resource lookups (0 or a
      negative code), the two devm_clk_get results for the core clock,
      whether the optional clocks exist, the three enable results, the
      clock rates, what denali_init returns and reports as probed_banks,
      and the chip child nodes. */
  datatype ProbeIn = ProbeIn(
    allocOk: bool, irq: int, regErr: int, hostErr: int,
    nandClkErr: int, anonClkErr: int, xClkOk: bool, eccClkOk: bool,
    coreEnRet: int, xEnRet: int, eccEnRet: int,
    coreRate: nat, xRate: nat,
    initRet: int, probedBanks: bv32, children: seq<ChildIn>)

  /** The core clock: "nand" if it exists, otherwise the anonymous one; if
      neither exists, the error of the last lookup. */
  function CoreClock(p: ProbeIn): (r: Option<CoreClk>)
    ensures r.None? <==> p.nandClkErr != 0 && p.anonClkErr != 0
    ensures r == Some(NandClk) <==> p.nandClkErr == 0
  {
    if p.nandClkErr == 0 then Some(NandClk)
    else if p.anonClkErr == 0 then Some(AnonymousClk)
    else None
  }

  /** The first failure of probe before any clock is enabled, or 0. */
  function SetupErr(p: ProbeIn): int
  {
    if !p.allocOk then -ENOMEM
    else if p.irq < 0 then p.irq
    else if p.regErr != 0 then p.regErr
    else if p.hostErr != 0 then p.hostErr
    else if p.nandClkErr != 0 && p.anonClkErr != 0 then p.anonClkErr
    else 0
  }

  /** The clocks that exist, in enable order. */
  function Present(xOk: bool, eccOk: bool): seq<Clk>
  {
    [Core] + (if xOk then [X] else []) + (if eccOk then [Ecc] else [])
  }

  function ClkSet(cs: seq<Clk>): set<Clk>
  {
    set c | c in cs
  }

  function Enables(cs: seq<Clk>): seq<ClkEvent>
  {
    if cs == [] then [] else [Enable(cs[0])] + Enables(cs[1..])
  }

  function Disables(cs: seq<Clk>): seq<ClkEvent>
  {
    if cs == [] then [] else [Disable(cs[0])] + Disables(cs[1..])
  }

  function Reverse<T>(s: seq<T>): seq<T>
  {
    if s == [] then [] else Reverse(s[1..]) + [s[0]]
  }

  /** The clock phase of probe: its return code and the clocks that were
      enabled when it ended (all of them on success). */
  datatype ClockPhase = ClockPhase(ret: int, up: seq<Clk>)

  /** The three clk_prepare_enable calls: the first failure and the clocks
      enabled before it, or 0 and every clock that exists. */
  function EnablePhase(p: ProbeIn): ClockPhase
  {
    Enabling(p.xClkOk, p.eccClkOk, p.coreEnRet, p.xEnRet, p.eccEnRet)
  }

  /** The same, from which optional clocks exist and what each
      clk_prepare_enable returns. */
  function Enabling(xOk: bool, eccOk: bool, coreEn: int, xEn: int, eccEn: int): ClockPhase
  {
    if coreEn != 0 then ClockPhase(coreEn, [])
    else if xOk && xEn != 0 then ClockPhase(xEn, [Core])
    else if eccOk && eccEn != 0 then ClockPhase(eccEn, Present(xOk, false))
    else ClockPhase(0, Present(xOk, eccOk))
  }

  /** The clock phase including denali_init, whose failure also releases
      every clock. */
  function Clocks(p: ProbeIn): ClockPhase
  {
    var e := EnablePhase(p);
    if e.ret == 0 && p.initRet != 0 then ClockPhase(p.initRet, e.up) else e
  }

  /** The clock calls of one phase: the enables, then, on failure, the
      disables of the enabled clocks in reverse order. */
  function PhaseEvents(c: ClockPhase): seq<ClkEvent>
  {
    Enables(c.up) + (if c.ret != 0 then Disables(Reverse(c.up)) else [])
  }

  /** The clock calls of probe: the enables, then, on failure, the
      disables of the enabled clocks in reverse order. */
  function ProbeEvents(p: ProbeIn): seq<ClkEvent>
  {
    PhaseEvents(Clocks(p))
  }

  /** The clock calls of remove, in the order the code makes them. */
  function RemoveEvents(xOk: bool, eccOk: bool): seq<ClkEvent>
  {
    (if eccOk then [Disable(Ecc)] else []) + (if xOk then [Disable(X)] else []) + [Disable(Core)]
  }

  /** clk_rate and clk_x_rate: from the clocks when "nand_x" exists,
      otherwise the fixed defaults. */
  function Rates(xOk: bool, coreRate: nat, xRate: nat): (nat, nat)
  {
    if xOk then (coreRate, xRate) else (DefaultClkRate, DefaultClkXRate)
  }

  /** The return code of denali_dt_chip_init for each child, in order. */
  function ChildResults(probed: bv32, children: seq<ChildIn>): (r: seq<int>)
    ensures |r| == |children|
    ensures forall j :: 0 <= j < |children| ==> r[j] == ChipInitSpec(probed, children[j]).ret
  {
    if children == [] then []
    else ChildResults(probed, children[..|children| - 1]) + [ChipInitSpec(probed, children[|children| - 1]).ret]
  }

  /** Which clocks are enabled after a sequence of clock calls. */
  function EnabledAfter(s: set<Clk>, evs: seq<ClkEvent>): set<Clk>
    decreases |evs|
  {
    if evs == [] then s else EnabledAfter(ClkStep(s, evs[0]), evs[1..])
  }

  function ClkStep(s: set<Clk>, e: ClkEvent): set<Clk>
  {
    match e
    case Enable(c) => s + {c}
    case Disable(c) => s - {c}
  }

  class Dt {
    /** dt->clk, or None before it is found. */
    var core: Option<CoreClk>
    /** Whether dt->clk_x and dt->clk_ecc are non-NULL. */
    var xClk: bool
    var eccClk: bool
    /** Every clk_prepare_enable / clk_disable_unprepare made, oldest first. */
    var events: seq<ClkEvent>
    var clkRate: nat
    var clkXRate: nat
    /** The return code of denali_dt_chip_init for each child tried. */
    var results: seq<int>
    /** platform_set_drvdata was called: probe succeeded. */
    var bound: bool

    constructor ()
      ensures core == None && !xClk && !eccClk && events == [] && results == [] && !bound
      ensures clkRate == 0 && clkXRate == 0
    {
      core, xClk, eccClk := None, false, false;
      events, results, bound := [], [], false;
      clkRate, clkXRate := 0, 0;
    }

    /** clk_prepare_enable: a NULL clock gives 0 and does nothing. */
    method PrepareEnable(c: Clk, present: bool, r: int) returns (ret: int)
      modifies this
      ensures ret == (if present then r else 0)
      ensures present && r == 0 ==> events == old(events) + [Enable(c)]
      ensures !(present && r == 0) ==> events == old(events)
      ensures core == old(core) && xClk == old(xClk) && eccClk == old(eccClk) && bound == old(bound)
      ensures clkRate == old(clkRate) && clkXRate == old(clkXRate) && results == old(results)
    {
      if !present {
        return 0;
      }
      if r == 0 {
        events := events + [Enable(c)];
      }
      ret := r;
    }

    /** clk_disable_unprepare: a NULL clock is ignored. */
    method DisableUnprepare(c: Clk, present: bool)
      modifies this
      ensures present ==> events == old(events) + [Disable(c)]
      ensures !present ==> events == old(events)
      ensures core == old(core) && xClk == old(xClk) && eccClk == old(eccClk) && bound == old(bound)
      ensures clkRate == old(clkRate) && clkXRate == old(clkXRate) && results == old(results)
    {
      if present {
        events := events + [Disable(c)];
      }
    }

    /** denali_dt_probe on a fresh device. */
    method Probe(p: ProbeIn) returns (ret: int)
      requires events == [] && results == [] && !bound
      modifies this
      ensures SetupErr(p) != 0 ==> ret == SetupErr(p) && events == [] && results == [] && !bound
      ensures SetupErr(p) == 0 ==>
        && core == CoreClock(p) && xClk == p.xClkOk && eccClk == p.eccClkOk
        && ret == Clocks(p).ret
        && events == ProbeEvents(p)
        && (ret == 0 <==> bound)
        && (ret == 0 ==> results == ChildResults(p.probedBanks, p.children))
        && (ret != 0 ==> results == [])
      ensures SetupErr(p) == 0 && Clocks(p).up == Present(p.xClkOk, p.eccClkOk) ==>
        (clkRate, clkXRate) == Rates(p.xClkOk, p.coreRate, p.xRate)
    {
      ret := Lookup(p);
      if ret != 0 {
        return;
      }
      ret := EnableClocks(p.xClkOk, p.eccClkOk, p.coreEnRet, p.xEnRet, p.eccEnRet);
      if ret != 0 {
        assert Clocks(p) == EnablePhase(p);
        return;
      }
      assert EnablePhase(p).up == Present(xClk, eccClk);

      SetRates(p.coreRate, p.xRate);

      ghost var up := Present(xClk, eccClk);
      assert events == Enables(up) + [];
      ret := p.initRet;
      if ret != 0 {
        DisableClocks();
        DisableOrder(xClk, eccClk);
        assert Clocks(p) == ClockPhase(ret, up);
        return;
      }

      InitChips(p);
      bound := true;
      return 0;
    }

    /** The clock rates: read from the clocks when "nand_x" exists,
        otherwise the hard-coded defaults. */
    method SetRates(coreRate: nat, xRate: nat)
      modifies this
      ensures (clkRate, clkXRate) == Rates(xClk, coreRate, xRate)
      ensures events == old(events) && core == old(core) && xClk == old(xClk) && eccClk == old(eccClk)
      ensures bound == old(bound) && results == old(results)
    {
      if xClk {
        clkRate, clkXRate := coreRate, xRate;
      } else {
        clkRate, clkXRate := DefaultClkRate, DefaultClkXRate;
      }
    }

    /** The resource and clock lookups of probe, up to the first failure. */
    method Lookup(p: ProbeIn) returns (ret: int)
      modifies this
      ensures ret == SetupErr(p)
      ensures ret == 0 ==> core == CoreClock(p) && xClk == p.xClkOk && eccClk == p.eccClkOk
      ensures events == old(events) && results == old(results) && bound == old(bound)
      ensures clkRate == old(clkRate) && clkXRate == old(clkXRate)
    {
      if !p.allocOk {
        return -ENOMEM;
      }
      if p.irq < 0 {
        return p.irq;
      }
      if p.regErr != 0 {
        return p.regErr;
      }
      if p.hostErr != 0 {
        return p.hostErr;
      }
      if p.nandClkErr == 0 {
        core := Some(NandClk);
      } else if p.anonClkErr == 0 {
        core := Some(AnonymousClk);
      } else {
        return p.anonClkErr;
      }
      xClk := p.xClkOk;
      eccClk := p.eccClkOk;
      return 0;

    }

    /** The chip loop of probe: every child node is tried, whatever the
        earlier ones returned. */
    method InitChips(p: ProbeIn)
      modifies this
      ensures results == old(results) + ChildResults(p.probedBanks, p.children)
      ensures events == old(events) && core == old(core) && xClk == old(xClk) && eccClk == old(eccClk)
      ensures bound == old(bound) && clkRate == old(clkRate) && clkXRate == old(clkXRate)
    {
      var i := 0;
      while i < |p.children|
        invariant 0 <= i <= |p.children|
        invariant results == old(results) + ChildResults(p.probedBanks, p.children[..i])
        invariant events == old(events) && core == old(core) && xClk == old(xClk) && eccClk == old(eccClk)
        invariant bound == old(bound) && clkRate == old(clkRate) && clkXRate == old(clkXRate)
      {
        var r, chip := ChipInit(p.probedBanks, p.children[i]);
        // a failing chip is reported and the next one is tried
        results := results + [r];
        assert p.children[..i + 1][..i] == p.children[..i];
        i := i + 1;
      }
      assert p.children[..i] == p.children;
    }

    /** The three clk_prepare_enable calls with the goto unwind of probe. */
    method EnableClocks(xOk: bool, eccOk: bool, coreEn: int, xEn: int, eccEn: int) returns (ret: int)
      requires xClk == xOk && eccClk == eccOk
      modifies this
      ensures ret == Enabling(xOk, eccOk, coreEn, xEn, eccEn).ret
      ensures events == old(events) + PhaseEvents(Enabling(xOk, eccOk, coreEn, xEn, eccEn))
      ensures core == old(core) && xClk == old(xClk) && eccClk == old(eccClk) && bound == old(bound)
      ensures clkRate == old(clkRate) && clkXRate == old(clkXRate) && results == old(results)
    {
      EnablingEvents(xOk, eccOk, coreEn, xEn, eccEn);
      ret := PrepareEnable(Core, true, coreEn);
      if ret != 0 {
        return;
      }
      ret := PrepareEnable(X, xOk, xEn);
      if ret != 0 {
        DisableUnprepare(Core, true);
        return;
      }
      ret := PrepareEnable(Ecc, eccOk, eccEn);
      if ret != 0 {
        DisableUnprepare(X, xOk);
        DisableUnprepare(Core, true);
        return;
      }
    }

    /** The unwind from the out_disable_clk_ecc label of probe, which is
        also the release sequence of remove: ECC clock first, then the bus
        interface clock, then the core clock. */
    method DisableClocks()
      modifies this
      ensures events == old(events) + RemoveEvents(xClk, eccClk)
      ensures core == old(core) && xClk == old(xClk) && eccClk == old(eccClk) && bound == old(bound)
      ensures results == old(results) && clkRate == old(clkRate) && clkXRate == old(clkXRate)
    {
      DisableUnprepare(Ecc, eccClk);
      DisableUnprepare(X, xClk);
      DisableUnprepare(Core, true);
    }

    /** denali_dt_remove: the clocks are released in the order of
        DisableClocks. */
    method Remove()
      requires bound
      modifies this
      ensures events == old(events) + RemoveEvents(xClk, eccClk)
      ensures core == old(core) && xClk == old(xClk) && eccClk == old(eccClk)
      ensures results == old(results) && clkRate == old(clkRate) && clkXRate == old(clkXRate)
      ensures !bound
    {
      DisableClocks();
      bound := false;
    }
  }

  lemma {:induction false} EnabledAfterAppend(s: set<Clk>, a: seq<ClkEvent>, b: seq<ClkEvent>)
    ensures EnabledAfter(s, a + b) == EnabledAfter(EnabledAfter(s, a), b)
    decreases |a|
  {
    if a == [] {
      assert a + b == b;
    } else {
      assert (a + b)[0] == a[0];
      assert (a + b)[1..] == a[1..] + b;
      EnabledAfterAppend(ClkStep(s, a[0]), a[1..], b);
    }
  }

  lemma {:induction false} EnablesAdd(s: set<Clk>, cs: seq<Clk>)
    ensures EnabledAfter(s, Enables(cs)) == s + ClkSet(cs)
    decreases |cs|
  {
    if cs != [] {
      EnablesAdd(s + {cs[0]}, cs[1..]);
      assert ClkSet(cs) == {cs[0]} + ClkSet(cs[1..]);
    }
  }

  lemma {:induction false} DisablesRemove(s: set<Clk>, cs: seq<Clk>)
    ensures EnabledAfter(s, Disables(cs)) == s - ClkSet(cs)
    decreases |cs|
  {
    if cs != [] {
      DisablesRemove(s - {cs[0]}, cs[1..]);
      assert ClkSet(cs) == {cs[0]} + ClkSet(cs[1..]);
    }
  }

  lemma {:induction false} ReverseSameClocks(cs: seq<Clk>)
    ensures ClkSet(Reverse(cs)) == ClkSet(cs)
    decreases |cs|
  {
    if cs != [] {
      ReverseSameClocks(cs[1..]);
      assert ClkSet(cs) == {cs[0]} + ClkSet(cs[1..]);
    }
  }

  /** The clock calls of the enable phase, written out case by case. */
  lemma EnablingEvents(xOk: bool, eccOk: bool, coreEn: int, xEn: int, eccEn: int)
    ensures PhaseEvents(Enabling(xOk, eccOk, coreEn, xEn, eccEn)) ==
      if coreEn != 0 then []
      else if xOk && xEn != 0 then [Enable(Core), Disable(Core)]
      else if eccOk && eccEn != 0 then
        (if xOk then [Enable(Core), Enable(X), Disable(X), Disable(Core)] else [Enable(Core), Disable(Core)])
      else [Enable(Core)] + (if xOk then [Enable(X)] else []) + (if eccOk then [Enable(Ecc)] else [])
  {
    var c := Enabling(xOk, eccOk, coreEn, xEn, eccEn);
    if coreEn != 0 {
      assert Reverse<Clk>([]) == [];
    } else if xOk && xEn != 0 {
      EnablesTwo(Core, Core);
      DisablesTwo(Core, Core);
      assert Reverse([Core]) == [Core];
    } else if eccOk && eccEn != 0 {
      ReleaseOrder(xOk, false);
    } else {
      ReleaseOrder(xOk, eccOk);
    }
  }

  /** The enables of the clocks that exist, one by one, and their disables
      in the order remove makes them, which is the reverse. */
  lemma ReleaseOrder(xOk: bool, eccOk: bool)
    ensures Enables(Present(xOk, eccOk)) ==
      [Enable(Core)] + (if xOk then [Enable(X)] else []) + (if eccOk then [Enable(Ecc)] else [])
    ensures Disables(Reverse(Present(xOk, eccOk))) == RemoveEvents(xOk, eccOk)
  {
    EnableOrder(xOk, eccOk);
    DisableOrder(xOk, eccOk);
  }

  lemma EnableOrder(xOk: bool, eccOk: bool)
    ensures Enables(Present(xOk, eccOk)) ==
      [Enable(Core)] + (if xOk then [Enable(X)] else []) + (if eccOk then [Enable(Ecc)] else [])
  {
    if xOk && eccOk {
      assert Present(xOk, eccOk) == [Core, X, Ecc];
      EnablesThree(Core, X, Ecc);
    } else if xOk || eccOk {
      var c := if xOk then X else Ecc;
      assert Present(xOk, eccOk) == [Core, c];
      EnablesTwo(Core, c);
    } else {
      assert Present(xOk, eccOk) == [Core];
      EnablesTwo(Core, Core);
    }
  }

  lemma DisableOrder(xOk: bool, eccOk: bool)
    ensures Disables(Reverse(Present(xOk, eccOk))) == RemoveEvents(xOk, eccOk)
  {
    if xOk && eccOk {
      ReverseThree(Core, X, Ecc);
      DisablesThree(Ecc, X, Core);
    } else if xOk || eccOk {
      var c := if xOk then X else Ecc;
      assert Present(xOk, eccOk) == [Core, c];
      ReverseTwo(Core, c);
      DisablesTwo(c, Core);
    } else {
      assert Present(xOk, eccOk) == [Core];
      assert Reverse([Core]) == [Core];
      DisablesTwo(Core, Core);
    }
  }

  lemma ReverseTwo<T>(a: T, b: T)
    ensures Reverse([a, b]) == [b, a]
  {
    assert [a, b][1..] == [b];
    assert Reverse([b]) == [b];
  }

  lemma ReverseThree<T>(a: T, b: T, c: T)
    ensures Reverse([a, b, c]) == [c, b, a]
  {
    assert [a, b, c][1..] == [b, c];
    ReverseTwo(b, c);
  }

  lemma EnablesTwo(a: Clk, b: Clk)
    ensures Enables([a]) == [Enable(a)]
    ensures Enables([a, b]) == [Enable(a), Enable(b)]
  {
    assert [a][1..] == [];
    assert [a, b][1..] == [b];
    assert [b][1..] == [];
  }

  lemma EnablesThree(a: Clk, b: Clk, c: Clk)
    ensures Enables([a, b, c]) == [Enable(a), Enable(b), Enable(c)]
  {
    assert [a, b, c][1..] == [b, c];
    EnablesTwo(b, c);
  }

  lemma DisablesTwo(a: Clk, b: Clk)
    ensures Disables([a]) == [Disable(a)]
    ensures Disables([a, b]) == [Disable(a), Disable(b)]
  {
    assert [a][1..] == [];
    assert [a, b][1..] == [b];
    assert [b][1..] == [];
  }

  lemma DisablesThree(a: Clk, b: Clk, c: Clk)
    ensures Disables([a, b, c]) == [Disable(a), Disable(b), Disable(c)]
  {
    assert [a, b, c][1..] == [b, c];
    DisablesTwo(b, c);
  }

  /** Probe never leaks a clock: on failure every clock it enabled is
      disabled again, and on success exactly the clocks that exist are
      left running. */
  lemma ProbeBalanced(p: ProbeIn)
    ensures Clocks(p).ret != 0 ==> EnabledAfter({}, ProbeEvents(p)) == {}
    ensures Clocks(p).ret == 0 ==>
      EnabledAfter({}, ProbeEvents(p)) == ClkSet(Present(p.xClkOk, p.eccClkOk))
  {
    var c := Clocks(p);
    EnablesAdd({}, c.up);
    ClocksPrefix(p);
    if c.ret != 0 {
      assert ProbeEvents(p) == Enables(c.up) + Disables(Reverse(c.up));
      EnabledAfterAppend({}, Enables(c.up), Disables(Reverse(c.up)));
      DisablesRemove(ClkSet(c.up), Reverse(c.up));
      ReverseSameClocks(c.up);
      assert EnabledAfter({}, Enables(c.up)) == ClkSet(c.up);
      assert EnabledAfter(ClkSet(c.up), Disables(Reverse(c.up))) == {};
      assert EnabledAfter({}, ProbeEvents(p)) == {};
    } else {
      assert ProbeEvents(p) == Enables(c.up) + [];
      assert Enables(c.up) + [] == Enables(c.up);
      assert EnabledAfter({}, ProbeEvents(p)) == ClkSet(c.up);
    }
  }

  /** The clocks enabled before a failure are a prefix of the enable order,
      and all of them are enabled exactly when the enables succeeded. */
  lemma ClocksPrefix(p: ProbeIn)
    ensures Clocks(p).up <= Present(p.xClkOk, p.eccClkOk)
    ensures Clocks(p).ret == 0 ==> Clocks(p).up == Present(p.xClkOk, p.eccClkOk)
    ensures Clocks(p).up == Present(p.xClkOk, p.eccClkOk) <==>
      p.coreEnRet == 0 && (p.xClkOk ==> p.xEnRet == 0) && (p.eccClkOk ==> p.eccEnRet == 0)
  {
  }

  /** Remove releases the clocks in the reverse of the order probe enabled
      them, and after a successful probe it leaves none enabled. */
  lemma RemoveUndoesProbe(p: ProbeIn)
    requires SetupErr(p) == 0 && Clocks(p).ret == 0
    ensures RemoveEvents(p.xClkOk, p.eccClkOk) == Disables(Reverse(Present(p.xClkOk, p.eccClkOk)))
    ensures EnabledAfter({}, ProbeEvents(p) + RemoveEvents(p.xClkOk, p.eccClkOk)) == {}
  {
    var cs := Present(p.xClkOk, p.eccClkOk);
    ReleaseOrder(p.xClkOk, p.eccClkOk);
    ProbeBalanced(p);
    EnabledAfterAppend({}, ProbeEvents(p), RemoveEvents(p.xClkOk, p.eccClkOk));
    DisablesRemove(ClkSet(cs), Reverse(cs));
    ReverseSameClocks(cs);
  }

  /** The core clock is mandatory, the other two are optional: probe fails
      for a missing core clock, never for a missing "nand_x" or ECC clock. */
  lemma OptionalClocks(p: ProbeIn)
    requires p.allocOk && p.irq >= 0 && p.regErr == 0 && p.hostErr == 0
    ensures SetupErr(p) != 0 <==> CoreClock(p).None?
    ensures CoreClock(p).None? ==> SetupErr(p) == p.anonClkErr
  {
  }
}
