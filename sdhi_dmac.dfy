// The start, completion and abort decisions of the SDHI internal DMAC
// (drivers/mmc/host/tmio_mmc_internal_dmac.c). The controller's DMA
// registers take 64-bit writes; dma_map_sg's result and the first segment's
// bus address are inputs. Everything the driver does that is visible
// outside it (register writes, calls of the SoC enable hook, unmapping,
// handing the data to the MMC core) is appended, in order, to an event log.
module SdhiDmac {
  import opened Wrappers

  const DmCmDtranMode: nat := 0x820
  const DmCmDtranCtrl: nat := 0x828
  const DmCmRst: nat := 0x830
  const DmCmInfo1: nat := 0x840
  const DmDtranAddr: nat := 0x880

  const DtranModeChNumCh0: bv32 := 0            // write commands
  const DtranModeChNumCh1: bv32 := 0x1_0000     // BIT(16), read commands
  const DtranModeBusWidth: bv32 := 0x30         // BIT(5) | BIT(4)
  const DtranModeAddrMode: bv32 := 0x1          // BIT(0), increment address

  const DtranCtrlDmStart: bv64 := 0x1           // BIT(0)

  const TmioStatDataEnd: bv32 := 0x4            // TMIO_STAT_DATAEND, BIT(2)

  const RstDtranRst1: bv64 := 0x200             // BIT(9)
  const RstDtranRst0: bv64 := 0x100             // BIT(8)
  const RstReservedBits: bv64 := 0x1_ffff_ffff  // GENMASK_ULL(32, 0)
  const Info1Clear: bv64 := 0

  // bit numbers of the shared flag word, as masks
  const OneRxOnly: bv64 := 0x1                  // SDHI_INTERNAL_DMAC_ONE_RX_ONLY = 0
  const RxInUse: bv64 := 0x2                    // SDHI_INTERNAL_DMAC_RX_IN_USE = 1

  datatype Event =
    | DmWrite(off: nat, val: bv64)   // tmio_mmc_internal_dmac_dm_write
    | EnableHook(on: bool)           // priv->dma_priv.enable(host, on)
    | UnmapSg                        // dma_unmap_sg
    | DataIrq                        // tmio_mmc_do_data_irq
    | EnableMmcIrqs(mask: bv32)      // tmio_mmc_enable_mmc_irqs(host, mask)

  /** The static global_flags word shared by every SDHI host. */
  class GlobalFlags {
    var word: bv64

    constructor ()
      ensures word == 0
    {
      word := 0;
    }

    /** tmio_mmc_internal_dmac_global_flags_register */
    method Register(flags: bv64)
      modifies this
      ensures word == Set(old(word), flags)
    {
      word := Set(word, flags);
    }
  }

  /** Bit operations on the flag word: set_bit/|=, clear_bit, test_bit. */
  function Set(w: bv64, m: bv64): bv64 { w | m }
  function Clear(w: bv64, m: bv64): bv64 { w & !m }
  predicate Test(w: bv64, m: bv64) { w & m != 0 }

  /** Registering flags ORs them in: every flag already set stays set and
      every registered flag is set. */
  lemma RegisterKeeps(w: bv64, f: bv64)
    ensures Set(w, f) & w == w && Set(w, f) & f == f
  {
  }

  /** The DM_CM_DTRAN_MODE word of a transfer. */
  function DtranMode(read: bool): (m: bv32)
  {
    (DtranModeBusWidth | DtranModeAddrMode) | (if read then DtranModeChNumCh1 else DtranModeChNumCh0)
  }

  /** The mode always holds BUS_WIDTH and ADDR_MODE, holds CH1 exactly for
      a read, and nothing else. */
  lemma DtranModeBits(read: bool)
    ensures DtranMode(read) & DtranModeBusWidth == DtranModeBusWidth
    ensures DtranMode(read) & DtranModeAddrMode == DtranModeAddrMode
    ensures DtranMode(read) & DtranModeChNumCh1 != 0 <==> read
    ensures DtranMode(read) & !(DtranModeBusWidth | DtranModeAddrMode | DtranModeChNumCh1) == 0
  {
  }

  /** The two ways the driver builds the mode word give DtranMode. */
  lemma DtranModeSteps()
    ensures (DtranModeBusWidth | DtranModeAddrMode) | DtranModeChNumCh1 == DtranMode(true)
    ensures (DtranModeBusWidth | DtranModeAddrMode) | DtranModeChNumCh0 == DtranMode(false)
  {
  }

  /** The events of tmio_mmc_internal_dmac_enable_dma: nothing without both
      channels; disabling first clears DM_CM_INFO1; then the hook, if any. */
  function EnableEvents(channels: bool, hook: bool, enable: bool): seq<Event>
  {
    if !channels then []
    else (if !enable then [DmWrite(DmCmInfo1, Info1Clear)] else []) + (if hook then [EnableHook(enable)] else [])
  }

  /** Enabling never writes INFO1; disabling writes 0 to it before calling
      the hook; without both channels nothing happens. */
  lemma EnableEventsOrder(channels: bool, hook: bool, enable: bool)
    ensures !channels ==> EnableEvents(channels, hook, enable) == []
    ensures enable ==> forall e :: e in EnableEvents(channels, hook, enable) ==> !e.DmWrite?
    ensures channels && !enable ==> EnableEvents(channels, hook, enable)[0] == DmWrite(DmCmInfo1, 0)
    ensures channels && hook ==> EnableEvents(channels, hook, enable)[|EnableEvents(channels, hook, enable)| - 1]
                                 == EnableHook(enable)
  {
  }

  /** Outcome of tmio_mmc_internal_dmac_start_dma: whether PIO is forced,
      the new flag word and the events. */
  datatype Start = Start(pio: bool, word: bv64, events: seq<Event>)

  function StartSpec(channels: bool, hook: bool, word: bv64, read: bool, mapOk: bool, addr: bv64): Start
  {
    if !mapOk then Start(true, word, EnableEvents(channels, hook, false))
    else if addr & 7 != 0 then Start(true, word, [UnmapSg] + EnableEvents(channels, hook, false))
    else MappedSpec(channels, hook, word, read, addr)
  }

  /** The part of StartSpec after a successful, aligned mapping. */
  function MappedSpec(channels: bool, hook: bool, word: bv64, read: bool, addr: bv64): Start
  {
    if read && Test(word, OneRxOnly) && Test(word, RxInUse) then
      Start(true, word, [UnmapSg] + EnableEvents(channels, hook, false))
    else
      var w := if read && Test(word, OneRxOnly) then Set(word, RxInUse) else word;
      Start(false, w, EnableEvents(channels, hook, true)
                      + [DmWrite(DmCmDtranMode, DtranMode(read) as bv64), DmWrite(DmDtranAddr, addr)])
  }

  /** PIO is forced exactly when the mapping fails, the first segment is not
      8-byte aligned, or a read finds the single RX token taken. Only a
      failure after a successful mapping unmaps. */
  lemma StartFallback(channels: bool, hook: bool, word: bv64, read: bool, mapOk: bool, addr: bv64)
    ensures var r := StartSpec(channels, hook, word, read, mapOk, addr);
            && (r.pio <==> !mapOk || addr & 7 != 0 || (read && Test(word, OneRxOnly) && Test(word, RxInUse)))
            && (UnmapSg in r.events <==> r.pio && mapOk)
            && (r.pio ==> r.word == word && EnableHook(true) !in r.events)
  {
    var off := EnableEvents(channels, hook, false);
    var on := EnableEvents(channels, hook, true);
    assert UnmapSg !in off && EnableHook(true) !in off;
    assert UnmapSg !in on;
    var r := StartSpec(channels, hook, word, read, mapOk, addr);
    if !r.pio {
      assert r.events == on + [DmWrite(DmCmDtranMode, DtranMode(read) as bv64), DmWrite(DmDtranAddr, addr)];
    }
  }

  /** On the DMA path DMA is enabled, then DTRAN_MODE and DTRAN_ADDR (the
      first segment's address) are the last two writes. */
  lemma StartProgramsDma(channels: bool, hook: bool, word: bv64, read: bool, mapOk: bool, addr: bv64)
    requires !StartSpec(channels, hook, word, read, mapOk, addr).pio
    ensures var ev := StartSpec(channels, hook, word, read, mapOk, addr).events;
            && |ev| >= 2
            && ev[..|ev| - 2] == EnableEvents(channels, hook, true)
            && ev[|ev| - 2] == DmWrite(DmCmDtranMode, DtranMode(read) as bv64)
            && ev[|ev| - 1] == DmWrite(DmDtranAddr, addr)
  {
  }

  /** RX_IN_USE is a single-reader token: with ONE_RX_ONLY a read that gets
      DMA takes it, and a second read before it is returned falls back to
      PIO; without ONE_RX_ONLY, or for a write, the flag word is untouched. */
  lemma RxToken(channels: bool, hook: bool, word: bv64, read: bool, mapOk: bool, addr: bv64)
    ensures var r := StartSpec(channels, hook, word, read, mapOk, addr);
            && (!Test(word, OneRxOnly) || !read ==> r.word == word)
            && (read && Test(word, OneRxOnly) && !r.pio ==>
                  Test(r.word, RxInUse) && Clear(r.word, RxInUse) == Clear(word, RxInUse)
                  && StartSpec(channels, hook, r.word, true, mapOk, addr).pio)
  {
  }

  /** Returning the token clears RX_IN_USE and nothing else. */
  lemma ClearRxOnly(word: bv64)
    ensures !Test(Clear(word, RxInUse), RxInUse)
    ensures Clear(word, RxInUse) & !RxInUse == word & !RxInUse
  {
  }

  /** The two DM_CM_RST words of an abort: DTRANRST0/1 cleared, then set,
      every other reserved bit set both times. */
  lemma AbortResetWords()
    ensures var first := RstReservedBits & !(RstDtranRst1 | RstDtranRst0);
            var second := RstReservedBits | (RstDtranRst1 | RstDtranRst0);
            && first & (RstDtranRst1 | RstDtranRst0) == 0
            && second & (RstDtranRst1 | RstDtranRst0) == RstDtranRst1 | RstDtranRst0
            && first | (RstDtranRst1 | RstDtranRst0) == RstReservedBits
            && second == RstReservedBits
  {
  }

  /** A pending request as the completion tasklet sees it. */
  datatype Data = Data(read: bool)

  class Host {
    /** global_flags, shared with every other host. */
    const flags: GlobalFlags
    /** Whether priv->dma_priv.enable is set. */
    const hook: bool
    /** host->chan_tx and host->chan_rx, non-null or not. */
    var chanTx: bool
    var chanRx: bool
    var forcePio: bool
    /** host->data */
    var data: Option<Data>
    var log: seq<Event>

    constructor (flags: GlobalFlags, hook: bool)
      ensures this.flags == flags && this.hook == hook
      ensures !chanTx && !chanRx && !forcePio && data == None && log == []
    {
      this.flags := flags;
      this.hook := hook;
      chanTx, chanRx, forcePio := false, false, false;
      data := None;
      log := [];
    }

    method DmWrite(addr: nat, val: bv64)
      modifies this
      ensures log == old(log) + [Event.DmWrite(addr, val)]
      ensures chanTx == old(chanTx) && chanRx == old(chanRx) && forcePio == old(forcePio) && data == old(data)
    {
      log := log + [Event.DmWrite(addr, val)];
    }

    /** tmio_mmc_internal_dmac_enable_dma */
    method EnableDma(enable: bool)
      modifies this
      ensures log == old(log) + EnableEvents(chanTx && chanRx, hook, enable)
      ensures chanTx == old(chanTx) && chanRx == old(chanRx) && forcePio == old(forcePio) && data == old(data)
    {
      if !chanTx || !chanRx {
        return;
      }
      if !enable {
        DmWrite(DmCmInfo1, Info1Clear);
      }
      if hook {
        log := log + [EnableHook(enable)];
      }
    }

    /** tmio_mmc_internal_dmac_abort_dma */
    method AbortDma()
      modifies this, flags
      ensures flags.word == Clear(old(flags.word), RxInUse)
      ensures log == old(log) + EnableEvents(chanTx && chanRx, hook, false)
                     + [Event.DmWrite(DmCmRst, RstReservedBits & !(RstDtranRst1 | RstDtranRst0)),
                        Event.DmWrite(DmCmRst, RstReservedBits | (RstDtranRst1 | RstDtranRst0))]
                     + EnableEvents(chanTx && chanRx, hook, true)
      ensures chanTx == old(chanTx) && chanRx == old(chanRx) && forcePio == old(forcePio) && data == old(data)
    {
      var val := RstDtranRst1 | RstDtranRst0;
      EnableDma(false);
      DmWrite(DmCmRst, RstReservedBits & !val);
      DmWrite(DmCmRst, RstReservedBits | val);
      flags.word := Clear(flags.word, RxInUse);
      EnableDma(true);
    }

    /** tmio_mmc_internal_dmac_start_dma for a request with the given
        direction, mapping result and first segment address. */
    method StartDma(read: bool, mapOk: bool, addr: bv64)
      modifies this, flags
      ensures var r := StartSpec(old(chanTx && chanRx), hook, old(flags.word), read, mapOk, addr);
              && flags.word == r.word
              && log == old(log) + r.events
              && forcePio == (old(forcePio) || r.pio)
      ensures chanTx == old(chanTx) && chanRx == old(chanRx) && data == old(data)
    {
      if !mapOk {
        FallBack(false);
        return;
      }
      if addr & 7 != 0 {
        FallBack(true);
        return;
      }
      StartMapped(read, addr);
    }

    /** The rest of tmio_mmc_internal_dmac_start_dma once the list is mapped
        and aligned: take the RX token if reads are single, then program
        the transfer. */
    method StartMapped(read: bool, addr: bv64)
      modifies this, flags
      ensures var r := MappedSpec(old(chanTx && chanRx), hook, old(flags.word), read, addr);
              && flags.word == r.word
              && log == old(log) + r.events
              && forcePio == (old(forcePio) || r.pio)
      ensures chanTx == old(chanTx) && chanRx == old(chanRx) && data == old(data)
    {
      var dtranMode := DtranModeBusWidth | DtranModeAddrMode;
      if read {
        dtranMode := dtranMode | DtranModeChNumCh1;
        if Test(flags.word, OneRxOnly) {
          var wasSet := Test(flags.word, RxInUse);
          flags.word := Set(flags.word, RxInUse);
          if wasSet {
            FallBack(true);
            return;
          }
        }
      } else {
        dtranMode := dtranMode | DtranModeChNumCh0;
      }
      DtranModeSteps();
      assert dtranMode == DtranMode(read);
      Program(dtranMode, addr);
    }

    /** The PIO fall-back of tmio_mmc_internal_dmac_start_dma: unmap when
        the mapping had succeeded, force PIO, disable DMA. */
    method FallBack(unmap: bool)
      modifies this
      ensures log == old(log) + (if unmap then [UnmapSg] else []) + EnableEvents(chanTx && chanRx, hook, false)
      ensures forcePio
      ensures chanTx == old(chanTx) && chanRx == old(chanRx) && data == old(data)
    {
      if unmap {
        log := log + [UnmapSg];
      }
      forcePio := true;
      EnableDma(false);
    }

    /** The DMA path of tmio_mmc_internal_dmac_start_dma: enable DMA, then
        write the mode and the first segment's address. */
    method Program(mode: bv32, addr: bv64)
      modifies this
      ensures log == old(log) + EnableEvents(chanTx && chanRx, hook, true)
                     + [Event.DmWrite(DmCmDtranMode, mode as bv64), Event.DmWrite(DmDtranAddr, addr)]
      ensures chanTx == old(chanTx) && chanRx == old(chanRx) && forcePio == old(forcePio) && data == old(data)
    {
      EnableDma(true);
      DmWrite(DmCmDtranMode, mode as bv64);
      DmWrite(DmDtranAddr, addr);
    }

    /** tmio_mmc_internal_dmac_issue_tasklet_fn: the DATAEND interrupt is
        unmasked first, and only then is the DMAC started. */
    method IssueTasklet()
      modifies this
      ensures log == old(log) + [EnableMmcIrqs(TmioStatDataEnd), Event.DmWrite(DmCmDtranCtrl, DtranCtrlDmStart)]
      ensures chanTx == old(chanTx) && chanRx == old(chanRx) && forcePio == old(forcePio) && data == old(data)
    {
      log := log + [EnableMmcIrqs(TmioStatDataEnd)];
      DmWrite(DmCmDtranCtrl, DtranCtrlDmStart);
    }

    /** tmio_mmc_internal_dmac_complete_tasklet_fn. The final
        tmio_mmc_do_data_irq belongs to the tmio core: it is logged as
        DataIrq, and the request it ends is no longer pending afterwards
        (host->data cleared). */
    method CompleteTasklet()
      modifies this, flags
      ensures old(data) == None ==> log == old(log) && flags.word == old(flags.word) && data == None
      ensures old(data).Some? ==>
        && log == old(log) + EnableEvents(chanTx && chanRx, hook, false) + [UnmapSg, DataIrq]
        && flags.word == (if old(data).value.read then Clear(old(flags.word), RxInUse) else old(flags.word))
        && data == None
      ensures chanTx == old(chanTx) && chanRx == old(chanRx) && forcePio == old(forcePio)
    {
      if data.None? {
        return;
      }
      var fromDevice := data.value.read;
      EnableDma(false);
      log := log + [UnmapSg];
      if fromDevice {
        flags.word := Clear(flags.word, RxInUse);
      }
      log := log + [DataIrq];
      data := None;
    }

    /** tmio_mmc_internal_dmac_request_dma: both channels marked present. */
    method RequestDma()
      modifies this
      ensures chanTx && chanRx
      ensures forcePio == old(forcePio) && data == old(data) && log == old(log)
    {
      chanRx, chanTx := true, true;
    }

    /** tmio_mmc_internal_dmac_release_dma: both channels marked absent, so
        enable_dma does nothing afterwards. */
    method ReleaseDma()
      modifies this
      ensures !chanTx && !chanRx
      ensures EnableEvents(chanTx && chanRx, hook, true) == [] && EnableEvents(chanTx && chanRx, hook, false) == []
      ensures forcePio == old(forcePio) && data == old(data) && log == old(log)
    {
      chanRx, chanTx := false, false;
    }
  }
}
