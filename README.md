# UniPhier drivers and compile_commands scripts, modelled in Dafny

This project models the sequential core of a set of Socionext UniPhier
drivers from the Linux tree, plus the two Python scripts that build
`compile_commands.json`. It proves properties about each model. Kernel
services become abstract state:

- A register window is a map from offset to a 32-bit word (`Mmio.Window`).
- Every `writel`, regmap access or hook call is appended, in order, to a
  trace or event log, so that write order is provable.
- Whatever the hardware or a kernel framework decides is a parameter of the
  model. This covers IRQ status words, clock lookups and rates, `dma_map_sg`
  results and regmap failures.
- The Python file system is a map from path to text.

One module per source file:

| module | file | form |
|---|---|---|
| `MioDma` | drivers/dma/uniphier-mdmac.c | class `Channel` (descriptor lists, active descriptor, write trace) proved against pure queue functions |
| `SdhiDmac` | drivers/mmc/host/tmio_mmc_internal_dmac.c | classes `Host` and `GlobalFlags` (the shared flag word), proved against `StartSpec`/`EnableEvents` |
| `Gpio` | drivers/gpio/gpio-uniphier.c | class `Chip` over a register window; masked read-modify-write |
| `Thermal` | drivers/thermal/uniphier_thermal.c | class `ThermalDev` over a regmap whose accesses may fail; a loop over trip points |
| `UniphierDebug` | drivers/soc/uniphier/uniphier-debug.c | class `Uart` (output text) running the `my_vprintk` loop; digit buffer as an `array` |
| `DenaliDt` | drivers/mtd/nand/raw/denali_dt.c | the bank loop as a method with an `array`; class `Dt` for clock enable/unwind |
| `UniphierSd` | drivers/mmc/host/tmio_mmc_uniphier.c | class `SdHost`: voltage switch, clock enable, UHS fallback |
| `PinAttr` | drivers/pinctrl/uniphier/pinctrl-uniphier.h | pure functions: field masks, packing |
| `KernelVersion` | include/uapi/linux/version.h | pure functions: `KERNEL_VERSION` |
| `CompileCommands` | scripts/gen_compile_commands.py | pure reference functions plus the loops of `main` as methods |
| `ClangCompileCommands` | scripts/clang-tools/gen_compile_commands.py | class `Dst` (the output stream) written by the loops of `main` |
| `PyStr`, `Mmio`, `Wrappers` | (shared) | Python `str`/`os.path` operations; register windows and write logs; the optional value |

## Model

| member | source | states |
|---|---|---|
| `MioDma.ChannelBlocksDisjoint` | drivers/dma/uniphier-mdmac.c:287-288 | The register blocks at 0x100 + 0x40·i of two different channels never overlap, and none of them holds the common START register. |
| `MioDma.ProgramLeaves` | drivers/dma/uniphier-mdmac.c:107-135 | After a segment is programmed, a MEM_TO_DEV transfer has source ADDR_INC at the segment address and destination ADDR_FIXED at 0; the other direction swaps the roles. SIZE is the segment length, IRQ_REQ is all ones, IRQ_EN is WR_DONE and START carries the channel's bit. |
| `MioDma.Dequeue` | drivers/dma/uniphier-mdmac.c:81-97 | With nothing issued there is no active descriptor afterwards; otherwise the head of the issued list is removed and becomes the active descriptor. The other lists are unchanged. |
| `MioDma.AdvanceValid` | drivers/dma/uniphier-mdmac.c:168-184 | A handled interrupt keeps the channel invariant: queued descriptors are fresh, the active cursor stays inside its list, and an idle channel has nothing issued. |
| `MioDma.IssueValid` | drivers/dma/uniphier-mdmac.c:241-253 | `issue_pending` keeps the same invariant. |
| `MioDma.IdsAppend` | drivers/dma/uniphier-mdmac.c:92 | The identities of two lists joined are the identities of each, in order. |
| `MioDma.AdvanceKeepsOrder` | drivers/dma/uniphier-mdmac.c:173-184 | A handled interrupt changes no descriptor's place in the order completed, active, issued, submitted: descriptors run first in, first out. |
| `MioDma.IssueKeepsOrder` | drivers/dma/uniphier-mdmac.c:249-250 | Issuing moves submitted work behind issued work and may start the head, without reordering anything. |
| `MioDma.SubmitAppends` | drivers/dma/uniphier-mdmac.c:213 | A submitted descriptor joins at the end of the order. |
| `MioDma.IssueStartsOnNewWork` | drivers/dma/uniphier-mdmac.c:249-250 | On a valid channel `issue_pending` starts a descriptor exactly when new work was submitted and none is active. The started one is the first submitted descriptor; otherwise the active descriptor is unchanged. |
| `MioDma.AdvanceCursor` | drivers/dma/uniphier-mdmac.c:175-177 | Before a descriptor's last segment, each handled interrupt only moves its cursor by one. |
| `MioDma.CompletesAfterSegments` | drivers/dma/uniphier-mdmac.c:175-184 | A freshly started n-segment descriptor is active with cursor k after k < n interrupts. It completes after exactly n interrupts, and the head of the issued list takes its place. |
| `MioDma.AdvanceN1` | drivers/dma/uniphier-mdmac.c:168-184 | Any number of handled interrupts keeps the invariant, and one more interrupt is one more `Advance`. |
| `MioDma.Channel.constructor` | drivers/dma/uniphier-mdmac.c:286-291 | A new channel has empty lists, no active descriptor and no writes, and satisfies the invariant. |
| `MioDma.Channel.WriteL` | drivers/dma/uniphier-mdmac.c:123 | One `writel` is appended to the trace and nothing else changes. |
| `MioDma.Channel.Handle` | drivers/dma/uniphier-mdmac.c:100-136 | Programming a segment appends exactly the eight writes of `ProgramWrites`, in order, and leaves the descriptor lists unchanged. |
| `MioDma.Channel.NextDesc` | drivers/dma/uniphier-mdmac.c:81-97 | The lists become `Dequeue` of the old lists, and the result is the new active descriptor. |
| `MioDma.Channel.StartNext` | drivers/dma/uniphier-mdmac.c:139-146 | The lists are dequeued, and the new active descriptor, if any, is programmed. |
| `MioDma.Channel.Interrupt` | drivers/dma/uniphier-mdmac.c:148-190 | A zero status returns IRQ_NONE and changes neither lists nor registers. A non-zero status returns IRQ_HANDLED, advances the lists as `Advance` does and appends `IrqWrites`: the status written back to IRQ_REQ, then the programming of whatever is active next. The invariant is kept. |
| `MioDma.Channel.Submit` | drivers/dma/uniphier-mdmac.c:213 | A prepared descriptor gets the next cookie and joins the submitted list, with no register write. |
| `MioDma.Channel.IssuePending` | drivers/dma/uniphier-mdmac.c:241-253 | The lists become `Issue` of the old lists. The descriptor is programmed exactly when `IssueStarts` holds; otherwise nothing is written. |
| `MioDma.Channel.TxResidue` | drivers/dma/uniphier-mdmac.c:216-239 | A residue is reported exactly when an issued descriptor has the cookie. On a valid channel it is the segment count, at least 1, of the first issued descriptor with that cookie, the one vchan_find_desc returns. |
| `MioDma.FindResidue` | drivers/dma/uniphier-mdmac.c:230-234 | Found exactly when some descriptor has the cookie. The residue is then `sg_len - sg_cur` of the first descriptor with that cookie. |
| `MioDma.Prep` | drivers/dma/uniphier-mdmac.c:192-214 | A descriptor is returned exactly for a slave direction and a successful allocation. It carries the scatter list and direction, with cursor 0, and is fresh when the list is non-empty. |
| `SdhiDmac.GlobalFlags.constructor` | drivers/mmc/host/tmio_mmc_internal_dmac.c:66 | The static flag word starts at 0. |
| `SdhiDmac.GlobalFlags.Register` | drivers/mmc/host/tmio_mmc_internal_dmac.c:67-70 | Registering ORs the flags into the shared word. |
| `SdhiDmac.RegisterKeeps` | drivers/mmc/host/tmio_mmc_internal_dmac.c:69 | After registering, every flag that was set is still set and every registered flag is set: registration never clears a flag. |
| `SdhiDmac.DtranModeBits` | drivers/mmc/host/tmio_mmc_internal_dmac.c:122-139 | The mode word always holds BUS_WIDTH (bits 5:4) and ADDR_MODE (bit 0). It holds CH1 (bit 16) exactly for a read, and no other bit. |
| `SdhiDmac.DtranModeSteps` | drivers/mmc/host/tmio_mmc_internal_dmac.c:122-138 | Building the word as the driver does (start value, then OR CH1 or CH0) gives `DtranMode` for each direction. |
| `SdhiDmac.EnableEventsOrder` | drivers/mmc/host/tmio_mmc_internal_dmac.c:79-92 | Without both channels `enable_dma` does nothing. Enabling never writes DM_CM_INFO1, and disabling writes 0 to it first. When a hook exists, calling it is the last step. |
| `SdhiDmac.StartFallback` | drivers/mmc/host/tmio_mmc_internal_dmac.c:124-156 | PIO is forced exactly when the mapping fails, the first address is not 8-byte aligned, or a read finds the RX token taken under ONE_RX_ONLY. The list is unmapped exactly when PIO is forced after a successful mapping. A forced PIO never enables DMA and leaves the flag word alone. |
| `SdhiDmac.StartProgramsDma` | drivers/mmc/host/tmio_mmc_internal_dmac.c:141-149 | On the DMA path, DMA is enabled first; the last two writes are DTRAN_MODE (the mode word) and DTRAN_ADDR (the first segment's address). |
| `SdhiDmac.RxToken` | drivers/mmc/host/tmio_mmc_internal_dmac.c:132-136 | Without ONE_RX_ONLY, or for a write, the flag word is untouched. A read under ONE_RX_ONLY that gets DMA sets RX_IN_USE and changes no other bit, and a second read before the token is returned falls back to PIO. |
| `SdhiDmac.ClearRxOnly` | drivers/mmc/host/tmio_mmc_internal_dmac.c:105 | Returning the token clears RX_IN_USE and keeps every other bit. Abort does this here, and the completion tasklet does it at line 189. |
| `SdhiDmac.AbortResetWords` | drivers/mmc/host/tmio_mmc_internal_dmac.c:96-103 | The first DM_CM_RST word has DTRANRST0/1 clear and the second has them set. Every other reserved bit is set both times. |
| `SdhiDmac.Host.constructor` | drivers/mmc/host/tmio_mmc_internal_dmac.c:61 | A host starts without channels, without forced PIO, without data and with an empty log. |
| `SdhiDmac.Host.DmWrite` | drivers/mmc/host/tmio_mmc_internal_dmac.c:73-77 | One 64-bit register write is logged and nothing else changes. |
| `SdhiDmac.Host.EnableDma` | drivers/mmc/host/tmio_mmc_internal_dmac.c:79-92 | The log grows by exactly `EnableEvents` of the channel state, the hook and the direction. |
| `SdhiDmac.Host.AbortDma` | drivers/mmc/host/tmio_mmc_internal_dmac.c:94-108 | Logs disable, the two reset words, then enable, and clears RX_IN_USE in the shared word. |
| `SdhiDmac.Host.StartDma` | drivers/mmc/host/tmio_mmc_internal_dmac.c:117-157 | The flag word, the log and `force_pio` end as `StartSpec` gives for the old channel state and flag word. |
| `SdhiDmac.Host.StartMapped` | drivers/mmc/host/tmio_mmc_internal_dmac.c:132-156 | After an aligned, successful mapping: the state ends as `MappedSpec` gives (token check, then programming or fallback). |
| `SdhiDmac.Host.FallBack` | drivers/mmc/host/tmio_mmc_internal_dmac.c:151-156 | Logs the unmap when asked, then the disable events, and sets `force_pio`. |
| `SdhiDmac.Host.Program` | drivers/mmc/host/tmio_mmc_internal_dmac.c:141-147 | Logs the enable events, then DTRAN_MODE and DTRAN_ADDR. |
| `SdhiDmac.Host.IssueTasklet` | drivers/mmc/host/tmio_mmc_internal_dmac.c:159-168 | Unmasks the DATAEND interrupt, then starts the DMAC by writing DM_START to DM_CM_DTRAN_CTRL. These are the only two events logged. |
| `SdhiDmac.Host.CompleteTasklet` | drivers/mmc/host/tmio_mmc_internal_dmac.c:170-194 | Without pending data nothing happens. Otherwise it logs disable, unmap and data IRQ in that order, clears RX_IN_USE only for a read, and leaves no request pending. |
| `SdhiDmac.Host.RequestDma` | drivers/mmc/host/tmio_mmc_internal_dmac.c:196-202 | Both channels become present and nothing else changes. |
| `SdhiDmac.Host.ReleaseDma` | drivers/mmc/host/tmio_mmc_internal_dmac.c:212-217 | Both channels become absent, after which `enable_dma` does nothing either way. |
| `Gpio.BitOf` | drivers/gpio/gpio-uniphier.c:58 | The bit read is 0 or 1, and is 1 exactly when bit `offset` of the register is set. |
| `Gpio.WordBit` | drivers/gpio/gpio-uniphier.c:58 | `!!(x & BIT(offset))` is 0 or 1, and is 1 exactly when the bit is set. |
| `Gpio.ShiftBit` | drivers/gpio/gpio-uniphier.c:50 | Bit `offset` of `value << offset` is bit 0 of `value`. |
| `Gpio.LowBit` | drivers/gpio/gpio-uniphier.c:50 | Bit 0 of the value, as 0 or 1. |
| `Gpio.BankWord` | drivers/gpio/gpio-uniphier.c:40-42 | The word `bank_write` computes is the masked update of the old word: the old word with the mask bits cleared, ORed with `mask & value`. |
| `Gpio.Chip.constructor` | drivers/gpio/gpio-uniphier.c:125 | The chip starts at the given register contents with no writes. |
| `Gpio.Chip.BankWrite` | drivers/gpio/gpio-uniphier.c:32-45 | Exactly the addressed register changes, to the masked update of its old value, and that one write is logged. |
| `Gpio.Chip.OffsetWrite` | drivers/gpio/gpio-uniphier.c:47-51 | Bit `offset` becomes bit 0 of `value`. Every other bit of the register, and every other register, is unchanged, and one write is logged. |
| `Gpio.Chip.OffsetRead` | drivers/gpio/gpio-uniphier.c:53-59 | The result is 0 or 1. |
| `Gpio.Chip.GetDirection` | drivers/gpio/gpio-uniphier.c:71-74 | 1 (input) exactly when the line's DIR bit is set. |
| `Gpio.Chip.Get` | drivers/gpio/gpio-uniphier.c:93-96 | 1 exactly when the line's DATA bit is set. |
| `Gpio.Chip.DirectionInput` | drivers/gpio/gpio-uniphier.c:76-82 | Returns 0. The line reads as input afterwards, no line's level changes, no other line's direction changes, and a single DIR write is issued. |
| `Gpio.Chip.DirectionOutput` | drivers/gpio/gpio-uniphier.c:84-91 | Returns 0. The line reads the requested level and is an output, and other lines are untouched. The DATA write comes before the DIR write. |
| `Gpio.Chip.Set` | drivers/gpio/gpio-uniphier.c:98-102 | The line reads bit 0 of the value. Other lines' levels and all directions are unchanged, and a single DATA write is issued. |
| `Gpio.Chip.SetMultiple` | drivers/gpio/gpio-uniphier.c:104-112 | DATA becomes the masked update with mask and bits cut to the eight lines. No bit above bit 7 changes, and the masked lines take the requested bits. |
| `Gpio.OtherBitKept` | drivers/gpio/gpio-uniphier.c:41-42 | A masked write of one bit leaves any other single bit unchanged. |
| `Gpio.OtherBitsKept` | drivers/gpio/gpio-uniphier.c:50 | Every bit except `offset` reads the same after a single-bit masked write. |
| `Gpio.MaskedWithin` | drivers/gpio/gpio-uniphier.c:108-111 | A masked write whose mask is cut to the bank keeps every bit outside the bank, and sets the masked bits to the requested bits. |
| `Gpio.DistinctBits` | drivers/gpio/gpio-uniphier.c:50 | Two different single-bit masks share no bit. |
| `Gpio.SetThenGet` | drivers/gpio/gpio-uniphier.c:93-102 | Setting a line to 0 or 1 and reading it back gives the value set. |
| `Thermal.Perform` | drivers/thermal/uniphier_thermal.c:114-115 | A successful regmap access returns 0. A read changes nothing. A write logs exactly one write of the register's new value. |
| `Thermal.Step` | drivers/thermal/uniphier_thermal.c:116-117 | An access returns its outcome code; on failure nothing changes. |
| `Thermal.FirstFailure` | drivers/thermal/uniphier_thermal.c:114-150 | The index found lies in range. Every access before it succeeds, and the access at it, if any, fails. |
| `Thermal.RunStopFirstFailure` | drivers/thermal/uniphier_thermal.c:114-152 | An early-return chain of accesses returns the code of the first failure (0 if none) and leaves exactly the effects of the accesses before it. |
| `Thermal.InitOpsSetup` | drivers/thermal/uniphier_thermal.c:119-129 | The SoC's default coefficient is written exactly when TMODCOEF reads 0. |
| `Thermal.InitHeadEffect` | drivers/thermal/uniphier_thermal.c:113-129 | Stopping the PVT clears its enable bit and keeps PMPVTCTLEN's other bits; one or two writes are logged. |
| `Thermal.InitTailEffect` | drivers/thermal/uniphier_thermal.c:131-150 | The monitor mode, the endless repeat with its period, and mode select 0 are set, PMPVTCTLEN is untouched, and three writes are logged. |
| `Thermal.InitSucceeds` | drivers/thermal/uniphier_thermal.c:106-153 | After a fully successful initialisation the PVT is stopped and in temperature-monitor mode. It repeats endlessly at the 100 ms period code, mode select is 0, and four or five writes are logged. |
| `Thermal.RunAllAppend` | drivers/thermal/uniphier_thermal.c:106-153 | Running two access lists back to back equals running their concatenation. |
| `Thermal.AlertWord` | drivers/thermal/uniphier_thermal.c:162-167 | The SETALERT word gets its enable bit and the temperature field; every bit outside the mask is kept. |
| `Thermal.EnableBitsExact` | drivers/thermal/uniphier_thermal.c:176-178 | The enable mask holds exactly bit 4i for each channel i in use. |
| `Thermal.ClearTable` | drivers/thermal/uniphier_thermal.c:224-228 | The clear loop accumulates mask 0x666 and bits 0x444 over the three channels. |
| `Thermal.IrqClearWord` | drivers/thermal/uniphier_thermal.c:231 | The masked write sets the CLR bits, clears the ST bits and keeps all other bits. |
| `Thermal.CritTemp` | drivers/thermal/uniphier_thermal.c:291-294 | The running critical temperature never exceeds its start value, INT_MAX, set at line 251. |
| `Thermal.InUse` | drivers/thermal/uniphier_thermal.c:296 | After n trips, exactly the channels below n are marked in use. |
| `Thermal.ThermalDev.constructor` | drivers/thermal/uniphier_thermal.c:253 | The zero-filled device: no alert channel in use and no write logged. |
| `Thermal.ThermalDev.Access` | drivers/thermal/uniphier_thermal.c:114-117 | One write access has the effect `Step` gives for its outcome. |
| `Thermal.ThermalDev.ReadReg` | drivers/thermal/uniphier_thermal.c:120-122 | Returns the outcome code and, on success, the register's value. |
| `Thermal.ThermalDev.InitializeSensor` | drivers/thermal/uniphier_thermal.c:106-153 | Ends exactly as the early-return run of the initialisation accesses: the default-coefficient write is included only when TMODCOEF was 0. |
| `Thermal.ThermalDev.SetAlert` | drivers/thermal/uniphier_thermal.c:155-168 | A channel of 3 or more gives -EINVAL and no access. Otherwise exactly the SETALERT access of that channel is performed. |
| `Thermal.ThermalDev.EnableSensor` | drivers/thermal/uniphier_thermal.c:170-186 | Writes the enable bits of the channels in use under PMALERTINTCTL_ALL_BITS, then sets the PVT start bit. The second write happens whatever the first returned. |
| `Thermal.ThermalDev.DisableSensor` | drivers/thermal/uniphier_thermal.c:188-198 | Clears all alert bits, then clears the PVT enable bit, ignoring both results. |
| `Thermal.ThermalDev.IrqClear` | drivers/thermal/uniphier_thermal.c:219-232 | Issues the single masked write with mask 0x666 and bits 0x444 that the loop builds. |
| `Thermal.ThermalDev.GetTemp` | drivers/thermal/uniphier_thermal.c:200-213 | On success the temperature is TMOD's low nine bits times 1000, a multiple of 1000 between 0 and 511000. On failure the code is passed through. |
| `Thermal.ThermalDev.ProbeTrips` | drivers/thermal/uniphier_thermal.c:282-302 | More than three trips gives -E2BIG with no access. Otherwise the sensor is initialised, each trip programs its channel and marks it in use, and the result is -EINVAL exactly when the lowest critical trip is above 95000 or there is none. |
| `Thermal.CritTempIsMinimum` | drivers/thermal/uniphier_thermal.c:291-294 | The critical temperature is at most every critical trip's temperature, and is either INT_MAX or one of them. |
| `Thermal.ProbeAccepts` | drivers/thermal/uniphier_thermal.c:298-302 | The probe accepts exactly when some critical trip lies at or below 95000 millicelsius. |
| `Thermal.SetAlertEffect` | drivers/thermal/uniphier_thermal.c:161-167 | A successful set_alert sets the channel's enable bit and temperature field (temp / 1000) and changes no other bit or register. |
| `Thermal.EnableSensorEffect` | drivers/thermal/uniphier_thermal.c:176-185 | After enable, bit 4i of the alert control is set exactly for the channels in use, and the PVT runs. |
| `Thermal.DisableSensorEffect` | drivers/thermal/uniphier_thermal.c:192-197 | After disable, all alert bits are clear and the PVT is stopped. |
| `Thermal.IrqClearEffect` | drivers/thermal/uniphier_thermal.c:224-231 | The clear sets CLR bits 2, 6 and 10, clears ST bits 1, 5 and 9, and keeps the rest. |
| `UniphierDebug.PutcOut` | drivers/soc/uniphier/uniphier-debug.c:24-29 | `__putc` sends the character, and a carriage return right after a line feed. |
| `UniphierDebug.StrLen` | drivers/soc/uniphier/uniphier-debug.c:35 | The C string ends at the first NUL. No character before it is NUL. |
| `UniphierDebug.DigitChar` | drivers/soc/uniphier/uniphier-debug.c:54 | A digit character is never NUL, a line feed or a minus sign. |
| `UniphierDebug.Rem` | drivers/soc/uniphier/uniphier-debug.c:53 | The remainder is below the radix. |
| `UniphierDebug.Rev` | drivers/soc/uniphier/uniphier-debug.c:57-58 | The buffer printed backwards: same length, element k is element n-1-k. |
| `UniphierDebug.DigitsStep` | drivers/soc/uniphier/uniphier-debug.c:52-55 | One turn of the digit loop: the low digit is the remainder, and the quotient shrinks. |
| `UniphierDebug.LsdStep` | drivers/soc/uniphier/uniphier-debug.c:52-55 | The buffer holds the remainder first, then the digits of the quotient, and is never empty (do-while). |
| `UniphierDebug.LsdDigits` | drivers/soc/uniphier/uniphier-debug.c:47-59 | The buffer read backwards is the number's digits, most significant first. |
| `UniphierDebug.LsdPush` | drivers/soc/uniphier/uniphier-debug.c:54 | Storing one digit moves it from the pending digits to the stored ones. |
| `UniphierDebug.LsdPushLength` | drivers/soc/uniphier/uniphier-debug.c:54 | The buffer index stays below the digit count. |
| `UniphierDebug.LsdBound` | drivers/soc/uniphier/uniphier-debug.c:49-55 | A 64-bit value fills at most 20 of the 32 buffer places. |
| `UniphierDebug.RevCons` | drivers/soc/uniphier/uniphier-debug.c:57-58 | Reversal moves a leading character to the end. |
| `UniphierDebug.RevSnoc` | drivers/soc/uniphier/uniphier-debug.c:57-58 | Reversal moves a trailing character to the front. |
| `UniphierDebug.DigitRoundTrip` | drivers/soc/uniphier/uniphier-debug.c:54 | Reading a printed digit back gives the digit. |
| `UniphierDebug.DigitsValue` | drivers/soc/uniphier/uniphier-debug.c:47-59 | Parsing the printed digits in the same radix gives the number back. |
| `UniphierDebug.DigitsShape` | drivers/soc/uniphier/uniphier-debug.c:47-59 | There is at least one digit and every one belongs to the radix. The leading digit is '0' exactly for 0, which prints as "0". |
| `UniphierDebug.DigitsLength` | drivers/soc/uniphier/uniphier-debug.c:47-59 | A value below r^k has at most k digits. |
| `UniphierDebug.Digits64` | drivers/soc/uniphier/uniphier-debug.c:47-59 | A 64-bit value prints in at most 20 decimal or 16 hex digits. |
| `UniphierDebug.EmitPlain` | drivers/soc/uniphier/uniphier-debug.c:24-29 | Text without a line feed reaches the UART unchanged. |
| `UniphierDebug.LsdPlain` | drivers/soc/uniphier/uniphier-debug.c:54 | No stored digit is a line feed. |
| `UniphierDebug.DigitsPlain` | drivers/soc/uniphier/uniphier-debug.c:57-58 | Digits pass through `__putc` unchanged. |
| `UniphierDebug.EmitAppend` | drivers/soc/uniphier/uniphier-debug.c:24-37 | Sending two strings one after the other sends their concatenation. |
| `UniphierDebug.Width` | drivers/soc/uniphier/uniphier-debug.c:39-45 | The va_arg width is 32 bits with no 'l', that of long with one, and 64 bits with two or more. |
| `UniphierDebug.Unsigned` | drivers/soc/uniphier/uniphier-debug.c:43-45 | An unsigned read of w bits lies below 2^w and keeps any value already in range. The %p cast at line 108 is such a read. |
| `UniphierDebug.Signed` | drivers/soc/uniphier/uniphier-debug.c:39-41 | A signed read of w bits lies in [-2^(w-1), 2^(w-1)) and keeps any value already in range. |
| `UniphierDebug.SignedMagnitude` | drivers/soc/uniphier/uniphier-debug.c:94-101 | %d prints a minus sign exactly for a negative value, then the decimal digits of its magnitude; the most negative long long prints as 2^63. |
| `UniphierDebug.UnknownConversion` | drivers/soc/uniphier/uniphier-debug.c:122-123 | Any other conversion character prints nothing and takes no argument. |
| `UniphierDebug.HexPrefix` | drivers/soc/uniphier/uniphier-debug.c:110 | The literal "0x" has length 2 and is sent as it is. |
| `UniphierDebug.PointerPrefix` | drivers/soc/uniphier/uniphier-debug.c:107-113 | %p prints "0x" exactly for a non-NULL pointer, then hex digits that parse back to its address; NULL prints "0". |
| `UniphierDebug.CountL` | drivers/soc/uniphier/uniphier-debug.c:79-82 | The 'l' loop consumes exactly the run of 'l' characters and stops at the first other character. |
| `UniphierDebug.Parse` | drivers/soc/uniphier/uniphier-debug.c:77-85 | A directive always moves past the '%'. When its conversion is not NUL it stays within the format. |
| `UniphierDebug.LiteralText` | drivers/soc/uniphier/uniphier-debug.c:69-75 | A format without '%' is sent through `__putc` and nothing else happens. |
| `UniphierDebug.NeverOverruns` | drivers/soc/uniphier/uniphier-debug.c:69-125 | The corrected loop never reads beyond the format's terminating NUL. |
| `UniphierDebug.RunLiteral` | drivers/soc/uniphier/uniphier-debug.c:72-75 | A plain character is sent and the loop moves to the next one. |
| `UniphierDebug.RunDirective` | drivers/soc/uniphier/uniphier-debug.c:77-124 | A directive prints its conversion's text, consumes its argument, and the loop resumes after it. |
| `UniphierDebug.RunEnd` | drivers/soc/uniphier/uniphier-debug.c:69 | The NUL that ends the format ends the output. |
| `UniphierDebug.RunDirectiveNul` | drivers/soc/uniphier/uniphier-debug.c:77-124 | Corrected: a NUL where a conversion was expected ends the output. |
| `UniphierDebug.TrailingPercentAsWritten` | drivers/soc/uniphier/uniphier-debug.c:69-125 | As written, a format ending in '%' reads past its NUL. Corrected, it prints the text before the '%'. |
| `UniphierDebug.SizeTAsWritten` | drivers/soc/uniphier/uniphier-debug.c:84-123 | As written, "%zu" prints "u" and leaves its argument unused. Corrected, it prints the argument. |
| `UniphierDebug.SizeTIsLong` | drivers/soc/uniphier/uniphier-debug.c:84-85 | Corrected: 'z' reads a long, like one 'l', and the next character is the conversion. |
| `UniphierDebug.Uart.constructor` | drivers/soc/uniphier/uniphier-debug.c:14 | Nothing has been sent yet. |
| `UniphierDebug.Uart.UartPutc` | drivers/soc/uniphier/uniphier-debug.c:16-22 | One character is written to UART_TX. |
| `UniphierDebug.Uart.Putc` | drivers/soc/uniphier/uniphier-debug.c:24-29 | Sends exactly what `PutcOut` gives. |
| `UniphierDebug.Uart.Puts` | drivers/soc/uniphier/uniphier-debug.c:31-37 | Sends the string up to its NUL, each character through `__putc`. |
| `UniphierDebug.Uart.UnsignedNumPrint` | drivers/soc/uniphier/uniphier-debug.c:47-59 | Sends exactly the digits of the number in the radix, most significant first. |
| `UniphierDebug.FillDigits` | drivers/soc/uniphier/uniphier-debug.c:49-55 | The do-while leaves the digits least significant first in at most 20 places of a 32-place buffer. |
| `UniphierDebug.Uart.PutsReversed` | drivers/soc/uniphier/uniphier-debug.c:57-58 | Sends the first n buffer places in reverse order. |
| `UniphierDebug.Uart.SignedNumPrint` | drivers/soc/uniphier/uniphier-debug.c:94-101 | Sends a minus sign for a negative value, then the magnitude in decimal. |
| `UniphierDebug.Uart.PointerPrint` | drivers/soc/uniphier/uniphier-debug.c:107-113 | Sends "0x" unless the address is NULL, then its hex digits. |
| `UniphierDebug.Uart.Conversion` | drivers/soc/uniphier/uniphier-debug.c:88-124 | Sends what the switch prints for the conversion and returns the remaining arguments. |
| `UniphierDebug.ReadDirective` | drivers/soc/uniphier/uniphier-debug.c:77-85 | Reads the length count and conversion character exactly as `Parse` gives them. |
| `UniphierDebug.Uart.PrintDirective` | drivers/soc/uniphier/uniphier-debug.c:77-124 | Prints one directive, or stops at a NUL conversion. The rest of the run continues from after the directive. |
| `UniphierDebug.Uart.Vprintk` | drivers/soc/uniphier/uniphier-debug.c:61-126 | Sends exactly the corrected `Format` of the format and arguments. |
| `DenaliDt.ScanFrom` | drivers/mtd/nand/raw/denali_dt.c:97-111 | When the bank loop ends without error, its counter lies between its start and the number of cells. |
| `DenaliDt.Banks` | drivers/mtd/nand/raw/denali_dt.c:110 | The stored bank list holds the cells' values, in order. |
| `DenaliDt.ChipInit` | drivers/mtd/nand/raw/denali_dt.c:79-117 | The return code and the bank list handed on are exactly those of `ChipInitSpec`. A negative count is returned as is, a failed allocation gives -ENOMEM, and a scan error is returned. Otherwise the accepted leading banks go to the chip. |
| `DenaliDt.ScanAcceptedShape` | drivers/mtd/nand/raw/denali_dt.c:97-111 | Every cell before the loop's end is accepted, and the cell it ends on, if any, is a valid bank with no chip. |
| `DenaliDt.ScanAcceptedIff` | drivers/mtd/nand/raw/denali_dt.c:97-114 | The loop accepts exactly n cells if and only if the first n are accepted and the list ends or stops right after them. |
| `DenaliDt.ScanFailedShape` | drivers/mtd/nand/raw/denali_dt.c:98-104 | A failing loop failed at some cell k, after accepting every cell before it. At k either the read failed (its code is returned) or the bank is 4 or more (-EINVAL). |
| `DenaliDt.ScanIgnoresTail` | drivers/mtd/nand/raw/denali_dt.c:106-108 | Cells after the one that stops the loop are neither stored nor range-checked: replacing them changes nothing. |
| `DenaliDt.ChipInitBanks` | drivers/mtd/nand/raw/denali_dt.c:110-116 | The chip is reached exactly when the loop does not fail. nbanks is then the count of accepted leading cells, each bank is below 4 and probed, and the next cell, if any, stops the loop. |
| `DenaliDt.CoreClock` | drivers/mtd/nand/raw/denali_dt.c:158-172 | No core clock exactly when both "nand" and the anonymous clock are missing; "nand" is used exactly when it exists. |
| `DenaliDt.ChildResults` | drivers/mtd/nand/raw/denali_dt.c:212-220 | One result per child, each the return code of `ChipInitSpec` for that child. |
| `DenaliDt.Dt.constructor` | drivers/mtd/nand/raw/denali_dt.c:129 | The zero-filled device: no clock, no call made, nothing bound. |
| `DenaliDt.Dt.PrepareEnable` | drivers/mtd/nand/raw/denali_dt.c:182-192 | A NULL clock gives 0 and no call. Otherwise the outcome is returned and a successful enable is logged. |
| `DenaliDt.Dt.DisableUnprepare` | drivers/mtd/nand/raw/denali_dt.c:226-231 | A NULL clock is ignored. Otherwise one disable is logged. |
| `DenaliDt.Dt.Lookup` | drivers/mtd/nand/raw/denali_dt.c:129-180 | Returns the first setup failure, or 0. On success it records the core clock choice and whether "nand_x" and "ecc" exist. |
| `DenaliDt.Dt.EnableClocks` | drivers/mtd/nand/raw/denali_dt.c:182-233 | The three enables with the goto unwind: it returns the first failure and logs exactly `PhaseEvents` of that phase. |
| `DenaliDt.Dt.SetRates` | drivers/mtd/nand/raw/denali_dt.c:194-206 | With "nand_x" the rates come from the clocks; otherwise they are 50000000 and 200000000. |
| `DenaliDt.Dt.InitChips` | drivers/mtd/nand/raw/denali_dt.c:212-220 | Every child is tried, whatever the earlier ones returned, and the results are `ChildResults`. |
| `DenaliDt.Dt.DisableClocks` | drivers/mtd/nand/raw/denali_dt.c:226-231 | Disables ecc, then x, then core, skipping clocks that are NULL. |
| `DenaliDt.Dt.Probe` | drivers/mtd/nand/raw/denali_dt.c:119-234 | A setup failure is returned with no clock call. Otherwise the clock calls are `ProbeEvents`, the result is the clock phase's code, and the device is bound exactly on success, with every child tried. The rates are set once the clocks run. |
| `DenaliDt.Dt.Remove` | drivers/mtd/nand/raw/denali_dt.c:236-246 | Disables ecc, then x, then core, and unbinds. |
| `DenaliDt.EnabledAfterAppend` | drivers/mtd/nand/raw/denali_dt.c:182-192 | Running two lists of clock calls in turn equals running their concatenation. |
| `DenaliDt.EnablesAdd` | drivers/mtd/nand/raw/denali_dt.c:182-190 | Enabling a list of clocks adds exactly those clocks. |
| `DenaliDt.DisablesRemove` | drivers/mtd/nand/raw/denali_dt.c:226-231 | Disabling a list of clocks removes exactly those clocks. |
| `DenaliDt.ReverseSameClocks` | drivers/mtd/nand/raw/denali_dt.c:226-231 | The unwind order names the same clocks as the enable order. |
| `DenaliDt.EnablingEvents` | drivers/mtd/nand/raw/denali_dt.c:182-231 | The clock calls of every failure case, written out. A failing core enable makes no further call, and a failing x or ecc enable unwinds the clocks already enabled, in reverse. |
| `DenaliDt.ReleaseOrder` | drivers/mtd/nand/raw/denali_dt.c:182-243 | Probe enables core, x, ecc in that order, and remove disables them in exactly the reverse order. |
| `DenaliDt.EnableOrder` | drivers/mtd/nand/raw/denali_dt.c:182-190 | The enables are core, then x if present, then ecc if present. |
| `DenaliDt.DisableOrder` | drivers/mtd/nand/raw/denali_dt.c:240-243 | Reversing the enable order gives remove's order: ecc, x, core. |
| `DenaliDt.ProbeBalanced` | drivers/mtd/nand/raw/denali_dt.c:182-233 | Probe leaks no clock. After a failure no clock is left enabled; after success exactly the clocks that exist are. |
| `DenaliDt.ClocksPrefix` | drivers/mtd/nand/raw/denali_dt.c:182-192 | The clocks enabled are a prefix of the enable order, and all of them exactly when every enable of an existing clock succeeded. |
| `DenaliDt.RemoveUndoesProbe` | drivers/mtd/nand/raw/denali_dt.c:236-246 | After a successful probe, remove releases in reverse enable order and leaves no clock enabled. |
| `DenaliDt.OptionalClocks` | drivers/mtd/nand/raw/denali_dt.c:158-180 | The core clock is mandatory, and its absence returns the anonymous lookup's error. A missing "nand_x" or ECC clock never fails probe. |
| `UniphierSd.VoltWordField` | drivers/mmc/host/tmio_mmc_uniphier.c:129-132 | The CTL_SD_VOLT update changes only bits 1:0, which then hold the field value. |
| `UniphierSd.ToU32` | drivers/mmc/host/tmio_mmc_uniphier.c:94-101 | Storing the unsigned long rate in the u32 `f_max` keeps its low 32 bits, and keeps any rate that fits. |
| `UniphierSd.SdHost.constructor` | drivers/mmc/host/tmio_mmc_uniphier.c:175 | A host with the given registers, `f_max` and capabilities, with no write, no pin state and no voltage-switch hook. |
| `UniphierSd.SdHost.StartSignalVoltageSwitch` | drivers/mmc/host/tmio_mmc_uniphier.c:108-137 | 3.3 V and 1.8 V rewrite bits 1:0 of CTL_SD_VOLT to 1 or 2 in one logged write, select the default or "uhs" pin state, and return 0. Any other voltage returns -ENOTSUPP and touches nothing. |
| `UniphierSd.SdHost.ClkEnable` | drivers/mmc/host/tmio_mmc_uniphier.c:79-106 | A failed enable or set_rate is returned and leaves the limits alone. On success a nonzero rate becomes `f_max` (cut to 32 bits), a zero rate keeps it, and `f_min` is `f_max` / 1024 rounded down. |
| `UniphierSd.SdHost.UhsFallback` | drivers/mmc/host/tmio_mmc_uniphier.c:139-201 | Without UHS capabilities nothing changes. When the pinctrl lookups fail, exactly the UHS capabilities are dropped and probe goes on. When they succeed, the voltage-switch hook is installed. |
| `UniphierSd.FMinBounds` | drivers/mmc/host/tmio_mmc_uniphier.c:103 | `f_min` * 1024 is at most `f_max`, which is below (`f_min` + 1) * 1024. `f_min` is at least 1 once `f_max` reaches 1024. |
| `UniphierSd.UhsDropped` | drivers/mmc/host/tmio_mmc_uniphier.c:199 | Dropping UHS clears bits 16..20 and keeps every other capability. |
| `UniphierSd.VoltSettingDistinct` | drivers/mmc/host/tmio_mmc_uniphier.c:116-127 | The two supported voltages select different field values and pin states, each within bits 1:0. |
| `UniphierSd.HostAllocAsWrittenDerefs` | drivers/mmc/host/tmio_mmc_uniphier.c:185-191 | As written, and whatever `mmc_of_parse` would return, a failed host allocation reaches the read of `host->mmc` on a NULL host, with -ENOMEM stored in `ret` but never returned. |
| `UniphierSd.HostAllocStoreLost` | drivers/mmc/host/tmio_mmc_uniphier.c:185-191 | As written, the -ENOMEM store never reaches the result. Every error probe leaves with follows a successful allocation and is `mmc_of_parse`'s result. Probe goes on exactly when the allocation and the parse succeed, and faults exactly when the allocation failed. |
| `UniphierSd.HostAllocNeverDerefs` | drivers/mmc/host/tmio_mmc_uniphier.c:185-191 | Corrected: a failed allocation returns -ENOMEM and never dereferences. With a host, it agrees with the code as written, and the two differ exactly where the code as written faults. |
| `PinAttr.MasksAreGenMasks` | drivers/pinctrl/uniphier/pinctrl-uniphier.h:18-22 | The five field masks are GENMASK(2,0), (11,3), (14,12), (23,15) and (26,24). |
| `PinAttr.MasksDisjoint` | drivers/pinctrl/uniphier/pinctrl-uniphier.h:18-22 | No two field masks share a bit. |
| `PinAttr.FieldPrep` | drivers/pinctrl/uniphier/pinctrl-uniphier.h:47-51 | A prepared field value has no bit outside its mask. |
| `PinAttr.DrvType.Value` | drivers/pinctrl/uniphier/pinctrl-uniphier.h:28-36 | The drive types are numbered 0 to 6 in declaration order. |
| `PinAttr.PullDir.Value` | drivers/pinctrl/uniphier/pinctrl-uniphier.h:39-45 | The pull directions are numbered 0 to 4 in declaration order. |
| `PinAttr.IectrlConstants` | drivers/pinctrl/uniphier/pinctrl-uniphier.h:18-25 | Packed, IECTRL_NONE fills the whole input-enable field (read back as 7), and IECTRL_EXIST sets none of it. |
| `PinAttr.EnumsFitFields` | drivers/pinctrl/uniphier/pinctrl-uniphier.h:28-51 | Every drive type and pull direction survives packing into its three-bit field. |
| `PinAttr.Pack` | drivers/pinctrl/uniphier/pinctrl-uniphier.h:53-58 | The packed attribute word uses no bit outside the five fields. |
| `PinAttr.FieldRoundTrip` | drivers/pinctrl/uniphier/pinctrl-uniphier.h:47-51 | A value that fits its field is read back unchanged after FIELD_PREP. |
| `PinAttr.FieldsSeparate` | drivers/pinctrl/uniphier/pinctrl-uniphier.h:53-58 | In a word built from in-range fields, each field reads back its own value. |
| `PinAttr.PackUnpack` | drivers/pinctrl/uniphier/pinctrl-uniphier.h:53-91 | Unpacking the packed attributes of a pin gives them back when every field is in range. |
| `PinAttr.PinctrlGroup` | drivers/pinctrl/uniphier/pinctrl-uniphier.h:93-105 | A pin group has one mux value per pin, and its pin count is the length of its pin list. |
| `PinAttr.PinctrlGroupGpio` | drivers/pinctrl/uniphier/pinctrl-uniphier.h:93-108 | A GPIO group has no mux values, and its pin count is the length of its pin list. |
| `KernelVersion.Code` | include/uapi/linux/version.h:7 | The code is at least each of its three fields, scaled to its position. |
| `KernelVersion.CodeFitsInt` | include/uapi/linux/version.h:7 | With major below 128, patchlevel below 256 and sublevel below 65536, the code is below 2^31, so it fits the C int the macro is evaluated in. |
| `KernelVersion.LinuxVersionCode` | include/uapi/linux/version.h:9-11 | The tree's version code decodes to its major, patchlevel and sublevel numbers. |
| `KernelVersion.DecodeEncode` | include/uapi/linux/version.h:7 | With patchlevel below 256 and sublevel below 65536, each field is recovered from the code. |
| `KernelVersion.DivModUnique` | include/uapi/linux/version.h:7 | The quotient and remainder of a division are unique, which makes the field decoding well defined. |
| `KernelVersion.CodeOrder` | include/uapi/linux/version.h:7 | Within the field bounds, codes compare as versions do: major first, then patchlevel, then sublevel. |
| `Mmio.ApplyUntouched` | drivers/dma/uniphier-mdmac.c:100-131 | A register that no write touches keeps its old value. |
| `Mmio.ApplyLastWrite` | drivers/dma/uniphier-mdmac.c:100-131 | A register holds the value of its last write. |
| `Mmio.ApplyAppend` | drivers/dma/uniphier-mdmac.c:100-131 | Two batches of writes applied in turn equal their concatenation applied at once. |
| `CompileCommands.ParseArguments` | scripts/gen_compile_commands.py:56-63 | An unknown log level raises its ValueError. An output path is returned exactly when the level is valid and -o was given non-empty; otherwise the default path names the undefined `directory` and fails. |
| `CompileCommands.FirstSpace` | scripts/gen_compile_commands.py:21 | The target name of `[^ ]*` runs up to the first space: no space before it, a space at it. |
| `CompileCommands.MatchLineSound` | scripts/gen_compile_commands.py:21 | Every line the pattern matches has the shape "cmd_", a space-free name ending ".o", " := ", group 1 ending in a space, and group 2, a space-free name ending ".c". |
| `CompileCommands.MatchShape` | scripts/gen_compile_commands.py:21 | A matched line is split exactly into "cmd_", the target name, " := " and the two groups. |
| `CompileCommands.MatchGroups` | scripts/gen_compile_commands.py:21 | In a matched line, the target name and group 2 hold no space, and group 1 ends with one. |
| `CompileCommands.MatchLineComplete` | scripts/gen_compile_commands.py:21 | Every line of that shape matches the pattern, as line 136 applies it, with exactly those groups. |
| `CompileCommands.FirstSpaceAt` | scripts/gen_compile_commands.py:21 | A space with no space before it is the first space. |
| `CompileCommands.EscapeHead` | scripts/gen_compile_commands.py:89 | An escaped command never starts with '#'. |
| `CompileCommands.EscapeBack` | scripts/gen_compile_commands.py:89 | Replacing `\#` by `#` undoes escaping every `#` as `\#`. |
| `CompileCommands.UnescapeEscape` | scripts/gen_compile_commands.py:85-89 | For a command without "$(pound)", unescaping the .cmd file's text gives the command back. |
| `CompileCommands.UnescapeNoPound` | scripts/gen_compile_commands.py:89 | No "$(pound)" is left after unescaping. |
| `CompileCommands.ProcessLineEntry` | scripts/gen_compile_commands.py:91-100 | An entry is made exactly when the file exists under the root directory, holding that directory, the file and the unescaped command followed by the file. A missing file raises NameError on `file_directory` while building the ValueError message. |
| `CompileCommands.ModFile` | scripts/gen_compile_commands.py:119-125 | A module path with trailing blanks names its .mod file, whose first line gives the objects. A missing .mod file stops the script. |
| `CompileCommands.NotKo` | scripts/gen_compile_commands.py:121-122 | A module path not ending in ".ko" stops the script with NameError on the unimported `sys`. |
| `CompileCommands.OtherArgument` | scripts/gen_compile_commands.py:112-125 | An argument that is not an object, an archive or a modules.order file adds no object. |
| `CompileCommands.LinesEntries` | scripts/gen_compile_commands.py:134-145 | One .cmd file succeeds exactly when every matching line's file exists. It then adds the entries of its matching lines in line order; otherwise it stops with NameError on `file_directory`, uncaught by `except ValueError`. |
| `CompileCommands.LinesSkip` | scripts/gen_compile_commands.py:136-138 | A line the pattern does not match is skipped. |
| `CompileCommands.LinesTake` | scripts/gen_compile_commands.py:136-142 | A matching line adds its entry, or stops the run when its file is missing. |
| `CompileCommands.LinesOk` | scripts/gen_compile_commands.py:134-145 | The loop over a .cmd file succeeds exactly when every matching line's file exists. |
| `CompileCommands.LinesValue` | scripts/gen_compile_commands.py:134-145 | On success it adds exactly the expected entries in line order. On failure the cause is NameError on `file_directory`. |
| `CompileCommands.AllExistStep` | scripts/gen_compile_commands.py:134-142 | All matching lines name existing files exactly when the first does (if it matches) and the rest all do. |
| `CompileCommands.EntriesInOrder` | scripts/gen_compile_commands.py:127-145 | A successful run lists the entries object by object, and within an object line by line. |
| `CompileCommands.EntriesAfterFirst` | scripts/gen_compile_commands.py:129-145 | A successful run read the first object's .cmd file and went on with the rest after its entries. |
| `CompileCommands.ExpectedAllStep` | scripts/gen_compile_commands.py:129-145 | The expected entries are those of the first object's .cmd file followed by those of the rest. |
| `CompileCommands.EntriesStep` | scripts/gen_compile_commands.py:129-145 | In a successful run the first object's .cmd file exists, and the run continues from its entries. |
| `CompileCommands.CmdFileBeside` | scripts/gen_compile_commands.py:130-133 | The .cmd file of an object in a directory is ".<name>.cmd" in that directory. |
| `CompileCommands.CmdFileHere` | scripts/gen_compile_commands.py:130-133 | The .cmd file of an object without a directory is ".<name>.cmd". |
| `CompileCommands.CollectObjects` | scripts/gen_compile_commands.py:111-125 | The first loop of main yields exactly `ObjectsFrom` of the arguments: objects, archive members and modules in argument order, or the first failure. |
| `CompileCommands.ReadOrder` | scripts/gen_compile_commands.py:118-125 | The loop over a modules.order file yields exactly `OrderFrom`: the modules' objects in order, or the first failure. |
| `CompileCommands.CollectEntries` | scripts/gen_compile_commands.py:127-145 | The second loop of main yields exactly `EntriesFrom` of the objects. |
| `CompileCommands.ReadCmdFile` | scripts/gen_compile_commands.py:134-145 | The loop over one .cmd file yields exactly `LinesFrom` of its lines. |
| `CompileCommands.Generate` | scripts/gen_compile_commands.py:102-150 | main ends with the output path and the entries `Run` gives: the arguments are checked, the objects collected, then their entries collected, stopping at the first failure. |
| `ClangCompileCommands.Dst.constructor` | scripts/clang-tools/gen_compile_commands.py:28 | The output file opened with 'w' starts empty. |
| `ClangCompileCommands.Dst.Write` | scripts/clang-tools/gen_compile_commands.py:16 | `dst.write` appends its text to the file. |
| `ClangCompileCommands.ObjectName` | scripts/clang-tools/gen_compile_commands.py:10-11 | A path passes the object test exactly when its name part ends in ".o". |
| `ClangCompileCommands.ObjectStep` | scripts/clang-tools/gen_compile_commands.py:10-16 | An object adds its fragment, or nothing when there is none. Any other path stops the script with its message and writes nothing. |
| `ClangCompileCommands.FirstNonObject` | scripts/clang-tools/gen_compile_commands.py:9-12 | Every path before the index found is an object, and the path at it, if any, is not. |
| `ClangCompileCommands.CopiedStep` | scripts/clang-tools/gen_compile_commands.py:9-16 | An object's fragment is copied, and the rest of the list follows. |
| `ClangCompileCommands.CopiedInOrder` | scripts/clang-tools/gen_compile_commands.py:8-16 | The text written is the existing fragments of the objects before the first non-object, in input order. |
| `ClangCompileCommands.CopiedStop` | scripts/clang-tools/gen_compile_commands.py:11-12 | The copy stops exactly when some path is not an object, at the first one and with its message. |
| `ClangCompileCommands.FragmentsPrefix` | scripts/clang-tools/gen_compile_commands.py:9-16 | The fragments of a non-empty prefix are the first object's fragment followed by those of the rest of the prefix. |
| `ClangCompileCommands.SidecarBeside` | scripts/clang-tools/gen_compile_commands.py:10-13 | The fragment of an object in a directory is ".<name>.json" in that directory. |
| `ClangCompileCommands.SidecarHere` | scripts/clang-tools/gen_compile_commands.py:10-13 | The fragment of an object without a directory is ".<name>.json". |
| `ClangCompileCommands.GenCompileCommands` | scripts/clang-tools/gen_compile_commands.py:8-16 | The file ends with exactly what `CopiedFrom` gives for its old text and the objects, and the stop is the same. |
| `ClangCompileCommands.OtherArgument` | scripts/clang-tools/gen_compile_commands.py:30-43 | An argument that is not an object, an archive or a modules.order file writes nothing. |
| `ClangCompileCommands.ObjectArgStep` | scripts/clang-tools/gen_compile_commands.py:31-32 | An object argument writes its fragment, if there is one. |
| `ClangCompileCommands.ArchiveArgument` | scripts/clang-tools/gen_compile_commands.py:33-34 | An archive whose `ar -t` output lists its members one per line writes the fragments of exactly those members, in listing order. |
| `PyStr.SplitUnLines` | scripts/clang-tools/gen_compile_commands.py:33-34 | `str.split()` of words each followed by a newline, as `ar -t` prints them, gives the words back. |
| `ClangCompileCommands.OrderLine` | scripts/clang-tools/gen_compile_commands.py:36-43 | A modules.order line naming "<base>.ko" copies the objects of the first line of "<base>.mod", then goes on, unless that copy stopped. |
| `ClangCompileCommands.OrderNotKo` | scripts/clang-tools/gen_compile_commands.py:37-40 | A modules.order line that does not name a ".ko" module stops the script with its message, after what was already written. |
| `ClangCompileCommands.RunAppend` | scripts/clang-tools/gen_compile_commands.py:30-43 | Arguments are handled in input order. What the first ones write comes first, and a stop among them ends the run. |
| `ClangCompileCommands.ObjectsOnly` | scripts/clang-tools/gen_compile_commands.py:30-32 | A command line of objects only writes all their existing fragments in order and never stops. |
| `ClangCompileCommands.RunObjectStep` | scripts/clang-tools/gen_compile_commands.py:31-32 | An object argument writes its fragment and the run goes on with the rest. |
| `ClangCompileCommands.ReadOrder` | scripts/clang-tools/gen_compile_commands.py:36-43 | The loop over a modules.order file ends exactly as `OrderFrom` gives. |
| `ClangCompileCommands.WriteAll` | scripts/clang-tools/gen_compile_commands.py:30-43 | The loop over the arguments ends exactly as `RunFrom` gives. |
| `ClangCompileCommands.Generate` | scripts/clang-tools/gen_compile_commands.py:18-43 | Without -o, `open(None)` fails before anything is written. Otherwise the output holds exactly the text `RunFrom` gives, and the stop is the same. |
| `PyStr.ReplaceAbsent` | scripts/gen_compile_commands.py:89 | `str.replace` leaves a string without the pattern unchanged. |
| `PyStr.ReplaceHead` | scripts/gen_compile_commands.py:89 | A pattern at the start is replaced, so the result starts with the replacement. |
| `PyStr.ReplaceKeepsPrefix` | scripts/gen_compile_commands.py:89 | A prefix of the result made only of characters outside the replacement was copied unchanged from the input. |
| `PyStr.ReplaceRemoves` | scripts/gen_compile_commands.py:89 | When the replacement shares no character with the pattern, no occurrence of the pattern is left. |
| `PyStr.NoRoom` | scripts/gen_compile_commands.py:89 | A string shorter than the pattern does not contain it. |
| `PyStr.NotAfterRep` | scripts/gen_compile_commands.py:89 | No occurrence starts inside a replacement that shares no character with the pattern. |
| `PyStr.NotAfterKept` | scripts/gen_compile_commands.py:89 | A kept first character followed by a pattern-free rest starts no occurrence. |
| `PyStr.RStrip` | scripts/gen_compile_commands.py:119 | `str.rstrip()` returns a prefix that does not end in whitespace, and only whitespace was removed. |
| `PyStr.RStripAt` | scripts/gen_compile_commands.py:119 | When only whitespace follows a non-space character, `rstrip` cuts right after it. |
| `PyStr.TokenLen` | scripts/gen_compile_commands.py:116-125 | A token runs up to the first whitespace character. |
| `PyStr.SplitWsWords` | scripts/gen_compile_commands.py:116-125 | Every element of `str.split()` is a non-empty word without whitespace. |
| `PyStr.SplitUnwords` | scripts/gen_compile_commands.py:116-125 | Splitting words joined by single spaces gives the words back. |
| `PyStr.UnwordsStep` | scripts/gen_compile_commands.py:116-125 | A word followed by a space and split-able words splits into that word and the rest. |
| `PyStr.SpaceThen` | scripts/gen_compile_commands.py:116 | A leading space does not change the split. |
| `PyStr.TokenOf` | scripts/gen_compile_commands.py:116 | A word followed by the end or by whitespace is read as one token. |
| `PyStr.TokenLenWord` | scripts/gen_compile_commands.py:116 | Such a word's token length is its length. |
| `PyStr.LineLen` | scripts/gen_compile_commands.py:118-135 | The first line runs up to and including the first newline, or to the end. |
| `PyStr.LinesConcat` | scripts/gen_compile_commands.py:118-135 | The lines of a text file put back together are the file. |
| `PyStr.LinesShape` | scripts/gen_compile_commands.py:118-135 | No line is empty, and a newline appears only at the end of a line. |
| `PyStr.Rfind` | scripts/gen_compile_commands.py:130 | `rfind` gives -1 or an index holding the character. |
| `PyStr.RfindNoneAfter` | scripts/gen_compile_commands.py:130 | No occurrence of the character follows the index `rfind` returns. |
| `PyStr.StripSlashes` | scripts/gen_compile_commands.py:130 | Stripping trailing slashes leaves a prefix that does not end in '/'. |
| `PyStr.PathSplitTail` | scripts/gen_compile_commands.py:130 | The name part of `os.path.split` holds no '/' and ends the path. |
| `PyStr.PathSplitSuffix` | scripts/gen_compile_commands.py:130-131 | For a suffix without '/', the name part ends with it exactly when the whole path does. |
| `PyStr.RfindBeforeSuffix` | scripts/gen_compile_commands.py:130-131 | The last '/' of a path lies before any '/'-free suffix the path ends with. |
| `PyStr.RfindBelow` | scripts/gen_compile_commands.py:130 | When the character does not occur from index m on, `rfind` finds it before m. |
| `PyStr.PathSplitBeside` | scripts/gen_compile_commands.py:130-133 | A name after a directory not ending in '/' splits off as (directory, name). |
| `PyStr.PathSplitHere` | scripts/gen_compile_commands.py:130-133 | A name without '/' splits into an empty directory and the name. |
| `PyStr.RfindAbsent` | scripts/gen_compile_commands.py:130 | `rfind` of a missing character is -1. |
| `PyStr.RfindLast` | scripts/gen_compile_commands.py:130 | `rfind` finds the occurrence that no later occurrence follows. |
| `PyStr.SplitJoin` | scripts/gen_compile_commands.py:130-133 | Joining the two parts of a split gives the path back when it has no doubled '/'. |
| `PyStr.TailStart` | scripts/gen_compile_commands.py:130 | The name part never starts with '/'. |
| `PyStr.HeadCases` | scripts/gen_compile_commands.py:130 | The directory part is either the path through its last '/' (empty or ending in '/'), or that prefix with the final '/' dropped, which then does not end in '/'. |
| `PyStr.StripOne` | scripts/gen_compile_commands.py:130 | One trailing '/' after a character that is not '/' is dropped. |
| `PyStr.SplitExtParts` | scripts/gen_compile_commands.py:120 | Root and extension make up the path. An extension starts with '.' and holds no '/' and no other '.'. |
| `PyStr.SplitExtKo` | scripts/gen_compile_commands.py:120-121 | A module path "<base>.ko" splits into its base and ".ko". |
| `PyStr.KoLine` | scripts/gen_compile_commands.py:119-121 | A modules.order line "<base>.ko" followed by whitespace strips and splits into its base and ".ko". The clang-tools script does the same at lines 37-39. |

## Left out

- SdhiDmac.Host.CompleteTasklet: `tmio_mmc_do_data_irq` belongs to the tmio core, which is not part of this model. It is recorded as the `DataIrq` event, and its clearing of `host->data` as `data` becoming `None`; the rest of what it does to the request is not modelled.
- Concurrency. Spinlocks and `spin_lock_irqsave` are not modelled; each locked region is one atomic method call. Tasklet scheduling is not modelled: `SdhiDmac.Host.IssueTasklet` and `CompleteTasklet` run when called.
- virt-dma internals. Cookie allocation and `vchan_cookie_complete` become a list of completed descriptors. `vchan_find_desc` searches only the issued list, which follows the kernel's virt-dma semantics; include/linux/virt-dma.h is not part of this model.
- `dma_map_sg` and `dma_unmap_sg`: the mapping result and the first segment address are inputs. Unmapping is a logged event.
- The clock, pinctrl and regmap frameworks: their results are inputs. A regmap access fails at a given position of a list of outcomes.
- Probe and remove plumbing: devm allocation, `of_*` property lookup, `platform_get_irq`, IRQ registration, dmaengine and `of_dma` registration, module macros. Only the decisions listed under Model are kept.
- The `uart_putc` busy-wait and `ioremap` in drivers/soc/uniphier/uniphier-debug.c, and its init function and `printk` hookup. Output is a character sequence.
- UniphierDebug.Uart.Puts: a NULL string for `%s` is not modelled; a string argument is a character sequence.
- UniphierDebug.Uart.Vprintk: requires the arguments to match the conversions. In C a mismatch reads the wrong varargs, which is undefined behaviour. The corrected loop cannot overrun (`UniphierDebug.NeverOverruns`), so this precondition excludes only the mismatch.
- UniphierDebug.FormatAsWritten: the read past the NUL is a result value (`Overrun`); what the C code then prints from memory is not modelled.
- UniphierDebug.SignedText: negating LLONG_MIN is undefined in C. The model uses two's-complement wrap-around, which gives 2^63, the right magnitude.
- KernelVersion.Code: computed on unbounded integers. In C the macro is evaluated in a 32-bit `int`, and for a major of 128 or more `a << 24` overflows, which is undefined behaviour. Model and C agree when major is below 128, patchlevel below 256 and sublevel below 65536 (`KernelVersion.CodeFitsInt`).
- MioDma.Channel.Interrupt: requires an active descriptor when the status is non-zero, and descriptors have at least one segment. Both are stated as preconditions, because the C code dereferences and indexes without a check.
- MioDma.Channel.TxResidue: like the driver, it finds only issued descriptors. The active descriptor's residue is never reported.
- Constants from headers that are not part of this model: ONE_RX_ONLY = bit 0 and RX_IN_USE = bit 1 (renesas_sdhi.h), DENALI_NR_BANKS = 4 (denali.h), TMIO_STAT_DATAEND = bit 2 (tmio_mmc.h), MMC_CAP_UHS_* = bits 16 to 20 (include/linux/mmc/host.h). `long` is 64 bits wide (arm64).
- drivers/mtd/nand/raw/denali_dt.c has unresolved merge-conflict markers. The model takes the side that looks up the "nand" clock and falls back to the anonymous clock, and uses the `clk_x`/`clk_ecc` fields that the rest of the file uses.
- The rest of thermal probe, and the IRQ handlers that call `thermal_zone_device_update`. The thermal-zone framework is foreign.
- The rest of SD probe, beyond host allocation, clock enable and the UHS fallback: `tmio_mmc_host_probe` and reset hooks.
- drivers/mtd/nand/denali_dt.c (only probe plumbing and ECC tables), drivers/mmc/host/renesas_sdhi_internal_dmac.c (a SoC match table), drivers/mfd/uniphier-mio.c (clock enable and child population), the livepatch samples and tests, scripts/kconfig/tests/conftest.py (subprocess I/O), arch/arm/mach-uniphier/reg_dump.c (all inside `#if 0`), include/asm-generic/int-ll64.h (type macros with no logic).
- Python I/O: `argparse` is reduced to its parsed values. `json.dump`, logging and file reading are left out. The file system is a map from path to text, with universal newlines assumed. `ar -t` becomes an input map from archive to the text it prints. Opening no output file (`open(None)`) is a `NoOutput` stop.
- Python paths: directory existence checks and `os.path.abspath`/`normpath` are not modelled; paths are used as given. The output file is assumed to be none of the input files.
- CompileCommands: the `except ValueError` around `process_line` can never be reached, because the missing-file case raises NameError first. The undefined `filepath` at scripts/gen_compile_commands.py:145 appears only inside that handler, so it never matters.
- Opening the output file: both scripts are assumed to open it. scripts/clang-tools/gen_compile_commands.py:28 with `-o ""` and scripts/gen_compile_commands.py:149 with an output in a missing directory would raise an OSError instead. Only a missing `-o` is modelled: `NoOutput` in the clang-tools script, and the NameError on `directory` in the other.
- CompileCommands: NameError paths are modelled as written, not repaired. They are the undefined `directory` (line 60) and `file_directory` (line 95), and `sys` never imported (lines 122 and 132).

## Findings

| source | as written | input that shows it | evidently intended | confidence | as-written member | corrected member |
|---|---|---|---|---|---|---|
| drivers/soc/uniphier/uniphier-debug.c:84-88 | after `z` sets the length to long, `z` itself is taken as the conversion character, which the default case at lines 122-123 skips | format "%zu" with the argument 5 prints "u" | "%zu" prints "5" | not executed | `UniphierDebug.SizeTAsWritten` | `UniphierDebug.SizeTIsLong` |
| drivers/soc/uniphier/uniphier-debug.c:69-77 | a trailing "%" makes the loop step past the NUL, and the next read is beyond the string | format "a%" | print "a" and stop at the NUL | not executed | `UniphierDebug.TrailingPercentAsWritten` | `UniphierDebug.NeverOverruns` |
| drivers/mmc/host/tmio_mmc_uniphier.c:185-191 | a failed `tmio_mmc_host_alloc` only stores -ENOMEM in `ret`; the next statement reads `host->mmc` and would then overwrite `ret` | host allocation returns NULL | return -ENOMEM | not executed | `UniphierSd.HostAllocAsWrittenDerefs` | `UniphierSd.HostAllocNeverDerefs` |
