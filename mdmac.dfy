// The channel engine of the UniPhier MIO DMA controller
// (drivers/dma/uniphier-mdmac.c). Each channel keeps the virt-dma lists of
// submitted and issued descriptors, at most one active descriptor whose
// cursor walks its scatter list one segment per interrupt, and the log of
// 32-bit writes it issues to the controller's register window.
module MioDma {
  import opened Wrappers
  import opened Mmio

  // registers common to all channels
  const Start: nat := 0x000
  // per-channel registers
  const ChOffset: nat := 0x100
  const ChStride: nat := 0x040
  const ChIrqReq: nat := 0x014
  const ChIrqEn: nat := 0x018
  const ChSrcMode: nat := 0x020
  const ChDestMode: nat := 0x024
  const ChSrcAddr: nat := 0x028
  const ChDestAddr: nat := 0x02c
  const ChSize: nat := 0x030

  const IrqWrDone: bv32 := 0x2          // UNIPHIER_MDMAC_CH_IRQ__WR_DONE, BIT(1)
  const ModeAddrInc: bv32 := 0x00       // 0 << 4
  const ModeAddrFixed: bv32 := 0x20     // 2 << 4
  const AllOnes: bv32 := 0xffff_ffff    // U32_MAX

  /** enum dma_transfer_direction */
  datatype Direction = MemToMem | MemToDev | DevToMem | DevToDev {
    /** is_slave_direction */
    predicate IsSlave() { this == MemToDev || this == DevToMem }
  }

  /** One mapped scatter-list entry: sg_dma_address and sg_dma_len as the
      32-bit values writel puts on the bus. */
  datatype Segment = Segment(addr: bv32, len: bv32)

  /** struct uniphier_mdmac_desc: sg_len is |segs|. */
  datatype Desc = Desc(cookie: int, segs: seq<Segment>, sgCur: nat, dir: Direction)

  /** A descriptor as prepared and queued: at least one segment, cursor 0. */
  predicate Fresh(d: Desc)
  {
    |d.segs| >= 1 && d.sgCur == 0
  }

  datatype IrqReturn = IrqNone | IrqHandled

  /** The channel's register block: 0x100 + 0x40 * chan_id. */
  function ChannelBase(chanId: nat): nat
  {
    ChOffset + ChStride * chanId
  }

  /** The blocks of two different channels never overlap, and none of them
      covers the common START register. */
  lemma ChannelBlocksDisjoint(i: nat, j: nat, k: nat, l: nat)
    requires i != j && k < ChStride && l < ChStride
    ensures ChannelBase(i) + k != ChannelBase(j) + l
    ensures ChannelBase(i) + k != Start
  {
    if i < j {
      assert ChStride * j >= ChStride * (i + 1);
    } else {
      assert ChStride * i >= ChStride * (j + 1);
    }
  }

  /** BIT(chan_id) as writel sends it: an unsigned long shifted, then cut
      to 32 bits. */
  function StartBit(chanId: nat): bv32
  {
    if chanId < 32 then Bit(chanId) else 0
  }

  /** The eight writes of __uniphier_mdmac_handle for the segment under the
      cursor: modes, addresses, size, IRQ clear, IRQ enable, then START. */
  function ProgramWrites(chanId: nat, d: Desc): seq<Write32>
    requires d.sgCur < |d.segs|
  {
    var base := ChannelBase(chanId);
    var seg := d.segs[d.sgCur];
    var toDev := d.dir == MemToDev;
    [Write32(base + ChSrcMode, if toDev then ModeAddrInc else ModeAddrFixed),
     Write32(base + ChDestMode, if toDev then ModeAddrFixed else ModeAddrInc),
     Write32(base + ChSrcAddr, if toDev then seg.addr else 0),
     Write32(base + ChDestAddr, if toDev then 0 else seg.addr),
     Write32(base + ChSize, seg.len),
     Write32(base + ChIrqReq, AllOnes),
     Write32(base + ChIrqEn, IrqWrDone),
     Write32(Start, StartBit(chanId))]
  }

  /** What programming a segment leaves in the window: the memory side of
      the transfer increments from the segment address, the device side is
      fixed at 0, the size is the segment length, WR_DONE is the only
      enabled interrupt, and the START word carries the channel's bit. */
  lemma {:induction false} ProgramLeaves(w: Window, chanId: nat, d: Desc)
    requires d.sgCur < |d.segs|
    ensures var r := Apply(w, ProgramWrites(chanId, d));
            var base := ChannelBase(chanId);
            var seg := d.segs[d.sgCur];
            && (d.dir == MemToDev ==>
                  Read(r, base + ChSrcMode) == ModeAddrInc && Read(r, base + ChSrcAddr) == seg.addr
                  && Read(r, base + ChDestMode) == ModeAddrFixed && Read(r, base + ChDestAddr) == 0)
            && (d.dir != MemToDev ==>
                  Read(r, base + ChSrcMode) == ModeAddrFixed && Read(r, base + ChSrcAddr) == 0
                  && Read(r, base + ChDestMode) == ModeAddrInc && Read(r, base + ChDestAddr) == seg.addr)
            && Read(r, base + ChSize) == seg.len
            && Read(r, base + ChIrqReq) == AllOnes
            && Read(r, base + ChIrqEn) == IrqWrDone
            && Read(r, Start) == StartBit(chanId)
  {
    var ws := ProgramWrites(chanId, d);
    var base := ChannelBase(chanId);
    assert base != Start;
    ApplyLastWrite(w, ws, 0);
    ApplyLastWrite(w, ws, 1);
    ApplyLastWrite(w, ws, 2);
    ApplyLastWrite(w, ws, 3);
    ApplyLastWrite(w, ws, 4);
    ApplyLastWrite(w, ws, 5);
    ApplyLastWrite(w, ws, 6);
    ApplyLastWrite(w, ws, 7);
  }

  /** The descriptor lists of one channel. */
  datatype Queue = Queue(submitted: seq<Desc>, issued: seq<Desc>, active: Option<Desc>, completed: seq<Desc>)

  /** The invariant the channel keeps: queued descriptors are fresh, the
      active cursor is inside its list, and an idle channel has nothing
      issued. */
  predicate Valid(q: Queue)
  {
    && (forall i :: 0 <= i < |q.submitted| ==> Fresh(q.submitted[i]))
    && (forall i :: 0 <= i < |q.issued| ==> Fresh(q.issued[i]))
    && (q.active.Some? ==> q.active.value.sgCur < |q.active.value.segs|)
    && (q.active.None? ==> q.issued == [])
  }

  /** __uniphier_mdmac_next_desc: the head of the issued list, removed,
      becomes the active descriptor; with nothing issued there is none. */
  function Dequeue(q: Queue): (r: Queue)
    ensures r.submitted == q.submitted && r.completed == q.completed
    ensures q.issued == [] ==> r.active == None && r.issued == []
    ensures q.issued != [] ==> r.active == Some(q.issued[0]) && [q.issued[0]] + r.issued == q.issued
  {
    if q.issued == [] then q.(active := None)
    else q.(active := Some(q.issued[0]), issued := q.issued[1..])
  }

  /** The descriptor effect of a handled interrupt: the cursor moves by one;
      at the end of the list the descriptor is completed and the next issued
      one becomes active. */
  function Advance(q: Queue): Queue
    requires q.active.Some?
  {
    var md := q.active.value.(sgCur := q.active.value.sgCur + 1);
    if md.sgCur >= |md.segs| then Dequeue(q.(completed := q.completed + [md]))
    else q.(active := Some(md))
  }

  /** The writes of a handled interrupt: the status written back to IRQ_REQ,
      then the programming of whatever is active afterwards. */
  function IrqWrites(chanId: nat, q: Queue, irqStat: bv32): seq<Write32>
    requires Valid(q) && q.active.Some?
  {
    AdvanceValid(q);
    var r := Advance(q);
    [Write32(ChannelBase(chanId) + ChIrqReq, irqStat)]
    + (if r.active.Some? then ProgramWrites(chanId, r.active.value) else [])
  }

  /** vchan_issue_pending followed by the start decision of
      uniphier_mdmac_issue_pending. */
  function Issue(q: Queue): Queue
  {
    var s := q.(issued := q.issued + q.submitted, submitted := []);
    if s.issued != [] && s.active.None? then Dequeue(s) else s
  }

  /** Whether issue_pending programs a descriptor. */
  predicate IssueStarts(q: Queue)
  {
    q.issued + q.submitted != [] && q.active.None?
  }

  lemma {:induction false} AdvanceValid(q: Queue)
    requires Valid(q) && q.active.Some?
    ensures Valid(Advance(q))
  {
    var md := q.active.value.(sgCur := q.active.value.sgCur + 1);
    if md.sgCur >= |md.segs| {
      var c := q.(completed := q.completed + [md]);
      if q.issued != [] {
        assert Fresh(q.issued[0]);
        assert forall i :: 0 <= i < |q.issued| - 1 ==> q.issued[1..][i] == q.issued[i + 1];
      }
    }
  }

  lemma {:induction false} IssueValid(q: Queue)
    requires Valid(q)
    ensures Valid(Issue(q))
  {
    var s := q.(issued := q.issued + q.submitted, submitted := []);
    assert forall i :: 0 <= i < |s.issued| ==> Fresh(s.issued[i]) by {
      forall i | 0 <= i < |s.issued|
        ensures Fresh(s.issued[i])
      {
        if i < |q.issued| {
          assert s.issued[i] == q.issued[i];
        } else {
          assert s.issued[i] == q.submitted[i - |q.issued|];
        }
      }
    }
    if s.issued != [] && s.active.None? {
      assert Fresh(s.issued[0]);
      assert forall i :: 0 <= i < |s.issued| - 1 ==> s.issued[1..][i] == s.issued[i + 1];
    }
  }

  /** The descriptor identities of a list, cursor dropped. */
  function Ids(ds: seq<Desc>): (r: seq<int>)
    ensures |r| == |ds|
  {
    if ds == [] then [] else [ds[0].cookie] + Ids(ds[1..])
  }

  lemma {:induction false} IdsAppend(a: seq<Desc>, b: seq<Desc>)
    ensures Ids(a + b) == Ids(a) + Ids(b)
  {
    if a != [] {
      IdsAppend(a[1..], b);
      assert (a + b)[1..] == a[1..] + b;
    } else {
      assert a + b == b;
    }
  }

  /** Every descriptor the channel holds, in the order it will be run:
      completed, active, issued, then submitted. */
  function Line(q: Queue): seq<int>
  {
    Ids(q.completed) + (if q.active.Some? then [q.active.value.cookie] else []) + Ids(q.issued) + Ids(q.submitted)
  }

  /** Descriptors run in FIFO order: a handled interrupt changes no
      descriptor's place in the line. */
  lemma {:induction false} AdvanceKeepsOrder(q: Queue)
    requires q.active.Some?
    ensures Line(Advance(q)) == Line(q)
  {
    var d := q.active.value;
    var md := d.(sgCur := d.sgCur + 1);
    if md.sgCur >= |md.segs| {
      var done := Ids(q.completed + [md]);
      assert done == Ids(q.completed) + [d.cookie] by {
        IdsAppend(q.completed, [md]);
      }
      if q.issued != [] {
        var h := q.issued[0];
        assert Ids(q.issued) == [h.cookie] + Ids(q.issued[1..]);
        assert Line(Advance(q)) == done + [h.cookie] + Ids(q.issued[1..]) + Ids(q.submitted);
      } else {
        assert Line(Advance(q)) == done + Ids(q.submitted);
      }
    }
  }

  /** Issuing moves the submitted descriptors behind the issued ones and
      starts the head; the line is unchanged. */
  lemma {:induction false} IssueKeepsOrder(q: Queue)
    ensures Line(Issue(q)) == Line(q)
  {
    IdsAppend(q.issued, q.submitted);
    var s := q.(issued := q.issued + q.submitted, submitted := []);
    assert Line(s) == Line(q);
    if s.issued != [] && s.active.None? {
      var h := s.issued[0];
      assert Ids(s.issued) == [h.cookie] + Ids(s.issued[1..]);
      assert Line(Issue(q)) == Ids(q.completed) + [h.cookie] + Ids(s.issued[1..]) + Ids([]);
    }
  }

  /** Submission puts the new descriptor at the end of the line. */
  lemma SubmitAppends(q: Queue, d: Desc)
    ensures Line(q.(submitted := q.submitted + [d])) == Line(q) + [d.cookie]
  {
    IdsAppend(q.submitted, [d]);
  }

  /** On a valid channel issue_pending starts a descriptor exactly when new
      work was submitted and no descriptor is active. */
  lemma IssueStartsOnNewWork(q: Queue)
    requires Valid(q)
    ensures IssueStarts(q) <==> q.submitted != [] && q.active.None?
    ensures !IssueStarts(q) ==> Issue(q).active == q.active
    ensures IssueStarts(q) ==> Issue(q).active == Some(q.submitted[0])
  {
  }

  /** Handled interrupts in a row, as long as a descriptor is active. */
  function AdvanceN(q: Queue, n: nat): Queue
    requires Valid(q)
    decreases n
  {
    if n == 0 || q.active.None? then q
    else
      AdvanceValid(q);
      AdvanceN(Advance(q), n - 1)
  }

  /** The first n - 1 interrupts of an n-segment descriptor only move its
      cursor. */
  lemma {:induction false} AdvanceCursor(q: Queue, k: nat)
    requires Valid(q) && q.active.Some?
    requires q.active.value.sgCur + k < |q.active.value.segs|
    ensures AdvanceN(q, k) == q.(active := Some(q.active.value.(sgCur := q.active.value.sgCur + k)))
    decreases k
  {
    if k > 0 {
      var d := q.active.value;
      AdvanceValid(q);
      var q1 := Advance(q);
      assert q1 == q.(active := Some(d.(sgCur := d.sgCur + 1)));
      AdvanceCursor(q1, k - 1);
    }
  }

  /** An n-segment descriptor that has just been started completes after
      exactly n handled interrupts, and the head of the issued list takes
      its place. */
  lemma {:induction false} CompletesAfterSegments(q: Queue)
    requires Valid(q) && q.active.Some? && q.active.value.sgCur == 0
    ensures var n := |q.active.value.segs|;
            var r := AdvanceN(q, n);
            && r.completed == q.completed + [q.active.value.(sgCur := n)]
            && r == Dequeue(q.(completed := q.completed + [q.active.value.(sgCur := n)]))
            && (forall k :: 0 <= k < n ==> AdvanceN(q, k).active == Some(q.active.value.(sgCur := k)))
  {
    var d := q.active.value;
    var n := |d.segs|;
    forall k | 0 <= k < n
      ensures AdvanceN(q, k).active == Some(d.(sgCur := k))
    {
      AdvanceCursor(q, k);
    }
    AdvanceCursor(q, n - 1);
    var q1 := AdvanceN(q, n - 1);
    AdvanceN1(q, n - 1);
  }

  // AdvanceN(q, k + 1) is one more interrupt after AdvanceN(q, k).
  lemma {:induction false} AdvanceN1(q: Queue, k: nat)
    requires Valid(q)
    ensures var r := AdvanceN(q, k);
            Valid(r) && (r.active.Some? ==> AdvanceN(q, k + 1) == Advance(r))
    decreases k
  {
    if k > 0 && q.active.Some? {
      AdvanceValid(q);
      AdvanceN1(Advance(q), k - 1);
    }
  }

  /** One channel of the controller. */
  class Channel {
    /** chan_id; the channel's registers are at ChannelBase(chanId). */
    const chanId: nat
    /** The register window as it was before the channel's first write. */
    const regs0: Window
    /** vc.desc_submitted */
    var submitted: seq<Desc>
    /** vc.desc_issued */
    var issued: seq<Desc>
    /** mc->md */
    var active: Option<Desc>
    /** The descriptors handed to vchan_cookie_complete, oldest first. */
    var completed: seq<Desc>
    /** The last cookie dma_cookie_assign gave out. */
    var lastCookie: int
    /** Every writel of the channel, oldest first. */
    var trace: seq<Write32>

    function Q(): Queue
      reads this
    {
      Queue(submitted, issued, active, completed)
    }

    /** The register window as the writes have left it. */
    function Regs(): Window
      reads this
    {
      Apply(regs0, trace)
    }

    /** uniphier_mdmac_chan_init with vchan_init: empty lists, no active
        descriptor. */
    constructor (chanId: nat, regs0: Window)
      ensures this.chanId == chanId && this.regs0 == regs0
      ensures Q() == Queue([], [], None, []) && Valid(Q())
      ensures trace == [] && lastCookie == 0
    {
      this.chanId := chanId;
      this.regs0 := regs0;
      submitted, issued, active, completed := [], [], None, [];
      lastCookie := 0;
      trace := [];
    }

    method WriteL(off: nat, val: bv32)
      modifies this
      ensures trace == old(trace) + [Write32(off, val)]
      ensures Q() == old(Q()) && lastCookie == old(lastCookie)
    {
      trace := trace + [Write32(off, val)];
    }

    /** __uniphier_mdmac_handle: program the segment under md's cursor. */
    method Handle(md: Desc)
      requires md.sgCur < |md.segs|
      modifies this
      ensures trace == old(trace) + ProgramWrites(chanId, md)
      ensures Q() == old(Q()) && lastCookie == old(lastCookie)
    {
      var base := ChannelBase(chanId);
      var sg := md.segs[md.sgCur];
      var srcMode, srcAddr, destMode, destAddr;
      if md.dir == MemToDev {
        srcMode, srcAddr := ModeAddrInc, sg.addr;
        destMode, destAddr := ModeAddrFixed, 0;
      } else {
        srcMode, srcAddr := ModeAddrFixed, 0;
        destMode, destAddr := ModeAddrInc, sg.addr;
      }
      var chunkSize := sg.len;
      ghost var t0 := trace;
      ghost var ws := [Write32(base + ChSrcMode, srcMode), Write32(base + ChDestMode, destMode),
                       Write32(base + ChSrcAddr, srcAddr), Write32(base + ChDestAddr, destAddr),
                       Write32(base + ChSize, chunkSize), Write32(base + ChIrqReq, AllOnes),
                       Write32(base + ChIrqEn, IrqWrDone), Write32(Start, StartBit(chanId))];
      assert ws == ProgramWrites(chanId, md);
      WriteL(base + ChSrcMode, srcMode);
      WriteL(base + ChDestMode, destMode);
      WriteL(base + ChSrcAddr, srcAddr);
      WriteL(base + ChDestAddr, destAddr);
      WriteL(base + ChSize, chunkSize);
      WriteL(base + ChIrqReq, AllOnes);
      WriteL(base + ChIrqEn, IrqWrDone);
      WriteL(Start, StartBit(chanId));
      assert trace == t0 + ws;
    }

    /** __uniphier_mdmac_next_desc */
    method NextDesc() returns (md: Option<Desc>)
      modifies this
      ensures Q() == Dequeue(old(Q())) && md == active
      ensures trace == old(trace) && lastCookie == old(lastCookie)
    {
      if issued == [] {
        active := None;
        return None;
      }
      var vd := issued[0];
      issued := issued[1..];
      active := Some(vd);
      return active;
    }

    /** __uniphier_mdmac_start */
    method StartNext()
      requires issued != [] ==> Fresh(issued[0])
      modifies this
      ensures Q() == Dequeue(old(Q()))
      ensures trace == old(trace) + (if Q().active.Some? then ProgramWrites(chanId, Q().active.value) else [])
      ensures lastCookie == old(lastCookie)
    {
      var md := NextDesc();
      if md.Some? {
        assert Fresh(old(issued)[0]);
        Handle(md.value);
      }
    }

    /** uniphier_mdmac_interrupt, with irqStat the word read from IRQ_STAT.
        A zero status belongs to another channel on the shared line. */
    method Interrupt(irqStat: bv32) returns (ret: IrqReturn)
      requires Valid(Q())
      requires irqStat != 0 ==> active.Some?
      modifies this
      ensures Valid(Q())
      ensures irqStat == 0 ==> ret == IrqNone && Q() == old(Q()) && trace == old(trace)
      ensures irqStat != 0 ==> ret == IrqHandled && Q() == Advance(old(Q()))
                               && trace == old(trace) + IrqWrites(chanId, old(Q()), irqStat)
      ensures lastCookie == old(lastCookie)
    {
      if irqStat == 0 {
        return IrqNone;
      }
      ghost var q0 := Q();
      AdvanceValid(q0);
      ghost var r := Advance(q0);
      ret := IrqHandled;
      WriteL(ChannelBase(chanId) + ChIrqReq, irqStat);
      var md := active.value;
      md := md.(sgCur := md.sgCur + 1);
      active := Some(md);
      if md.sgCur >= |md.segs| {
        completed := completed + [md];
        active := None;
        var next := NextDesc();
        assert Q() == r;
        if next.None? {
          return;
        }
        md := next.value;
      } else {
        assert Q() == r;
      }
      Handle(md);
    }

    /** vchan_tx_submit: a prepared descriptor gets the next cookie and joins
        the submitted list. */
    method Submit(d: Desc) returns (cookie: int)
      requires Valid(Q()) && Fresh(d)
      modifies this
      ensures cookie == old(lastCookie) + 1 && lastCookie == cookie
      ensures Q() == old(Q()).(submitted := old(submitted) + [d.(cookie := cookie)])
      ensures Valid(Q()) && trace == old(trace)
    {
      lastCookie := lastCookie + 1;
      cookie := lastCookie;
      submitted := submitted + [d.(cookie := cookie)];
    }

    /** uniphier_mdmac_issue_pending: splice submitted onto issued; start
        only if something is issued and no descriptor is active. */
    method IssuePending()
      requires Valid(Q())
      modifies this
      ensures Q() == Issue(old(Q())) && Valid(Q())
      ensures IssueStarts(old(Q())) ==> trace == old(trace) + ProgramWrites(chanId, active.value)
      ensures !IssueStarts(old(Q())) ==> trace == old(trace)
      ensures lastCookie == old(lastCookie)
    {
      issued := issued + submitted;
      submitted := [];
      var any := issued != [];
      if any && active.None? {
        assert Fresh(issued[0]) by {
          IssueValid(old(Q()));
          assert Fresh(old(issued + submitted)[0]);
        }
        StartNext();
      }
      IssueValid(old(Q()));
    }

    /** uniphier_mdmac_tx_status's residue: found only among the issued
        descriptors (vchan_find_desc). On None the driver does not overwrite
        the residue that dma_cookie_status has already set to 0. On Some it
        writes txstate->residue without the NULL check of txstate that
        dma_cookie_status makes. */
    function TxResidue(cookie: int): (r: Option<int>)
      reads this
      ensures r.Some? <==> exists i :: 0 <= i < |issued| && issued[i].cookie == cookie
      ensures Valid(Q()) && r.Some? ==>
        exists i :: 0 <= i < |issued| && issued[i].cookie == cookie
                    && (forall j :: 0 <= j < i ==> issued[j].cookie != cookie)
                    && r.value == |issued[i].segs| >= 1
    {
      FindResidue(issued, cookie)
    }
  }

  /** The residue sg_len - sg_cur of the first descriptor with the cookie. */
  function FindResidue(ds: seq<Desc>, cookie: int): (r: Option<int>)
    ensures r.Some? <==> exists i :: 0 <= i < |ds| && ds[i].cookie == cookie
    ensures r.Some? ==> exists i :: 0 <= i < |ds| && ds[i].cookie == cookie
                               && (forall j :: 0 <= j < i ==> ds[j].cookie != cookie)
                               && r.value == |ds[i].segs| - ds[i].sgCur
  {
    if ds == [] then None
    else if ds[0].cookie == cookie then Some(|ds[0].segs| - ds[0].sgCur)
    else
      var r := FindResidue(ds[1..], cookie);
      assert forall i :: 0 <= i < |ds| - 1 ==> ds[1..][i] == ds[i + 1];
      assert ds[0].cookie != cookie;
      if r.Some? then
        var i :| 0 <= i < |ds| - 1 && ds[1..][i].cookie == cookie
                 && (forall j :: 0 <= j < i ==> ds[1..][j].cookie != cookie)
                 && r.value == |ds[1..][i].segs| - ds[1..][i].sgCur;
        assert forall j :: 0 <= j < i + 1 ==> ds[j].cookie != cookie by {
          forall j | 0 <= j < i + 1
            ensures ds[j].cookie != cookie
          {
            if j > 0 {
              assert ds[j] == ds[1..][j - 1];
            }
          }
        }
        r
      else
        r
  }

  /** uniphier_mdmac_prep_slave_sg: NULL for a non-slave direction or a
      failed allocation; otherwise a zeroed descriptor (cursor 0) carrying
      the scatter list and direction. The cookie is given at submission. */
  function Prep(segs: seq<Segment>, dir: Direction, allocOk: bool): (r: Option<Desc>)
    ensures r.Some? <==> dir.IsSlave() && allocOk
    ensures r.Some? ==> r.value.segs == segs && r.value.dir == dir && r.value.sgCur == 0
    ensures r.Some? && |segs| >= 1 ==> Fresh(r.value)
  {
    if !dir.IsSlave() then None
    else if !allocOk then None
    else Some(Desc(0, segs, 0, dir))
  }
}
