// Per-pin attributes of the UniPhier pin controller, packed into one word
// by the macros of drivers/pinctrl/uniphier/pinctrl-uniphier.h: five
// bit-fields (input enable, drive strength, drive type, pull-up/down
// register, pull direction) side by side.
module PinAttr {
  import opened Wrappers

  /** GENMASK(h, l) for a 32-bit word. */
  function GenMask(h: nat, l: nat): bv32
    requires l <= h < 32
  {
    (((1 as bv32) << (h - l + 1) as nat) - 1) << l
  }

  const IectrlMask: bv32 := 0x0000_0007    // GENMASK(2, 0)
  const DrvctrlMask: bv32 := 0x0000_0ff8   // GENMASK(11, 3)
  const DrvTypeMask: bv32 := 0x0000_7000   // GENMASK(14, 12)
  const PupdctrlMask: bv32 := 0x00ff_8000  // GENMASK(23, 15)
  const PullDirMask: bv32 := 0x0700_0000   // GENMASK(26, 24)

  /** The five masks are the GENMASK ranges of the header. */
  lemma MasksAreGenMasks()
    ensures IectrlMask == GenMask(2, 0) && DrvctrlMask == GenMask(11, 3)
    ensures DrvTypeMask == GenMask(14, 12) && PupdctrlMask == GenMask(23, 15)
    ensures PullDirMask == GenMask(26, 24)
  {
  }

  /** The fields never overlap. */
  lemma MasksDisjoint()
    ensures IectrlMask & DrvctrlMask == 0 && IectrlMask & DrvTypeMask == 0
    ensures IectrlMask & PupdctrlMask == 0 && IectrlMask & PullDirMask == 0
    ensures DrvctrlMask & DrvTypeMask == 0 && DrvctrlMask & PupdctrlMask == 0
    ensures DrvctrlMask & PullDirMask == 0 && DrvTypeMask & PupdctrlMask == 0
    ensures DrvTypeMask & PullDirMask == 0 && PupdctrlMask & PullDirMask == 0
  {
  }

  /** A field of the word and its mask. */
  datatype Field = Iectrl | Drvctrl | DrvType | Pupdctrl | PullDir {
    function Mask(): bv32 {
      match this
      case Iectrl => IectrlMask
      case Drvctrl => DrvctrlMask
      case DrvType => DrvTypeMask
      case Pupdctrl => PupdctrlMask
      case PullDir => PullDirMask
    }
    /** The number of values the field can hold. */
    function Span(): bv32 {
      match this
      case Iectrl => 8
      case Drvctrl => 512
      case DrvType => 8
      case Pupdctrl => 512
      case PullDir => 8
    }
  }

  /** FIELD_PREP(mask, x): x moved to the mask's low bit and cut to the mask. */
  function FieldPrep(f: Field, x: bv32): (r: bv32)
    ensures r & !f.Mask() == 0
  {
    match f
    case Iectrl => x & IectrlMask
    case Drvctrl => (x << 3) & DrvctrlMask
    case DrvType => (x << 12) & DrvTypeMask
    case Pupdctrl => (x << 15) & PupdctrlMask
    case PullDir => (x << 24) & PullDirMask
  }

  /** FIELD_GET(mask, w): the inverse of FieldPrep for values that fit. */
  function FieldGet(f: Field, w: bv32): bv32
  {
    match f
    case Iectrl => w & IectrlMask
    case Drvctrl => (w & DrvctrlMask) >> 3
    case DrvType => (w & DrvTypeMask) >> 12
    case Pupdctrl => (w & PupdctrlMask) >> 15
    case PullDir => (w & PullDirMask) >> 24
  }

  /** The drive control types of enum uniphier_pin_drv_type, numbered 0..6. */
  datatype DrvType = Drv1Bit | Drv2Bit | Drv3Bit | DrvFixed4 | DrvFixed5 | DrvFixed8 | DrvNone {
    function Value(): (v: bv32)
      ensures v < 7
    {
      match this
      case Drv1Bit => 0
      case Drv2Bit => 1
      case Drv3Bit => 2
      case DrvFixed4 => 3
      case DrvFixed5 => 4
      case DrvFixed8 => 5
      case DrvNone => 6
    }
  }

  /** The pull directions of enum uniphier_pin_pull_dir, numbered 0..4. */
  datatype PullDir = PullUp | PullDown | PullUpFixed | PullDownFixed | PullNone {
    function Value(): (v: bv32)
      ensures v < 5
    {
      match this
      case PullUp => 0
      case PullDown => 1
      case PullUpFixed => 2
      case PullDownFixed => 3
      case PullNone => 4
    }
  }

  /** IECTRL_NONE is the whole field and IECTRL_EXIST is zero. */
  const IectrlNone: bv32 := IectrlMask
  const IectrlExist: bv32 := 0

  /** Packed, IECTRL_NONE sets every bit of the field and IECTRL_EXIST none. */
  lemma IectrlConstants()
    ensures FieldPrep(Iectrl, IectrlNone) == IectrlMask
    ensures FieldPrep(Iectrl, IectrlExist) == 0
    ensures FieldGet(Iectrl, FieldPrep(Iectrl, IectrlNone)) == 7
  {
  }

  /** Every enumerator fits its three-bit field, so packing keeps it whole. */
  lemma {:induction false} EnumsFitFields(d: DrvType, p: PullDir)
    ensures FieldGet(Field.DrvType, FieldPrep(Field.DrvType, d.Value())) == d.Value()
    ensures FieldGet(Field.PullDir, FieldPrep(Field.PullDir, p.Value())) == p.Value()
  {
    FieldRoundTrip(Field.DrvType, d.Value());
    FieldRoundTrip(Field.PullDir, p.Value());
  }

  /** The unpacked attributes of one pin. */
  datatype Attr = Attr(iectrl: bv32, drvctrl: bv32, drvType: bv32, pupdctrl: bv32, pullDir: bv32)

  predicate Fits(a: Attr)
  {
    a.iectrl < 8 && a.drvctrl < 512 && a.drvType < 8 && a.pupdctrl < 512 && a.pullDir < 8
  }

  /** UNIPHIER_PIN_ATTR_PACKED(iectrl, drvctrl, drv_type, pupdctrl, pull_dir). */
  function Pack(a: Attr): (w: bv32)
    ensures w & !(IectrlMask | DrvctrlMask | DrvTypeMask | PupdctrlMask | PullDirMask) == 0
  {
    FieldPrep(Iectrl, a.iectrl) | FieldPrep(Drvctrl, a.drvctrl) | FieldPrep(Field.DrvType, a.drvType)
      | FieldPrep(Pupdctrl, a.pupdctrl) | FieldPrep(Field.PullDir, a.pullDir)
  }

  function Unpack(w: bv32): Attr
  {
    Attr(FieldGet(Iectrl, w), FieldGet(Drvctrl, w), FieldGet(Field.DrvType, w),
         FieldGet(Pupdctrl, w), FieldGet(Field.PullDir, w))
  }

  /** One field survives packing when its value fits the field. */
  lemma FieldRoundTrip(f: Field, x: bv32)
    requires x < f.Span()
    ensures FieldGet(f, FieldPrep(f, x)) == x
  {
  }

  /** The bit arithmetic behind PackUnpack, on plain words. */
  lemma FieldsSeparate(i: bv32, d: bv32, t: bv32, u: bv32, p: bv32)
    requires i < 8 && d < 512 && t < 8 && u < 512 && p < 8
    ensures var w := (i & 7) | ((d << 3) & 0xff8) | ((t << 12) & 0x7000) | ((u << 15) & 0xff8000)
                     | ((p << 24) & 0x700_0000);
      w & 7 == i && (w & 0xff8) >> 3 == d && (w & 0x7000) >> 12 == t
      && (w & 0xff8000) >> 15 == u && (w & 0x700_0000) >> 24 == p
  {
  }

  /** Pack and unpack are inverse for in-range field values. */
  lemma {:induction false} PackUnpack(a: Attr)
    requires Fits(a)
    ensures Unpack(Pack(a)) == a
  {
    FieldsSeparate(a.iectrl, a.drvctrl, a.drvType, a.pupdctrl, a.pullDir);
  }

  /** A pin group as UNIPHIER_PINCTRL_GROUP and UNIPHIER_PINCTRL_GROUP_GPIO
      lay it out: a name, its pins, and mux values (none for a GPIO group). */
  datatype Group = Group(name: string, pins: seq<nat>, numPins: nat, muxvals: Option<seq<int>>)

  /** UNIPHIER_PINCTRL_GROUP: the build fails unless pins and mux values
      have the same length, so a group always has one mux value per pin. */
  function PinctrlGroup(name: string, pins: seq<nat>, muxvals: seq<int>): (g: Group)
    requires |pins| == |muxvals|
    ensures g.muxvals.Some? && |g.muxvals.value| == g.numPins == |g.pins|
  {
    Group(name, pins, |pins|, Some(muxvals))
  }

  /** UNIPHIER_PINCTRL_GROUP_GPIO: a GPIO group carries no mux values. */
  function PinctrlGroupGpio(name: string, pins: seq<nat>): (g: Group)
    ensures g.muxvals.None? && g.numPins == |g.pins| == |pins|
  {
    Group(name, pins, |pins|, None)
  }
}
