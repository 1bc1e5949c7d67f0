/** Little-endian reads and the refusals of the H14 package builder (libane/ane_m2.c). */
module H14Bytes {
  import opened Basics

  /** Why a package, a task stream or a port table is refused. */
  datatype Why =
    | ShortPackage | PayloadSize | Version | InputCount | ConstTooLarge | ConstMisaligned | StreamReachesConst
    | ShortStream | FrameNotZero | TaskCountTooLarge | NoTask | TaskCountDiffers | FirstTaskBytes
    | TrailingNonzero | TaskTooShort | TaskOverruns | GapNonzero | TooManyTasks
    | RecordOverruns | SlotUnbound | OffsetOutside
    | PortListEmpty | PortListFull | PortTileBytes | PortDir | PortBufferId | PortSlot | PortShared | PortCounts
    | TileCount | BarBit28 | RefRole | RefSlot23 | NoChannel | ScratchDisabled | TooManyRefs | SlotConflict
    | UnknownTag | NoRef
    | BlockTruncated | BlockZero | TailTruncated | TailNonzero | NoBlock
    | StreamUnaligned | TasksDisagree | Empty

  datatype Result<+T> = Ok(value: T) | Err(why: Why)

  function Le16(s: seq<byte>, p: nat): (r: nat)
    requires p + 2 <= |s|
    ensures r < 0x1_0000
  {
    s[p] + 0x100 * s[p + 1] as int
  }

  function Le32(s: seq<byte>, p: nat): (r: nat)
    requires p + 4 <= |s|
    ensures r < 0x1_0000_0000
  {
    s[p] + 0x100 * s[p + 1] as int + 0x1_0000 * s[p + 2] as int + 0x100_0000 * s[p + 3] as int
  }

  function Le64(s: seq<byte>, p: nat): (r: nat)
    requires p + 8 <= |s|
    ensures r < 0x1_0000_0000_0000_0000
  {
    Le32(s, p) + 0x1_0000_0000 * Le32(s, p + 4)
  }

  predicate Zeros(s: seq<byte>, a: nat, b: nat)
    requires b <= |s|
  {
    forall i :: a <= i < b ==> s[i] == 0
  }
}
