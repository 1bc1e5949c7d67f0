/** Streams written out as 32-bit words. */
module H14Words {
  import opened Basics
  import opened H14Bytes
  import opened H14Stream
  import opened H14Records
  import Conv = H14Convert

  lemma HighHalf(s: seq<byte>, p: nat)
    requires p + 4 <= |s|
    ensures Le16(s, p + 2) == Le32(s, p) / 0x1_0000
    ensures Le32(s, p) == 0 ==> Zeros(s, p, p + 4)
  {
  }

  /** The frame word at 4 * k, and its bytes when it is zero. */
  lemma CountAt(xs: seq<nat>, k: nat)
    requires Conv.Fits(xs, 0x1_0000_0000) && k < |xs|
    ensures WordCount(Conv.PackAll32(xs), 4 * k) == xs[k] / 0x1_0000 % 0x800
    ensures xs[k] == 0 ==> Zeros(Conv.PackAll32(xs), 4 * k, 4 * k + 4)
  {
    hide Conv.PackAll32, Conv.Fits, Le16, Le32;
    Conv.Word32Back(xs, k);
    HighHalf(Conv.PackAll32(xs), 4 * k);
  }

  lemma WordAt(xs: seq<nat>, t: Task, i: nat)
    requires Conv.Fits(xs, 0x1_0000_0000) && InStream(Conv.PackAll32(xs), t) && i < t.words && t.off % 4 == 0
    ensures t.off / 4 + i < |xs| && Word(Conv.PackAll32(xs), t, i) == xs[t.off / 4 + i]
  {
    hide Conv.PackAll32, Conv.Fits, Le32;
    var k := t.off / 4 + i;
    assert t.off + 4 * i == 4 * k;
    Conv.Word32Back(xs, k);
  }

  /** Four zero words are a zero frame. */
  lemma ZeroFrameAt(xs: seq<nat>)
    requires Conv.Fits(xs, 0x1_0000_0000) && |xs| >= 4 && xs[0] == xs[1] == xs[2] == xs[3] == 0
    ensures Zeros(Conv.PackAll32(xs), 0, FRAME_BYTES)
  {
    hide Conv.PackAll32, Conv.Fits, WordCount;
    CountAt(xs, 0);
    CountAt(xs, 1);
    CountAt(xs, 2);
    CountAt(xs, 3);
  }
}
