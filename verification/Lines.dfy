/** Bytes, byte masks and storage lines: the values every storage component passes around. */
module Lines {
  newtype byte = x: int | 0 <= x < 256

  type Bytes = seq<byte>
  type Mask = seq<bool>

  /** The contents of one line: its bytes, and which of them have ever been written. */
  datatype Line = Line(bytes: Bytes, init: Mask)

  function Blank(size: nat, fill: byte): (l: Line)
    ensures Sized(l, size)
  {
    Line(seq(size, _ => fill), seq(size, _ => false))
  }

  predicate Sized(l: Line, size: nat) {
    |l.bytes| == size && |l.init| == size
  }

  predicate Selected(mask: Mask, i: nat) {
    i < |mask| && mask[i]
  }

  /** No byte is selected: writing under this mask changes nothing. */
  predicate Silent(mask: Mask) {
    forall i | 0 <= i < |mask| :: !mask[i]
  }

  predicate Full(mask: Mask) {
    forall i | 0 <= i < |mask| :: mask[i]
  }

  /** Every byte selected by `inner` is selected by `outer`. */
  predicate Covered(inner: Mask, outer: Mask) {
    forall i | 0 <= i < |inner| && inner[i] :: Selected(outer, i)
  }

  function MergeBytes(old_: Bytes, data: Bytes, mask: Mask): (r: Bytes)
    ensures |r| == |old_|
  {
    seq(|old_|, i requires 0 <= i < |old_| => if Selected(mask, i) && i < |data| then data[i] else old_[i])
  }

  function MergeMask(old_: Mask, mask: Mask): (r: Mask)
    ensures |r| == |old_|
  {
    seq(|old_|, i requires 0 <= i < |old_| => old_[i] || Selected(mask, i))
  }

  /** The line after a masked write. */
  function Overlay(l: Line, data: Bytes, mask: Mask): (r: Line)
    ensures |r.bytes| == |l.bytes| && |r.init| == |l.init|
  {
    Line(MergeBytes(l.bytes, data, mask), MergeMask(l.init, mask))
  }

  lemma OverlaySilent(l: Line, data: Bytes, mask: Mask)
    requires Silent(mask)
    ensures Overlay(l, data, mask) == l
  {
    assert MergeBytes(l.bytes, data, mask) == l.bytes;
    assert MergeMask(l.init, mask) == l.init;
  }

  /** Two masked writes in a row are one write of the merged data under the united mask. */
  lemma OverlayMerge(l: Line, d1: Bytes, m1: Mask, d2: Bytes, m2: Mask)
    requires |d1| == |m1| == |d2| == |m2|
    ensures Overlay(Overlay(l, d1, m1), d2, m2) == Overlay(l, MergeBytes(d1, d2, m2), MergeMask(m1, m2))
  {
    var lhs := Overlay(Overlay(l, d1, m1), d2, m2);
    var rhs := Overlay(l, MergeBytes(d1, d2, m2), MergeMask(m1, m2));
    assert lhs.bytes == rhs.bytes;
    assert lhs.init == rhs.init;
  }

  /** A write hidden under a later, wider one leaves no trace. */
  lemma OverlayHidden(l: Line, d1: Bytes, m1: Mask, d2: Bytes, m2: Mask)
    requires Covered(m1, m2) && |m2| <= |d2|
    ensures Overlay(Overlay(l, d1, m1), d2, m2) == Overlay(l, d2, m2)
  {
    var lhs := Overlay(Overlay(l, d1, m1), d2, m2);
    var rhs := Overlay(l, d2, m2);
    assert lhs.bytes == rhs.bytes;
    assert lhs.init == rhs.init;
  }
}
