/** Storage behind the address map: the map gives every line its own cell, as the row buffers need. */
module MappedGeometry {
  import opened Dram
  import opened Lines
  import opened AddressMap
  import MixedRadix
  import RowBuffers

  function NumberOf(o: Organization, k: Mapping, d: Coordinate): nat {
    if LineOf(o, k, d) < 0 then 0 else LineOf(o, k, d)
  }

  /** The lines of a stack, each stored where the address map puts it. */
  function Mapped(o: Organization, k: Mapping, size: pos, fill: byte, lines: pos): RowBuffers.Geometry {
    RowBuffers.Geometry(size, fill, lines, (n: nat) => Decoded(o, k, n), d => NumberOf(o, k, d))
  }

  lemma NumberWraps(o: Organization, k: Mapping, n: nat)
    ensures NumberOf(o, k, Decoded(o, k, n)) == n % Capacity(o, k)
  {
    DigitsExact(o, k, 0, n, Origin());
    MixedRadix.DigitSplit(Capacity(o, k), n);
  }

  /** The lines keep apart exactly if there are no more of them than transactions. */
  lemma MappedIsInjective(o: Organization, k: Mapping, size: pos, fill: byte, lines: pos)
    ensures RowBuffers.Injective(Mapped(o, k, size, fill, lines)) <==> lines <= Capacity(o, k)
  {
    var g := Mapped(o, k, size, fill, lines);
    var c := Capacity(o, k);
    if lines <= c {
      forall n: nat | n < lines
        ensures g.number(g.coordinate(n)) == n
      {
        NumberWraps(o, k, n);
        MixedRadix.DigitTake(c, n, 0);
      }
    } else {
      NumberWraps(o, k, c);
      MixedRadix.DigitTake(c, 0, 1);
      assert g.number(g.coordinate(c)) == 0;
    }
  }
}
