/** When forwarding past writes that are still inside the PHY is right, exactly. */
module Forwarding {
  import opened Lines
  import opened StoreBuffer
  import opened StoreBufferProofs

  /** The same writes as far as addresses and masks go; the data bytes are free. */
  ghost predicate SameMasks(fifo: seq<Request>, other: seq<Request>) {
    && |fifo| == |other|
    && forall i | 0 <= i < |fifo| ::
         other[i].address == fifo[i].address && other[i].mask == fifo[i].mask && |other[i].data| == |fifo[i].mask|
  }

  function Painted(fifo: seq<Request>, x: byte): seq<Request> {
    seq(|fifo|, i requires 0 <= i < |fifo| => fifo[i].(data := seq(|fifo[i].mask|, _ => x)))
  }

  /** Draining writes that all carry the byte `x` leaves `x` exactly where one of them selects. */
  lemma {:induction false} DrainPainted(l: Line, fifo: seq<Request>, a: nat, x: byte, j: nat)
    requires j < |l.bytes|
    ensures
      var d := Drain(l, Painted(fifo, x), a);
      && |d.bytes| == |l.bytes|
      && d.bytes[j] == if exists i | 0 <= i < |fifo| :: fifo[i].address == a && Selected(fifo[i].mask, j) then x else l.bytes[j]
    decreases |fifo|
  {
    if fifo != [] {
      var rest := fifo[1..];
      assert Painted(fifo, x)[1..] == Painted(rest, x);
      var l' := ApplyAt(l, Painted(fifo, x)[0], a);
      DrainPainted(l', rest, a, x, j);
      assert forall i | 0 <= i < |rest| :: rest[i] == fifo[i + 1];
      if exists i | 0 <= i < |fifo| :: fifo[i].address == a && Selected(fifo[i].mask, j) {
        var i :| 0 <= i < |fifo| && fifo[i].address == a && Selected(fifo[i].mask, j);
        if i > 0 { assert rest[i - 1] == fifo[i]; }
      }
    }
  }

  /**
    A forward reads the image and the write buffer but not the PHY. Whatever data the PHY's writes
    carry, it returns what draining them first would have given, if and only if every byte they
    select at that address is also selected by the buffered write.
   */
  lemma ForwardExact(l: Line, fifo: seq<Request>, a: nat, data: Bytes, mask: Mask)
    requires |l.bytes| == |mask| == |data|
    requires forall i | 0 <= i < |fifo| :: |fifo[i].mask| == |mask|
    ensures ForwardSafe(fifo, a, mask) <==>
            forall other: seq<Request> | SameMasks(fifo, other) ::
              Overlay(Drain(l, other, a), data, mask) == Overlay(l, data, mask)
  {
    if ForwardSafe(fifo, a, mask) {
      forall other: seq<Request> | SameMasks(fifo, other)
        ensures Overlay(Drain(l, other, a), data, mask) == Overlay(l, data, mask)
      {
        DrainHidden(l, other, a, data, mask);
      }
    } else {
      var i :| 0 <= i < |fifo| && fifo[i].address == a && !Covered(fifo[i].mask, mask);
      var j :| 0 <= j < |fifo[i].mask| && fifo[i].mask[j] && !Selected(mask, j);
      var x: byte := if l.bytes[j] == 0 then 1 else 0;
      var other := Painted(fifo, x);
      assert SameMasks(fifo, other);
      DrainPainted(l, fifo, a, x, j);
      assert Selected(fifo[i].mask, j);
      assert Overlay(Drain(l, other, a), data, mask).bytes[j] == x;
      assert Overlay(l, data, mask).bytes[j] == l.bytes[j];
    }
  }

  const TwoBytes := Config(2, 0, true)

  /**
    The events of the run that defeats it: a full write enters the PHY, a masked write of the same
    address is buffered behind it, and a read is forwarded before the PHY has drained.
   */
  const Defeat := [DoAcceptWrite(1, 0, [1, 1], [true, true], 0), DoIssueWrite(1, 0),
                   DoAcceptWrite(2, 0, [2, 2], [true, false], 0), DoAcceptRead(3, 0, 0), DoComplete(3)]

  const FullWrite := Request(1, Write, 0, 1, [1, 1], [true, true], false, 0)
  const MaskedWrite := Request(2, Write, 0, 2, [2, 2], [true, false], false, 0)

  /** A full write inside the PHY and a masked one buffered behind it. */
  lemma DefeatStart() returns (s1: State, s2: State, s3: State)
    ensures Allowed(TwoBytes, Initial, Defeat[0]) && s1 == Step(TwoBytes, Initial, Defeat[0])
    ensures Allowed(TwoBytes, s1, Defeat[1]) && s2 == Step(TwoBytes, s1, Defeat[1])
    ensures Allowed(TwoBytes, s2, Defeat[2]) && s3 == Step(TwoBytes, s2, Defeat[2])
    ensures s3.next == 3 && s3.log == [FullWrite, MaskedWrite] && Hit(s3.buffered, 0)
    ensures Cover(Lookup(TwoBytes, s3.image, 0), s3.buffered, 0).bytes == [2, 0]
  {
    s1 := Step(TwoBytes, Initial, Defeat[0]);
    s2 := Step(TwoBytes, s1, Defeat[1]);
    s3 := Step(TwoBytes, s2, Defeat[2]);
    assert s3.buffered[0].mask[0];
  }

  /** That run: the forwarded read is answered with a byte that was never written. */
  lemma DefeatRun() returns (states: seq<State>)
    ensures Run(TwoBytes, states, Defeat) && 3 in states[5].emitted
    ensures states[5].emitted[3].kind.Read? && states[5].emitted[3].line.bytes == [2, 0]
    ensures states[5].log == [FullWrite, MaskedWrite]
  {
    var s1, s2, s3 := DefeatStart();
    var s4 := Step(TwoBytes, s3, Defeat[3]);
    var s5 := Step(TwoBytes, s4, Defeat[4]);
    states := [Initial, s1, s2, s3, s4, s5];
  }

  /** The memory holds the full write's byte there. */
  lemma DefeatExpected()
    ensures
      var l := Sequential(TwoBytes, [FullWrite, MaskedWrite], 0, 3);
      |l.bytes| == 2 && l.bytes[1] == 1
  {
    var none: seq<Request> := [];
    assert [FullWrite, MaskedWrite] == [FullWrite] + [MaskedWrite] && [FullWrite] == none + [FullWrite];
    SequentialAppend(TwoBytes, [FullWrite], MaskedWrite, 0, 3);
    SequentialAppend(TwoBytes, none, FullWrite, 0, 3);
  }

  /** With the delaying PHY and masked writes, a forwarded read can return a stale byte. */
  lemma MaskedForwardCanBeStale()
    ensures exists states: seq<State> ::
              && Run(TwoBytes, states, Defeat)
              && 3 in states[5].emitted && states[5].emitted[3].kind.Read?
              && states[5].emitted[3].line != Sequential(TwoBytes, states[5].log, 0, 3)
  {
    var states := DefeatRun();
    DefeatExpected();
  }
}
