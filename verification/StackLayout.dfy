/** `align.hpp` and the `StackLayout` constructor: how a thread's buffer is cut
    into user stack, thread-local storage and control block. An address is a
    word of `w` bits (64 on the shipped port) and every sum and difference wraps. */
module StackLayout {
  import Bits
  import Numbers

  /** x modulo the size of the address space. */
  function Wrap(w: nat, x: int): (r: nat)
    ensures r < Bits.Pow2(w)
  {
    x % Bits.Pow2(w)
  }

  function AlignDown(w: nat, v: nat, a: nat): nat
    requires a > 0
  {
    Bits.And(v, Bits.Not(w, a - 1))
  }

  function AlignUp(w: nat, v: nat, a: nat): nat
    requires a > 0
  {
    Bits.And(Wrap(w, v + (a - 1)), Bits.Not(w, a - 1))
  }

  ghost predicate Alignment(w: nat, a: nat)
  {
    exists k: nat :: k <= w && a == Bits.Pow2(k)
  }

  lemma WrapSmall(w: nat, x: int)
    requires 0 <= x < Bits.Pow2(w)
    ensures Wrap(w, x) == x
  {
    Numbers.DivUnique(x, Bits.Pow2(w), 0, x);
  }

  lemma WrapWhole(w: nat)
    ensures Wrap(w, Bits.Pow2(w)) == 0
  {
    Numbers.DivUnique(Bits.Pow2(w), Bits.Pow2(w), 1, 0);
  }

  lemma WrapBelow(w: nat, x: int)
    requires 0 <= x + Bits.Pow2(w) && x < 0
    ensures Wrap(w, x) == x + Bits.Pow2(w)
  {
    Numbers.DivUnique(x, Bits.Pow2(w), -1, x + Bits.Pow2(w));
  }

  /** The greatest multiple of a that is at most x. */
  function Floor(x: nat, a: nat): (r: nat)
    requires a > 0
    ensures r <= x < r + a
  {
    Numbers.RoundDown(x, a);
    x - x % a
  }

  ghost predicate Multiple(x: int, a: nat)
    requires a > 0
  {
    x % a == 0
  }

  lemma FloorMultiple(x: nat, a: nat)
    requires a > 0
    ensures Multiple(Floor(x, a), a)
  {
    Numbers.RoundDown(x, a);
  }

  /** The least multiple of a that is at least x. */
  function Ceiling(x: nat, a: nat): (r: nat)
    requires a > 0
    ensures x <= r < x + a
  {
    Floor(x + (a - 1), a)
  }

  /** The bit mask rounds down by remainder. */
  lemma AlignDownRounds(w: nat, v: nat, a: nat)
    requires Alignment(w, a) && v < Bits.Pow2(w)
    ensures AlignDown(w, v, a) == v - v % a
    ensures AlignDown(w, v, a) % a == 0 && v - a < AlignDown(w, v, a) <= v
  {
    var k: nat :| k <= w && a == Bits.Pow2(k);
    hide Bits.And, Bits.Not;
    Bits.MaskRoundsDown(w, v, k);
    Numbers.RoundDown(v, a);
  }

  /** The bit mask rounds up by remainder, as long as the sum does not wrap. */
  lemma AlignUpRounds(w: nat, v: nat, a: nat)
    requires Alignment(w, a) && v + (a - 1) < Bits.Pow2(w)
    ensures AlignUp(w, v, a) == if v % a == 0 then v else v - v % a + a
    ensures AlignUp(w, v, a) % a == 0 && v <= AlignUp(w, v, a) < v + a
  {
    var u := v + (a - 1);
    WrapSmall(w, u);
    assert AlignUp(w, v, a) == AlignDown(w, u, a);
    AlignDownRounds(w, u, a);
    Numbers.RoundUp(v, a);
  }

  lemma AlignDownIs(w: nat, v: nat, a: nat)
    requires Alignment(w, a) && v < Bits.Pow2(w)
    ensures AlignDown(w, v, a) == Floor(v, a)
  {
    AlignDownRounds(w, v, a);
  }

  lemma AlignUpIs(w: nat, v: nat, a: nat)
    requires Alignment(w, a) && v + (a - 1) < Bits.Pow2(w)
    ensures AlignUp(w, v, a) == Ceiling(v, a)
  {
    WrapSmall(w, v + (a - 1));
    AlignDownIs(w, v + (a - 1), a);
  }

  /** Fixed by the platform: address width, sizeof and alignof of the control
      block, and alignof(std::max_align_t). */
  datatype Platform = Platform(w: nat, tcbSize: nat, tcbAlign: nat, maxAlign: nat)

  ghost predicate Plausible(p: Platform)
  {
    && Alignment(p.w, p.tcbAlign) && Alignment(p.w, p.maxAlign)
    && 2 * p.maxAlign <= p.tcbSize < Bits.Pow2(p.w)
  }

  datatype Layout =
    | Panic                                                    // an assertion of the constructor failed
    | Layout(tcb: nat, tlsOffset: nat, tlsLength: nat, stackLength: nat)

  function TcbStart(p: Platform, base: nat, size: nat): nat
    requires p.tcbAlign > 0
  {
    AlignDown(p.w, Wrap(p.w, Wrap(p.w, base + size) - p.tcbSize), p.tcbAlign)
  }

  function TlsBase(p: Platform, tcb: nat, tlsBytes: nat): nat
    requires p.maxAlign > 0
  {
    AlignDown(p.w, Wrap(p.w, tcb - AlignUp(p.w, tlsBytes, p.maxAlign)), p.maxAlign)
  }

  function Carve(p: Platform, base: nat, size: nat, tlsBytes: nat): Layout
    requires p.tcbAlign > 0 && p.maxAlign > 0
  {
    var tcb := TcbStart(p, base, size);
    var tlsBase := TlsBase(p, tcb, tlsBytes);
    if tlsBase < base then Panic
    else if tlsBase - base <= 64 then Panic
    else Layout(tcb, tlsBase - base, Wrap(p.w, tcb - tlsBase), tlsBase - base)
  }

  /** User stack, thread-local storage and control block lie in the buffer in
      that order, the first two tile everything below the third, and each meets
      its size and alignment. */
  ghost predicate Fits(p: Platform, base: nat, size: nat, tlsBytes: nat, l: Layout)
    requires p.tcbAlign > 0 && p.maxAlign > 0
  {
    && l.Layout?
    && Multiple(l.tcb, p.tcbAlign)
    && l.tcb + p.tcbSize <= base + size
    && Multiple(base + l.tlsOffset, p.maxAlign)
    && tlsBytes <= l.tlsLength
    && 64 < l.stackLength == l.tlsOffset
    && base + l.stackLength + l.tlsLength == l.tcb
  }

  /** No difference of the constructor leaves the address space, nor does rounding up. */
  ghost predicate NoWrap(p: Platform, base: nat, size: nat, tlsBytes: nat)
    requires p.tcbAlign > 0 && p.maxAlign > 0
  {
    && p.tcbSize <= base + size
    && tlsBytes + (p.maxAlign - 1) < Bits.Pow2(p.w)
    && Ceiling(tlsBytes, p.maxAlign) <= Floor(base + size - p.tcbSize, p.tcbAlign)
  }

  lemma TcbFits(p: Platform, base: nat, size: nat)
    requires Plausible(p) && base + size <= Bits.Pow2(p.w) && p.tcbSize <= base + size
    ensures TcbStart(p, base, size) == Floor(base + size - p.tcbSize, p.tcbAlign)
  {
    hide AlignDown, AlignUp, Wrap, Floor, Alignment, Bits.Pow2;
    AlignmentFits(p.w, p.maxAlign);
    if base + size < Bits.Pow2(p.w) {
      WrapSmall(p.w, base + size);
      WrapSmall(p.w, base + size - p.tcbSize);
    } else {                                                   // the end wraps to 0, and back
      WrapWhole(p.w);
      WrapBelow(p.w, 0 - p.tcbSize);
    }
    AlignDownIs(p.w, base + size - p.tcbSize, p.tcbAlign);
  }

  /** Storage that does not fit below the control block comes out at the very top of memory. */
  lemma TlsFits(p: Platform, tcb: nat, tlsBytes: nat)
    requires Plausible(p) && tcb < Bits.Pow2(p.w) && tlsBytes + (p.maxAlign - 1) < Bits.Pow2(p.w)
    requires Ceiling(tlsBytes, p.maxAlign) > tcb && tlsBytes <= tcb
    ensures TlsBase(p, tcb, tlsBytes) > Bits.Pow2(p.w) - 2 * p.maxAlign
  {
    hide AlignUp, AlignDown, Wrap, Floor, Ceiling, Alignment, Bits.Pow2;
    AlignUpIs(p.w, tlsBytes, p.maxAlign);
    var up := AlignUp(p.w, tlsBytes, p.maxAlign);
    WrapBelow(p.w, tcb - up);
    AlignDownIs(p.w, Bits.Pow2(p.w) + tcb - up, p.maxAlign);
  }

  /** Short of wrap-around, what the constructor carves: the control block as high as it fits and is aligned,
      the thread-local storage as high as it fits below and is aligned; and it does so exactly when more than
      64 bytes are left below. */
  lemma CarvesExactly(p: Platform, base: nat, size: nat, tlsBytes: nat)
    requires Plausible(p) && base + size <= Bits.Pow2(p.w) && NoWrap(p, base, size, tlsBytes)
    ensures var tcb := Floor(base + size - p.tcbSize, p.tcbAlign);
      var tls := Floor(tcb - Ceiling(tlsBytes, p.maxAlign), p.maxAlign);
      Carve(p, base, size, tlsBytes) ==
        if tls > base + 64 then Layout(tcb, tls - base, tcb - tls, tls - base) else Panic
  {
    hide AlignUp, AlignDown, Wrap, TcbStart, Floor, Ceiling, Alignment, Bits.Pow2;
    TcbFits(p, base, size);
    AlignUpIs(p.w, tlsBytes, p.maxAlign);
    var tcb := TcbStart(p, base, size);
    var up := AlignUp(p.w, tlsBytes, p.maxAlign);
    WrapSmall(p.w, tcb - up);
    AlignDownIs(p.w, tcb - up, p.maxAlign);
    WrapSmall(p.w, tcb - TlsBase(p, tcb, tlsBytes));
  }

  /** For every buffer in memory, up to its very top, a layout that passes the constructor's assertions
      fits exactly when nothing below the end wrapped on the way. */
  lemma FitsExactlyWithoutWrap(p: Platform, base: nat, size: nat, tlsBytes: nat)
    requires Plausible(p) && base + size <= Bits.Pow2(p.w) && tlsBytes < Bits.Pow2(p.w)
    ensures Carve(p, base, size, tlsBytes).Layout? ==>
      (Fits(p, base, size, tlsBytes, Carve(p, base, size, tlsBytes)) <==> NoWrap(p, base, size, tlsBytes))
  {
    if NoWrap(p, base, size, tlsBytes) {
      hide Fits, NoWrap, Alignment, Bits.Pow2;
      if Carve(p, base, size, tlsBytes).Layout? {
        CarvedFits(p, base, size, tlsBytes);
      }
    } else if Fits(p, base, size, tlsBytes, Carve(p, base, size, tlsBytes)) {
      FitsUnwrapped(p, base, size, tlsBytes);
    }
  }

  lemma CarvedFits(p: Platform, base: nat, size: nat, tlsBytes: nat)
    requires Plausible(p) && base + size <= Bits.Pow2(p.w) && NoWrap(p, base, size, tlsBytes)
    requires Carve(p, base, size, tlsBytes).Layout?
    ensures Fits(p, base, size, tlsBytes, Carve(p, base, size, tlsBytes))
  {
    var tcb := Floor(base + size - p.tcbSize, p.tcbAlign);
    hide Carve, Floor, Ceiling, Multiple, Alignment, Bits.Pow2;
    CarvesExactly(p, base, size, tlsBytes);
    FloorMultiple(base + size - p.tcbSize, p.tcbAlign);
    FloorMultiple(tcb - Ceiling(tlsBytes, p.maxAlign), p.maxAlign);
  }

  lemma FitsUnwrapped(p: Platform, base: nat, size: nat, tlsBytes: nat)
    requires Plausible(p) && base + size <= Bits.Pow2(p.w) && tlsBytes < Bits.Pow2(p.w)
    requires Fits(p, base, size, tlsBytes, Carve(p, base, size, tlsBytes))
    ensures NoWrap(p, base, size, tlsBytes)
  {
    hide AlignUp, AlignDown, Floor, Ceiling, TcbStart, TlsBase, Wrap, Multiple, Alignment, Bits.Pow2;
    AlignmentFits(p.w, p.tcbAlign);
    AlignmentFits(p.w, p.maxAlign);
    var tcb := TcbStart(p, base, size);
    TcbFits(p, base, size);
    if Ceiling(tlsBytes, p.maxAlign) > tcb {
      TlsFits(p, tcb, tlsBytes);
    }
  }

  /** The failing family, on every platform: a buffer that ends lower in memory than a control block
      is long passes both assertions with a control block outside it, whenever the address space also
      has room for the rest. */
  lemma WrappedLayoutPasses(p: Platform, base: nat, size: nat, tlsBytes: nat)
    requires Plausible(p) && base + size < p.tcbSize && tlsBytes + p.maxAlign <= Bits.Pow2(p.w)
    requires p.tcbSize + p.tcbAlign + p.maxAlign + AlignUp(p.w, tlsBytes, p.maxAlign) + 64 <= Bits.Pow2(p.w)
    ensures Carve(p, base, size, tlsBytes).Layout?
    ensures !Fits(p, base, size, tlsBytes, Carve(p, base, size, tlsBytes))
  {
    hide AlignUp, AlignDown, Wrap, Floor, Ceiling, Multiple, Alignment, Bits.Pow2;
    AlignUpIs(p.w, tlsBytes, p.maxAlign);
    HighTcb(p, base, size);
    var tcb := TcbStart(p, base, size);
    hide TcbStart;
    var tlsTop := tcb - AlignUp(p.w, tlsBytes, p.maxAlign);
    WrapSmall(p.w, tlsTop);
    AlignDownIs(p.w, tlsTop, p.maxAlign);
  }

  lemma AlignmentFits(w: nat, a: nat)
    requires Alignment(w, a)
    ensures 0 < a <= Bits.Pow2(w)
  {
    var k: nat :| k <= w && a == Bits.Pow2(k);
    Bits.Pow2Monotone(k, w);
  }

  /** The control block lands at the top of the address space. */
  lemma HighTcb(p: Platform, base: nat, size: nat)
    requires Plausible(p) && base + size < p.tcbSize
    ensures var top := Bits.Pow2(p.w) + base + size - p.tcbSize;
      top - p.tcbAlign < TcbStart(p, base, size) <= top < Bits.Pow2(p.w) && p.tcbAlign <= Bits.Pow2(p.w)
  {
    hide AlignUp, AlignDown, Wrap, Floor, Bits.Pow2, Alignment;
    AlignmentFits(p.w, p.tcbAlign);
    WrapSmall(p.w, base + size);
    WrapBelow(p.w, base + size - p.tcbSize);
    AlignDownIs(p.w, Bits.Pow2(p.w) + base + size - p.tcbSize, p.tcbAlign);
  }
}
