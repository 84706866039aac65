/**
 * The 8-bit paths of the receiver object `vbt_recv_t`: by value
 * (VBT_RECV_VAL_U8), where the four channels are stored in the receiver, and
 * by reference (VBT_RECV_REF_U8), where each channel is written through a
 * caller-supplied pointer that may be null.
 */
module Receivers {
  import opened Color

  /** The receiver tags modelled here. */
  datatype Tag = ValU8 | RefU8

  /** Caller-owned storage for one 8-bit channel (the target of a `vbt_u8_t*`). */
  class ByteCell {
    var value: Byte

    constructor (v: Byte)
      ensures value == v
    {
      value := v;
    }
  }

  class Receiver {
    var tag: Tag
    // `u.val.u8`
    var red: Byte
    var green: Byte
    var blue: Byte
    var alpha: Byte
    // `u.ref.u8`; null skips the channel
    var redRef: ByteCell?
    var greenRef: ByteCell?
    var blueRef: ByteCell?
    var alphaRef: ByteCell?

    /** A receiver by value, initialised to zero as `vbt_recv_init()` does. */
    constructor ByValue()
      ensures tag == ValU8 && red == green == blue == alpha == 0
      ensures redRef == greenRef == blueRef == alphaRef == null
    {
      tag := ValU8;
      red, green, blue, alpha := 0, 0, 0, 0;
      redRef, greenRef, blueRef, alphaRef := null, null, null, null;
    }

    /** A receiver by reference, as `vbt_recv_init_ref_u8(r, g, b, a)` builds it. */
    constructor ByReference(r: ByteCell?, g: ByteCell?, b: ByteCell?, a: ByteCell?)
      ensures tag == RefU8 && redRef == r && greenRef == g && blueRef == b && alphaRef == a
      ensures red == green == blue == alpha == 0
    {
      tag := RefU8;
      red, green, blue, alpha := 0, 0, 0, 0;
      redRef, greenRef, blueRef, alphaRef := r, g, b, a;
    }

    /** The caller-owned cells this receiver points at. */
    function Cells(): set<ByteCell>
      reads this
    {
      (if redRef == null then {} else {redRef}) +
      (if greenRef == null then {} else {greenRef}) +
      (if blueRef == null then {} else {blueRef}) +
      (if alphaRef == null then {} else {alphaRef})
    }

    /**
     * The receiver shows colour `c`: by value, its four fields hold `c`; by
     * reference, every non-null pointer holds its channel, where pointers
     * that alias each other hold the channel written last (the writers store
     * red, green, blue and then alpha).
     */
    ghost predicate Shows(c: Rgba8)
      reads this, Cells()
    {
      match tag
      case ValU8 =>
        red == c.r && green == c.g && blue == c.b && alpha == c.a
      case RefU8 =>
        && (alphaRef != null ==> alphaRef.value == c.a)
        && (blueRef != null && blueRef != alphaRef ==> blueRef.value == c.b)
        && (greenRef != null && greenRef != blueRef && greenRef != alphaRef ==> greenRef.value == c.g)
        && (redRef != null && redRef != greenRef && redRef != blueRef && redRef != alphaRef ==>
              redRef.value == c.r)
    }

    /**
     * A write kept the receiver's layout: the tag and the four pointers are
     * the same as before, and only the side the tag names was written (the
     * fields by value, the caller's cells by reference).
     */
    twostate predicate KeptLayout()
      reads this, Cells()
    {
      && tag == old(tag)
      && redRef == old(redRef) && greenRef == old(greenRef)
      && blueRef == old(blueRef) && alphaRef == old(alphaRef)
      && (old(tag) == ValU8 ==> unchanged(Cells()))
      && (old(tag) == RefU8 ==> unchanged(this))
    }

    /**
     * vbt__write_u8, 8-bit paths: store the four channels by value, or write
     * them through the non-null pointers and leave the receiver itself alone.
     * It always reports success.
     */
    method WriteU8(r: Byte, g: Byte, b: Byte, a: Byte) returns (status: Status)
      modifies this, Cells()
      ensures status == Success
      ensures Shows(Rgba8(r, g, b, a))
      ensures KeptLayout()
    {
      match tag {
        case ValU8 =>
          red := r;
          green := g;
          blue := b;
          alpha := a;
        case RefU8 =>
          if redRef != null {
            redRef.value := r;
          }
          if greenRef != null {
            greenRef.value := g;
          }
          if blueRef != null {
            blueRef.value := b;
          }
          if alphaRef != null {
            alphaRef.value := a;
          }
      }
      status := Success;
    }

    /**
     * vbt__write_01, 8-bit paths: quantise each unit-interval channel with
     * VBT__01_TO_255 and store it as vbt__write_u8 does.
     */
    method Write01(r: real, g: real, b: real, a: real) returns (status: Status)
      requires 0.0 <= r <= 1.0 && 0.0 <= g <= 1.0 && 0.0 <= b <= 1.0 && 0.0 <= a <= 1.0
      modifies this, Cells()
      ensures status == Success
      ensures Shows(Rgba8(Byte01(r), Byte01(g), Byte01(b), Byte01(a)))
      ensures KeptLayout()
    {
      status := WriteU8(Byte01(r), Byte01(g), Byte01(b), Byte01(a));
    }
  }

  /** By value, a write stores exactly the four channels it was given. */
  method WriteByValueStoresChannels(r: Byte, g: Byte, b: Byte, a: Byte)
    returns (stored: Rgba8, status: Status)
    ensures status == Success && stored == Rgba8(r, g, b, a)
  {
    var recv := new Receiver.ByValue();
    status := recv.WriteU8(r, g, b, a);
    stored := Rgba8(recv.red, recv.green, recv.blue, recv.alpha);
  }

  /**
   * By reference with distinct cells, each cell receives its channel; with
   * every pointer null the write still succeeds and touches nothing.
   */
  method WriteByReference(r: Byte, g: Byte, b: Byte, a: Byte)
    returns (stored: Rgba8, status: Status, nullStatus: Status)
    ensures status == Success && stored == Rgba8(r, g, b, a)
    ensures nullStatus == Success
  {
    var cr := new ByteCell(0);
    var cg := new ByteCell(0);
    var cb := new ByteCell(0);
    var ca := new ByteCell(0);
    var recv := new Receiver.ByReference(cr, cg, cb, ca);
    status := recv.WriteU8(r, g, b, a);
    stored := Rgba8(cr.value, cg.value, cb.value, ca.value);
    var none := new Receiver.ByReference(null, null, null, null);
    nullStatus := none.WriteU8(r, g, b, a);
  }
}
