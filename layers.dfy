/**
 The layer bitmask that decides which objects a camera renders and which
 objects the selective bloom treats as glowing.  A mask is 32 bits wide; bit
 `c` set means membership in channel `c`.  Only the three operations the demo
 uses are modelled: `set` (exactly one channel), `enable` (add a channel) and
 `test` (do two masks share a channel).
 */
module Layers {

  type Mask = bv32

  /** A channel number; a mask holds 32 of them. */
  type Channel = c: bv32 | c < 32

  /** The channel every object and camera starts in, and that shows the whole scene. */
  const ENTIRE_SCENE: Channel := 0
  /** The channel of the objects that glow. */
  const BLOOM_SCENE: Channel := 1

  /** The mask a freshly created object or camera carries: channel 0 only. */
  const DEFAULT_MASK: Mask := 1

  /** The mask bit of channel `c`. */
  function Bit(c: Channel): Mask
  {
    (1 as bv32) << c
  }

  /** Is channel `c` enabled in mask `m`? */
  predicate InChannel(m: Mask, c: Channel)
  {
    m & Bit(c) != 0
  }

  /** Two channel bits overlap exactly when they are the same channel. */
  lemma BitsOverlap(c: Channel, d: Channel)
    ensures Bit(c) & Bit(d) != 0 <==> c == d
  {
  }

  /** `layers.set(c)`: the mask that holds channel `c` and nothing else. */
  function Set(c: Channel): (m: Mask)
    ensures forall d: Channel :: InChannel(m, d) <==> d == c
  {
    forall d: Channel
      ensures InChannel(Bit(c), d) <==> d == c
    {
      BitsOverlap(c, d);
    }
    Bit(c)
  }

  /** Or-ing in the bit of channel `c` changes the membership of channel `c` alone. */
  lemma EnableAt(m: Mask, c: Channel, d: Channel)
    ensures InChannel(m | Bit(c), d) <==> InChannel(m, d) || d == c
  {
    var s, t := Bit(c), Bit(d);
    assert (m | s) & t != 0 <==> m & t != 0 || s & t != 0;
    BitsOverlap(c, d);
  }

  /** `layers.enable(c)`: add channel `c`, keeping every channel already enabled. */
  function Enable(m: Mask, c: Channel): (r: Mask)
    ensures forall d: Channel :: InChannel(r, d) <==> InChannel(m, d) || d == c
  {
    var r := m | Bit(c);
    forall d: Channel
      ensures InChannel(r, d) <==> InChannel(m, d) || d == c
    {
      EnableAt(m, c, d);
    }
    r
  }

  /** `layers.test(other)`: true when the two masks share at least one channel. */
  function Test(a: Mask, b: Mask): (r: bool)
    ensures r <==> exists c: Channel :: InChannel(a, c) && InChannel(b, c)
  {
    SharedChannel(a, b);
    a & b != 0
  }

  /** Two masks overlap exactly when some channel is enabled in both. */
  lemma SharedChannel(a: Mask, b: Mask)
    ensures a & b != 0 <==> exists c: Channel :: InChannel(a, c) && InChannel(b, c)
  {
    if a & b != 0 {
      ShiftZero(a & b);
      var d := LowestChannel(a & b, 0);
      BothAt(a, b, d);
    } else {
      forall c: Channel
        ensures !(InChannel(a, c) && InChannel(b, c))
      {
        BothAt(a, b, c);
      }
    }
  }

  lemma ShiftZero(x: Mask)
    ensures x >> 0 == x
  {
  }

  /** A channel is in `a & b` exactly when it is in both. */
  lemma BothAt(a: Mask, b: Mask, c: Channel)
    ensures InChannel(a & b, c) <==> InChannel(a, c) && InChannel(b, c)
  {
    AndBits(a, b, c);
  }

  lemma AndBits(a: Mask, b: Mask, c: Channel)
    ensures (a & b) & ((1 as bv32) << c) != 0 <==> a & ((1 as bv32) << c) != 0 && b & ((1 as bv32) << c) != 0
  {
  }

  /** The lowest enabled channel at `c` or above, in a mask with some bit set there. */
  function LowestChannel(x: Mask, c: Channel): (d: Channel)
    requires x >> c != 0
    ensures InChannel(x, d)
    decreases 32 - c as int
  {
    if x & Bit(c) != 0 then c
    else
      NextBit(x, c);
      LowestChannel(x, c + 1)
  }

  lemma NextBit(x: Mask, c: Channel)
    requires x >> c != 0 && x & ((1 as bv32) << c) == 0
    ensures c < 31 && x >> (c + 1) != 0
  {
  }

  /** Testing against a single-channel mask asks exactly whether that channel is enabled. */
  lemma TestSingleChannel(c: Channel, m: Mask)
    ensures Test(Set(c), m) <==> InChannel(m, c)
  {
    assert Set(c) & m == m & Bit(c);
  }
}
