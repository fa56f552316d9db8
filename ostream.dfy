/**
  * The part of `std::cout` the monitor depends on: the text written so far and
  * the three pieces of format state that its manipulators change. `std::left`,
  * `std::right`, `std::hex` and `std::dec` persist until changed again; the
  * width set by `std::setw` applies to the next formatted insertion only.
  */
module OStream {
  import opened Text

  /** The stream's `basefield`. */
  datatype Base = Dec | Hex

  /** `static_cast<unsigned int>` of an `int`: the modulus of a 32-bit integer. */
  const IntModulus: nat := 0x1_0000_0000

  /** The same for a 64-bit `long`, the count type of `std::chrono::milliseconds`. */
  const LongModulus: nat := 0x1_0000_0000_0000_0000

  /**
    * What an integer insertion writes before padding. Under `std::hex` a signed
    * integer is written as the unsigned integer of the same width and bit
    * pattern, which is the Euclidean remainder by that width's modulus.
    */
  function Render(x: int, modulus: nat, base: Base): (r: string)
    requires modulus > 0
  {
    if base == Dec then Decimal(x) else Text.Hex(x % modulus)
  }

  class Stream {
    var text: string
    var adjust: Adjust
    var base: Base
    var width: nat

    /** A fresh standard output: nothing written, decimal, width 0; no `adjustfield` bit is set, which pads as right does. */
    constructor ()
      ensures text == [] && adjust == Right && base == Dec && width == 0
    {
      text, adjust, base, width := [], Right, Dec, 0;
    }

    /** `std::setw(n)` */
    method SetWidth(n: nat)
      modifies this
      ensures width == n
      ensures text == old(text) && adjust == old(adjust) && base == old(base)
    {
      width := n;
    }

    /** `std::left` */
    method SetLeft()
      modifies this
      ensures adjust == Left
      ensures text == old(text) && base == old(base) && width == old(width)
    {
      adjust := Left;
    }

    /** `std::right` */
    method SetRight()
      modifies this
      ensures adjust == Right
      ensures text == old(text) && base == old(base) && width == old(width)
    {
      adjust := Right;
    }

    /** `std::hex` */
    method SetHex()
      modifies this
      ensures base == Hex
      ensures text == old(text) && adjust == old(adjust) && width == old(width)
    {
      base := Hex;
    }

    /** `std::dec` */
    method SetDec()
      modifies this
      ensures base == Dec
      ensures text == old(text) && adjust == old(adjust) && width == old(width)
    {
      base := Dec;
    }

    /** `<< s` for a string: padded to the pending width, which is then reset to 0. */
    method PutString(s: string)
      modifies this
      ensures text == old(text) + Fill(s, old(width), adjust)
      ensures width == 0 && adjust == old(adjust) && base == old(base)
    {
      text := text + Fill(s, width, adjust);
      width := 0;
    }

    /** `<< x` for an integer whose type has the given modulus: rendered in the current base, padded, width reset. */
    method PutInteger(x: int, modulus: nat)
      requires modulus > 0
      modifies this
      ensures text == old(text) + Fill(Render(x, modulus, base), old(width), adjust)
      ensures width == 0 && adjust == old(adjust) && base == old(base)
    {
      text := text + Fill(Render(x, modulus, base), width, adjust);
      width := 0;
    }

    /** `<< std::endl`: an unformatted line break, which leaves the width alone; flushing is not modelled. */
    method EndLine()
      modifies this
      ensures text == old(text) + "\n"
      ensures width == old(width) && adjust == old(adjust) && base == old(base)
    {
      text := text + "\n";
    }
  }
}
