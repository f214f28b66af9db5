/** The 64-bit button mask that `VRDevice` keeps per controller. Button ids
    are Java `int`s; `1l << button` in Java uses only the low six bits of the
    shift distance, which for every integer is `button % 64` with Dafny's
    Euclidean remainder. */
module Buttons {

  /** Bit k of a mask, stated by shifting the mask down rather than the bit up:
      the reference the mask operations are checked against. */
  predicate TestBit(x: bv64, k: bv7)
    requires k < 64
  {
    (x >> k) & 1 == 1
  }

  /** The shift distance Java actually uses for `1l << button`. */
  function Distance(button: int): (d: bv7)
    ensures d as int == button % 64
    ensures d < 64
  {
    (button % 64) as bv7
  }

  /** Java's `1l << button`, for the distance `Distance(button)`. */
  function BitAt(d: bv7): bv64
    requires d < 64
  {
    (1 as bv64) << d
  }

  /** `1l << d` has bit d set and no other. */
  lemma BitAtSingleBit(d: bv7, k: bv7)
    requires d < 64 && k < 64
    ensures TestBit(BitAt(d), k) <==> k == d
  {
  }

  /** Testing a single bit with `&`. */
  lemma AndBitTests(x: bv64, d: bv7)
    requires d < 64
    ensures (x & BitAt(d) != 0) <==> TestBit(x, d)
  {
  }

  /** Bit k after OR-ing in bit d. */
  lemma OrBitAt(x: bv64, d: bv7, k: bv7)
    requires d < 64 && k < 64
    ensures TestBit(x | BitAt(d), k) <==> k == d || TestBit(x, k)
  {
  }

  /** Bit k after AND-ing with bit d. */
  lemma AndBitAt(x: bv64, d: bv7, k: bv7)
    requires d < 64 && k < 64
    ensures TestBit(x & BitAt(d), k) <==> k == d && TestBit(x, k)
  {
  }

  /** Bit k after AND-ing with the complement of bit d. */
  lemma AndNotBitAt(x: bv64, d: bv7, k: bv7)
    requires d < 64 && k < 64
    ensures TestBit(x & !BitAt(d), k) <==> k != d && TestBit(x, k)
  {
  }

  /** Bit by bit: OR-ing in bit d sets exactly bit d. */
  lemma OrBit(x: bv64, d: bv7)
    requires d < 64
    ensures forall k: bv7 :: k < 64 ==> (TestBit(x | BitAt(d), k) <==> k == d || TestBit(x, k))
  {
    forall k: bv7 | k < 64 ensures TestBit(x | BitAt(d), k) <==> k == d || TestBit(x, k) {
      OrBitAt(x, d, k);
    }
  }

  /** Bit by bit: AND-ing with bit d keeps bit d only. */
  lemma AndBit(x: bv64, d: bv7)
    requires d < 64
    ensures forall k: bv7 :: k < 64 ==> (TestBit(x & BitAt(d), k) <==> k == d && TestBit(x, k))
  {
    forall k: bv7 | k < 64 ensures TestBit(x & BitAt(d), k) <==> k == d && TestBit(x, k) {
      AndBitAt(x, d, k);
    }
  }

  /** Bit by bit: AND-ing with the complement of bit d clears bit d only. */
  lemma AndNotBit(x: bv64, d: bv7)
    requires d < 64
    ensures forall k: bv7 :: k < 64 ==> (TestBit(x & !BitAt(d), k) <==> k != d && TestBit(x, k))
  {
    forall k: bv7 | k < 64 ensures TestBit(x & !BitAt(d), k) <==> k != d && TestBit(x, k) {
      AndNotBitAt(x, d, k);
    }
  }

  /** `VRDevice.isButtonPressed`: ids outside [0, 64) are never pressed;
      otherwise the answer is bit `button` of the mask. */
  function IsButtonPressed(buttons: bv64, button: int): (r: bool)
    ensures (button < 0 || button >= 64) ==> !r
    ensures 0 <= button < 64 ==> (r <==> TestBit(buttons, Distance(button)))
  {
    if button < 0 || button >= 64 then false
    else
      var d := Distance(button);
      AndBitTests(buttons, d);
      buttons & BitAt(d) != 0
  }

  /** `VRDevice.setButton` as written. A press ORs the bit in. A release ANDs
      with the bit itself (there is no complement), so it keeps bit
      `button % 64` as it was and clears every other bit. */
  function SetButton(buttons: bv64, button: int, pressed: bool): (r: bv64)
    ensures pressed ==>
      forall k: bv7 :: k < 64 ==> (TestBit(r, k) <==> k == Distance(button) || TestBit(buttons, k))
    ensures !pressed ==>
      forall k: bv7 :: k < 64 ==> (TestBit(r, k) <==> k == Distance(button) && TestBit(buttons, k))
  {
    var d := Distance(button);
    if pressed then
      OrBit(buttons, d);
      buttons | BitAt(d)
    else
      AndBit(buttons, d);
      buttons & BitAt(d)
  }

  /** The release the method evidently intends: clear bit `button % 64` and
      keep every other bit. */
  function ReleaseIntended(buttons: bv64, button: int): (r: bv64)
    ensures forall k: bv7 :: k < 64 ==> (TestBit(r, k) <==> k != Distance(button) && TestBit(buttons, k))
  {
    var d := Distance(button);
    AndNotBit(buttons, d);
    buttons & !BitAt(d)
  }

  /** A release as written does not release: pressing and then releasing
      button b leaves b reported as pressed. */
  lemma ReleaseAsWrittenKeepsButton(buttons: bv64, b: int)
    requires 0 <= b < 64
    ensures IsButtonPressed(SetButton(SetButton(buttons, b, true), b, false), b)
  {
    var k := Distance(b);
    assert TestBit(SetButton(buttons, b, true), k);
    assert TestBit(SetButton(SetButton(buttons, b, true), b, false), k);
  }

  /** Concretely: with buttons 3 and 7 held, releasing 7 keeps 7 held and
      drops 3, which was never released. */
  lemma ReleaseAsWrittenCounterexample()
    ensures var r := SetButton(BitAt(3) | BitAt(7), 7, false);
            IsButtonPressed(r, 7) && !IsButtonPressed(r, 3)
  {
    assert Distance(3) == 3 && Distance(7) == 7;
  }

  /** With the intended release, press followed by release restores any mask
      in which the button was not already held. */
  lemma PressReleaseRoundTrip(buttons: bv64, b: int)
    requires 0 <= b < 64 && !IsButtonPressed(buttons, b)
    ensures ReleaseIntended(SetButton(buttons, b, true), b) == buttons
  {
    DisjointOrUndone(buttons, Distance(b));
  }

  /** OR-ing in a bit that is clear and then clearing it is the identity. */
  lemma DisjointOrUndone(x: bv64, d: bv7)
    requires d < 64 && x & BitAt(d) == 0
    ensures (x | BitAt(d)) & !BitAt(d) == x
  {
  }

  /** There is no range check in `setButton`: id 64 + k presses bit k, while
      `isButtonPressed` still reports id 64 + k as not pressed. */
  lemma SetButtonMasksShiftDistance(buttons: bv64, k: int)
    requires 0 <= k < 64
    ensures IsButtonPressed(SetButton(buttons, 64 + k, true), k)
    ensures !IsButtonPressed(SetButton(buttons, 64 + k, true), 64 + k)
  {
    assert (64 + k) % 64 == k % 64;
    assert Distance(64 + k) == Distance(k);
    assert TestBit(SetButton(buttons, 64 + k, true), Distance(k));
  }
}
