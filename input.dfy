/**
 * Keyboard input: `keys` holds the codes currently held down and `pressed` the codes
 * that went down since the last frame (edge-triggered actions such as entering a car).
 */
module Input {
  import opened Options

  /** The index of the first code in `codes` that is pending in `pressed`, if any. */
  function FirstPressed(codes: seq<string>, pressed: set<string>): (k: Option<nat>)
    ensures k.None? <==> forall i :: 0 <= i < |codes| ==> codes[i] !in pressed
    ensures k.Some? ==> k.value < |codes| && codes[k.value] in pressed
    ensures k.Some? ==> forall j :: 0 <= j < k.value ==> codes[j] !in pressed
    decreases |codes|
  {
    if codes == [] then None
    else if codes[0] in pressed then Some(0)
    else
      match FirstPressed(codes[1..], pressed)
      case None => None
      case Some(j) => Some(j + 1)
  }

  class InputState {
    var keys: set<string>
    var pressed: set<string>

    constructor ()
      ensures keys == {} && pressed == {}
    {
      keys, pressed := {}, {};
    }

    /** handleKeyDown (set logic): a key that was not already held becomes pending. */
    method KeyDown(code: string)
      modifies this
      ensures keys == old(keys) + {code}
      ensures code in old(keys) ==> pressed == old(pressed)
      ensures code !in old(keys) ==> pressed == old(pressed) + {code}
    {
      if code !in keys {
        pressed := pressed + {code};
      }
      keys := keys + {code};
    }

    /** handleKeyUp */
    method KeyUp(code: string)
      modifies this
      ensures keys == old(keys) - {code} && pressed == old(pressed)
    {
      keys := keys - {code};
    }

    /** `input.pressed.clear()` at the end of each frame. */
    method ClearPressed()
      modifies this
      ensures pressed == {} && keys == old(keys)
    {
      pressed := {};
    }

    /**
     * consumePress(...codes): report whether some listed code is pending and remove only
     * the first such code; the held keys and every other pending code are untouched.
     */
    method ConsumePress(codes: seq<string>) returns (found: bool)
      modifies this
      ensures found <==> exists i :: 0 <= i < |codes| && codes[i] in old(pressed)
      ensures found ==> pressed == old(pressed) - {codes[FirstPressed(codes, old(pressed)).value]}
      ensures !found ==> pressed == old(pressed)
      ensures keys == old(keys)
    {
      var i := 0;
      while i < |codes|
        invariant 0 <= i <= |codes|
        invariant pressed == old(pressed) && keys == old(keys)
        invariant forall j :: 0 <= j < i ==> codes[j] !in pressed
      {
        if codes[i] in pressed {
          FirstPressedIsFirstHit(codes, pressed, i);
          pressed := pressed - {codes[i]};
          return true;
        }
        i := i + 1;
      }
      return false;
    }
  }

  /** The first pending code found by a left-to-right scan is the one FirstPressed names. */
  lemma FirstPressedIsFirstHit(codes: seq<string>, pressed: set<string>, i: nat)
    requires i < |codes| && codes[i] in pressed
    requires forall j :: 0 <= j < i ==> codes[j] !in pressed
    ensures FirstPressed(codes, pressed) == Some(i)
  {
    var k := FirstPressed(codes, pressed);
    assert k.Some?;
    assert !(k.value < i) && !(i < k.value);
  }
}
