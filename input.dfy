/** Keyboard state: held keys plus edge-triggered presses consumed at most once. */
module Input {

  class InputState {
    var pressed: set<string>
    var justPressed: set<string>

    constructor ()
      ensures pressed == {} && justPressed == {}
    {
      pressed := {};
      justPressed := {};
    }

    /** A key-down registers a press only for a key not already held, so
        auto-repeat does not produce new presses. */
    method OnKeyDown(code: string)
      modifies this
      ensures pressed == old(pressed) + {code}
      ensures justPressed == if code in old(pressed) then old(justPressed) else old(justPressed) + {code}
    {
      if code !in pressed {
        justPressed := justPressed + {code};
      }
      pressed := pressed + {code};
    }

    /** A key-up releases the key; a pending press stays pending. */
    method OnKeyUp(code: string)
      modifies this`pressed
      ensures pressed == old(pressed) - {code}
    {
      pressed := pressed - {code};
    }

    predicate IsDown(code: string)
      reads this`pressed
    {
      code in pressed
    }

    /** Reports a pending press of `code` and removes it; other pending
        presses and the held keys are untouched. */
    method ConsumePress(code: string) returns (wasPressed: bool)
      modifies this`justPressed
      ensures wasPressed == (code in old(justPressed))
      ensures justPressed == old(justPressed) - {code}
      ensures !wasPressed ==> unchanged(this)
    {
      if code !in justPressed {
        return false;
      }
      justPressed := justPressed - {code};
      return true;
    }

    method EndFrame()
      modifies this`justPressed
      ensures justPressed == {}
    {
      justPressed := {};
    }
  }

  /** A press of a key that was not held is observed by exactly one
      `ConsumePress`: the next one reports it, the one after does not. */
  method PressIsConsumedOnce(input: InputState, code: string) returns (first: bool, second: bool)
    requires code !in input.pressed
    modifies input
    ensures first && !second
    ensures input.IsDown(code)
  {
    input.OnKeyDown(code);
    first := input.ConsumePress(code);
    second := input.ConsumePress(code);
  }
}
