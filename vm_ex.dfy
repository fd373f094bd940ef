/**
 * The two counter view-models of the view-model exercise app. Kotlin's `Int`
 * is 32 bits wide; here the counter is an unbounded integer.
 */
module VmEx {
  import opened Nullable

  /** A counter held in a state flow that starts at 0. */
  class CounterViewModel {
    var counter: int

    constructor ()
      ensures counter == 0
    {
      counter := 0;
    }

    method IncrementCounter()
      modifies this
      ensures counter == old(counter) + 1
    {
      counter := counter + 1;
    }

    method DecrementCounter()
      modifies this
      ensures counter == old(counter) - 1
    {
      counter := counter - 1;
    }
  }

  /**
   * A counter held in a nullable live-data cell that starts at 0; each
   * command reads an absent value as 0 and always stores a value.
   */
  class MyViewModel {
    var counter: Option<int>

    constructor ()
      ensures counter == Some(0)
    {
      counter := Some(0);
    }

    method Increase()
      modifies this
      ensures counter == Some(old(counter).OrElse(0) + 1)
    {
      counter := Some(counter.OrElse(0) + 1);
    }

    method Decrease()
      modifies this
      ensures counter == Some(old(counter).OrElse(0) - 1)
    {
      counter := Some(counter.OrElse(0) - 1);
    }
  }

  /**
   * An increase followed by a decrease, or the other way round, restores
   * the value a live-data counter shows (an absent value comes back as 0).
   */
  method IncreaseDecreaseRestores(vm: MyViewModel, increaseFirst: bool)
    modifies vm
    ensures vm.counter == Some(old(vm.counter).OrElse(0))
  {
    if increaseFirst {
      vm.Increase();
      vm.Decrease();
    } else {
      vm.Decrease();
      vm.Increase();
    }
  }

  /** The same round trip on the state-flow counter gives back the exact value. */
  method IncrementDecrementRestores(vm: CounterViewModel, incrementFirst: bool)
    modifies vm
    ensures vm.counter == old(vm.counter)
  {
    if incrementFirst {
      vm.IncrementCounter();
      vm.DecrementCounter();
    } else {
      vm.DecrementCounter();
      vm.IncrementCounter();
    }
  }
}
