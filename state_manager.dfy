/**
 * The GUI's state and callback registry: named callbacks, named states.
 * A callback is an uninterpreted value of type `C`; calling it is recorded as an
 * invocation in a log, in call order, since what a callback does is the
 * business of the window that registered it.
 */
module GuiState {
  import opened Wrappers

  /** One call of a registered callback: the name it was triggered under, the callback called and the value passed. */
  datatype Invocation<C, V> = Invocation(name: string, callback: C, value: V)

  /** The registry's contents: the callbacks, the states and the calls made so far. */
  datatype Registry<C, V> = Registry(callbacks: map<string, C>, states: map<string, V>, log: seq<Invocation<C, V>>)

  function Empty<C, V>(): Registry<C, V> {
    Registry(map[], map[], [])
  }

  /** `register_callback`: the name now refers to this callback, whatever it referred to before. */
  function WithCallback<C, V>(r: Registry<C, V>, name: string, callback: C): Registry<C, V> {
    r.(callbacks := r.callbacks[name := callback])
  }

  /** `trigger_callback`: the name's current callback is called once with the value; an unregistered name does nothing. */
  function Triggered<C, V>(r: Registry<C, V>, name: string, value: V): Registry<C, V> {
    if name in r.callbacks then r.(log := r.log + [Invocation(name, r.callbacks[name], value)]) else r
  }

  /** `set_state`. */
  function WithState<C, V>(r: Registry<C, V>, name: string, value: V): Registry<C, V> {
    r.(states := r.states[name := value])
  }

  /** `get_state`: `None` stands for the `KeyError` of a name that was never set. */
  function StateOf<C, V>(r: Registry<C, V>, name: string): (v: Option<V>)
    ensures v.Some? <==> name in r.states
  {
    if name in r.states then Some(r.states[name]) else None
  }

  /** The registry's operations, as a caller issues them. */
  datatype Command<C, V> =
    | RegisterCallback(name: string, callback: C)
    | TriggerCallback(name: string, value: V)
    | SetStateTo(name: string, value: V)

  function Step<C, V>(r: Registry<C, V>, c: Command<C, V>): Registry<C, V> {
    match c
    case RegisterCallback(name, callback) => WithCallback(r, name, callback)
    case TriggerCallback(name, value) => Triggered(r, name, value)
    case SetStateTo(name, value) => WithState(r, name, value)
  }

  /** Issues the commands in order. */
  function Execute<C, V>(r: Registry<C, V>, cs: seq<Command<C, V>>): Registry<C, V>
    decreases cs
  {
    if cs == [] then r else Execute(Step(r, cs[0]), cs[1..])
  }

  /** A command that does not set the state `name`. */
  predicate LeavesState<C, V>(c: Command<C, V>, name: string) {
    !(c.SetStateTo? && c.name == name)
  }

  /** A command that does not register a callback under `name`. */
  predicate LeavesCallback<C, V>(c: Command<C, V>, name: string) {
    !(c.RegisterCallback? && c.name == name)
  }

  // ---------------------------------------------------------------------
  // Properties of single calls
  // ---------------------------------------------------------------------

  /** Getting a state just set returns the value set. */
  lemma GetAfterSet<C, V>(r: Registry<C, V>, name: string, value: V)
    ensures StateOf(WithState(r, name, value), name) == Some(value)
  {
  }

  /** A state that was never set cannot be read: `get_state` raises. */
  lemma GetUnsetFails<C, V>(r: Registry<C, V>, name: string)
    requires name !in r.states
    ensures StateOf(r, name).None?
  {
  }

  /** Setting one state leaves every other state, every callback and the call log as they were. */
  lemma SetStateFrame<C, V>(r: Registry<C, V>, name: string, value: V, other: string)
    requires other != name
    ensures var t := WithState(r, name, value);
            StateOf(t, other) == StateOf(r, other) && t.callbacks == r.callbacks && t.log == r.log
  {
  }

  /** Registering again under a name replaces the old callback: triggering calls only the new one. */
  lemma RegisterReplaces<C, V>(r: Registry<C, V>, name: string, old_callback: C, callback: C, value: V)
    ensures Triggered(WithCallback(WithCallback(r, name, old_callback), name, callback), name, value).log
              == r.log + [Invocation(name, callback, value)]
  {
  }

  /**
   * Triggering an unregistered name changes nothing; triggering a
   * registered one calls its current callback exactly once, with the value,
   * and changes nothing else.
   */
  lemma TriggerCallsOnce<C, V>(r: Registry<C, V>, name: string, value: V)
    ensures name !in r.callbacks ==> Triggered(r, name, value) == r
    ensures name in r.callbacks ==>
              var t := Triggered(r, name, value);
              && |t.log| == |r.log| + 1 && t.log[..|r.log|] == r.log
              && t.log[|r.log|] == Invocation(name, r.callbacks[name], value)
              && t.callbacks == r.callbacks && t.states == r.states
  {
  }

  // ---------------------------------------------------------------------
  // Properties of command sequences
  // ---------------------------------------------------------------------

  /** Running commands one after the other is running their concatenation. */
  lemma {:induction false} ExecuteAppend<C, V>(r: Registry<C, V>, a: seq<Command<C, V>>, b: seq<Command<C, V>>)
    ensures Execute(r, a + b) == Execute(Execute(r, a), b)
    decreases a
  {
    if a == [] {
      assert a + b == b;
    } else {
      assert (a + b)[1..] == a[1..] + b;
      ExecuteAppend(Step(r, a[0]), a[1..], b);
    }
  }

  /** A state keeps its value through any commands that do not set it. */
  lemma {:induction false} StateSurvives<C, V>(r: Registry<C, V>, cs: seq<Command<C, V>>, name: string)
    requires forall i :: 0 <= i < |cs| ==> LeavesState(cs[i], name)
    ensures StateOf(Execute(r, cs), name) == StateOf(r, name)
    decreases cs
  {
    if cs != [] {
      StateSurvives(Step(r, cs[0]), cs[1..], name);
    }
  }

  /**
   * `get_state(n)` after `set_state(n, v)` returns `v`, whatever commands
   * came in between, provided none of them set `n` again.
   */
  lemma SetThenGet<C, V>(r: Registry<C, V>, name: string, value: V, between: seq<Command<C, V>>)
    requires forall i :: 0 <= i < |between| ==> LeavesState(between[i], name)
    ensures StateOf(Execute(r, [SetStateTo(name, value)] + between), name) == Some(value)
  {
    ExecuteAppend(r, [SetStateTo(name, value)], between);
    StateSurvives(WithState(r, name, value), between, name);
  }

  /** No command removes anything: the call log only grows, and a registered name stays registered. */
  lemma {:induction false} ExecuteOnlyGrows<C, V>(r: Registry<C, V>, cs: seq<Command<C, V>>)
    ensures var t := Execute(r, cs);
            && |r.log| <= |t.log| && t.log[..|r.log|] == r.log
            && (forall n :: n in r.callbacks ==> n in t.callbacks)
            && (forall n :: n in r.states ==> n in t.states)
    decreases cs
  {
    if cs != [] {
      var s := Step(r, cs[0]);
      ExecuteOnlyGrows(s, cs[1..]);
      var t := Execute(r, cs);
      assert s.log[..|r.log|] == r.log;
      assert t.log[..|s.log|][..|r.log|] == t.log[..|r.log|];
    }
  }

  /**
   * After a registration, every trigger of that name calls the registered
   * callback until the name is registered again.
   */
  lemma {:induction false} CallbackSurvives<C, V>(r: Registry<C, V>, name: string, callback: C, cs: seq<Command<C, V>>)
    requires forall i :: 0 <= i < |cs| ==> LeavesCallback(cs[i], name)
    ensures var t := Execute(WithCallback(r, name, callback), cs);
            name in t.callbacks && t.callbacks[name] == callback
    decreases cs
  {
    if cs != [] {
      var s := Step(WithCallback(r, name, callback), cs[0]);
      assert s == WithCallback(s, name, callback);
      CallbackSurvives(s, name, callback, cs[1..]);
    }
  }

  // ---------------------------------------------------------------------
  // The object
  // ---------------------------------------------------------------------

  /** `StateManager`: the two dictionaries, and the calls made through it. */
  class StateManager<C, V> {
    var callbacks: map<string, C>
    var states: map<string, V>
    var log: seq<Invocation<C, V>>

    function Contents(): Registry<C, V>
      reads this
    {
      Registry(callbacks, states, log)
    }

    constructor ()
      ensures Contents() == Empty()
    {
      callbacks, states, log := map[], map[], [];
    }

    method RegisterCallback(name: string, callback: C)
      modifies this
      ensures Contents() == WithCallback(old(Contents()), name, callback)
    {
      callbacks := callbacks[name := callback];
    }

    method TriggerCallback(name: string, value: V)
      modifies this
      ensures Contents() == Triggered(old(Contents()), name, value)
    {
      if name in callbacks {
        log := log + [Invocation(name, callbacks[name], value)];
      }
    }

    method SetState(name: string, value: V)
      modifies this
      ensures Contents() == WithState(old(Contents()), name, value)
    {
      states := states[name := value];
    }

    /** `None` stands for the `KeyError` raised for a name never set. */
    method GetState(name: string) returns (value: Option<V>)
      ensures value == StateOf(Contents(), name)
      ensures value.Some? <==> name in states
    {
      if name in states {
        return Some(states[name]);
      }
      return None;
    }
  }
}
