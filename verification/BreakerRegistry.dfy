/** The registry of circuits as mutable state; its calls, in order, are the history of module Breaker. */
module BreakerRegistry {
  import opened Breaker

  class Registry {
    const c: Config
    var states: map<Key, Circuit>
    var openedAt: map<Key, real>
    var trials: set<Key>

    ghost var history: seq<Call>

    ghost predicate Valid()
      reads this
    {
      ValidConfig(c) && State(states, openedAt, trials) == Replay(c, history)
    }

    constructor (c: Config)
      requires ValidConfig(c)
      ensures Valid() && history == [] && this.c == c
    {
      this.c, states, openedAt, trials, history := c, map[], map[], {}, [];
    }

    ghost method Note(call: Call)
      modifies `history
      ensures history == old(history) + [call]
      ensures Replay(c, history) == Apply(c, call, Replay(c, old(history)))
    {
      assert (history + [call])[..|history|] == history;
      history := history + [call];
    }

    /** `_state_for`: the key's circuit, remembered from now on. */
    method StateFor(key: Key) returns (circuit: Circuit)
      modifies `states
      ensures circuit == CircuitOf(State(old(states), openedAt, trials), key) && states == old(states)[key := circuit]
    {
      circuit := if key in states then states[key] else Closed;
      states := states[key := circuit];
    }

    /** `admit`, with the two clock readings it makes. */
    method Admission(key: Key, earlier: real, now: real) returns (admitted: bool)
      requires Valid()
      modifies this
      ensures Valid() && history == old(history) + [Admit(key, now)]
      ensures FailuresIn(old(history), key) < c.threshold ==> admitted
      ensures FailuresIn(old(history), key) >= c.threshold ==>
                && LastFailure(old(history), key).Some?
                && (admitted <==> now >= LastFailure(old(history), key).value + c.cooldown
                                  && !Outstanding(c, old(history), key))
    {
      RegistryIsExact(c, history, key);
      Note(Admit(key, now));
      var circuit := StateFor(key);
      if !circuit.open {
        return true;
      }
      var since := if key in openedAt then openedAt[key] else earlier;
      if now - since < c.cooldown || key in trials {
        return false;
      }
      trials := trials + {key};
      admitted := true;
    }

    /** The circuit the registry holds for a key. */
    ghost function Held(key: Key): Circuit
      reads this
    {
      CircuitOf(State(states, openedAt, trials), key)
    }

    /** What one call may do to a key's circuit, in terms of the history. */
    ghost predicate Counts(key: Key, circuit: Circuit)
      reads this
    {
      circuit == Circuit(FailuresIn(history, key), FailuresIn(history, key) >= c.threshold)
    }

    method RecordTransportFailure(key: Key, now: real) returns (circuit: Circuit)
      requires Valid()
      modifies this
      ensures Valid() && history == old(history) + [TransportFailure(key, now)]
      ensures Counts(key, circuit) && FailuresIn(history, key) == FailuresIn(old(history), key) + 1
    {
      Fail(key, now);
      Note(TransportFailure(key, now));
      RegistryIsExact(c, history, key);
      circuit := states[key];
    }

    method Fail(key: Key, now: real)
      requires Valid()
      modifies `states, `openedAt, `trials
      ensures State(states, openedAt, trials) == Failed(c, Replay(c, history), key, now)
    {
      var was := StateFor(key);
      var circuit := RecordFailure(c, was);
      states := states[key := circuit];
      trials := trials - {key};
      if circuit.open {
        openedAt := openedAt[key := now];
      }
    }

    method Succeed(key: Key)
      requires Valid()
      modifies `states, `openedAt, `trials
      ensures State(states, openedAt, trials) == Succeeded(Replay(c, history), key)
    {
      states := states[key := Closed];
      openedAt := openedAt - {key};
      trials := trials - {key};
    }

    /** `record_response`: a 5xx counts, a 2xx or 3xx clears, anything else only ends a trial. */
    method RecordResponse(key: Key, status: int, now: real) returns (ok: bool)
      requires Valid()
      modifies this
      ensures Valid() && history == old(history) + [Response(key, status, now)] && (ok <==> 100 <= status <= 599)
      ensures FailuresIn(history, key) == if 500 <= status <= 599 then FailuresIn(old(history), key) + 1
                                          else if 200 <= status < 400 then 0 else FailuresIn(old(history), key)
      ensures Held(key) == Circuit(FailuresIn(history, key), FailuresIn(history, key) >= c.threshold)
      ensures if ok then !Outstanding(c, history, key) && key !in trials
              else states == old(states) && openedAt == old(openedAt) && trials == old(trials)
    {
      ghost var before := Replay(c, history);
      ok := IsStatus(status);
      if ok {
        if status >= 500 {
          Fail(key, now);
        } else if 200 <= status < 400 {
          Succeed(key);
        } else {
          EndTrial(key);
        }
      }
      Note(Response(key, status, now));
      AfterResponse(c, old(history), key, status, now, before, Replay(c, history));
      RegistryIsExact(c, old(history), key);
      RegistryIsExact(c, history, key);
    }

    /** The key's trial, if any, is over; its circuit stays as it is. */
    method EndTrial(key: Key)
      requires Valid()
      modifies `states, `trials
      ensures State(states, openedAt, trials) == Touched(Replay(c, history), key).(trials := old(trials) - {key})
    {
      var circuit := StateFor(key);
      trials := trials - {key};
    }

    method ReleaseTrial(key: Key)
      requires Valid()
      modifies this
      ensures Valid() && history == old(history) + [Release(key)]
      ensures !Outstanding(c, history, key) && FailuresIn(history, key) == FailuresIn(old(history), key)
    {
      EndTrial(key);
      Note(Release(key));
      RegistryIsExact(c, history, key);
    }

    method ResetCircuit(key: Key)
      requires Valid()
      modifies this
      ensures Valid() && history == old(history) + [Reset(key)]
      ensures FailuresIn(history, key) == 0 && !Outstanding(c, history, key)
    {
      Succeed(key);
      Note(Reset(key));
      RegistryIsExact(c, history, key);
    }

    method Inspection(key: Key) returns (circuit: Circuit)
      requires Valid()
      modifies this
      ensures Valid() && history == old(history) + [Inspect(key)] && Counts(key, circuit)
      ensures FailuresIn(history, key) == FailuresIn(old(history), key)
    {
      circuit := StateFor(key);
      Note(Inspect(key));
      RegistryIsExact(c, history, key);
    }
  }
}
