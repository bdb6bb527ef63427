/** Per-key circuits with half-open trials, proved against the history of calls alone. */
module Breaker {
  import opened Wrappers

  type Key(==, !new)

  datatype Config = Config(threshold: nat, cooldown: real)

  datatype Circuit = Circuit(failures: nat, open: bool)

  /** `Admit` carries the clock reading its decision uses, a failure the one it may store. */
  datatype Call =
    | Admit(key: Key, at: real)
    | TransportFailure(key: Key, at: real)
    | Response(key: Key, status: int, at: real)
    | Release(key: Key)
    | Reset(key: Key)
    | Inspect(key: Key)

  datatype State = State(states: map<Key, Circuit>, openedAt: map<Key, real>, trials: set<Key>)

  const Initial := State(map[], map[], {})

  predicate ValidConfig(c: Config) {
    c.threshold >= 1 && c.cooldown > 0.0
  }

  // ---------------------------------------------------------------- `CircuitState`

  const Closed := Circuit(0, false)

  function RecordFailure(c: Config, circuit: Circuit): Circuit {
    Circuit(circuit.failures + 1, circuit.failures + 1 >= c.threshold)
  }

  // ---------------------------------------------------------------- the registry

  function CircuitOf(s: State, key: Key): Circuit {
    if key in s.states then s.states[key] else Closed
  }

  /** `admit` lets the dispatch through. */
  predicate Admits(c: Config, s: State, key: Key, at: real) {
    || !CircuitOf(s, key).open
    || (key in s.openedAt && at - s.openedAt[key] >= c.cooldown && key !in s.trials)
  }

  function Touched(s: State, key: Key): State {
    s.(states := s.states[key := CircuitOf(s, key)])
  }

  function Failed(c: Config, s: State, key: Key, at: real): State {
    var circuit := RecordFailure(c, CircuitOf(s, key));
    State(s.states[key := circuit], if circuit.open then s.openedAt[key := at] else s.openedAt, s.trials - {key})
  }

  function Succeeded(s: State, key: Key): State {
    State(s.states[key := Closed], s.openedAt - {key}, s.trials - {key})
  }

  predicate IsStatus(status: int) {
    100 <= status <= 599
  }

  function Apply(c: Config, call: Call, s: State): State {
    match call
    case Admit(key, at) =>
      var t := Touched(s, key);
      if CircuitOf(s, key).open && Admits(c, s, key, at) then t.(trials := s.trials + {key}) else t
    case TransportFailure(key, at) => Failed(c, s, key, at)
    case Response(key, status, at) =>
      if !IsStatus(status) then s
      else if status >= 500 then Failed(c, s, key, at)
      else if 200 <= status < 400 then Succeeded(s, key)
      else Touched(s, key).(trials := s.trials - {key})
    case Release(key) => Touched(s, key).(trials := s.trials - {key})
    case Reset(key) => Succeeded(s, key)
    case Inspect(key) => Touched(s, key)
  }

  function Replay(c: Config, calls: seq<Call>): State {
    if calls == [] then Initial else Apply(c, calls[|calls| - 1], Replay(c, calls[..|calls| - 1]))
  }

  // ---------------------------------------------------------------- what a history means for a key

  /** A failure of the origin: no response, or a 5xx one. */
  predicate Fails(call: Call, key: Key) {
    call.key == key && (call.TransportFailure? || (call.Response? && 500 <= call.status <= 599))
  }

  /** A success or an operator's reset. */
  predicate Clears(call: Call, key: Key) {
    call.key == key && (call.Reset? || (call.Response? && 200 <= call.status < 400))
  }

  /** A call that ends a half-open trial: any verdict, or its release. */
  predicate EndsTrial(call: Call, key: Key) {
    call.key == key && (call.TransportFailure? || (call.Response? && 100 <= call.status <= 599) || call.Release?
                        || call.Reset?)
  }

  /** Failures since the last success or reset. */
  function FailuresIn(calls: seq<Call>, key: Key): nat {
    if calls == [] then 0
    else
      var front, last := calls[..|calls| - 1], calls[|calls| - 1];
      if Clears(last, key) then 0 else FailuresIn(front, key) + if Fails(last, key) then 1 else 0
  }

  /** When the latest failure since the last success or reset happened. */
  function LastFailure(calls: seq<Call>, key: Key): Option<real> {
    if calls == [] then None
    else
      var front, last := calls[..|calls| - 1], calls[|calls| - 1];
      if Clears(last, key) then None else if Fails(last, key) then Some(last.at) else LastFailure(front, key)
  }

  /** The last call is an admission through an open circuit. */
  predicate StartsTrial(c: Config, calls: seq<Call>, key: Key)
    requires calls != []
  {
    var front, last := calls[..|calls| - 1], calls[|calls| - 1];
    last.Admit? && last.key == key && CircuitOf(Replay(c, front), key).open && Admits(c, Replay(c, front), key, last.at)
  }

  /** An admission through the open circuit has had neither verdict nor release. */
  predicate Outstanding(c: Config, calls: seq<Call>, key: Key) {
    calls != [] &&
    if StartsTrial(c, calls, key) then true
    else !EndsTrial(calls[|calls| - 1], key) && Outstanding(c, calls[..|calls| - 1], key)
  }

  // ---------------------------------------------------------------- the registry holds exactly that

  ghost predicate ExactCount(c: Config, calls: seq<Call>, s: State, key: Key) {
    var n := FailuresIn(calls, key);
    && CircuitOf(s, key) == Circuit(n, n >= c.threshold)
    && if n >= c.threshold then key in s.openedAt && LastFailure(calls, key) == Some(s.openedAt[key])
       else key !in s.openedAt
  }

  ghost predicate ExactTrial(c: Config, calls: seq<Call>, s: State, key: Key) {
    && (key in s.trials <==> Outstanding(c, calls, key))
    && (key in s.trials ==> FailuresIn(calls, key) >= c.threshold)
  }

  ghost predicate Exact(c: Config, calls: seq<Call>, s: State, key: Key) {
    ExactCount(c, calls, s, key) && ExactTrial(c, calls, s, key)
  }

  lemma {:induction false} StepExactCount(c: Config, calls: seq<Call>, s: State, key: Key)
    requires ValidConfig(c) && calls != [] && ExactCount(c, calls[..|calls| - 1], s, key)
    ensures ExactCount(c, calls, Apply(c, calls[|calls| - 1], s), key)
  {
  }

  lemma {:induction false} StepExactTrial(c: Config, calls: seq<Call>, s: State, key: Key)
    requires ValidConfig(c) && calls != [] && s == Replay(c, calls[..|calls| - 1])
    requires Exact(c, calls[..|calls| - 1], s, key)
    ensures ExactTrial(c, calls, Apply(c, calls[|calls| - 1], s), key)
  {
    var last := calls[|calls| - 1];
    if last.key == key && last.Admit? {
      assert StartsTrial(c, calls, key) <==> CircuitOf(s, key).open && Admits(c, s, key, last.at);
    } else {
      assert !StartsTrial(c, calls, key);
    }
  }

  /**
   After any history, for every key: the count is the failures since the last 2xx, 3xx or reset; the
   circuit is open, and has an opening time, exactly when the count reached the threshold; the time is
   that of the latest failure; a trial is in flight exactly when one is outstanding, and only when open.
   */
  lemma {:induction false} RegistryIsExact(c: Config, calls: seq<Call>, key: Key)
    requires ValidConfig(c)
    ensures Exact(c, calls, Replay(c, calls), key)
  {
    if calls != [] {
      var front := calls[..|calls| - 1];
      RegistryIsExact(c, front, key);
      StepExactCount(c, calls, Replay(c, front), key);
      StepExactTrial(c, calls, Replay(c, front), key);
    }
  }

  /**
   What one response changes in the registry: a 5xx is one failure more, a 2xx or 3xx leaves none, any
   other status leaves the count; the circuit is open, since the last failure, exactly from the threshold
   on; and no trial is left. An invalid status changes nothing, and no response touches another key.
   */
  lemma {:induction false} AfterResponse(c: Config, calls: seq<Call>, key: Key, status: int, at: real, s: State,
                                         t: State)
    requires ValidConfig(c) && s == Replay(c, calls) && t == Replay(c, calls + [Response(key, status, at)])
    ensures FailuresIn(calls + [Response(key, status, at)], key) == CircuitOf(t, key).failures
    ensures CircuitOf(t, key).failures == if 500 <= status <= 599 then CircuitOf(s, key).failures + 1
                                          else if 200 <= status < 400 then 0 else CircuitOf(s, key).failures
    ensures CircuitOf(t, key).open <==> CircuitOf(t, key).failures >= c.threshold
    ensures CircuitOf(t, key).open <==> key in t.openedAt
    ensures CircuitOf(t, key).open ==> Some(t.openedAt[key]) == LastFailure(calls + [Response(key, status, at)], key)
    ensures if 100 <= status <= 599 then key !in t.trials else t == s
    ensures forall other | other != key :: Same(t, s, other)
  {
    var longer := calls + [Response(key, status, at)];
    assert longer[..|longer| - 1] == calls;
    RegistryIsExact(c, calls, key);
    RegistryIsExact(c, longer, key);
  }

  /** A dispatch passes an open circuit only one cooldown after the latest failure, with no trial outstanding. */
  lemma {:induction false} OpenAdmissionWaits(c: Config, calls: seq<Call>, key: Key, at: real)
    requires ValidConfig(c) && FailuresIn(calls, key) >= c.threshold
    ensures LastFailure(calls, key).Some?
    ensures Admits(c, Replay(c, calls), key, at) <==>
              at >= LastFailure(calls, key).value + c.cooldown && !Outstanding(c, calls, key)
  {
    RegistryIsExact(c, calls, key);
  }

  /** A closed circuit admits everything. */
  lemma {:induction false} ClosedAdmitsAll(c: Config, calls: seq<Call>, key: Key, at: real)
    requires ValidConfig(c) && FailuresIn(calls, key) < c.threshold
    ensures Admits(c, Replay(c, calls), key, at)
  {
    RegistryIsExact(c, calls, key);
  }

  /** While no call ends it a trial stays outstanding. */
  lemma {:induction false} TrialLasts(c: Config, calls: seq<Call>, key: Key, i: nat, n: nat)
    requires i < n <= |calls| && StartsTrial(c, calls[..i + 1], key)
    requires forall m | i < m < n :: !EndsTrial(calls[m], key)
    ensures Outstanding(c, calls[..n], key)
  {
    if n > i + 1 {
      TrialLasts(c, calls, key, i, n - 1);
      assert calls[..n][..n - 1] == calls[..n - 1] && calls[..n][n - 1] == calls[n - 1];
    }
  }

  /** Between two admissions through the open circuit of a key lies a verdict or a release. */
  lemma {:induction false} OneTrialAtATime(c: Config, calls: seq<Call>, key: Key, i: nat, j: nat)
    requires ValidConfig(c) && i < j < |calls|
    requires StartsTrial(c, calls[..i + 1], key) && StartsTrial(c, calls[..j + 1], key)
    ensures exists m | i < m < j :: EndsTrial(calls[m], key)
  {
    assert calls[..j + 1][..j] == calls[..j];
    RegistryIsExact(c, calls[..j], key);
    if forall m | i < m < j :: !EndsTrial(calls[m], key) {
      TrialLasts(c, calls, key, i, j);
    }
  }

  /** The calls that name a key. */
  function Naming(calls: seq<Call>, key: Key): seq<Call> {
    if calls == [] then []
    else
      var front, last := calls[..|calls| - 1], calls[|calls| - 1];
      if last.key == key then Naming(front, key) + [last] else Naming(front, key)
  }

  /** Two registries hold the same for a key. */
  predicate Same(s: State, t: State, key: Key) {
    && CircuitOf(s, key) == CircuitOf(t, key)
    && (key in s.openedAt <==> key in t.openedAt)
    && (key in s.openedAt ==> s.openedAt[key] == t.openedAt[key])
    && (key in s.trials <==> key in t.trials)
  }

  lemma {:induction false} OwnCallsAgree(c: Config, call: Call, s: State, t: State)
    requires Same(s, t, call.key)
    ensures Same(Apply(c, call, s), Apply(c, call, t), call.key)
  {
  }

  lemma {:induction false} OtherCallsDoNot(c: Config, call: Call, s: State, key: Key)
    requires call.key != key
    ensures Same(Apply(c, call, s), s, key)
  {
  }

  /** Keys do not affect each other: a circuit is what its own calls alone would make it. */
  lemma {:induction false} KeysAreIndependent(c: Config, calls: seq<Call>, key: Key)
    ensures Same(Replay(c, calls), Replay(c, Naming(calls, key)), key)
  {
    if calls != [] {
      var front, last := calls[..|calls| - 1], calls[|calls| - 1];
      KeysAreIndependent(c, front, key);
      if last.key == key {
        var mine := Naming(front, key) + [last];
        assert mine[..|mine| - 1] == Naming(front, key);
        OwnCallsAgree(c, last, Replay(c, front), Replay(c, Naming(front, key)));
      } else {
        OtherCallsDoNot(c, last, Replay(c, front), key);
      }
    }
  }
}
