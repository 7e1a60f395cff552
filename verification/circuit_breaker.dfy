/** The circuit breaker, whose counters turn out to be functions of the event history. */
module CircuitBreaker {
  import opened Common

  datatype CircuitState = Closed | Open | HalfOpen

  datatype Config = Config(failureThreshold: int, successThreshold: int, timeout: int)

  // `lastFailure` is only consulted once a failure has been recorded.
  datatype View = View(state: CircuitState, failures: nat, successes: nat, lastFailure: int)

  datatype Event = Allow(now: int) | Success | Failure(now: int) | Reset

  const FRESH: View := View(Closed, 0, 0, 0)

  function TransitionTo(v: View, state: CircuitState): View {
    match state
    case Closed => v.(state := Closed, failures := 0, successes := 0)
    case HalfOpen => v.(state := HalfOpen, successes := 0)
    case Open => v.(state := Open)
  }

  function Step(c: Config, v: View, e: Event): View {
    match e
    case Allow(now) =>
      if v.state.Open? && now - v.lastFailure > c.timeout then TransitionTo(v, HalfOpen) else v
    case Success =>
      if v.state.HalfOpen? then
        var v' := v.(successes := v.successes + 1);
        if v'.successes >= c.successThreshold then TransitionTo(v', Closed) else v'
      else if v.state.Closed? then v.(failures := 0)
      else v
    case Failure(now) =>
      var v' := v.(failures := v.failures + 1, lastFailure := now);
      if v.state.Closed? && v'.failures >= c.failureThreshold then TransitionTo(v', Open)
      else if v.state.HalfOpen? then TransitionTo(v', Open)
      else v'
    case Reset => TransitionTo(v, Closed)
  }

  function Answer(c: Config, v: View, now: int): bool {
    !v.state.Open? || now - v.lastFailure > c.timeout
  }

  class Breaker {
    const config: Config
    var state: CircuitState
    var failures: nat
    var successes: nat
    var lastFailure: int

    ghost function Now(): View
      reads this
    {
      View(state, failures, successes, lastFailure)
    }

    constructor (config: Config)
      ensures this.config == config && Now() == FRESH
    {
      this.config := config;
      state, failures, successes, lastFailure := Closed, 0, 0, 0;
    }

    method MoveTo(newState: CircuitState)
      modifies this
      ensures Now() == TransitionTo(old(Now()), newState)
    {
      state := newState;
      if newState == Closed {
        failures := 0;
        successes := 0;
      } else if newState == HalfOpen {
        successes := 0;
      }
    }

    method Allow(now: int) returns (ok: bool)
      modifies this
      ensures ok == Answer(config, old(Now()), now)
      ensures Now() == Step(config, old(Now()), Event.Allow(now))
    {
      match state
      case Closed =>
        return true;
      case Open =>
        if now - lastFailure > config.timeout {
          MoveTo(HalfOpen);
          return true;
        }
        return false;
      case HalfOpen =>
        return true;
    }

    method RecordSuccess()
      modifies this
      ensures Now() == Step(config, old(Now()), Event.Success)
    {
      match state
      case HalfOpen =>
        successes := successes + 1;
        if successes >= config.successThreshold {
          MoveTo(Closed);
        }
      case Closed =>
        failures := 0;
      case Open =>
    }

    method RecordFailure(now: int)
      modifies this
      ensures Now() == Step(config, old(Now()), Event.Failure(now))
    {
      failures := failures + 1;
      lastFailure := now;
      match state
      case Closed =>
        if failures >= config.failureThreshold {
          MoveTo(Open);
        }
      case HalfOpen =>
        MoveTo(Open);
      case Open =>
    }

    method Reset()
      modifies this
      ensures Now() == Step(config, old(Now()), Event.Reset)
    {
      MoveTo(Closed);
    }
  }

  datatype Outcome = Refused | Succeeded | Errored

  const DEFAULT: Config := Config(5, 3, 30_000_000_000)

  class Manager {
    var breakers: map<string, Breaker>

    ghost predicate Valid()
      reads this
    {
      forall a, b | a in breakers && b in breakers && a != b :: breakers[a] != breakers[b]
    }

    /** What a name's breaker shows; a name never used has a fresh default one. */
    ghost function ViewOf(name: string): View
      reads this, breakers.Values
    {
      if name in breakers then breakers[name].Now() else FRESH
    }

    ghost function ConfigOf(name: string): Config
      reads this
    {
      if name in breakers then breakers[name].config else DEFAULT
    }

    constructor ()
      ensures Valid() && breakers == map[]
    {
      breakers := map[];
    }

    method Get(name: string) returns (cb: Breaker)
      requires Valid()
      modifies this
      ensures Valid() && name in breakers && breakers[name] == cb
      ensures name in old(breakers) ==> breakers == old(breakers)
      ensures name !in old(breakers) ==> fresh(cb) && breakers == old(breakers)[name := cb]
      ensures cb.Now() == old(ViewOf(name)) && cb.config == old(ConfigOf(name))
    {
      if name in breakers {
        return breakers[name];
      }
      cb := new Breaker(DEFAULT);
      breakers := breakers[name := cb];
    }

    /** Execute with a wrapped call that would succeed or fail as `fails` says, finishing at `done`. */
    method Execute(name: string, now: int, fails: bool, done: int) returns (r: Outcome)
      requires Valid()
      modifies this, breakers.Values
      ensures Valid()
      ensures var v := old(ViewOf(name)); var c := old(ConfigOf(name));
              if !Answer(c, v, now) then r == Refused && ViewOf(name) == v
              else
                && r == (if fails then Errored else Succeeded)
                && ViewOf(name) ==
                   Step(c, Step(c, v, Event.Allow(now)), if fails then Event.Failure(done) else Event.Success)
      ensures forall other | other != name ::
                ViewOf(other) == old(ViewOf(other)) && ConfigOf(other) == old(ConfigOf(other))
    {
      var cb := Get(name);
      var ok := cb.Allow(now);
      if !ok {
        return Refused;
      }
      if fails {
        cb.RecordFailure(done);
        r := Errored;
      } else {
        cb.RecordSuccess();
        r := Succeeded;
      }
    }
  }

  // ---------------------------------------------------------------- histories

  function After(c: Config, evs: seq<Event>): View {
    if evs == [] then FRESH else Step(c, After(c, evs[..|evs| - 1]), evs[|evs| - 1])
  }

  /** Failures recorded since the latest success or reset. */
  function TrailingFailures(evs: seq<Event>): nat {
    if evs == [] then 0
    else match evs[|evs| - 1]
      case Failure(_) => TrailingFailures(evs[..|evs| - 1]) + 1
      case Allow(_) => TrailingFailures(evs[..|evs| - 1])
      case _ => 0
  }

  /** Time of the latest recorded failure, if any since the latest reset. */
  function LastFailure(evs: seq<Event>): Option<int> {
    if evs == [] then None
    else match evs[|evs| - 1]
      case Failure(now) => Some(now)
      case Reset => None
      case _ => LastFailure(evs[..|evs| - 1])
  }

  /** Some(k): since the latest failure there was an Allow more than the timeout after it, and k
      successes since the first such Allow.  None: no such Allow. */
  function Probation(c: Config, evs: seq<Event>): Option<nat> {
    if evs == [] then None
    else
      var prefix := evs[..|evs| - 1];
      match evs[|evs| - 1]
      case Failure(_) => None
      case Reset => None
      case Success => if Probation(c, prefix).Some? then Some(Probation(c, prefix).value + 1) else None
      case Allow(now) =>
        if Probation(c, prefix).Some? then Probation(c, prefix)
        else if LastFailure(prefix).Some? && now - LastFailure(prefix).value > c.timeout then Some(0)
        else None
  }

  /** A run of max(FailureThreshold,1) failures was completed, and since then there was neither a reset
      nor the last of the successes that end a probation. */
  predicate Tripped(c: Config, evs: seq<Event>) {
    evs != [] &&
    var prefix := evs[..|evs| - 1];
    match evs[|evs| - 1]
    case Failure(_) => Tripped(c, prefix) || TrailingFailures(evs) >= Max(c.failureThreshold, 1)
    case Reset => false
    case Success => Tripped(c, prefix) && Probation(c, evs) != Some(Max(c.successThreshold, 1) as nat)
    case Allow(_) => Tripped(c, prefix)
  }

  /** Failures since the latest reset or success that did not fall while tripped. */
  function Counted(c: Config, evs: seq<Event>): nat {
    if evs == [] then 0
    else
      var prefix := evs[..|evs| - 1];
      match evs[|evs| - 1]
      case Failure(_) => Counted(c, prefix) + 1
      case Reset => 0
      case Success => if Tripped(c, evs) then Counted(c, prefix) else 0
      case Allow(_) => Counted(c, prefix)
  }

  ghost predicate Inv(c: Config, evs: seq<Event>) {
    var v := After(c, evs);
    && v.state == (if !Tripped(c, evs) then Closed else if Probation(c, evs).None? then Open else HalfOpen)
    && v.failures == Counted(c, evs)
    && match v.state
    case Closed => v.failures == TrailingFailures(evs) < Max(c.failureThreshold, 1)
    case Open =>
      && v.failures >= Max(c.failureThreshold, 1)
      && LastFailure(evs) == Some(v.lastFailure) && Probation(c, evs) == None
    case HalfOpen =>
      && v.failures >= Max(c.failureThreshold, 1)
      && LastFailure(evs) == Some(v.lastFailure) && Probation(c, evs) == Some(v.successes)
      && v.successes < Max(c.successThreshold, 1)
  }

  /** State and failure count are functions of the history, and so are the success count and the time
      of the latest failure wherever the code consults them. */
  lemma {:induction false} CountersAreHistory(c: Config, evs: seq<Event>)
    ensures Inv(c, evs)
    decreases |evs|
  {
    if evs != [] {
      CountersAreHistory(c, evs[..|evs| - 1]);
    }
  }

  lemma Prefix(evs: seq<Event>, e: Event)
    ensures (evs + [e])[..|evs + [e]| - 1] == evs && (evs + [e])[|evs + [e]| - 1] == e
  {
  }

  /** The breaker leaves Closed exactly on the failure that makes max(FailureThreshold,1) in a row. */
  lemma OpensExactly(c: Config, evs: seq<Event>, e: Event)
    requires After(c, evs).state.Closed?
    ensures !After(c, evs + [e]).state.Closed? <==> TrailingFailures(evs + [e]) == Max(c.failureThreshold, 1)
    ensures !After(c, evs + [e]).state.Closed? ==> After(c, evs + [e]).state.Open? && e.Failure?
  {
    Prefix(evs, e);
    CountersAreHistory(c, evs);
  }

  /** Without Reset the breaker closes exactly on the success that completes max(SuccessThreshold,1)
      successes, with no failure in between, after an Allow later than the timeout. */
  lemma ClosesExactly(c: Config, evs: seq<Event>, e: Event)
    requires !After(c, evs).state.Closed? && !e.Reset?
    ensures After(c, evs + [e]).state.Closed? <==> Probation(c, evs + [e]) == Some(Max(c.successThreshold, 1) as nat)
    ensures After(c, evs + [e]).state.Closed? ==> e.Success?
  {
    Prefix(evs, e);
    CountersAreHistory(c, evs);
  }

  /** Allow refuses exactly while Open and no later than the timeout after the latest failure,
      failures that arrived while Open included. */
  lemma {:induction false} RefusesExactly(c: Config, evs: seq<Event>, now: int)
    ensures !Answer(c, After(c, evs), now) <==>
            After(c, evs).state.Open? && LastFailure(evs).Some? && now - LastFailure(evs).value <= c.timeout
  {
    CountersAreHistory(c, evs);
  }

  lemma HalfOpenStaysOnce(c: Config, evs: seq<Event>, e: Event)
    requires After(c, evs).state.HalfOpen? && e.Allow?
    ensures After(c, evs + [e]) == After(c, evs)
  {
    Prefix(evs, e);
  }

  lemma {:induction false} HalfOpenStays(c: Config, evs: seq<Event>, allows: seq<Event>)
    requires After(c, evs).state.HalfOpen? && forall i | 0 <= i < |allows| :: allows[i].Allow?
    ensures After(c, evs + allows) == After(c, evs)
    decreases |allows|
  {
    hide After, Step;
    if allows == [] {
      assert evs + allows == evs;
    } else {
      var n := |allows| - 1;
      HalfOpenStays(c, evs, allows[..n]);
      HalfOpenStaysOnce(c, evs + allows[..n], allows[n]);
      assert evs + allows == (evs + allows[..n]) + [allows[n]];
    }
  }

  /** Half-open limits nothing: any number of Allow calls in a row are all admitted, and they leave
      the breaker as it was. */
  lemma HalfOpenAdmitsAll(c: Config, evs: seq<Event>, allows: seq<Event>)
    requires After(c, evs).state.HalfOpen? && forall i | 0 <= i < |allows| :: allows[i].Allow?
    ensures After(c, evs + allows) == After(c, evs)
    ensures forall i | 0 <= i < |allows| :: Answer(c, After(c, evs + allows[..i]), allows[i].now)
  {
    hide After, Step;
    HalfOpenStays(c, evs, allows);
    forall i | 0 <= i < |allows| ensures Answer(c, After(c, evs + allows[..i]), allows[i].now) {
      HalfOpenStays(c, evs, allows[..i]);
    }
  }

  /** Failures at these times, one after the other. */
  function Failing(times: seq<int>): seq<Event> {
    seq(|times|, i requires 0 <= i < |times| => Failure(times[i]))
  }

  lemma {:induction false} FailingHistory(c: Config, times: seq<int>)
    requires times != []
    ensures TrailingFailures(Failing(times)) == |times| && LastFailure(Failing(times)) == Some(times[|times| - 1])
    ensures Tripped(c, Failing(times)) <==> |times| >= Max(c.failureThreshold, 1)
    ensures Probation(c, Failing(times)) == None
    decreases |times|
  {
    var n := |times| - 1;
    assert Failing(times)[..n] == Failing(times[..n]) && Failing(times)[n] == Failure(times[n]);
    if n > 0 {
      FailingHistory(c, times[..n]);
    }
  }

  /** A name used for the first time is refused after five failures in a row, for thirty seconds after
      the latest of them. */
  lemma DefaultPolicy(times: seq<int>, now: int)
    requires times != []
    ensures !Answer(DEFAULT, After(DEFAULT, Failing(times)), now) <==>
            |times| >= 5 && now - times[|times| - 1] <= 30_000_000_000
  {
    FailingHistory(DEFAULT, times);
    CountersAreHistory(DEFAULT, Failing(times));
  }

  lemma SuccessCloses(c: Config, evs: seq<Event>, v: View)
    requires After(c, evs) == v && v.state.HalfOpen?
    ensures After(c, evs + [Success]).state
            == if v.successes + 1 >= c.successThreshold then Closed else HalfOpen
    ensures v.successes + 1 < c.successThreshold ==> After(c, evs + [Success]).successes == v.successes + 1
  {
    Prefix(evs, Success);
  }

  /** After the thirty seconds three successes close it again, two do not. */
  lemma DefaultRecovery(times: seq<int>, now: int)
    requires |times| >= 5 && now - times[|times| - 1] > 30_000_000_000
    ensures var evs := Failing(times) + [Allow(now)];
            && After(DEFAULT, evs).state.HalfOpen?
            && After(DEFAULT, evs + [Success] + [Success]).state.HalfOpen?
            && After(DEFAULT, evs + [Success] + [Success] + [Success]).state.Closed?
  {
    FailingHistory(DEFAULT, times);
    CountersAreHistory(DEFAULT, Failing(times));
    Prefix(Failing(times), Allow(now));
    var evs := Failing(times) + [Allow(now)];
    assert After(DEFAULT, evs).state.HalfOpen? && After(DEFAULT, evs).successes == 0;
    hide After, Step;
    SuccessCloses(DEFAULT, evs, After(DEFAULT, evs));
    SuccessCloses(DEFAULT, evs + [Success], After(DEFAULT, evs + [Success]));
    SuccessCloses(DEFAULT, evs + [Success] + [Success], After(DEFAULT, evs + [Success] + [Success]));
  }

  /** `later[i]` is an Allow more than the timeout after the latest failure before it, and up to
      `later[k]` it is followed by enough successes and no failure. */
  ghost predicate Recovers(c: Config, evs: seq<Event>, later: seq<Event>, i: nat, k: nat) {
    && i < k < |later| && later[i].Allow?
    && LastFailure(evs + later[..i]).Some?
    && later[i].now - LastFailure(evs + later[..i]).value > c.timeout
    && (forall m | i < m <= k :: !later[m].Failure?)
    && Successes(later[i..k + 1]) == Max(c.successThreshold, 1)
  }

  /** Nothing but Reset brings the breaker from Open back to Closed without such a recovery. */
  lemma {:induction false} RecoveryTakesAllowAndSuccesses(c: Config, evs: seq<Event>, later: seq<Event>)
    returns (i: nat, k: nat)
    requires After(c, evs).state.Open? && After(c, evs + later).state.Closed?
    requires Reset !in later
    ensures Recovers(c, evs, later, i, k)
    decreases |later|
  {
    hide After, Step, Probation, LastFailure, TrailingFailures, Successes;
    assert evs + [] == evs;
    var n := |later| - 1;
    var before := later[..n];
    assert evs + later == (evs + before) + [later[n]];
    Prefix(evs + before, later[n]);
    if After(c, evs + before).state.Closed? {
      i, k := RecoveryTakesAllowAndSuccesses(c, evs, before);
      assert before[..i] == later[..i] && before[i..k + 1] == later[i..k + 1];
    } else {
      assert later[n] in later;
      ClosesExactly(c, evs + before, later[n]);
      CountersAreHistory(c, evs);
      i := ProbationStart(c, evs, later);
      k := n;
      assert later[i..n + 1] == later[i..];
    }
  }

  function Successes(evs: seq<Event>): nat {
    if evs == [] then 0
    else Successes(evs[..|evs| - 1]) + if evs[|evs| - 1].Success? then 1 else 0
  }

  /** Finds the Allow that began the probation. */
  lemma {:induction false} ProbationStart(c: Config, evs: seq<Event>, later: seq<Event>) returns (i: nat)
    requires Probation(c, evs) == None && Probation(c, evs + later).Some?
    ensures i < |later| && later[i].Allow?
    ensures LastFailure(evs + later[..i]).Some? && later[i].now - LastFailure(evs + later[..i]).value > c.timeout
    ensures forall m | i < m < |later| :: !later[m].Failure?
    ensures Probation(c, evs + later) == Some(Successes(later[i..]))
    decreases |later|
  {
    assert evs + [] == evs;
    var n := |later| - 1;
    assert (evs + later)[..|evs + later| - 1] == evs + later[..n];
    if Probation(c, evs + later[..n]).Some? {
      i := ProbationStart(c, evs, later[..n]);
      assert later[..n][..i] == later[..i];
      assert later[i..][..|later[i..]| - 1] == later[..n][i..];
    } else {
      i := n;
      assert later[n..] == [later[n]];
      assert [later[n]][..0] == [];
    }
  }
}
