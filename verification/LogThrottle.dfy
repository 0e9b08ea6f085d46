/** The lock-free throttle of the untrusted-forwarding warning: any number of threads between
    reading the clock, loading the last instant and exchanging it. Clocks may go backwards, and a
    relaxed load may return any value the atomic has ever held. */
module LogThrottle {
  import opened Orders

  type ThreadId = nat

  const QUIET_SECONDS := 60

  /** `at` is the place in the modification order of the value loaded, or written. */
  datatype Phase =
    | Clocked(now: nat)
    | Loaded(now: nat, at: nat)
    | Won(at: nat)
    | Printed(at: nat)
    | Silent

  /** `history` is the modification order of the atomic, whose last element is its value;
      `owners[i]` wrote `history[i + 1]`. */
  datatype State = State(history: seq<nat>, owners: seq<ThreadId>, threads: map<ThreadId, Phase>)

  datatype Event =
    | Clock(t: ThreadId, now: nat)
    | Load(t: ThreadId, at: nat)
    | Exchange(t: ThreadId)
    | Print(t: ThreadId)

  const START := State([0], [], map[])

  function SaturatingSub(a: nat, b: nat): nat {
    if a >= b then a - b else 0
  }

  function Apply(s: State, event: Event): State {
    match event
    case Clock(t, now) => if t in s.threads then s else s.(threads := s.threads[t := Clocked(now)])
    case Load(t, at) =>
      if t !in s.threads || !s.threads[t].Clocked? || at >= |s.history| then s
      else
        var now := s.threads[t].now;
        s.(threads := s.threads[t :=
          if SaturatingSub(now, s.history[at]) < QUIET_SECONDS then Silent else Loaded(now, at)])
    case Exchange(t) =>
      if t !in s.threads || !s.threads[t].Loaded? || s.history == [] || s.threads[t].at >= |s.history| then s
      else
        var thread := s.threads[t];
        if s.history[thread.at] != s.history[|s.history| - 1] then s.(threads := s.threads[t := Silent])
        else State(s.history + [thread.now], s.owners + [t], s.threads[t := Won(|s.history|)])
    case Print(t) =>
      if t in s.threads && s.threads[t].Won? then s.(threads := s.threads[t := Printed(s.threads[t].at)]) else s
  }

  function Run(events: seq<Event>): State {
    if events == [] then START else Apply(Run(events[..|events| - 1]), events[|events| - 1])
  }

  // ---- the invariant -------------------------------------------------------------------

  predicate Gaps(history: seq<nat>) {
    forall i, j :: 0 <= i < j < |history| ==> history[j] >= history[i] + QUIET_SECONDS
  }

  predicate ThreadInv(s: State, t: ThreadId)
    requires t in s.threads && |s.owners| + 1 == |s.history|
  {
    match s.threads[t]
    case Loaded(now, at) => at < |s.history| && now >= s.history[at] + QUIET_SECONDS
    case Won(at) => 1 <= at < |s.history| && s.owners[at - 1] == t
    case Printed(at) => 1 <= at < |s.history| && s.owners[at - 1] == t
    case _ => true
  }

  predicate Inv(s: State) {
    && |s.owners| + 1 == |s.history| && Gaps(s.history)
    && forall t :: t in s.threads ==> ThreadInv(s, t)
  }

  /** A thread's step that writes nothing. */
  lemma ThreadKeeps(s: State, t: ThreadId, phase: Phase)
    requires Inv(s)
    requires match phase
             case Loaded(now, at) => at < |s.history| && now >= s.history[at] + QUIET_SECONDS
             case Won(_) => false
             case Printed(at) => t in s.threads && s.threads[t] == Won(at)
             case _ => true
    ensures Inv(s.(threads := s.threads[t := phase]))
  {
    var s' := s.(threads := s.threads[t := phase]);
    if t in s.threads { assert ThreadInv(s, t); }
    forall o | o in s'.threads ensures ThreadInv(s', o) {
      if o != t { assert ThreadInv(s, o); }
    }
  }

  lemma ExchangeKeeps(s: State, t: ThreadId)
    requires Inv(s) && t in s.threads && s.threads[t].Loaded?
    ensures Inv(Apply(s, Exchange(t)))
  {
    var s' := Apply(s, Exchange(t));
    assert ThreadInv(s, t);
    if s'.history == s.history {
      ThreadKeeps(s, t, Silent);
    } else {
      forall o | o in s'.threads ensures ThreadInv(s', o) {
        if o != t { assert ThreadInv(s, o); }
      }
    }
  }

  lemma ApplyKeeps(s: State, event: Event)
    requires Inv(s)
    ensures Inv(Apply(s, event))
  {
    match event
    case Clock(t, now) => ThreadKeeps(s, t, Clocked(now));
    case Load(t, at) => if Apply(s, event) != s { ThreadKeeps(s, t, Apply(s, event).threads[t]); }
    case Exchange(t) => if t in s.threads && s.threads[t].Loaded? { ExchangeKeeps(s, t); }
    case Print(t) => if t in s.threads && s.threads[t].Won? { ThreadKeeps(s, t, Printed(s.threads[t].at)); }
  }

  lemma {:induction false} RunKeeps(events: seq<Event>)
    ensures Inv(Run(events))
    decreases |events|
  {
    if events != [] {
      RunKeeps(events[..|events| - 1]);
      ApplyKeeps(Run(events[..|events| - 1]), events[|events| - 1]);
    }
  }

  // ---- the theorems --------------------------------------------------------------------

  /** In every interleaving, two threads that printed recorded instants at least a minute apart:
      no minute holds two lines. */
  lemma OneLineAMinute(events: seq<Event>, t: ThreadId, o: ThreadId)
    requires var s := Run(events);
      t in s.threads && o in s.threads && t != o && s.threads[t].Printed? && s.threads[o].Printed?
    ensures var s := Run(events); var a, b := s.threads[t].at, s.threads[o].at;
      && a < |s.history| && b < |s.history|
      && (s.history[a] >= s.history[b] + 60 || s.history[b] >= s.history[a] + 60)
  {
    RunKeeps(events);
    var s := Run(events);
    assert ThreadInv(s, t) && ThreadInv(s, o);
  }

  /** The atomic starts at the epoch, so the first line waits only for a clock past its first minute. */
  lemma {:induction false} FirstInstant(events: seq<Event>)
    ensures Run(events).history != [] && Run(events).history[0] == 0
    decreases |events|
  {
    if events != [] { FirstInstant(events[..|events| - 1]); }
  }

  /** The recorded instants strictly increase, a minute and more at a time. */
  lemma InstantsIncrease(events: seq<Event>, i: nat, j: nat)
    requires i < j < |Run(events).history|
    ensures Run(events).history[j] >= Run(events).history[i] + 60
  {
    RunKeeps(events);
  }

  /** No ABA: an exchange succeeds if and only if nothing has been written since the value it
      compares with was. */
  lemma ExchangeMeansUnchanged(events: seq<Event>, t: ThreadId)
    requires var s := Run(events); t in s.threads && s.threads[t].Loaded?
    ensures var s := Run(events); var s' := Apply(s, Exchange(t));
      && t in s'.threads
      && (s'.threads[t].Won? <==> s.threads[t].at == |s.history| - 1)
      && (s'.threads[t].Won? ==> s'.history == s.history + [s.threads[t].now])
      && (!s'.threads[t].Won? ==> s'.threads[t].Silent? && s'.history == s.history)
  {
    RunKeeps(events);
    assert ThreadInv(Run(events), t);
  }

  // ---- one thread ----------------------------------------------------------------------

  /** Clock, load of the latest value, exchange and print, with no one in between. */
  function NoteSteps(s: State, t: ThreadId, now: nat): State
    requires s.history != []
  {
    Apply(Apply(Apply(Apply(s, Clock(t, now)), Load(t, |s.history| - 1)), Exchange(t)), Print(t))
  }

  /** The interleaved steps of a thread, run alone: it prints exactly when a minute has passed. */
  lemma NoteAlone(s: State, t: ThreadId, now: nat)
    requires s.history != [] && t !in s.threads
    ensures var s', last := NoteSteps(s, t, now), s.history[|s.history| - 1];
      && t in s'.threads
      && (s'.threads[t].Printed? <==> now >= last + 60)
      && s'.history == if now >= last + 60 then s.history + [now] else s.history
  {
  }

  class Throttle {
    var lastLogged: nat

    constructor ()
      ensures lastLogged == 0
    {
      lastLogged := 0;
    }

    /** `clock` is absent before the epoch. Answers whether the line is logged. */
    method NoteUntrustedForwarding(clock: Option<nat>) returns (logged: bool)
      modifies this
      ensures logged <==> clock.Some? && clock.value >= old(lastLogged) + 60
      ensures lastLogged == if logged then clock.value else old(lastLogged)
    {
      if clock.None? {
        return false;
      }
      var last := lastLogged;
      if SaturatingSub(clock.value, last) < QUIET_SECONDS {
        return false;
      }
      lastLogged := clock.value;
      return true;
    }
  }
}
