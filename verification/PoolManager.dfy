/** The pool failover of PoolManager.cpp: the connection list, which entry is active, and how attempts rotate. */
module PoolManager {
  import opened CommonData
  import opened Prelude

  datatype Connection = Connection(uri: string, exit: bool, unrecoverable: bool)

  /** `exited` records that "exit" was reached and the process is going down. */
  datatype State = State(
    connections: seq<Connection>, active: nat, attempt: nat, switches: nat,
    running: bool, stopping: bool, pending: bool, connected: bool, exited: bool)

  datatype Error = Outstanding | OutOfBounds | ActiveConnection

  datatype Result = Ok(state: State) | Err(error: Error)

  /** What a rotation comes to. */
  datatype Outcome = Connected | Attempt(connection: Connection) | Exit | NoConnections

  function Increment(n: nat): nat {
    (n + 1) % TWO_32
  }

  // What the operations mean

  function Without(list: seq<Connection>, idx: nat): seq<Connection>
    requires idx < |list|
  {
    list[..idx] + list[idx + 1..]
  }

  function Remove(s: State, idx: nat): Result {
    if s.pending then Err(Outstanding)
    else if idx >= |s.connections| then Err(OutOfBounds)
    else if idx == s.active then Err(ActiveConnection)
    else Ok(s.(connections := Without(s.connections, idx), active := if idx < s.active then s.active - 1 else s.active))
  }

  function SetActive(s: State, idx: nat): Result {
    if idx >= |s.connections| then Err(OutOfBounds)
    else if s.pending then Err(Outstanding)
    else if idx == s.active then Ok(s)
    else Ok(s.(active := idx, attempt := 0, switches := Increment(s.switches), pending := true))
  }

  /** The next position, cyclically. */
  function Successor(i: nat, n: nat): nat {
    if i + 1 >= n then 0 else i + 1
  }

  /** The list and the entry that a rotation settles on; an empty list means there is none. */
  datatype Choice = Choice(list: seq<Connection>, target: nat, attempt: nat, switched: bool)

  function Choose(list: seq<Connection>, active: nat, attempt: nat, retries: nat): (c: Choice)
    requires active < |list|
    ensures c.list == [] || c.target < |c.list|
  {
    var spent := retries != 0 && attempt >= retries;
    if list[active].unrecoverable then
      Choice(Without(list, active), if active == |list| - 1 then 0 else active, 0, true)
    else if spent && |list| == 1 then
      Choice([], active, attempt, false)
    else if spent then
      Choice(list, Successor(active, |list|), 0, true)
    else
      Choice(list, active, attempt, false)
  }

  function Rotate(s: State, retries: nat): (State, Outcome) {
    if s.connected then (s, Connected)
    else if s.connections == [] then (s.(active := 0), NoConnections)
    else
      var c := Choose(s.connections, if s.active < |s.connections| then s.active else 0, s.attempt, retries);
      var t := s.(connections := c.list, active := c.target, attempt := c.attempt,
                  switches := if c.switched then Increment(s.switches) else s.switches);
      if c.list == [] || c.list[c.target].exit then (t.(running := false, exited := true), Exit)
      else (t.(attempt := Increment(c.attempt)), Attempt(c.list[c.target]))
  }

  function Failover(s: State): State {
    if s.running && s.active != 0 then s.(active := 0, attempt := 0, switches := Increment(s.switches)) else s
  }

  function OnConnected(s: State): State {
    s.(attempt := 0, pending := false, connected := true)
  }

  function OnDisconnected(s: State): State {
    if s.stopping then s.(connected := false, running := false) else s.(connected := false, pending := true)
  }

  // The class

  class Manager {
    const retries: nat
    var connections: seq<Connection>
    var active: nat
    var attempt: nat
    var switches: nat
    var running: bool
    var stopping: bool
    var pending: bool
    var connected: bool
    var exited: bool

    function View(): State
      reads this
    {
      State(connections, active, attempt, switches, running, stopping, pending, connected, exited)
    }

    constructor (connections: seq<Connection>, retries: nat)
      ensures View() == State(connections, 0, 0, 0, false, false, false, false, false) && this.retries == retries
    {
      this.connections, this.retries := connections, retries;
      active, attempt, switches := 0, 0, 0;
      running, stopping, pending, connected, exited := false, false, false, false, false;
    }

    method AddConnection(c: Connection)
      modifies this
      ensures View() == old(View()).(connections := old(connections) + [c])
    {
      connections := connections + [c];
    }

    method RemoveConnection(idx: nat) returns (r: Result)
      modifies this
      ensures r == Remove(old(View()), idx)
      ensures View() == if r.Ok? then r.state else old(View())
    {
      if pending {
        return Err(Outstanding);
      }
      if idx >= |connections| {
        return Err(OutOfBounds);
      }
      if idx == active {
        return Err(ActiveConnection);
      }
      connections := connections[..idx] + connections[idx + 1..];
      if active > idx {
        active := active - 1;
      }
      return Ok(View());
    }

    method SetActiveConnection(idx: nat) returns (r: Result)
      modifies this
      ensures r == SetActive(old(View()), idx)
      ensures View() == if r.Ok? then r.state else old(View())
    {
      if idx >= |connections| {
        return Err(OutOfBounds);
      }
      if pending {
        return Err(Outstanding);
      }
      pending := true;
      if idx != active {
        switches := Increment(switches);
        active := idx;
        attempt := 0;
      } else {
        pending := false;
      }
      return Ok(View());
    }

    method Start()
      modifies this
      ensures View() == old(View()).(running := true, pending := true, switches := Increment(old(switches)))
    {
      running := true;
      pending := true;
      switches := Increment(switches);
    }

    /** The first half of a rotation: which entry is to be tried. */
    method Settle()
      requires active < |connections|
      modifies this
      ensures var was := old(View());
              var c := Choose(was.connections, was.active, was.attempt, retries);
              View() == was.(connections := c.list, active := c.target, attempt := c.attempt,
                             switches := if c.switched then Increment(was.switches) else was.switches)
    {
      hide Increment;
      if connections[active].unrecoverable {
        connections := connections[..active] + connections[active + 1..];
        attempt := 0;
        if active >= |connections| {
          active := 0;
        }
        switches := Increment(switches);
      } else if |connections| == 1 {
        if retries != 0 && attempt >= retries {
          connections := connections[..active] + connections[active + 1..];
        }
      }
      if connections != [] && retries != 0 && attempt >= retries {
        attempt := 0;
        active := active + 1;
        if active >= |connections| {
          active := 0;
        }
        switches := Increment(switches);
      }
    }

    method RotateConnect() returns (outcome: Outcome)
      modifies this
      ensures (View(), outcome) == Rotate(old(View()), retries)
    {
      hide Increment;
      if connected {
        return Connected;
      }
      if active >= |connections| {
        active := 0;
      }
      if connections == [] {
        return NoConnections;
      }
      Settle();
      if connections != [] && !connections[active].exit {
        attempt := Increment(attempt);
        return Attempt(connections[active]);
      }
      running := false;
      exited := true;
      return Exit;
    }

    method FailoverTimerElapsed()
      modifies this
      ensures View() == Failover(old(View()))
    {
      if running {
        if active != 0 {
          active := 0;
          attempt := 0;
          switches := Increment(switches);
        }
      }
    }

    method HandleConnected()
      modifies this
      ensures View() == OnConnected(old(View()))
    {
      attempt := 0;
      connected := true;
      pending := false;
    }

    method HandleDisconnected()
      modifies this
      ensures View() == OnDisconnected(old(View()))
    {
      connected := false;
      if stopping {
        running := false;
      } else {
        pending := true;
      }
    }
  }

  // Any mix of operations

  datatype Step =
    | AddEntry(connection: Connection)
    | RemoveEntry(idx: nat)
    | Activate(idx: nat)
    | StartUp                               // start(), which nobody calls once the process is going down
    | StopRequest
    | Rotation
    | FailoverTimer
    | ClientConnected
    | ClientDisconnected
    | MarkUnrecoverable(idx: nat)           // the stratum client gives up on a connection

  function Next(s: State, step: Step, retries: nat): State {
    match step
    case AddEntry(c) => s.(connections := s.connections + [c])
    case RemoveEntry(i) => var r := Remove(s, i); if r.Ok? then r.state else s
    case Activate(i) => var r := SetActive(s, i); if r.Ok? then r.state else s
    case StartUp => if s.exited then s else s.(running := true, pending := true, switches := Increment(s.switches))
    case StopRequest => if s.running then s.(pending := true, stopping := true) else s
    case Rotation => Rotate(s, retries).0
    case FailoverTimer => Failover(s)
    case ClientConnected => OnConnected(s)
    case ClientDisconnected => OnDisconnected(s)
    case MarkUnrecoverable(i) =>
      if i < |s.connections| then s.(connections := s.connections[i := s.connections[i].(unrecoverable := true)]) else s
  }

  function Run(s: State, steps: seq<Step>, retries: nat): State
    decreases |steps|
  {
    if steps == [] then s else Run(Next(s, steps[0], retries), steps[1..], retries)
  }

  function Init(list: seq<Connection>): State {
    State(list, 0, 0, 0, false, false, false, false, false)
  }

  predicate InBounds(s: State) {
    if s.exited then !s.running else s.active < |s.connections|
  }

  lemma InBoundsStep(s: State, step: Step, retries: nat)
    requires InBounds(s)
    ensures InBounds(Next(s, step, retries))
  {
    hide Increment;
  }

  lemma {:induction false} InBoundsRun(s: State, steps: seq<Step>, retries: nat)
    requires InBounds(s)
    ensures InBounds(Run(s, steps, retries))
    decreases |steps|
  {
    hide Next, InBounds;
    if steps == [] {
    } else {
      InBoundsStep(s, steps[0], retries);
      InBoundsRun(Next(s, steps[0], retries), steps[1..], retries);
    }
  }

  /** From a non-empty list, under any mix of operations: while running the active index is in bounds, and no rotation
      finds the list empty. */
  lemma AlwaysInBounds(list: seq<Connection>, steps: seq<Step>, retries: nat)
    requires list != []
    ensures var s := Run(Init(list), steps, retries);
            s.running ==> s.active < |s.connections| && Rotate(s, retries).1 != NoConnections
  {
    InBoundsRun(Init(list), steps, retries);
  }

  /** Removing an entry removes that entry only, and the same connection stays active. */
  lemma RemoveKeepsActive(s: State, idx: nat)
    requires s.active < |s.connections| && Remove(s, idx).Ok?
    ensures var t := Remove(s, idx).state;
            && t.active < |t.connections| && t.connections[t.active] == s.connections[s.active]
            && |t.connections| == |s.connections| - 1
            && (forall j :: 0 <= j < |s.connections| && j != idx ==>
                  s.connections[j] == t.connections[if j < idx then j else j - 1])
            && t == s.(connections := t.connections, active := t.active)
  {
  }

  // Every attempt fails

  /** The state after k rounds of a lost connection and a rotation. */
  function Fail(s: State, retries: nat, k: nat): State {
    if k == 0 then s else Rotate(OnDisconnected(Fail(s, retries, k - 1)), retries).0
  }

  /** What the k-th of those rotations came to. */
  function OutcomeOf(s: State, retries: nat, k: nat): Outcome
    requires k > 0
  {
    Rotate(OnDisconnected(Fail(s, retries, k - 1)), retries).1
  }

  predicate Sound(list: seq<Connection>) {
    forall i :: 0 <= i < |list| ==> !list[i].unrecoverable && !list[i].exit
  }

  lemma NextQuotient(m: nat, d: nat)
    requires d > 0
    ensures if m % d == d - 1 then (m + 1) / d == m / d + 1 && (m + 1) % d == 0
            else (m + 1) / d == m / d && (m + 1) % d == m % d + 1
  {
    var q, r := m / d, m % d;
    Distribute(d, q, 1);
    if r == d - 1 {
      Division(m + 1, q + 1, 0, d);
    } else {
      Division(m + 1, q, r + 1, d);
    }
  }

  lemma Division(x: nat, q: nat, r: nat, d: nat)
    requires r < d && x == d * q + r
    ensures x / d == q && x % d == r
  {
    SameDigit(d, x / d, x % d, q, r);
  }

  lemma NextPosition(m: nat, n: nat)
    requires n > 0
    ensures (m + 1) % n == Successor(m % n, n)
  {
    NextQuotient(m, n);
  }

  /** Where attempt number m goes, and the how-manieth in a row it is there. */
  function Position(active: nat, m: nat, retries: nat, n: nat): nat
    requires retries > 0 && n > 0
  {
    (active + m / retries) % n
  }

  function Turn(m: nat, retries: nat): nat
    requires retries > 0
  {
    m % retries + 1
  }

  lemma FirstPosition(active: nat, m: nat, retries: nat, n: nat)
    requires active < n && 0 < retries && m <= retries
    ensures Position(active, m, retries, n) == if m == retries then Successor(active, n) else active
    ensures Turn(m, retries) == if m == retries then 1 else m + 1
  {
    Remainder(0, n, active);
    if m == retries {
      Remainder(1, retries, 0);
      NextPosition(active, n);
    } else {
      Remainder(0, retries, m);
    }
  }

  lemma FollowingPosition(active: nat, m: nat, retries: nat, n: nat)
    requires n > 0 && retries > 0
    ensures Turn(m, retries) <= retries
    ensures var here := Position(active, m, retries, n);
            Position(active, m + 1, retries, n) == if Turn(m, retries) == retries then Successor(here, n) else here
    ensures Turn(m + 1, retries) == if Turn(m, retries) == retries then 1 else Turn(m, retries) + 1
  {
    NextQuotient(m, retries);
    NextPosition(active + m / retries, n);
  }

  /** One failing round among sound connections. */
  lemma OneRound(s: State, retries: nat)
    requires Sound(s.connections) && |s.connections| >= 2 && s.active < |s.connections| && !s.stopping
    requires 0 < retries < TWO_32 && s.attempt <= retries
    ensures var t := Rotate(OnDisconnected(s), retries);
            && t.0.connections == s.connections && !t.0.stopping
            && t.0.active == (if s.attempt == retries then Successor(s.active, |s.connections|) else s.active)
            && t.0.attempt == (if s.attempt == retries then 1 else s.attempt + 1)
            && t.1 == Attempt(s.connections[t.0.active])
  {
  }

  /** With a limit of R > 0 retries and every attempt failing, attempt number k, counted over all connections from the
      first one on the active connection, goes to the (k / R)-th connection after it, cyclically: exactly R attempts
      in a row for each. */
  lemma {:induction false} Cycle(s: State, retries: nat, k: nat)
    requires Sound(s.connections) && |s.connections| >= 2 && s.active < |s.connections| && !s.stopping
    requires 0 < retries < TWO_32 && s.attempt <= retries && k > 0
    ensures var t := Fail(s, retries, k);
            var number := s.attempt + k - 1;
            && t.connections == s.connections && !t.stopping
            && t.active == Position(s.active, number, retries, |s.connections|) < |s.connections|
            && t.attempt == Turn(number, retries)
            && OutcomeOf(s, retries, k) == Attempt(s.connections[t.active])
    decreases k
  {
    hide Rotate, OnDisconnected, Position, Turn;
    var n := |s.connections|;
    if k == 1 {
      OneRound(s, retries);
      assert Fail(s, retries, 0) == s;
      FirstPosition(s.active, s.attempt, retries, n);
    } else {
      var number := s.attempt + k - 2;
      Cycle(s, retries, k - 1);
      FollowingPosition(s.active, number, retries, n);
      OneRound(Fail(s, retries, k - 1), retries);
    }
  }

  lemma OneRoundAlone(s: State, retries: nat)
    requires Sound(s.connections) && |s.connections| == 1 && s.active == 0 && !s.stopping
    requires 0 < retries < TWO_32 && s.attempt <= retries
    ensures var t := Rotate(OnDisconnected(s), retries);
            if s.attempt == retries then t.0.connections == [] && !t.0.running && t.0.exited && t.1 == Exit
            else t.0.connections == s.connections && t.0.active == 0 && t.0.attempt == s.attempt + 1 && !t.0.stopping
                 && t.1 == Attempt(s.connections[0])
  {
  }

  /** A single connection is tried exactly R times, then the program exits. */
  lemma {:induction false} SingleConnection(s: State, retries: nat, k: nat)
    requires Sound(s.connections) && |s.connections| == 1 && s.active == 0 && !s.stopping && s.attempt == 0
    requires 0 < retries < TWO_32 && 0 < k <= retries + 1
    ensures var t := Fail(s, retries, k);
            if k <= retries then
              t.connections == s.connections && t.active == 0 && t.attempt == k && !t.stopping
              && OutcomeOf(s, retries, k) == Attempt(s.connections[0])
            else
              t.connections == [] && !t.running && t.exited && OutcomeOf(s, retries, k) == Exit
    decreases k
  {
    hide Rotate, OnDisconnected;
    if k > 1 {
      SingleConnection(s, retries, k - 1);
    } else {
      assert Fail(s, retries, 0) == s;
    }
    OneRoundAlone(Fail(s, retries, k - 1), retries);
  }

  /** Without a limit the active connection is tried for ever. */
  lemma {:induction false} NoLimit(s: State, k: nat)
    requires Sound(s.connections) && s.active < |s.connections| && !s.stopping && k > 0
    ensures var t := Fail(s, 0, k);
            && t.connections == s.connections && t.active == s.active && !t.stopping
            && OutcomeOf(s, 0, k) == Attempt(s.connections[s.active])
    decreases k
  {
    if k > 1 {
      NoLimit(s, k - 1);
    } else {
      assert Fail(s, 0, 0) == s;
    }
  }

  /** An unrecoverable connection is dropped; its successor is tried next, for the first time, and no other entry is
      lost. */
  lemma UnrecoverableDropped(s: State, retries: nat)
    requires s.active < |s.connections| && s.connections[s.active].unrecoverable && !s.stopping
    ensures var t := Rotate(OnDisconnected(s), retries);
            var n := |s.connections|;
            && t.0.connections == s.connections[..s.active] + s.connections[s.active + 1..]
            && (n == 1 ==> t.1 == Exit)
            && (n > 1 ==> var next := s.connections[Successor(s.active, n)];
                          && t.0.connections[t.0.active] == next
                          && t.1 == (if next.exit then Exit else Attempt(next))
                          && (!next.exit ==> t.0.attempt == 1))
  {
  }

  // After the operations

  /** A switch by hand: no further edit is accepted meanwhile, and when the old connection is gone, the chosen one is
      tried next, for the first time. */
  lemma SwitchIsTried(s: State, idx: nat, retries: nat)
    requires SetActive(s, idx).Ok? && idx != s.active && !s.stopping
    ensures forall j :: Remove(SetActive(s, idx).state, j) == Err(Outstanding)
    requires !s.connections[idx].unrecoverable && !s.connections[idx].exit
    ensures var t := Rotate(OnDisconnected(SetActive(s, idx).state), retries);
            && t.1 == Attempt(s.connections[idx]) && t.0.active == idx && t.0.attempt == 1
            && t.0.connections == s.connections
  {
  }

  /** Failover by the timer: back to the primary connection, for the first time. */
  lemma PrimaryIsTried(s: State, retries: nat)
    requires s.running && 0 < s.active < |s.connections| && !s.stopping
    requires !s.connections[0].unrecoverable && !s.connections[0].exit
    ensures var t := Rotate(OnDisconnected(Failover(s)), retries);
            t.1 == Attempt(s.connections[0]) && t.0.active == 0 && t.0.attempt == 1 && t.0.connections == s.connections
  {
  }

  /** A connection that was established and is lost is tried R more times before the next one is. */
  lemma LostIsRetried(s: State, retries: nat, k: nat)
    requires Sound(s.connections) && |s.connections| >= 2 && s.active < |s.connections| && !s.stopping
    requires 0 < k <= retries < TWO_32
    ensures OutcomeOf(OnConnected(s), retries, k) == Attempt(s.connections[s.active])
    ensures OutcomeOf(OnConnected(s), retries, retries + 1)
         == Attempt(s.connections[Successor(s.active, |s.connections|)])
  {
    hide Position, Turn, Rotate, OnDisconnected, Fail, OutcomeOf;
    var t := OnConnected(s);
    Cycle(t, retries, k);
    Cycle(t, retries, retries + 1);
    FirstPosition(s.active, k - 1, retries, |s.connections|);
    FirstPosition(s.active, retries, retries, |s.connections|);
  }

  // Edits

  /** Nothing is outstanding only while a connection stands. */
  predicate Settled(s: State) {
    s.running && !s.pending ==> s.connected
  }

  lemma SettledStep(s: State, step: Step, retries: nat)
    requires Settled(s)
    ensures Settled(Next(s, step, retries))
  {
    hide Increment, Choose;
  }

  lemma {:induction false} SettledRun(s: State, steps: seq<Step>, retries: nat)
    requires Settled(s)
    ensures Settled(Run(s, steps, retries))
    decreases |steps|
  {
    hide Next, Settled;
    if steps == [] {
    } else {
      SettledStep(s, steps[0], retries);
      SettledRun(Next(s, steps[0], retries), steps[1..], retries);
    }
  }

  /** In every run, while running, entries are removed or made active by hand only while connected: no edit meets a
      rotation under way. Once connected again, edits are accepted. */
  lemma EditsWhileConnected(list: seq<Connection>, steps: seq<Step>, retries: nat, idx: nat)
    ensures var s := Run(Init(list), steps, retries);
            && (s.running && (Remove(s, idx).Ok? || SetActive(s, idx).Ok?) ==> s.connected)
            && Remove(OnConnected(s), idx) != Err(Outstanding) && SetActive(OnConnected(s), idx) != Err(Outstanding)
            && (idx >= |s.connections| ==> SetActive(s, idx) == Err(OutOfBounds))
            && (!s.stopping ==> Remove(OnDisconnected(s), idx) == Err(Outstanding))
  {
    SettledRun(Init(list), steps, retries);
  }

  /** The switch counter goes up by one exactly when a switch by hand, the failover timer or a rotation turns to another
      entry or drops one and goes on. */
  lemma SwitchesCounted(s: State, step: Step, retries: nat)
    requires s.active < |s.connections| && (step.Activate? || step.FailoverTimer? || step.Rotation?)
    ensures var t := Next(s, step, retries);
            t.connections != [] ==>
              var turned := t.active != s.active || t.connections != s.connections;
              t.switches == if turned then Increment(s.switches) else s.switches
  {
    hide Increment;
  }

  /** Rotations that were posted too late leave a standing connection alone. */
  lemma {:induction false} RotationSpares(s: State, steps: seq<Step>, retries: nat)
    requires s.connected && forall i :: 0 <= i < |steps| ==> steps[i] == Rotation
    ensures Run(s, steps, retries) == s
    decreases |steps|
  {
    if steps == [] {
    } else {
      RotationSpares(s, steps[1..], retries);
    }
  }

  /** A stop that was requested takes effect when the connection is gone, and nothing is tried any more. */
  lemma StopTakesEffect(s: State, retries: nat)
    requires s.running
    ensures var t := Next(Next(s, StopRequest, retries), ClientDisconnected, retries);
            !t.running && !t.connected && t.connections == s.connections && t.active == s.active
  {
  }
}
