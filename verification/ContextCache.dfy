/** The process-wide epoch context and its per-thread copies (managed.cpp), as a state machine over every interleaving
    of any number of threads. The light and the full variant run the same code, so one machine stands for both. */
module ContextCache {
  import opened Prelude

  /** A context with its number of shared pointers. */
  datatype Context = Context(epoch: int, count: nat)

  /** Where a thread is in the lookup. */
  datatype Pc =
    | Idle                                  // outside the lookup
    | Waiting(epoch: int)                   // local pointer released, about to lock
    | Inspecting(epoch: int)                // holds the mutex, about to look at the shared context
    | Building(epoch: int)                  // the obsolete shared pointer is released
    | Taking(epoch: int)                    // about to copy the shared pointer and unlock

  /** `local` is the thread's own pointer, `asked` the epoch of its last finished lookup; `failed` records that its last
      lookup, or the one under way, tried to build a context and ran out of memory. */
  datatype Thread = Thread(pc: Pc, local: Option<nat>, asked: Option<int>, failed: bool)

  datatype Cache = Cache(shared: Option<nat>, heap: map<nat, Context>, threads: map<nat, Thread>,
                         owner: Option<nat>, nextId: nat)

  datatype Step =
    | Spawn(t: nat)
    | Call(t: nat, epoch: int)
    | Lock(t: nat)
    | Inspect(t: nat)
    | Create(t: nat, ok: bool)              // not ok: the allocation failed
    | Take(t: nat)
    | Exit(t: nat)                          // the thread ends and drops its pointer

  function Init(): Cache {
    Cache(None, map[], map[], None, 0)
  }

  // Shared pointers

  /** One pointer fewer; the last one frees the context. */
  function Drop(heap: map<nat, Context>, p: Option<nat>): map<nat, Context> {
    if p.None? || p.value !in heap then heap
    else if heap[p.value].count <= 1 then heap - {p.value}
    else heap[p.value := heap[p.value].(count := heap[p.value].count - 1)]
  }

  /** One pointer more. */
  function Copy(heap: map<nat, Context>, p: Option<nat>): map<nat, Context> {
    if p.None? || p.value !in heap then heap
    else heap[p.value := heap[p.value].(count := heap[p.value].count + 1)]
  }

  /** The pointer leads to a context for this epoch. */
  predicate Matches(heap: map<nat, Context>, p: Option<nat>, epoch: int) {
    p.Some? && p.value in heap && heap[p.value].epoch == epoch
  }

  // The steps

  function Next(c: Cache, s: Step): Cache {
    match s
    case Spawn(t) =>
      if t in c.threads then c else c.(threads := c.threads[t := Thread(Idle, None, None, false)])
    case Call(t, e) =>
      if t !in c.threads || !c.threads[t].pc.Idle? then c
      else if Matches(c.heap, c.threads[t].local, e) then
        c.(threads := c.threads[t := c.threads[t].(asked := Some(e), failed := false)])
      else c.(heap := Drop(c.heap, c.threads[t].local), threads := c.threads[t := Thread(Waiting(e), None, None, false)])
    case Lock(t) =>
      if t !in c.threads || !c.threads[t].pc.Waiting? || c.owner.Some? then c
      else c.(owner := Some(t), threads := c.threads[t := c.threads[t].(pc := Inspecting(c.threads[t].pc.epoch))])
    case Inspect(t) =>
      if t !in c.threads || !c.threads[t].pc.Inspecting? then c else
      var e := c.threads[t].pc.epoch;
      if Matches(c.heap, c.shared, e) then c.(threads := c.threads[t := c.threads[t].(pc := Taking(e))])
      else c.(shared := None, heap := Drop(c.heap, c.shared),
              threads := c.threads[t := c.threads[t].(pc := Building(e))])
    case Create(t, ok) =>
      if t !in c.threads || !c.threads[t].pc.Building? then c else
      var e := c.threads[t].pc.epoch;
      var threads := c.threads[t := c.threads[t].(pc := Taking(e), failed := !ok)];
      if ok then c.(shared := Some(c.nextId), heap := c.heap[c.nextId := Context(e, 1)],
                    threads := threads, nextId := c.nextId + 1)
      else c.(threads := threads)
    case Take(t) =>
      if t !in c.threads || !c.threads[t].pc.Taking? then c
      else c.(heap := Copy(c.heap, c.shared), owner := None,
              threads := c.threads[t := Thread(Idle, c.shared, Some(c.threads[t].pc.epoch), c.threads[t].failed)])
    case Exit(t) =>
      if t !in c.threads || !c.threads[t].pc.Idle? then c
      else c.(heap := Drop(c.heap, c.threads[t].local), threads := c.threads - {t})
  }

  function Run(c: Cache, steps: seq<Step>): Cache
    decreases |steps|
  {
    if steps == [] then c else Run(Next(c, steps[0]), steps[1..])
  }

  // What every reachable state satisfies

  /** The threads whose own pointer is this context. */
  function Holders(threads: map<nat, Thread>, id: nat): set<nat> {
    set t | t in threads && threads[t].local == Some(id)
  }

  function References(c: Cache, id: nat): nat {
    |Holders(c.threads, id)| + (if c.shared == Some(id) then 1 else 0)
  }

  /** Every pointer leads to a live context. */
  predicate Closed(c: Cache) {
    && (c.shared.Some? ==> c.shared.value in c.heap)
    && (forall t :: t in c.threads && c.threads[t].local.Some? ==> c.threads[t].local.value in c.heap)
    && (forall id :: id in c.heap ==> id < c.nextId)
  }

  /** Every count is the number of pointers, and no unreferenced context is alive. */
  predicate Counted(c: Cache) {
    forall id :: id in c.heap ==> c.heap[id].count == References(c, id) && References(c, id) > 0
  }

  /** Only the owner of the mutex is inside, and the shared pointer is as it left it. */
  predicate Exclusive(c: Cache) {
    && (c.owner.Some? ==> c.owner.value in c.threads)
    && (forall t :: t in c.threads ==>
          (c.owner == Some(t) <==> c.threads[t].pc.Inspecting? || c.threads[t].pc.Building? || c.threads[t].pc.Taking?))
    && (forall t :: t in c.threads && c.threads[t].pc.Building? ==> c.shared.None?)
    && (forall t :: t in c.threads && c.threads[t].pc.Taking? && c.shared.Some? ==>
          Matches(c.heap, c.shared, c.threads[t].pc.epoch))
  }

  /** A finished lookup left no context exactly when its own attempt to build one failed. */
  predicate Excused(c: Cache) {
    forall t :: t in c.threads ==>
      && (c.threads[t].pc.Idle? && c.threads[t].asked.Some? ==> (c.threads[t].local.None? <==> c.threads[t].failed))
      && (c.threads[t].pc.Taking? ==> (c.shared.None? <==> c.threads[t].failed))
      && (c.threads[t].failed ==> c.threads[t].pc.Idle? || c.threads[t].pc.Taking?)
  }

  /** What a finished lookup left is a context for the epoch it asked for. */
  predicate Answered(c: Cache) {
    forall t :: t in c.threads ==>
      && (!c.threads[t].pc.Idle? ==> c.threads[t].local.None?)
      && (c.threads[t].local.Some? ==>
            c.threads[t].asked.Some? && Matches(c.heap, c.threads[t].local, c.threads[t].asked.value))
  }

  predicate Inv(c: Cache) {
    Closed(c) && Counted(c) && Exclusive(c) && Answered(c) && Excused(c)
  }

  // One step

  lemma HoldersUpdate(threads: map<nat, Thread>, t: nat, info: Thread, id: nat)
    ensures Holders(threads[t := info], id)
         == if info.local == Some(id) then Holders(threads, id) + {t} else Holders(threads, id) - {t}
    ensures |Holders(threads[t := info], id)|
         == |Holders(threads, id)|
            + (if info.local == Some(id) then 1 else 0)
            - (if t in threads && threads[t].local == Some(id) then 1 else 0)
  {
  }

  lemma HoldersRemove(threads: map<nat, Thread>, t: nat, id: nat)
    requires t in threads
    ensures Holders(threads - {t}, id) == Holders(threads, id) - {t}
    ensures |Holders(threads - {t}, id)|
         == |Holders(threads, id)| - (if threads[t].local == Some(id) then 1 else 0)
  {
  }

  lemma NoHolders(c: Cache, id: nat)
    requires Closed(c) && id !in c.heap
    ensures References(c, id) == 0
  {
    assert Holders(c.threads, id) == {};
  }

  lemma Referenced(c: Cache, id: nat)
    requires c.shared == Some(id) || exists t :: t in c.threads && c.threads[t].local == Some(id)
    ensures References(c, id) > 0
  {
    if c.shared != Some(id) {
      var t :| t in c.threads && c.threads[t].local == Some(id);
      assert t in Holders(c.threads, id);
    }
  }

  /** What a step did to one context: it is alive exactly while it is referenced, with the right count, for the
      same epoch. */
  predicate Kept(c: Cache, d: Cache, id: nat)
    requires id in c.heap
  {
    if References(d, id) == 0 then id !in d.heap
    else id in d.heap && d.heap[id] == Context(c.heap[id].epoch, References(d, id))
  }

  lemma KeptByCall(c: Cache, t: nat, e: int, id: nat)
    requires Closed(c) && Counted(c) && id in c.heap
    ensures Kept(c, Next(c, Call(t, e)), id)
  {
    hide Holders;
    if t in c.threads {
      HoldersUpdate(c.threads, t, c.threads[t].(asked := Some(e), failed := false), id);
      HoldersUpdate(c.threads, t, Thread(Waiting(e), None, None, false), id);
    }
  }

  lemma KeptByExit(c: Cache, t: nat, id: nat)
    requires Closed(c) && Counted(c) && id in c.heap
    ensures Kept(c, Next(c, Exit(t)), id)
  {
    hide Holders;
    if t in c.threads {
      HoldersRemove(c.threads, t, id);
    }
  }

  lemma KeptByInspect(c: Cache, t: nat, id: nat)
    requires Closed(c) && Counted(c) && id in c.heap
    ensures Kept(c, Next(c, Inspect(t)), id)
  {
    hide Holders;
    var d := Next(c, Inspect(t));
    if d != c {
      HoldersUpdate(c.threads, t, d.threads[t], id);
    }
  }

  lemma KeptByTake(c: Cache, t: nat, id: nat)
    requires Closed(c) && Counted(c) && Answered(c) && id in c.heap
    ensures Kept(c, Next(c, Take(t)), id)
  {
    hide Holders;
    var d := Next(c, Take(t));
    if d != c {
      HoldersUpdate(c.threads, t, d.threads[t], id);
    }
  }

  lemma KeptByCreate(c: Cache, t: nat, ok: bool, id: nat)
    requires Closed(c) && Counted(c) && Exclusive(c) && id in c.heap
    ensures Kept(c, Next(c, Create(t, ok)), id)
  {
    hide Holders;
    var d := Next(c, Create(t, ok));
    if d != c {
      HoldersUpdate(c.threads, t, d.threads[t], id);
    }
  }

  lemma KeptByLock(c: Cache, t: nat, id: nat)
    requires Closed(c) && Counted(c) && id in c.heap
    ensures Kept(c, Next(c, Lock(t)), id) && Kept(c, Next(c, Spawn(t)), id)
  {
    hide Holders;
    if t in c.threads && c.threads[t].pc.Waiting? {
      HoldersUpdate(c.threads, t, c.threads[t].(pc := Inspecting(c.threads[t].pc.epoch)), id);
    }
    HoldersUpdate(c.threads, t, Thread(Idle, None, None, false), id);
  }

  lemma KeptStep(c: Cache, s: Step, id: nat)
    requires Inv(c) && id in c.heap
    ensures Kept(c, Next(c, s), id)
  {
    hide Kept, Next;
    match s
    case Spawn(t) => KeptByLock(c, t, id);
    case Call(t, e) => KeptByCall(c, t, e, id);
    case Lock(t) => KeptByLock(c, t, id);
    case Inspect(t) => KeptByInspect(c, t, id);
    case Create(t, ok) => KeptByCreate(c, t, ok, id);
    case Take(t) => KeptByTake(c, t, id);
    case Exit(t) => KeptByExit(c, t, id);
  }

  /** A pointer of the new state to a context of the old state leads somewhere, to the same epoch. */
  lemma Survives(c: Cache, s: Step, id: nat)
    requires Inv(c) && id in c.heap
    requires || Next(c, s).shared == Some(id)
             || exists t :: t in Next(c, s).threads && Next(c, s).threads[t].local == Some(id)
    ensures id in Next(c, s).heap && Next(c, s).heap[id].epoch == c.heap[id].epoch
  {
    hide Next, Holders;
    KeptStep(c, s, id);
    Referenced(Next(c, s), id);
  }

  /** The one new context is the one just built. */
  lemma Newcomer(c: Cache, s: Step, id: nat)
    requires Inv(c) && id !in c.heap && id in Next(c, s).heap
    ensures Next(c, s).heap[id].count == References(Next(c, s), id) == 1
    ensures id == c.nextId < Next(c, s).nextId
  {
    var d := Next(c, s);
    assert s.Create? && id == c.nextId;
    NoHolders(c, id);
    HoldersUpdate(c.threads, s.t, d.threads[s.t], id);
  }

  lemma CountedStep(c: Cache, s: Step)
    requires Inv(c)
    ensures Counted(Next(c, s))
    ensures forall id :: id in Next(c, s).heap ==> id < Next(c, s).nextId
  {
    hide Next, Inv;
    var d := Next(c, s);
    forall id | id in d.heap
      ensures d.heap[id].count == References(d, id) && References(d, id) > 0 && id < d.nextId
    {
      if id in c.heap {
        KeptStep(c, s, id);
        FreshGrows(c, s);
        assert Closed(c) by { InvParts(c); }
      } else {
        Newcomer(c, s, id);
      }
    }
  }

  lemma InvParts(c: Cache)
    requires Inv(c)
    ensures Closed(c) && Counted(c) && Exclusive(c) && Answered(c) && Excused(c)
  {
  }

  lemma FreshGrows(c: Cache, s: Step)
    ensures c.nextId <= Next(c, s).nextId
  {
  }

  /** Where a thread's pointer comes from. */
  lemma Origin(c: Cache, s: Step, t: nat)
    requires t in Next(c, s).threads && Next(c, s).threads[t].local.Some?
    ensures var p := Next(c, s).threads[t].local;
            || (t in c.threads && c.threads[t].local == p)
            || (s == Take(t) && c.shared == p && t in c.threads && c.threads[t].pc.Taking?)
  {
  }

  lemma SharedOrigin(c: Cache, s: Step)
    requires Next(c, s).shared.Some?
    ensures Next(c, s).shared == c.shared || Next(c, s).shared.value in Next(c, s).heap
  {
  }

  lemma ClosedStep(c: Cache, s: Step)
    requires Inv(c)
    ensures Closed(Next(c, s))
  {
    hide Next;
    var d := Next(c, s);
    CountedStep(c, s);
    if d.shared.Some? {
      SharedOrigin(c, s);
      if d.shared == c.shared {
        Survives(c, s, d.shared.value);
      }
    }
    forall t | t in d.threads && d.threads[t].local.Some?
      ensures d.threads[t].local.value in d.heap
    {
      Origin(c, s, t);
      Survives(c, s, d.threads[t].local.value);
    }
  }

  lemma AnsweredStep(c: Cache, s: Step)
    requires Inv(c)
    ensures Answered(Next(c, s))
  {
    hide Excused, Drop, Copy, Counted, References;
    var d := Next(c, s);
    forall t | t in d.threads && d.threads[t].local.Some?
      ensures d.threads[t].asked.Some? && Matches(d.heap, d.threads[t].local, d.threads[t].asked.value)
    {
      Origin(c, s, t);
      Survives(c, s, d.threads[t].local.value);
    }
  }

  lemma ExclusiveStep(c: Cache, s: Step)
    requires Inv(c)
    ensures Exclusive(Next(c, s))
  {
    hide Excused, Drop, Copy, Counted, References;
    var d := Next(c, s);
    forall t | t in d.threads && d.threads[t].pc.Taking? && d.shared.Some?
      ensures Matches(d.heap, d.shared, d.threads[t].pc.epoch)
    {
      if d.shared == c.shared {
        Survives(c, s, d.shared.value);
      }
    }
  }

  lemma ExcusedStep(c: Cache, s: Step)
    requires Inv(c)
    ensures Excused(Next(c, s))
  {
    hide Drop, Copy, Counted, References, Holders;
  }

  lemma {:induction false} InvRun(c: Cache, steps: seq<Step>)
    requires Inv(c)
    ensures Inv(Run(c, steps))
    decreases |steps|
  {
    hide Next, Closed, Counted, Exclusive, Answered, Excused;
    if steps == [] {
    } else {
      ClosedStep(c, steps[0]);
      CountedStep(c, steps[0]);
      ExclusiveStep(c, steps[0]);
      AnsweredStep(c, steps[0]);
      ExcusedStep(c, steps[0]);
      InvRun(Next(c, steps[0]), steps[1..]);
    }
  }

  // The promises, over every run

  lemma Start()
    ensures Inv(Init())
  {
  }

  /** In every interleaving: at most one thread works on the shared context; a context is alive exactly while something
      points to it, with the exact number of pointers as its count. */
  lemma Safety(steps: seq<Step>, t: nat, u: nat, id: nat)
    requires t in Run(Init(), steps).threads && u in Run(Init(), steps).threads
    ensures var c := Run(Init(), steps);
            && (Inside(c.threads[t]) && Inside(c.threads[u]) ==> t == u)
            && (id in c.heap <==> References(c, id) > 0)
            && (id in c.heap ==> c.heap[id].count == References(c, id))
  {
    hide References;
    var c := Run(Init(), steps);
    Start();
    InvRun(Init(), steps);
    if id !in c.heap {
      NoHolders(c, id);
    }
  }

  /** No step starts another lookup of the thread or ends it. */
  predicate Undisturbed(t: nat, steps: seq<Step>) {
    forall i :: 0 <= i < |steps| ==> !(steps[i].Call? && steps[i].t == t) && steps[i] != Exit(t)
  }

  /** The thread's lookup is for this epoch: under way, or finished. */
  predicate LookingFor(c: Cache, t: nat, e: int) {
    && t in c.threads
    && if c.threads[t].pc.Idle? then c.threads[t].asked == Some(e) else c.threads[t].pc.epoch == e
  }

  lemma {:induction false} KeepsLooking(c: Cache, t: nat, e: int, steps: seq<Step>)
    requires LookingFor(c, t, e) && Undisturbed(t, steps)
    ensures LookingFor(Run(c, steps), t, e)
    decreases |steps|
  {
    hide Drop, Copy, Matches;
    if steps == [] {
    } else {
      KeepsLooking(Next(c, steps[0]), t, e, steps[1..]);
    }
  }

  lemma {:induction false} RunAppend(c: Cache, a: seq<Step>, b: seq<Step>)
    ensures Run(c, a + b) == Run(Run(c, a), b)
    decreases |a|
  {
    hide Next;
    if a == [] {
      assert a + b == b;
    } else {
      assert (a + b)[1..] == a[1..] + b;
      RunAppend(Next(c, a[0]), a[1..], b);
    }
  }

  /** A lookup for epoch e, whatever other threads do during and after it: once it has finished, its thread has a live
      context built for e, unless the lookup's own attempt to build one failed, and then it has none. */
  lemma LookupAnswers(before: seq<Step>, t: nat, e: int, after: seq<Step>)
    requires var c := Run(Init(), before); t in c.threads && c.threads[t].pc.Idle?
    requires Undisturbed(t, after)
    ensures var d := Run(Init(), before + [Call(t, e)] + after);
            && t in d.threads
            && (!d.threads[t].pc.Idle? ==> d.threads[t].pc.epoch == e && d.threads[t].local.None?)
            && (d.threads[t].pc.Idle? ==>
                  if d.threads[t].failed then d.threads[t].local.None? else Matches(d.heap, d.threads[t].local, e))
  {
    hide Run;
    var c := Run(Init(), before);
    var called := Next(c, Call(t, e));
    RunAppend(Init(), before, [Call(t, e)]);
    RunOne(c, Call(t, e));
    RunAppend(Init(), before + [Call(t, e)], after);
    assert LookingFor(called, t, e) by { hide Drop, Copy, Matches; }
    KeepsLooking(called, t, e, after);
    Start();
    InvRun(Init(), before + [Call(t, e)] + after);
  }

  lemma {:induction false} FailedByItself(c: Cache, t: nat, steps: seq<Step>)
    requires t in c.threads ==> !c.threads[t].failed
    requires forall i :: 0 <= i < |steps| ==> steps[i] != Create(t, false)
    ensures var d := Run(c, steps); t in d.threads ==> !d.threads[t].failed
    decreases |steps|
  {
    hide Drop, Copy, Matches;
    if steps == [] {
    } else {
      FailedByItself(Next(c, steps[0]), t, steps[1..]);
    }
  }

  /** A lookup in which the thread does not itself fail to build a context leaves it with one for the epoch it asked
      for, whatever fails for others. */
  lemma NeverNull(before: seq<Step>, t: nat, e: int, after: seq<Step>)
    requires var c := Run(Init(), before); t in c.threads && c.threads[t].pc.Idle?
    requires Undisturbed(t, after) && forall i :: 0 <= i < |after| ==> after[i] != Create(t, false)
    ensures var d := Run(Init(), before + [Call(t, e)] + after);
            t in d.threads && (d.threads[t].pc.Idle? ==> Matches(d.heap, d.threads[t].local, e))
  {
    hide Run;
    var c := Run(Init(), before);
    var called := Next(c, Call(t, e));
    LookupAnswers(before, t, e, after);
    RunAppend(Init(), before, [Call(t, e)]);
    RunOne(c, Call(t, e));
    RunAppend(Init(), before + [Call(t, e)], after);
    assert !called.threads[t].failed by { hide Drop, Copy, Matches; }
    FailedByItself(called, t, after);
  }

  // Lookups come to an end

  /** The owner of the mutex leaves after at most three of its own steps. */
  lemma OwnerLeaves(c: Cache, t: nat, ok: bool)
    requires Inv(c) && c.owner == Some(t)
    ensures var d := Run(c, [Inspect(t), Create(t, ok), Take(t)]);
            d.owner.None? && t in d.threads && d.threads[t].pc.Idle? && d.threads[t].asked == Some(c.threads[t].pc.epoch)
  {
    hide Run, Drop, Copy, Matches, Counted, Answered, Excused;
    RunThree(c, Inspect(t), Create(t, ok), Take(t));
  }

  lemma RunThree(c: Cache, r: Step, s: Step, t: Step)
    ensures Run(c, [r, s, t]) == Next(Next(Next(c, r), s), t)
  {
    hide Next;
    assert [r, s, t] == [r] + ([s] + [t]);
    RunAppend(c, [r], [s] + [t]);
    RunAppend(Next(c, r), [s], [t]);
    RunOne(c, r);
    RunOne(Next(c, r), s);
    RunOne(Next(Next(c, r), s), t);
  }

  /** A waiting thread gets the mutex when it is free, and with memory its context. */
  lemma LookupEnds(c: Cache, t: nat)
    requires Inv(c) && c.owner.None? && t in c.threads && c.threads[t].pc.Waiting?
    ensures var d := Run(c, [Lock(t), Inspect(t), Create(t, true), Take(t)]);
            && t in d.threads && d.threads[t].pc.Idle? && d.owner.None?
            && Matches(d.heap, d.threads[t].local, c.threads[t].pc.epoch)
  {
    hide Drop, Copy, Counted, References;
    var e := c.threads[t].pc.epoch;
    var locked := Next(c, Lock(t));
    var rest := [Inspect(t), Create(t, true), Take(t)];
    RunAppend(c, [Lock(t)], rest);
    RunOne(c, Lock(t));
    assert [Lock(t)] + rest == [Lock(t), Inspect(t), Create(t, true), Take(t)];
    assert Inv(locked) by { InvRun(c, [Lock(t)]); }
    OwnerLeaves(locked, t, true);
    InvRun(locked, rest);
    assert LookingFor(locked, t, e);
    KeepsLooking(locked, t, e, rest);
    FailedByItself(locked, t, rest);
  }

  predicate Inside(info: Thread) {
    info.pc.Inspecting? || info.pc.Building? || info.pc.Taking?
  }

  /** The thread neither ends nor asks for another epoch. */
  predicate Loyal(t: nat, epoch: int, steps: seq<Step>) {
    forall i :: 0 <= i < |steps| ==>
      steps[i] != Exit(t) && (steps[i].Call? && steps[i].t == t ==> steps[i].epoch == epoch)
  }

  /** What the lookup returned stays valid: whatever the other threads do, the context a thread got is not freed or
      replaced before that thread asks for another epoch or ends. */
  lemma {:induction false} StaysAlive(c: Cache, t: nat, id: nat, steps: seq<Step>)
    requires Inv(c) && t in c.threads && c.threads[t].local == Some(id)
    requires Loyal(t, c.heap[id].epoch, steps)
    ensures var d := Run(c, steps);
            && t in d.threads && d.threads[t].local == Some(id)
            && id in d.heap && d.heap[id].epoch == c.heap[id].epoch
    decreases |steps|
  {
    hide Closed, Counted, Exclusive, References, Drop, Copy;
    if steps == [] {
    } else {
      var d := Next(c, steps[0]);
      assert id in c.heap by { Pointer(c, t); }
      assert Inv(d) by { InvRun(c, [steps[0]]); RunOne(c, steps[0]); }
      assert t in d.threads && d.threads[t].local == Some(id) by { Stays(c, t, id, steps[0]); }
      Survives(c, steps[0], id);
      StaysAlive(d, t, id, steps[1..]);
    }
  }

  lemma RunOne(c: Cache, s: Step)
    ensures Run(c, [s]) == Next(c, s)
  {
    hide Next;
    assert [s][1..] == [];
  }

  lemma Pointer(c: Cache, t: nat)
    requires Inv(c) && t in c.threads && c.threads[t].local.Some?
    ensures c.threads[t].local.value in c.heap && c.threads[t].pc.Idle?
  {
  }

  lemma Stays(c: Cache, t: nat, id: nat, s: Step)
    requires Inv(c) && t in c.threads && c.threads[t].local == Some(id) && id in c.heap
    requires s != Exit(t) && (s.Call? && s.t == t ==> s.epoch == c.heap[id].epoch)
    ensures t in Next(c, s).threads && Next(c, s).threads[t].local == Some(id)
  {
    hide Drop, Copy, Counted;
    Pointer(c, t);
  }

  function Locals(threads: map<nat, Thread>): set<nat> {
    set t | t in threads && threads[t].local.Some? :: threads[t].local.value
  }

  lemma {:induction false} LocalsBound(threads: map<nat, Thread>)
    ensures |Locals(threads)| <= |threads|
    decreases |threads|
  {
    if threads == map[] {
    } else {
      var t :| t in threads;
      var rest := threads - {t};
      LocalsBound(rest);
      var more := Locals(rest) + (if threads[t].local.Some? then {threads[t].local.value} else {});
      forall id | id in Locals(threads)
        ensures id in more
      {
        var u :| u in threads && threads[u].local == Some(id);
        if u != t {
          assert u in rest && rest[u].local.value == id;
        }
      }
      SubsetSize(Locals(threads), more);
    }
  }

  lemma SubsetSize(a: set<nat>, b: set<nat>)
    requires a <= b
    ensures |a| <= |b|
  {
    assert b == a + (b - a);
  }

  /** At any moment at most one context more is alive than there are threads. */
  lemma Memory(steps: seq<Step>)
    ensures var c := Run(Init(), steps); |c.heap| <= |c.threads| + 1
  {
    var c := Run(Init(), steps);
    Start();
    InvRun(Init(), steps);
    var pointed := Locals(c.threads) + (if c.shared.Some? then {c.shared.value} else {});
    forall id | id in c.heap
      ensures id in pointed
    {
      assert References(c, id) > 0;
      if c.shared != Some(id) {
        var t :| t in Holders(c.threads, id);
      }
    }
    assert c.heap.Keys <= pointed;
    SubsetSize(c.heap.Keys, pointed);
    LocalsBound(c.threads);
  }

  /** While every lookup is for one epoch, that epoch's context is the only one, and it is the shared one. */
  predicate OneEpoch(c: Cache, e: int) {
    && (forall id :: id in c.heap ==> c.shared == Some(id) && c.heap[id].epoch == e)
    && (forall t :: t in c.threads && !c.threads[t].pc.Idle? ==> c.threads[t].pc.epoch == e)
  }

  lemma OneEpochStep(c: Cache, s: Step, e: int)
    requires Inv(c) && OneEpoch(c, e) && (s.Call? ==> s.epoch == e)
    ensures OneEpoch(Next(c, s), e)
  {
    hide Counted, Answered;
  }

  /** Threads that all want one epoch share one context: it is built once and never rebuilt. */
  lemma {:induction false} SharedByAll(c: Cache, e: int, steps: seq<Step>)
    requires Inv(c) && OneEpoch(c, e)
    requires forall i :: 0 <= i < |steps| && steps[i].Call? ==> steps[i].epoch == e
    ensures OneEpoch(Run(c, steps), e) && |Run(c, steps).heap| <= 1
    ensures c.shared.Some? ==> Run(c, steps).nextId == c.nextId
    decreases |steps|
  {
    hide Counted, Exclusive, Answered, Drop, Copy;
    if steps == [] {
      assert c.heap.Keys <= if c.shared.Some? then {c.shared.value} else {};
      SubsetSize(c.heap.Keys, if c.shared.Some? then {c.shared.value} else {});
    } else {
      var d := Next(c, steps[0]);
      assert Inv(d) by { InvRun(c, [steps[0]]); RunOne(c, steps[0]); }
      OneEpochStep(c, steps[0], e);
      if c.shared.Some? {
        KeepsShared(c, steps[0], e);
      }
      SharedByAll(d, e, steps[1..]);
    }
  }

  lemma KeepsShared(c: Cache, s: Step, e: int)
    requires Inv(c) && OneEpoch(c, e) && c.shared.Some? && (s.Call? ==> s.epoch == e)
    ensures Next(c, s).shared == c.shared && Next(c, s).nextId == c.nextId
  {
    hide Counted, Answered;
  }
}
