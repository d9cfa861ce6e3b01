/** The stream pipeline of CUDAMiner::search: up to four launches are in flight, every visit of a stream collects its
    last launch and starts the next one, until the done flag is seen. */
module CudaSearch {
  import opened Prelude

  const MAX_SEARCH_RESULTS: nat := 4

  type Gids = s: seq<nat> | |s| == 4 && forall i :: 0 <= i < 4 ==> s[i] < 0x1_0000_0000 witness [0, 0, 0, 0]

  /** What a launch leaves in its buffer: how many solutions it met and the thread numbers of the first four. */
  datatype Results = Results(count: nat, gid: Gids)

  /** A submitted nonce, and the launch it came from. */
  datatype Found = Found(launch: nat, nonce: nat)

  // The arithmetic of nonces

  /** Addition of 64-bit words. */
  function Add(a: nat, b: int): nat {
    (a + b) % TWO_64
  }

  /** The first nonce of launch number n. */
  function Base(start: nat, batch: nat, n: nat): nat {
    (start + n * batch) % TWO_64
  }

  /** The nonce that thread `gid` of launch n hashes. */
  function Hashed(start: nat, batch: nat, n: nat, gid: nat): nat {
    Add(Base(start, batch, n), gid)
  }

  /** The number of nonces in flight, as the 32-bit product that search computes. */
  function StreamBlocks(batch: nat, streams: nat): nat {
    batch * streams % TWO_32
  }

  /** What the 32-bit product of batch size and stream count loses. */
  function Skew(batch: nat, streams: nat): nat {
    batch * streams - StreamBlocks(batch, streams)
  }

  /** The nonce that is submitted for thread `gid` of launch n. */
  function Reported(start: nat, batch: nat, streams: nat, n: nat, gid: nat): nat {
    Add(Hashed(start, batch, n, gid), Skew(batch, streams))
  }

  lemma BaseStep(start: nat, batch: nat, n: nat)
    ensures Add(Base(start, batch, n), batch) == Base(start, batch, n + 1)
  {
    assert (n + 1) * batch == n * batch + batch;
    ModShift(start + n * batch, batch);
  }

  lemma First(start: nat, batch: nat)
    requires start < TWO_64
    ensures Base(start, batch, 0) == start
  {
  }

  lemma ModShift(a: int, b: int)
    ensures (a % TWO_64 + b) % TWO_64 == (a + b) % TWO_64
  {
    var q := a / TWO_64;
    assert a + b == (a % TWO_64 + b) + q * TWO_64;
  }

  /** Going back by the 32-bit product from the current nonce reaches the hashed nonce, up to what the product lost. */
  lemma Back(start: nat, batch: nat, streams: nat, n: nat, gid: nat)
    ensures Add(Base(start, batch, n + streams), gid - StreamBlocks(batch, streams))
         == Reported(start, batch, streams, n, gid)
  {
    var far := start + (n + streams) * batch;
    var back := gid - StreamBlocks(batch, streams);
    assert (n + streams) * batch == n * batch + batch * streams;
    ModShift(far, back);
    ModShift(start + n * batch, gid);
    ModShift(start + n * batch + gid, Skew(batch, streams));
  }

  /** The submitted nonce is the nonce that solved, unless the 32-bit product overflows: then no submission is right. */
  lemma NonceExact(start: nat, batch: nat, streams: nat, n: nat, gid: nat)
    requires batch < TWO_32
    requires streams == 1 || streams == 2 || streams == 4
    ensures Reported(start, batch, streams, n, gid) == Hashed(start, batch, n, gid) <==> batch * streams < TWO_32
  {
    var skew := Skew(batch, streams);
    assert 0 <= skew <= batch * streams < TWO_64;
    assert skew == 0 <==> batch * streams < TWO_32;
    NoShift(Hashed(start, batch, n, gid), skew);
  }

  /** A batch size and a number of streams at which that happens. */
  lemma NonceWrong()
    ensures Reported(0, 0x4000_0000, 4, 0, 0) != Hashed(0, 0x4000_0000, 0, 0)
  {
    NonceExact(0, 0x4000_0000, 4, 0, 0);
  }

  lemma NoShift(a: nat, b: nat)
    requires a < TWO_64 && b < TWO_64
    ensures (a + b) % TWO_64 == a <==> b == 0
  {
  }

  lemma HashedOffset(start: nat, batch: nat, n: nat, gid: nat)
    ensures Hashed(start, batch, n, gid) == (start + (n * batch + gid)) % TWO_64
  {
    ModShift(start + n * batch, gid);
  }

  lemma Apart(start: nat, a: nat, b: nat)
    requires a < TWO_64 && b < TWO_64 && a != b
    ensures (start + a) % TWO_64 != (start + b) % TWO_64
  {
    ModShift(start, a);
    ModShift(start, b);
  }

  lemma Position(batch: nat, launches: nat, i: nat, g: nat, j: nat, h: nat)
    requires i < launches && g < batch && h < batch && (i != j || g != h)
    ensures i * batch + g < launches * batch
    ensures i * batch + g != j * batch + h
  {
    Larger(i + 1, launches, batch);
    if i < j {
      Larger(i + 1, j, batch);
    } else if j < i {
      Larger(j + 1, i, batch);
    }
  }

  lemma Larger(a: nat, b: nat, c: nat)
    requires a <= b
    ensures a * c <= b * c
  {
  }

  lemma Wrapped(batch: nat, launches: nat)
    requires batch > 0 && launches * batch > TWO_64
    ensures TWO_64 / batch < launches
    ensures TWO_64 / batch * batch + TWO_64 % batch == TWO_64
  {
    var q := TWO_64 / batch;
    if q >= launches {
      Larger(launches, q, batch);
    }
  }

  lemma OncePair(start: nat, batch: nat, launches: nat, i: nat, g: nat, j: nat, h: nat)
    requires launches * batch <= TWO_64
    requires i < launches && j < launches && g < batch && h < batch && (i != j || g != h)
    ensures Hashed(start, batch, i, g) != Hashed(start, batch, j, h)
  {
    hide Hashed;
    Position(batch, launches, i, g, j, h);
    Position(batch, launches, j, h, i, g);
    HashedOffset(start, batch, i, g);
    HashedOffset(start, batch, j, h);
    Apart(start, i * batch + g, j * batch + h);
  }

  lemma TwicePair(start: nat, batch: nat)
    requires 0 < batch < TWO_32
    ensures TWO_64 / batch > 0 && Hashed(start, batch, 0, 0) == Hashed(start, batch, TWO_64 / batch, TWO_64 % batch)
  {
    hide Hashed;
    TwicePairAt(start, batch, TWO_64 / batch, TWO_64 % batch);
  }

  lemma TwicePairAt(start: nat, batch: nat, q: nat, r: nat)
    requires 0 < batch < TWO_32 && q * batch + r == TWO_64 && r < batch
    ensures q > 0 && Hashed(start, batch, 0, 0) == Hashed(start, batch, q, r)
  {
    hide Hashed;
    HashedOffset(start, batch, 0, 0);
    HashedOffset(start, batch, q, r);
    ModShift(start, TWO_64);
  }

  /** The nonce that is given to a thread of launch n. A launch has `threads` of them, the block multiple times the block
      size, but both the stride between launches and a thread's number keep only 32 bits. */
  function Given(start: nat, threads: nat, n: nat, thread: nat): nat {
    Hashed(start, threads % TWO_32, n, thread % TWO_32)
  }

  /** The launches are within what 32 and 64 bits can number. */
  predicate Numbered(threads: nat, launches: nat) {
    || threads == 0 || launches == 0
    || (launches == 1 && threads <= TWO_32)
    || (threads < TWO_32 && launches * threads <= TWO_64)
  }

  ghost predicate NoneTwice(start: nat, threads: nat, launches: nat) {
    forall i, g, j, h ::
      0 <= i < launches && 0 <= j < launches && 0 <= g < threads && 0 <= h < threads && (i != j || g != h) ==>
      Given(start, threads, i, g) != Given(start, threads, j, h)
  }

  lemma GivenOnce(start: nat, threads: nat, launches: nat, i: nat, g: nat, j: nat, h: nat)
    requires Numbered(threads, launches)
    requires i < launches && j < launches && g < threads && h < threads && (i != j || g != h)
    ensures Given(start, threads, i, g) != Given(start, threads, j, h)
  {
    hide Hashed;
    assert g % TWO_32 == g && h % TWO_32 == h;
    if launches == 1 {
      OnceInOne(start, threads % TWO_32, g, h);
    } else {
      assert threads % TWO_32 == threads;
      OncePair(start, threads, launches, i, g, j, h);
    }
  }

  lemma OnceInOne(start: nat, batch: nat, g: nat, h: nat)
    requires g < TWO_32 && h < TWO_32 && g != h
    ensures Hashed(start, batch, 0, g) != Hashed(start, batch, 0, h)
  {
    hide Hashed;
    HashedOffset(start, batch, 0, g);
    HashedOffset(start, batch, 0, h);
    Apart(start, g, h);
  }

  lemma GivenTwice(start: nat, threads: nat, launches: nat)
    requires !Numbered(threads, launches)
    ensures !NoneTwice(start, threads, launches)
  {
    hide Hashed;
    if threads > TWO_32 {
      assert Given(start, threads, 0, 0) == Given(start, threads, 0, TWO_32);
    } else if threads == TWO_32 {
      HashedOffset(start, 0, 0, 0);
      HashedOffset(start, 0, 1, 0);
      assert Given(start, threads, 0, 0) == Given(start, threads, 1, 0);
    } else {
      Wrapped(threads, launches);
      TwicePair(start, threads);
      assert Given(start, threads, 0, 0) == Given(start, threads, TWO_64 / threads, TWO_64 % threads);
    }
  }

  /** No nonce is given to two threads exactly when the threads of a launch can be told apart by 32 bits, a second launch
      does not fall on the first, and all launches fit into the 64-bit nonces. */
  lemma NoNonceTwice(start: nat, threads: nat, launches: nat)
    ensures NoneTwice(start, threads, launches) <==> Numbered(threads, launches)
  {
    hide Given, Numbered;
    if Numbered(threads, launches) {
      forall i: nat, g: nat, j: nat, h: nat |
        i < launches && j < launches && g < threads && h < threads && (i != j || g != h)
        ensures Given(start, threads, i, g) != Given(start, threads, j, h)
      {
        GivenOnce(start, threads, launches, i, g, j, h);
      }
    } else {
      GivenTwice(start, threads, launches);
    }
  }

  /** With a block multiple of 0x2000001 and blocks of 128 threads, two launches, few nonces in all, do repeat one. */
  lemma NonceTwice()
    ensures var threads := 0x200_0001 * 128;
            2 * (threads % TWO_32) <= TWO_64 && Given(0, threads, 0, 128) == Given(0, threads, 1, 0)
  {
    HashedOffset(0, 128, 0, 128);
    HashedOffset(0, 128, 1, 0);
  }

  // What is submitted

  function Least(a: nat, b: nat): nat {
    if a < b then a else b
  }

  /** The nonces submitted for launch n. */
  function Reports(start: nat, batch: nat, streams: nat, n: nat, r: Results): seq<Found> {
    seq(Least(r.count, MAX_SEARCH_RESULTS), i requires 0 <= i < Least(r.count, MAX_SEARCH_RESULTS) =>
      Found(n, Reported(start, batch, streams, n, r.gid[i])))
  }

  /** Up to four solutions of a launch are all submitted, in order; of more, the first four. */
  lemma FourSubmitted(start: nat, batch: nat, streams: nat, n: nat, r: Results)
    ensures var found := Reports(start, batch, streams, n, r);
            && |found| == (if r.count <= 4 then r.count else 4)
            && forall i :: 0 <= i < |found| ==> found[i] == Found(n, Reported(start, batch, streams, n, r.gid[i]))
  {
    hide Reported;
  }

  /** The nonces submitted for the first n launches. */
  function AllReports(start: nat, batch: nat, streams: nat, device: nat -> Results, n: nat): seq<Found> {
    if n == 0 then [] else
      AllReports(start, batch, streams, device, n - 1) + Reports(start, batch, streams, n - 1, device(n - 1))
  }

  // The busy mask: a 32-bit word as its bits, least significant first

  type Mask = m: seq<bool> | |m| == 32 witness seq(32, _ => false)

  function Zero(): Mask {
    seq(32, _ => false)
  }

  predicate Busy(mask: Mask, s: nat)
    requires s < 32
  {
    mask[s]
  }

  function Clear(mask: Mask, s: nat): Mask
    requires s < 32
  {
    mask[s := false]
  }

  /** (1 << streams) - 1 */
  function Everyone(streams: nat): Mask
    requires streams <= 32
  {
    seq(32, s => s < streams)
  }

  // The pipeline

  /** The launch that stream j last made, or would have made, when streams below s have been visited in this pass. */
  function Last(streams: nat, row: nat, s: nat, j: nat): nat
    requires j < streams <= row
  {
    if j < s then row + j else row - streams + j
  }

  /** A stream is busy exactly while the launch it last made is one of the first `total`, and holds that launch. */
  predicate InFlight(mask: Mask, pending: seq<nat>, row: nat, s: nat, total: nat)
    requires |pending| <= 4 && |pending| <= row
  {
    && (forall j :: |pending| <= j < 32 ==> !Busy(mask, j))
    && (forall j :: 0 <= j < |pending| ==> (Busy(mask, j) <==> Last(|pending|, row, s, j) < total))
    && (forall j :: 0 <= j < |pending| && Busy(mask, j) ==> pending[j] == Last(|pending|, row, s, j))
  }

  lemma Primed(pending: seq<nat>, mask: Mask, total: nat)
    requires |pending| == 1 || |pending| == 2 || |pending| == 4
    requires forall j :: 0 <= j < |pending| ==> pending[j] == j
    requires mask == Everyone(|pending|) && total >= |pending|
    ensures InFlight(mask, pending, |pending|, 0, total)
  {
    assert forall j :: 0 <= j < 32 ==> (Busy(mask, j) <==> j < |pending|);
  }

  lemma Visited(mask: Mask, pending: seq<nat>, row: nat, s: nat, total: nat, mask': Mask, pending': seq<nat>)
    requires |pending| == |pending'| <= 4 && |pending| <= row && s < |pending|
    requires InFlight(mask, pending, row, s, total)
    requires if !Busy(mask, s) then mask' == mask && pending' == pending
             else if row + s < total then mask' == mask && pending' == pending[s := row + s]
             else mask' == Clear(mask, s) && pending' == pending
    ensures InFlight(mask', pending', row, s + 1, total)
  {
    assert forall j :: 0 <= j < 32 ==> (Busy(mask', j) <==> Busy(mask, j) && (j != s || row + s < total));
  }

  lemma Held(mask: Mask, pending: seq<nat>, row: nat, s: nat, total: nat)
    requires |pending| <= 4 && |pending| <= row && s < |pending|
    requires InFlight(mask, pending, row, s, total)
    ensures Busy(mask, s) <==> row + s - |pending| < total
    ensures Busy(mask, s) ==> pending[s] == row + s - |pending|
  {
  }

  lemma Later(mask: Mask, pending: seq<nat>, row: nat, total: nat)
    requires |pending| <= 4 && |pending| <= row
    requires InFlight(mask, pending, row, |pending|, total)
    ensures InFlight(mask, pending, row + |pending|, 0, total)
  {
  }

  lemma ReportsStep(start: nat, batch: nat, streams: nat, device: nat -> Results, n: nat)
    ensures AllReports(start, batch, streams, device, n + 1)
         == AllReports(start, batch, streams, device, n) + Reports(start, batch, streams, n, device(n))
    ensures AllReports(start, batch, streams, device, 0) == []
  {
  }

  lemma Drained(mask: Mask, pending: seq<nat>, row: nat, total: nat)
    requires 0 < |pending| <= 4 && |pending| <= row
    requires InFlight(mask, pending, row, 0, total)
    ensures mask == Zero() <==> row - |pending| >= total
  {
    if row - |pending| >= total {
      forall j | 0 <= j < 32
        ensures mask[j] == Zero()[j]
      {
        assert !Busy(mask, j);
      }
    } else {
      assert Busy(mask, 0);
    }
  }

  /** Launch number n starts at the n-th base. */
  predicate Consecutive(launches: seq<nat>, start: nat, batch: nat) {
    forall n :: 0 <= n < |launches| ==> launches[n] == Base(start, batch, n)
  }

  /** Launch after launch was collected, each once, and everything found was submitted. */
  ghost predicate Complete(collected: seq<nat>, found: seq<Found>, start: nat, batch: nat, streams: nat,
                           device: nat -> Results)
  {
    && (forall n :: 0 <= n < |collected| ==> collected[n] == n)
    && found == AllReports(start, batch, streams, device, |collected|)
  }

  lemma OneLaunch(launches: seq<nat>, start: nat, batch: nat)
    requires Consecutive(launches, start, batch)
    ensures Consecutive(launches + [Base(start, batch, |launches|)], start, batch)
  {
    hide Base;
  }

  lemma OneCollected(collected: seq<nat>, found: seq<Found>, start: nat, batch: nat, streams: nat,
                     device: nat -> Results)
    requires Complete(collected, found, start, batch, streams, device)
    ensures var n := |collected|;
            var more := Reports(start, batch, streams, n, device(n));
            Complete(collected + [n], found + more, start, batch, streams, device)
  {
    hide Reports;
  }

  /** The submission loop over one collected buffer. */
  method Submit(ghost start: nat, ghost batch: nat, ghost streams: nat, nonce: nat, streamBlocks: nat, launch: nat,
                r: Results)
    returns (found: seq<Found>)
    requires nonce == Base(start, batch, launch + streams)
    requires streamBlocks == StreamBlocks(batch, streams)
    ensures found == Reports(start, batch, streams, launch, r)
  {
    hide Base, Add, StreamBlocks, Reported;
    var count := if r.count > MAX_SEARCH_RESULTS then MAX_SEARCH_RESULTS else r.count;
    found := [];
    for i := 0 to count
      invariant |found| == i
      invariant forall k :: 0 <= k < i ==>
        found[k] == Found(launch, Reported(start, batch, streams, launch, r.gid[k]))
    {
      Back(start, batch, streams, launch, r.gid[i]);
      found := found + [Found(launch, Add(nonce, r.gid[i] - streamBlocks))];
    }
  }

  /** The state of one call of search. `device` gives what each launch finds, `doneAt` the number of the first reading
      of the done flag that sees it set. `pending` says whose results each stream's buffer receives. */
  class Miner {
    const start: nat
    const batch: nat
    const streams: nat
    const device: nat -> Results
    const doneAt: nat
    var nonce: nat
    var busy: Mask
    var pending: seq<nat>
    var launches: seq<nat>
    var collected: seq<nat>
    var found: seq<Found>

    ghost predicate Config() {
      && start < TWO_64 && batch < TWO_32
      && (streams == 1 || streams == 2 || streams == 4)
    }

    /** The state between two visits: pass `row / streams`, stream s is next. */
    ghost predicate Valid(row: nat, s: nat)
      reads this
    {
      && Config() && streams <= row && s <= streams == |pending|
      && nonce == Base(start, batch, row + s)
      && InFlight(busy, pending, row, s, streams + doneAt)
      && |launches| == Least(row + s, streams + doneAt)
      && |collected| == Least(row + s - streams, streams + doneAt)
      && Logged()
    }

    ghost predicate Logged()
      reads this
    {
      && Consecutive(launches, start, batch)
      && Complete(collected, found, start, batch, streams, device)
    }

    /** Primes every stream. */
    constructor (start: nat, multiple: nat, blockSize: nat, streams: nat, device: nat -> Results, doneAt: nat)
      requires start < TWO_64 && multiple < TWO_32 && blockSize < TWO_32
      requires streams == 1 || streams == 2 || streams == 4
      ensures Valid(streams, 0)
      ensures this.start == start && this.batch == multiple * blockSize % TWO_32 && this.streams == streams
      ensures this.device == device && this.doneAt == doneAt
    {
      this.start, this.batch, this.streams := start, multiple * blockSize % TWO_32, streams;
      this.device, this.doneAt := device, doneAt;
      nonce, busy, pending, launches, collected, found := start, Everyone(streams), [], [], [], [];
      new;
      hide InFlight, Base, AllReports, Add, Everyone;
      First(start, batch);
      ReportsStep(start, batch, streams, device, 0);
      var s := 0;
      while s < streams
        invariant 0 <= s <= streams == this.streams && |launches| == |pending| == s && nonce == Base(start, batch, s)
        invariant forall n :: 0 <= n < s ==> launches[n] == Base(start, batch, n)
        invariant forall j :: 0 <= j < s ==> pending[j] == j
        invariant this.collected == [] && this.found == [] && busy == Everyone(streams)
      {
        pending := pending + [|launches|];
        launches := launches + [nonce];
        BaseStep(start, batch, s);
        nonce := Add(nonce, batch);
        s := s + 1;
      }
      Primed(pending, busy, streams + doneAt);
    }

    /** Stream s is collected, and started again unless the done flag is seen. */
    method Visit(ghost row: nat, s: nat)
      requires Valid(row, s) && s < streams
      modifies this
      ensures Valid(row, s + 1)
    {
      hide InFlight, Busy, Clear, Base, Reports, Add, StreamBlocks, Consecutive, Complete;
      ghost var mask, held := busy, pending;
      Held(busy, pending, row, s, streams + doneAt);
      if Busy(busy, s) {
        OneCollected(collected, found, start, batch, streams, device);
        OneLaunch(launches, start, batch);
        var launch := pending[s];
        var more := Submit(start, batch, streams, nonce, StreamBlocks(batch, streams), launch, device(launch));
        collected, found := collected + [launch], found + more;
        if |collected| - 1 >= doneAt {
          busy := Clear(busy, s);
        } else {
          pending := pending[s := |launches|];
          launches := launches + [nonce];
        }
      }
      Visited(mask, held, row, s, streams + doneAt, busy, pending);
      BaseStep(start, batch, row + s);
      nonce := Add(nonce, batch);
    }

    /** The main loop. Every launch, numbered from 0, starts where the one before it ends; no launch is made once the
        flag was seen; every launch is collected exactly once, in order, and every collected solution is submitted;
        the loop ends with the pass that collects the last launch, which is at the latest the one after the pass in
        which the flag was first seen. */
    method Search() returns (passes: nat)
      requires Valid(streams, 0)
      modifies this
      ensures |launches| == |collected| == streams + doneAt && Logged()
      ensures (passes - 1) * streams < |launches| <= passes * streams
      ensures passes <= doneAt / streams + 2
    {
      hide InFlight, Base, AllReports, Logged, Zero;
      ghost var row := streams;
      passes := 0;
      while busy != Zero()
        invariant row == (passes + 1) * streams && row - 2 * streams < streams + doneAt
        invariant Valid(row, 0)
        decreases 3 * streams + doneAt - row
      {
        Drained(busy, pending, row, streams + doneAt);
        var s := 0;
        while s < streams
          invariant s <= streams && Valid(row, s)
        {
          Visit(row, s);
          s := s + 1;
        }
        Later(busy, pending, row, streams + doneAt);
        row := row + streams;
        passes := passes + 1;
      }
      Drained(busy, pending, row, streams + doneAt);
    }
  }
}
