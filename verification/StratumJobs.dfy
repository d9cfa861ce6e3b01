/** Which job a read dispatches, and what is in it. */
module StratumJobs {
  import opened CommonData
  import opened Prelude
  import opened StratumClient
  import opened StratumFields

  /** The job notification that a message carries, if any. */
  function NoticeOf(c: Client, m: Message): Option<Notice> {
    if m.Notify? then Some(m.notice)
    else if m.WorkReply? && m.notice.result.Array? && c.uri.mode == 1 then Some(m.notice)
    else None
  }

  /** Message i carries a job notification that is looked at. */
  predicate SeenAt(c: Client, messages: seq<Message>, i: nat)
    requires i < |messages|
  {
    var b := After(c, messages, i);
    NoticeOf(b, messages[i]).Some? && Gate(b)
  }

  function NoticeAt(c: Client, messages: seq<Message>, i: nat): Notice
    requires i < |messages| && SeenAt(c, messages, i)
  {
    NoticeOf(After(c, messages, i), messages[i]).value
  }

  function SessionAt(c: Client, messages: seq<Message>, i: nat): Session
    requires i < |messages| && SeenAt(c, messages, i)
  {
    After(c, messages, i).session.value
  }

  /** Message i is taken as the job to dispatch. */
  predicate TakesAt(c: Client, messages: seq<Message>, i: nat)
    requires i < |messages|
  {
    SeenAt(c, messages, i) && Readable(SessionAt(c, messages, i), c.uri.mode, NoticeAt(c, messages, i))
  }

  // One message

  lemma AfterStep(c: Client, messages: seq<Message>, i: nat)
    requires i < |messages|
    ensures After(c, messages, i + 1) == Process(After(c, messages, i), messages[i])
    ensures After(c, messages, 0) == c.(newJob := false)
  {
    hide Process;
    assert messages[..i + 1][..i] == messages[..i];
  }

  /** What one message does to the job. */
  lemma JobStep(c: Client, m: Message)
    ensures var d := Process(c, m);
            var n := NoticeOf(c, m);
            if n.Some? && Gate(c) then
              && d.current == WorkAfter(c.session.value, c.uri.mode, n.value, c.current)
              && d.newJob == (c.newJob || Takes(c, n.value)) && d.ended == Ends(c, n.value)
              && d.uri == c.uri && d.session == c.session
            else d.current == c.current && d.newJob == c.newJob && d.ended == c.ended
  {
    hide WorkAfter, Takes, Ends;
  }

  /** Of the session's flags, only mining.set sets one. */
  lemma FlagsKept(s: Session, mode: nat, m: Message)
    ensures var t := Instructed(s, mode, m);
            && t.subscribed == s.subscribed
            && t.firstMiningSet == (s.firstMiningSet || (mode == 3 && m.MiningSet? && m.isObject))
  {
    hide HashOf, IsHash, Stoul, IsInt, Padded, FieldAt, Resized;
  }

  /** Within a read the mode stays, and a session is not lost; in modes 0 to 2 neither is a subscription. */
  lemma SessionStep(c: Client, m: Message)
    ensures var d := Process(c, m);
            && d.uri.mode == c.uri.mode && (c.session.Some? ==> d.session.Some?)
            && (c.uri.mode != 3 && Subscribed(c) ==> Subscribed(d))
  {
    hide WorkAfter, Takes, Ends, Instructed, WithExtranonce;
    if c.session.Some? {
      FlagsKept(c.session.value, c.uri.mode, m);
    }
    if m.Reply1? {
      StartedFlags(c.uri.mode, m.extranonce);
    }
  }

  lemma StartedFlags(mode: nat, extranonce: Field)
    ensures var s := Started(mode, extranonce).0; s.subscribed == (mode != 3) && !s.firstMiningSet
  {
    hide Stoul, Resized;
  }

  lemma {:induction false} SameMode(c: Client, messages: seq<Message>, i: nat)
    requires i <= |messages|
    ensures After(c, messages, i).uri.mode == c.uri.mode
  {
    hide Process;
    if i == 0 {
    } else {
      SameMode(c, messages, i - 1);
      AfterStep(c, messages, i - 1);
      SessionStep(After(c, messages, i - 1), messages[i - 1]);
    }
  }

  /** Message i, as a step from the state before it. */
  lemma JobAt(c: Client, messages: seq<Message>, i: nat)
    requires i < |messages|
    ensures var b := After(c, messages, i);
            var d := After(c, messages, i + 1);
            && b.uri.mode == d.uri.mode == c.uri.mode
            && (c.uri.mode != 3 && Subscribed(b) ==> Subscribed(d))
            && d.newJob == (b.newJob || TakesAt(c, messages, i)) && (TakesAt(c, messages, i) ==> !b.ended)
            && (d.ended ==> b.ended || (c.uri.mode == 1 && !b.newJob && !d.newJob))
            && d.current == if SeenAt(c, messages, i)
                            then WorkAfter(SessionAt(c, messages, i), c.uri.mode, NoticeAt(c, messages, i), b.current)
                            else b.current
  {
    hide Process, After, WorkAfter, Readable, Texts, BlockOf;
    var b := After(c, messages, i);
    SameMode(c, messages, i);
    AfterStep(c, messages, i);
    SessionStep(b, messages[i]);
    JobStep(b, messages[i]);
    if NoticeOf(b, messages[i]).Some? {
      EndsUntaken(b, NoticeOf(b, messages[i]).value);
    }
  }

  lemma EndsUntaken(c: Client, n: Notice)
    ensures Ends(c, n) ==> c.uri.mode == 1 && !c.newJob && !Takes(c, n)
  {
    hide IsHash, Stoul, HashOf, DifficultyOf;
  }

  /** A read that goes to its end dispatches a job exactly when it contains a message that is taken. */
  lemma {:induction false} TakenIff(c: Client, messages: seq<Message>, k: nat)
    requires k <= |messages|
    ensures After(c, messages, k).newJob <==> exists i :: 0 <= i < k && TakesAt(c, messages, i)
  {
    hide Process, After, TakesAt, SeenAt, WorkAfter;
    if k == 0 {
      Beginning(c, messages);
    } else {
      TakenIff(c, messages, k - 1);
      JobAt(c, messages, k - 1);
    }
  }

  lemma Beginning(c: Client, messages: seq<Message>)
    ensures After(c, messages, 0) == c.(newJob := false)
  {
    hide Process;
  }

  /** Once a job is taken the process is not ended any more in that read. */
  lemma {:induction false} NotEnded(c: Client, messages: seq<Message>, k: nat)
    requires k <= |messages| && !c.ended
    ensures After(c, messages, k).newJob ==> !After(c, messages, k).ended
  {
    hide Process, After, TakesAt, SeenAt, WorkAfter;
    if k == 0 {
      Beginning(c, messages);
    } else {
      NotEnded(c, messages, k - 1);
      JobAt(c, messages, k - 1);
    }
  }

  predicate EndsAt(c: Client, messages: seq<Message>, i: nat)
    requires i < |messages|
  {
    SeenAt(c, messages, i) && Ends(After(c, messages, i), NoticeAt(c, messages, i))
  }

  /** A read ends the process exactly when, in mode 1 with a subscribed session and no job taken before it, it has a
      notification whose texts can be read and whose block number is above the limit. */
  lemma {:induction false} EndedIff(c: Client, messages: seq<Message>, k: nat)
    requires k <= |messages| && !c.ended
    ensures After(c, messages, k).ended <==> exists i :: 0 <= i < k && EndsAt(c, messages, i)
  {
    hide Process, After, WorkAfter, Takes, Ends;
    if k == 0 {
      Beginning(c, messages);
    } else {
      EndedIff(c, messages, k - 1);
      AfterStep(c, messages, k - 1);
      JobStep(After(c, messages, k - 1), messages[k - 1]);
      assert After(c, messages, k).ended <==> After(c, messages, k - 1).ended || EndsAt(c, messages, k - 1);
    }
  }

  /** A read dispatches a job exactly when it contains a message that is taken. */
  lemma DispatchedIff(c: Client, messages: seq<Message>)
    requires !c.ended
    ensures Read(c, messages).1.Some? <==> exists i :: 0 <= i < |messages| && TakesAt(c, messages, i)
  {
    hide After, TakesAt;
    TakenIff(c, messages, |messages|);
    NotEnded(c, messages, |messages|);
  }

  // Modes 0 to 2

  /** What a notification in these modes never writes. */
  lemma Unwritten(s: Session, mode: nat, n: Notice, w: Work)
    requires mode != 3
    ensures var v := WorkAfter(s, mode, n, w);
            v.epoch == w.epoch && (mode != 2 ==> v.startNonce == w.startNonce && v.exSizeBytes == w.exSizeBytes)
  {
    hide IsHash, Stoul, HashOf, DifficultyOf;
  }

  /** What a notification that is taken writes is all the rest. */
  lemma Overwritten(s: Session, mode: nat, n: Notice, v: Work, w: Work)
    requires mode != 3 && Readable(s, mode, n)
    requires v.epoch == w.epoch && (mode != 2 ==> v.startNonce == w.startNonce && v.exSizeBytes == w.exSizeBytes)
    ensures WorkAfter(s, mode, n, v) == WorkAfter(s, mode, n, w)
  {
    hide IsHash, Stoul, HashOf, DifficultyOf;
  }

  lemma {:induction false} Untouched(c: Client, messages: seq<Message>, i: nat)
    requires c.uri.mode != 3 && i <= |messages|
    ensures var v := After(c, messages, i).current;
            && v.epoch == c.current.epoch
            && (c.uri.mode != 2 ==> v.startNonce == c.current.startNonce && v.exSizeBytes == c.current.exSizeBytes)
  {
    hide Process, After, TakesAt, SeenAt, WorkAfter;
    if i == 0 {
      Beginning(c, messages);
    } else {
      Untouched(c, messages, i - 1);
      JobAt(c, messages, i - 1);
      if SeenAt(c, messages, i - 1) {
        var w := After(c, messages, i - 1).current;
        Unwritten(SessionAt(c, messages, i - 1), c.uri.mode, NoticeAt(c, messages, i - 1), w);
      }
    }
  }

  /** The work that message i describes, on top of what the client had before the read. */
  function WorkAt(c: Client, messages: seq<Message>, i: nat): Work
    requires i < |messages| && TakesAt(c, messages, i)
  {
    WorkAfter(SessionAt(c, messages, i), c.uri.mode, NoticeAt(c, messages, i), c.current)
  }

  /** From the message whose job is taken on, the job stays the one of that message. */
  lemma {:induction false} Settled(c: Client, messages: seq<Message>, i: nat, k: nat)
    requires i < k <= |messages| && TakesAt(c, messages, i) && c.uri.mode != 3
    ensures var d := After(c, messages, k);
            d.newJob && d.current == WorkAt(c, messages, i) && Subscribed(d)
    decreases k
  {
    hide Process, After, WorkAfter, Readable;
    JobAt(c, messages, k - 1);
    if k - 1 == i {
      SameMode(c, messages, i);
      Untouched(c, messages, i);
      Overwritten(SessionAt(c, messages, i), c.uri.mode, NoticeAt(c, messages, i),
                  After(c, messages, i).current, c.current);
    } else {
      Settled(c, messages, i, k - 1);
      SameMode(c, messages, k - 1);
    }
  }

  /** In modes 0 to 2 the first job that is taken in a read is dispatched, exactly as its message describes it, without
      a trace of notifications that were given up on before it; no other is taken; and the session is subscribed both
      when it is taken and when it is dispatched. */
  lemma FirstJobWins(c: Client, messages: seq<Message>, i: nat)
    requires c.uri.mode != 3 && !c.ended && i < |messages| && TakesAt(c, messages, i)
    ensures Read(c, messages).1 == Some(WorkAt(c, messages, i))
    ensures Subscribed(After(c, messages, i)) && Subscribed(Read(c, messages).0)
    ensures forall j :: 0 <= j < |messages| && j != i ==> !TakesAt(c, messages, j)
  {
    hide Process, After, WorkAfter, Readable;
    SameMode(c, messages, i);
    Settled(c, messages, i, |messages|);
    NotEnded(c, messages, |messages|);
    forall j | 0 <= j < |messages| && j != i
      ensures !TakesAt(c, messages, j)
    {
      SameMode(c, messages, j);
      if j > i {
        Settled(c, messages, i, j);
      } else if TakesAt(c, messages, j) {
        Settled(c, messages, j, i);
      }
    }
  }

  // Mode 3

  /** How far a notification that is looked at is read: to its name, its block number, or its header. */
  datatype Extent = Name | BlockNumber | Header

  predicate Reaches(p: Json, e: Extent) {
    match e case Name => Names(p) case BlockNumber => Numbers(p) case Header => Heads(p)
  }

  predicate ReachesAt(c: Client, messages: seq<Message>, e: Extent, i: nat)
    requires i < |messages|
  {
    SeenAt(c, messages, i) && Reaches(NoticeAt(c, messages, i).params, e)
  }

  /** The last position from i on, before k, at which a notification was read so far, or else i. */
  function Last(c: Client, messages: seq<Message>, e: Extent, i: nat, k: nat): (j: nat)
    requires i < k <= |messages|
    ensures i <= j < k
    decreases k
  {
    if k - 1 == i then i
    else if ReachesAt(c, messages, e, k - 1) then k - 1
    else Last(c, messages, e, i, k - 1)
  }

  lemma {:induction false} LastIsLast(c: Client, messages: seq<Message>, e: Extent, i: nat, k: nat)
    requires i < k <= |messages| && ReachesAt(c, messages, e, i)
    ensures var j := Last(c, messages, e, i, k);
            ReachesAt(c, messages, e, j) && forall l :: j < l < k ==> !ReachesAt(c, messages, e, l)
    decreases k
  {
    hide ReachesAt;
    if k - 1 == i {
    } else {
      LastIsLast(c, messages, e, i, k - 1);
    }
  }

  /** The package put together from a name, a block number, a header with the session it was read in, and a difficulty
      that come from different messages. */
  function Mixed(w: Work, name: Json, number: Json, header: Json, s: Session, difficulty: real): Work
    requires Names(name) && Numbers(number) && Heads(header)
  {
    Work(name.fields[0].text, HashOf(Padded(header.fields[2].text)), w.seed, s.boundary,
         ToInt(Stoul(number.fields[1].text).value), ToInt(s.epoch), s.extraNonce, s.extraNonceSize % 0x1_0000,
         difficulty)
  }

  function ParamsAt(c: Client, messages: seq<Message>, i: nat): Json
    requires i < |messages| && SeenAt(c, messages, i)
  {
    NoticeAt(c, messages, i).params
  }

  /** The package after k messages when message i was the last to be taken: name, block number and header each come from
      the last message that was read that far, the difficulty from message i. */
  function MixedAt(c: Client, messages: seq<Message>, i: nat, k: nat): Work
    requires i < k <= |messages| && c.uri.mode == 3 && TakesAt(c, messages, i)
  {
    TakenReaches(c, messages, i);
    LastIsLast(c, messages, Name, i, k);
    LastIsLast(c, messages, BlockNumber, i, k);
    LastIsLast(c, messages, Header, i, k);
    var h := Last(c, messages, Header, i, k);
    var s := SessionAt(c, messages, i);
    Mixed(c.current, ParamsAt(c, messages, Last(c, messages, Name, i, k)),
          ParamsAt(c, messages, Last(c, messages, BlockNumber, i, k)), ParamsAt(c, messages, h),
          SessionAt(c, messages, h), DifficultyOf(s, s.boundary).value)
  }

  lemma TakenReaches(c: Client, messages: seq<Message>, i: nat)
    requires i < |messages| && c.uri.mode == 3 && TakesAt(c, messages, i)
    ensures forall e :: ReachesAt(c, messages, e, i)
    ensures var s := SessionAt(c, messages, i); DifficultyOf(s, s.boundary).Some?
  {
    hide After, IsHash, Stoul, HashOf, DifficultyOf;
  }

  lemma {:induction false} SeedKept(c: Client, messages: seq<Message>, i: nat)
    requires c.uri.mode == 3 && i <= |messages|
    ensures After(c, messages, i).current.seed == c.current.seed
  {
    hide Process, After, TakesAt, SeenAt, Names, Numbers, Heads, TwoReadable;
    if i == 0 {
      Beginning(c, messages);
    } else {
      SeedKept(c, messages, i - 1);
      JobAt(c, messages, i - 1);
    }
  }

  /** One more notification, not taken, on a mixed package. */
  lemma MixedStep(w: Work, name: Json, number: Json, header: Json, s: Session, difficulty: real, t: Session, p: Json)
    requires Names(name) && Numbers(number) && Heads(header) && !TwoReadable(t, p)
    ensures TwoWork(t, p, Mixed(w, name, number, header, s, difficulty))
         == Mixed(w, if Names(p) then p else name, if Numbers(p) then p else number, if Heads(p) then p else header,
                  if Heads(p) then t else s, difficulty)
  {
    hide IsHash, Stoul, HashOf, DifficultyOf;
  }

  lemma MixedFirst(w: Work, v: Work, s: Session, p: Json)
    requires TwoReadable(s, p) && v.seed == w.seed
    ensures TwoWork(s, p, v) == Mixed(w, p, p, p, s, DifficultyOf(s, s.boundary).value)
  {
    hide IsHash, Stoul, HashOf, DifficultyOf;
  }

  lemma LastStep(c: Client, messages: seq<Message>, e: Extent, i: nat, k: nat)
    requires i < k <= |messages|
    ensures Last(c, messages, e, i, k) ==
            if k - 1 == i || ReachesAt(c, messages, e, k - 1) then k - 1 else Last(c, messages, e, i, k - 1)
  {
    hide ReachesAt;
  }

  lemma {:induction false} MixedAfter(c: Client, messages: seq<Message>, i: nat, k: nat)
    requires i < k <= |messages| && c.uri.mode == 3 && TakesAt(c, messages, i)
    requires forall j :: i < j < k ==> !TakesAt(c, messages, j)
    ensures After(c, messages, k).newJob && After(c, messages, k).current == MixedAt(c, messages, i, k)
    decreases k
  {
    hide Process, After, Names, Numbers, Heads, TwoReadable, TwoWork, Mixed, Last;
    TakenReaches(c, messages, i);
    JobAt(c, messages, k - 1);
    LastStep(c, messages, Name, i, k);
    LastStep(c, messages, BlockNumber, i, k);
    LastStep(c, messages, Header, i, k);
    if k - 1 == i {
      SeedKept(c, messages, i);
      MixedFirst(c.current, After(c, messages, i).current, SessionAt(c, messages, i), ParamsAt(c, messages, i));
    } else {
      MixedAfter(c, messages, i, k - 1);
      LastIsLast(c, messages, Name, i, k - 1);
      LastIsLast(c, messages, BlockNumber, i, k - 1);
      LastIsLast(c, messages, Header, i, k - 1);
      if SeenAt(c, messages, k - 1) {
        assert !TakesAt(c, messages, k - 1);
        var h := Last(c, messages, Header, i, k - 1);
        var s := SessionAt(c, messages, i);
        MixedStep(c.current, ParamsAt(c, messages, Last(c, messages, Name, i, k - 1)),
                  ParamsAt(c, messages, Last(c, messages, BlockNumber, i, k - 1)), ParamsAt(c, messages, h),
                  SessionAt(c, messages, h), DifficultyOf(s, s.boundary).value,
                  SessionAt(c, messages, k - 1), ParamsAt(c, messages, k - 1));
      }
    }
  }

  /** In mode 3 a read with a job that is taken dispatches a package in which the difficulty is that of the last job
      taken, while name, block number and header come from the last notifications that were read that far. */
  lemma LastJobWins(c: Client, messages: seq<Message>, i: nat)
    requires c.uri.mode == 3 && !c.ended && i < |messages| && TakesAt(c, messages, i)
    requires forall j :: i < j < |messages| ==> !TakesAt(c, messages, j)
    ensures Read(c, messages).1 == Some(MixedAt(c, messages, i, |messages|))
    ensures SessionAt(c, messages, i).firstMiningSet
  {
    hide After, MixedAt, TakesAt;
    MixedAfter(c, messages, i, |messages|);
    NotEnded(c, messages, |messages|);
    MiningWasSet(c, messages, i);
  }

  lemma MiningWasSet(c: Client, messages: seq<Message>, i: nat)
    requires c.uri.mode == 3 && i < |messages| && TakesAt(c, messages, i)
    ensures SessionAt(c, messages, i).firstMiningSet
  {
    hide After, Readable;
    SameMode(c, messages, i);
  }

  /** The package is all of one message exactly when no notification after it is read to its name; and then it is what
      that message describes. */
  lemma UnmixedIff(c: Client, messages: seq<Message>, i: nat)
    requires c.uri.mode == 3 && !c.ended && i < |messages| && TakesAt(c, messages, i)
    requires forall j :: i < j < |messages| ==> !TakesAt(c, messages, j)
    ensures (forall e :: Last(c, messages, e, i, |messages|) == i)
            <==> forall j :: i < j < |messages| ==> !ReachesAt(c, messages, Name, j)
    ensures (forall j :: i < j < |messages| ==> !ReachesAt(c, messages, Name, j)) ==>
            Read(c, messages).1 == Some(WorkAt(c, messages, i))
  {
    hide After, IsHash, Stoul, HashOf, DifficultyOf, Gate, Read;
    if j :| i < j < |messages| && ReachesAt(c, messages, Name, j) {
      TakenReaches(c, messages, i);
      LastIsLast(c, messages, Name, i, |messages|);
      assert Last(c, messages, Name, i, |messages|) != i;
    } else {
      forall e: Extent
        ensures Last(c, messages, e, i, |messages|) == i
      {
        TakenReaches(c, messages, i);
        LastIsLast(c, messages, e, i, |messages|);
        assert ReachesAt(c, messages, Name, Last(c, messages, e, i, |messages|));
      }
    }
    LastJobWins(c, messages, i);
    MixedFirst(c.current, c.current, SessionAt(c, messages, i), ParamsAt(c, messages, i));
  }

  /** And packages do get mixed: a notification whose header is not hexadecimal leaves its name and block number on the
      job before it. */
  lemma JobsAreMixed(c: Client, a: Json)
    requires Gate(c) && c.uri.mode == 3 && TwoReadable(c.session.value, a)
    ensures var b := Array([Text("b"), Text("1"), Text("zz"), Text("0")]);
            Read(c, [Notify(Notice(Missing, a)), Notify(Notice(Missing, b))]).1
              == Some(TwoWork(c.session.value, a, c.current).(job := "b", block := 1))
  {
    hide Stoul, HashOf, DifficultyOf, IsHash;
    var b := Array([Text("b"), Text("1"), Text("zz"), Text("0")]);
    BadHeader(b);
    var m, n := Notify(Notice(Missing, a)), Notify(Notice(Missing, b));
    var messages := [m, n];
    var c1 := Process(c.(newJob := false), m);
    AfterStep(c, messages, 0);
    AfterStep(c, messages, 1);
    assert After(c, messages, 2) == Process(c1, n);
    assert c1 == c.(current := TwoWork(c.session.value, a, c.current), newJob := true);
  }

  lemma BadHeader(b: Json)
    requires b == Array([Text("b"), Text("1"), Text("zz"), Text("0")])
    ensures Numbers(b) && !Heads(b) && Stoul("1") == Some(1)
  {
    hide Stoul;
    StoulDigits("1");
    ParseOne('1');
    var t := Padded("zz");
    assert Stripped(t)[63] == 'z';
  }

  /** A hello reply that starts the session over. */
  predicate RestartsAt(messages: seq<Message>, i: nat)
    requires i < |messages|
  {
    messages[i].Reply1? && messages[i].hello
  }

  predicate SetsAt(messages: seq<Message>, i: nat)
    requires i < |messages|
  {
    messages[i].MiningSet? && messages[i].isObject
  }

  /** The session starts over at j, and no mining.set follows before k. */
  predicate LostAt(messages: seq<Message>, j: nat, k: nat)
    requires j < k <= |messages|
  {
    RestartsAt(messages, j) && forall l :: j < l < k ==> !SetsAt(messages, l)
  }

  lemma GateStep(c: Client, m: Message)
    requires c.uri.mode == 3 && c.uri.confirmed && c.session.Some? && !c.ended
    ensures var d := Process(c, m);
            && d.uri.mode == 3 && d.uri.confirmed && d.session.Some? && !d.ended
            && d.session.value.firstMiningSet ==
                 if m.Reply1? && m.hello then false
                 else if m.MiningSet? && m.isObject then true
                 else c.session.value.firstMiningSet
  {
    hide WorkAfter, Takes, Instructed, WithExtranonce, Texts, BlockOf;
    FlagsKept(c.session.value, c.uri.mode, m);
    if m.Reply1? {
      StartedFlags(c.uri.mode, m.extranonce);
    }
  }

  lemma LostLonger(messages: seq<Message>, j: nat, k: nat)
    requires j < k - 1 < |messages|
    ensures LostAt(messages, j, k) <==> LostAt(messages, j, k - 1) && !SetsAt(messages, k - 1)
  {
  }

  /** When the job is dispatched, its session may have been started over since it was taken. The session then lacks
      mining.set exactly when a hello reply came after the job with no mining.set after it. */
  lemma {:induction false} GateAtDispatch(c: Client, messages: seq<Message>, i: nat, k: nat)
    requires c.uri.mode == 3 && i < k <= |messages| && TakesAt(c, messages, i)
    ensures var d := After(c, messages, k);
            && d.uri.mode == 3 && d.uri.confirmed && d.session.Some? && !d.ended
            && (!d.session.value.firstMiningSet <==>
                  exists j :: i < j < k && LostAt(messages, j, k))
    decreases k
  {
    hide Process, After, Readable;
    var b := After(c, messages, k - 1);
    AfterStep(c, messages, k - 1);
    if k - 1 == i {
      SameMode(c, messages, i);
      GateStep(b, messages[i]);
    } else {
      GateAtDispatch(c, messages, i, k - 1);
      GateStep(b, messages[k - 1]);
      assert LostAt(messages, k - 1, k) <==> RestartsAt(messages, k - 1);
      forall j | i < j < k - 1
        ensures LostAt(messages, j, k) <==> LostAt(messages, j, k - 1) && !SetsAt(messages, k - 1)
      {
        LostLonger(messages, j, k);
      }
      if !b.session.value.firstMiningSet {
        var j :| i < j < k - 1 && LostAt(messages, j, k - 1);
        LostLonger(messages, j, k);
      }
    }
  }
}
