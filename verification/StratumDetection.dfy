/** What the auto-detection of the stratum mode finds, and how a session is then set up. */
module StratumDetection {
  import opened Prelude
  import opened StratumClient
  import opened StratumFields

  /** The pool's answer to a request in a mode it does not speak; a timeout counts as an error reply. */
  predicate Refuses(mode: nat, m: Message) {
    m.Other? || (m.Reply1? && (m.error || !Speaks(mode, m)))
  }

  predicate AllRefuse(mode: nat, messages: seq<Message>) {
    forall i :: 0 <= i < |messages| ==> Refuses(mode, messages[i])
  }

  lemma {:induction false} RefusedAll(c: Client, messages: seq<Message>)
    requires !c.uri.confirmed && !c.ended && AllRefuse(c.uri.mode, messages)
    ensures ProcessAll(c, messages) == c
    decreases |messages|
  {
    hide Instructed, Notified;
    if messages == [] {
    } else {
      RefusedAll(c, messages[..|messages| - 1]);
      assert Refuses(c.uri.mode, messages[|messages| - 1]);
    }
  }

  lemma RefusedRead(c: Client, messages: seq<Message>)
    requires !c.uri.confirmed && !c.ended && AllRefuse(c.uri.mode, messages)
    ensures Read(c, messages).0 == c.(newJob := false)
  {
    hide ProcessAll;
    assert messages[..|messages|] == messages;
    RefusedAll(c.(newJob := false), messages);
  }

  /** One attempt that connects, is refused, and is dropped. */
  function Round(messages: seq<Message>): seq<Event> {
    [Starting, Answered(Established), Received(messages), Dropped]
  }

  function Rounds(tries: seq<seq<Message>>): seq<Event> {
    if tries == [] then [] else Round(tries[0]) + Rounds(tries[1..])
  }

  /** Ready to try, with nothing confirmed. */
  predicate Trying(c: Client) {
    && c.phase == Posted && c.endpoints > 0 && !c.ended
    && c.uri.version == AUTO && !c.uri.confirmed && !c.uri.unrecoverable
    && (c.uri.mode == AUTO || c.uri.mode <= 3)
  }

  /** The mode that the next connection is opened in. */
  function NextMode(c: Client): nat {
    if c.uri.mode == AUTO then 3 else c.uri.mode
  }

  lemma RunFour(c: Client, a: Event, b: Event, d: Event, e: Event)
    requires Enabled(c, a) && Enabled(Next(c, a), b) && Enabled(Next(Next(c, a), b), d)
    requires Enabled(Next(Next(Next(c, a), b), d), e)
    ensures Run(c, [a, b, d, e]) == Next(Next(Next(Next(c, a), b), d), e)
    ensures Run(c, [a, b, d]) == Next(Next(Next(c, a), b), d)
  {
    hide Next, Enabled;
    var c1 := Next(c, a);
    var c2 := Next(c1, b);
    RunStep(c, a, [b, d, e]);
    RunStep(c1, b, [d, e]);
    RunStep(c2, d, [e]);
    RunStep(Next(c2, d), e, []);
    RunStep(c, a, [b, d]);
    RunStep(c1, b, [d]);
    RunStep(c2, d, []);
    RunNothing(Next(c2, d));
    RunNothing(Next(Next(c2, d), e));
  }

  lemma RunNothing(c: Client)
    ensures Run(c, []) == c
  {
  }

  lemma RunStep(c: Client, e: Event, rest: seq<Event>)
    requires Enabled(c, e)
    ensures Run(c, [e] + rest) == Run(Next(c, e), rest)
  {
    hide Next, Enabled;
    assert ([e] + rest)[1..] == rest;
  }

  /** An attempt opens in the next mode. */
  function Opened(c: Client): Client {
    var mode := NextMode(c);
    c.(phase := Open, connects := c.connects + 1, uri := c.uri.(responds := true, mode := mode))
  }

  lemma Opens(c: Client)
    requires Trying(c)
    ensures Enabled(c, Starting) && Enabled(Next(c, Starting), Answered(Established))
    ensures Next(Next(c, Starting), Answered(Established)) == Opened(c)
  {
  }

  /** A refused attempt in mode 3, 2 or 1 leads to one in the mode below; in mode 0 the connection is given up. */
  lemma OneRound(c: Client, messages: seq<Message>)
    requires Trying(c) && AllRefuse(NextMode(c), messages)
    ensures var d := Run(c, Round(messages));
            && d.connects == c.connects + 1 && !d.uri.confirmed
            && if NextMode(c) > 0 then Trying(d) && d.uri.mode == NextMode(c) - 1
               else d.phase == Reported && d.uri.unrecoverable
  {
    hide Run, Read;
    var o := Opened(c);
    Opens(c);
    RefusedRead(o, messages);
    RunFour(c, Starting, Answered(Established), Received(messages), Dropped);
  }

  lemma {:induction false} AfterRounds(c: Client, tries: seq<seq<Message>>)
    requires Trying(c) && |tries| <= NextMode(c)
    requires forall i :: 0 <= i < |tries| ==> AllRefuse(NextMode(c) - i, tries[i])
    ensures var d := Run(c, Rounds(tries));
            Trying(d) && NextMode(d) == NextMode(c) - |tries| && d.connects == c.connects + |tries|
    decreases |tries|
  {
    hide AllRefuse;
    if tries == [] {
      RunNothing(c);
    } else {
      var d := Run(c, Round(tries[0]));
      OneRound(c, tries[0]);
      AfterRounds(d, tries[1..]);
      RunAppend(c, Round(tries[0]), Rounds(tries[1..]));
    }
  }

  /** Whatever mode m the pool speaks, if it accepts connections and refuses the modes above, the detection reaches m
      after one connection in each of them, confirms it and starts a session. */
  lemma DetectionFinds(c: Client, m: nat, tries: seq<seq<Message>>, reply: Message)
    requires Trying(c) && m <= NextMode(c) && |tries| == NextMode(c) - m
    requires forall i :: 0 <= i < |tries| ==> AllRefuse(NextMode(c) - i, tries[i])
    requires reply.Reply1? && !reply.error && Speaks(m, reply)
    ensures var d := Run(c, Rounds(tries) + [Starting, Answered(Established), Received([reply])]);
            && d.uri.confirmed && d.uri.mode == m && d.session.Some? && d.phase == Open && !d.uri.unrecoverable
            && d.connects == c.connects + |tries| + 1
  {
    hide Run, AllRefuse;
    var d := Run(c, Rounds(tries));
    AfterRounds(c, tries);
    RunAppend(c, Rounds(tries), [Starting, Answered(Established), Received([reply])]);
    Confirms(d, reply);
  }

  lemma Confirms(c: Client, reply: Message)
    requires Trying(c) && reply.Reply1? && !reply.error && Speaks(NextMode(c), reply)
    ensures var d := Run(c, [Starting, Answered(Established), Received([reply])]);
            && d.uri.confirmed && d.uri.mode == NextMode(c) && d.session.Some? && d.phase == Open
            && !d.uri.unrecoverable && d.connects == c.connects + 1
  {
    hide Run, ProcessAll, Started;
    var o := Opened(c);
    Opens(c);
    ProcessOne(o.(newJob := false), reply);
    assert [reply][..1] == [reply];
    RunFour(c, Starting, Answered(Established), Received([reply]), Dropped);
  }

  lemma ProcessOne(c: Client, m: Message)
    ensures ProcessAll(c, [m]) == Process(c, m)
  {
    hide Process;
    assert [m][..0] == [];
  }

  /** The replies of a pool that speaks mode m alone. */
  function Greeting(m: nat, extranonce: Field): Message {
    Reply1(false, m == 3, m == 2, extranonce)
  }

  function Rejection(): Message {
    Reply1(true, false, false, Text(""))
  }

  /** For a connection that was never tried, and each mode: a pool that rejects the modes above is found in its own. */
  lemma EachModeIsFound(n: nat, m: nat, extranonce: Field)
    requires n > 0 && m <= 3
    ensures var c := Connect(Init(AUTO), n);
            var tries := seq(3 - m, _ => [Rejection()]);
            var d := Run(c, Rounds(tries) + [Starting, Answered(Established), Received([Greeting(m, extranonce)])]);
            && d.uri.confirmed && d.uri.mode == m && d.session.Some? && d.phase == Open && d.connects == 4 - m
  {
    hide Run, Rounds;
    DetectionFinds(Connect(Init(AUTO), n), m, seq(3 - m, _ => [Rejection()]), Greeting(m, extranonce));
  }

  /** Connection attempts that are all refused, as many as there are addresses, and the last look for another. */
  function Refusals(n: nat): seq<Event> {
    if n == 0 then [Starting] else [Starting, Answered(Refused)] + Refusals(n - 1)
  }

  lemma {:induction false} RefusedByAll(c: Client, n: nat)
    requires c.phase == Posted && c.endpoints == n && !c.ended && !c.uri.responds
    ensures var d := Run(c, Refusals(n));
            d.phase == Reported && d.uri == c.uri && d.connects == c.connects + n && d.session.None?
    decreases n
  {
    hide Run;
    if n == 0 {
      RunStep(c, Starting, []);
      assert [Starting] + [] == Refusals(0);
      RunNothing(Next(c, Starting));
    } else {
      var c1 := Next(c, Starting);
      var c2 := Next(c1, Answered(Refused));
      RunStep(c, Starting, [Answered(Refused)] + Refusals(n - 1));
      RunStep(c1, Answered(Refused), Refusals(n - 1));
      assert [Starting] + ([Answered(Refused)] + Refusals(n - 1)) == Refusals(n);
      RefusedByAll(c2, n - 1);
    }
  }

  /** A host none of whose addresses answers is reported as disconnected and loses nothing: mode and confirmation stay,
      and it is not given up, even if it answered in an earlier round. */
  lemma UnreachableStaysRecoverable(c: Client, n: nat)
    requires c.phase == Idle || c.phase == Reported
    requires !c.ended
    ensures var d := Run(Connect(c, n), Refusals(n));
            && d.phase == Reported && d.uri == c.uri.(responds := false) && d.connects == c.connects + n
  {
    RefusedByAll(Connect(c, n), n);
  }

  /** A pool that refuses every mode is given up after a connection in each of the modes 3, 2, 1 and 0. */
  lemma DetectionGivesUp(c: Client, tries: seq<seq<Message>>)
    requires Trying(c) && c.uri.mode == AUTO && |tries| == 4
    requires forall i :: 0 <= i < 4 ==> AllRefuse(3 - i, tries[i])
    ensures var d := Run(c, Rounds(tries[..3]) + Round(tries[3]));
            d.uri.unrecoverable && !d.uri.confirmed && d.phase == Reported && d.connects == c.connects + 4
  {
    hide Run, AllRefuse;
    AfterRounds(c, tries[..3]);
    OneRound(Run(c, Rounds(tries[..3])), tries[3]);
    RunAppend(c, Rounds(tries[..3]), Round(tries[3]));
  }

  /** A connection with a given version opens in that mode, confirmed; a first reply that does not speak it gives the
      connection up at once, one that does starts a session. */
  lemma FixedMode(c: Client, reply: Message)
    requires c.phase == Connecting && c.endpoints > 0 && c.uri.version <= 3 && !c.uri.unrecoverable && !c.ended
    requires reply.Reply1?
    ensures var o := Next(c, Answered(Established));
            var d := Process(o, reply);
            && o.phase == Open && o.uri.confirmed && o.uri.mode == c.uri.version
            && d.uri.mode == c.uri.version
            && d.uri.unrecoverable == !Speaks(c.uri.version, reply)
            && (Speaks(c.uri.version, reply) ==> d.session.Some?)
  {
    hide Started;
  }

  /** A failed TLS handshake gives the connection up at once. */
  lemma BadCertificate(c: Client)
    requires c.phase == Connecting && c.endpoints > 0 && !c.ended
    ensures var d := Next(c, Answered(HandshakeFailed));
            d.phase == Reported && d.uri.unrecoverable && d.session.None? && d.uri.mode == c.uri.mode
  {
  }

  // Logging in

  /** The replies that log a worker in, and what they leave: a session that is subscribed and authorized. */
  function Login(mode: nat, extranonce: Field): seq<Message> {
    var first := Reply1(false, true, true, extranonce);
    if mode == 3 then [first, Reply2(true), Reply3(true, true)]
    else if mode == 1 then [first]
    else [first, Reply3(true, false)]
  }

  lemma LoggedIn(c: Client, extranonce: Field)
    requires c.uri.mode <= 3 && !c.ended && c.phase == Open
    ensures var d := ProcessAll(c, Login(c.uri.mode, extranonce));
            && d.session.Some? && d.session.value.subscribed && d.session.value.authorized
            && d.uri.confirmed && d.uri.unrecoverable == c.uri.unrecoverable
            && (c.uri.mode != 1 ==> !d.authPending)
  {
    hide ProcessAll, WithExtranonce, Resized, Stoul, Notified, Instructed;
    var first := Reply1(false, true, true, extranonce);
    ProcessOne(c, first);
    if c.uri.mode == 3 {
      ProcessMore(c, [first], Reply2(true));
      ProcessMore(c, [first, Reply2(true)], Reply3(true, true));
      assert [first] + [Reply2(true)] == [first, Reply2(true)];
      assert [first, Reply2(true)] + [Reply3(true, true)] == Login(3, extranonce);
    } else if c.uri.mode != 1 {
      ProcessMore(c, [first], Reply3(true, false));
      assert [first] + [Reply3(true, false)] == Login(c.uri.mode, extranonce);
    }
    SubscribedFirst(c.uri.mode, extranonce);
  }

  /** The first reply leaves an authorization to be awaited in modes 0 and 2, unless its extranonce cannot be read. */
  lemma AuthorizationAwaited(c: Client, extranonce: string)
    requires c.uri.mode <= 3 && !c.ended && !c.authPending
    ensures Process(c, Reply1(false, true, true, Text(extranonce))).authPending
            == (c.uri.mode == 0 || (c.uri.mode == 2 && (extranonce == "" || Stoul(Resized(extranonce)).Some?)))
  {
    hide WithExtranonce, Resized, Stoul;
  }

  lemma SubscribedFirst(mode: nat, extranonce: Field)
    ensures var s := Started(mode, extranonce).0; s.subscribed == (mode != 3) && s.authorized == (mode == 1)
  {
    hide Resized, Stoul;
  }

  lemma ProcessMore(c: Client, messages: seq<Message>, m: Message)
    ensures ProcessAll(c, messages + [m]) == Process(ProcessAll(c, messages), m)
  {
    hide Process;
    assert (messages + [m])[..|messages|] == messages;
  }

  /** A refused authorization gives the connection up, in every mode; so does a subscription without a session id in
      mode 3; and so does a connection lost while the authorization is awaited, and only then. */
  lemma Unauthorized(c: Client, workerId: bool)
    requires !c.ended && c.session.Some?
    ensures Process(c, Reply3(false, workerId)).uri.unrecoverable
    ensures c.uri.mode == 3 ==> Process(c, Reply2(false)).uri.unrecoverable
    ensures c.phase == Open && c.uri.confirmed ==>
              var d := Next(c, ReadFailed);
              && d.phase == Reported && d.uri.unrecoverable == (c.uri.unrecoverable || c.authPending)
              && d.session.None? && !d.authPending
  {
  }
}
