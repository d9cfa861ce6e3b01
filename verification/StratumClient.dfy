/** The stratum client (EthStratumClient.cpp): connecting with auto-detection of the stratum mode, the session, and
    which job of a read is dispatched. Sockets, TLS and JSON are the environment; a message stands for what its JSON
    was found to say. */
module StratumClient {

  import opened CommonData
  import opened Prelude
  import opened StratumFields
  import NonceSegments

  const AUTO: nat := 999

  /** The connection definition, which outlives the client: mode 0 to 3, or 999 while nothing is known. */
  datatype Uri = Uri(version: nat, mode: nat, confirmed: bool, unrecoverable: bool, responds: bool)

  /** `boundary` and `difficulty` are those of the next work; no difficulty is 0. */
  datatype Session = Session(
    subscribed: bool, authorized: bool, firstMiningSet: bool, extraNonceSize: nat, extraNonce: nat,
    boundary: nat, difficulty: real, epoch: nat)

  /** The work package. */
  datatype Work = Work(
    job: string, header: nat, seed: nat, boundary: nat, block: int, epoch: int, startNonce: nat, exSizeBytes: nat,
    difficulty: real)

  /** Posted: start_connect is queued. Open: the socket is connected. Reported: the disconnected handler was called. */
  datatype Phase = Idle | Posted | Connecting | Open | Reported

  /** `ended`: something was thrown that nothing catches, and the process is gone. */
  datatype Client = Client(
    uri: Uri, endpoints: nat, phase: Phase, connects: nat,
    session: Option<Session>, authPending: bool, current: Work, newJob: bool, ended: bool)

  /** The members of a message that a job is read from. */
  datatype Notice = Notice(result: Json, params: Json)

  /** What a line was found to say. One that throws before it changes anything is Other. */
  datatype Message =
    | Reply1(error: bool, hello: bool, subscribe: bool, extranonce: Field)  // to the first request
    | Reply2(sessionId: bool)                                               // to mining.subscribe in mode 3
    | Reply3(success: bool, workerId: bool)                                 // to mining.authorize
    | WorkReply(notice: Notice)                                             // to eth_getWork
    | Notify(notice: Notice)
    | MiningSet(isObject: bool, timeout: Field, epoch: Field, target: Field, extranonce: Field)
    | SetTarget(params: Json)
    | SetDifficulty(asked: real, boundary: nat)                             // with the boundary computed for it
    | SetExtranonce(params: Json)
    | Other                                                                 // changes nothing here

  // Connecting

  /** disconnect_finalize */
  function Finalize(c: Client): Client {
    var d := c.(session := None, authPending := false);
    if !c.uri.unrecoverable && !c.uri.confirmed && c.uri.responds then
      if c.uri.mode > 0 then d.(uri := c.uri.(mode := c.uri.mode - 1), phase := Posted)
      else d.(uri := c.uri.(unrecoverable := true), phase := Reported)
    else d.(phase := Reported)
  }

  function Connect(c: Client, endpoints: nat): Client {
    c.(uri := c.uri.(responds := false), endpoints := endpoints, phase := Posted, session := None, authPending := false)
  }

  function StartConnect(c: Client): Client {
    if c.endpoints > 0 then c.(phase := Connecting, connects := c.connects + 1) else Finalize(c)
  }

  datatype Result = Refused | HandshakeFailed | Established

  function ConnectHandler(c: Client, r: Result): Client
    requires c.endpoints > 0
  {
    match r
    case Refused => c.(endpoints := c.endpoints - 1, phase := Posted)
    case HandshakeFailed => Finalize(c.(uri := c.uri.(responds := true, unrecoverable := true)))
    case Established =>
      c.(phase := Open,
         uri := if c.uri.version < AUTO then c.uri.(responds := true, mode := c.uri.version, confirmed := true)
                else if !c.uri.confirmed && c.uri.mode == AUTO then c.uri.(responds := true, mode := 3)
                else c.uri.(responds := true))
  }

  // Messages

  predicate Subscribed(c: Client) {
    c.session.Some? && c.session.value.subscribed
  }

  /** The first reply shows that the pool speaks the mode being tried. */
  predicate Speaks(mode: nat, m: Message)
    requires m.Reply1?
  {
    if mode == 3 then m.hello else if mode == 2 then m.subscribe else !m.error
  }

  /** processExtranonce: the size is stored before the number is read, which may throw. */
  function WithExtranonce(s: Session, enonce: string): Session {
    var v := Stoul(Resized(enonce));
    s.(extraNonceSize := |enonce|, extraNonce := if v.Some? then v.value else s.extraNonce)
  }

  /** resize(16, '0') */
  function Resized(enonce: string): string {
    if |enonce| <= 16 then enonce + Zeros(16 - |enonce|) else enonce[..16]
  }

  const DEFAULT_BOUNDARY: nat := 0xffff_0000_0000_0000_0000_0000_0000_0000_0000_0000_0000_0000_0000_0000

  function NewSession(): Session {
    Session(false, false, false, 0, 0, DEFAULT_BOUNDARY, 0.0, 0)
  }

  /** The session that a first reply starts, and whether its extranonce, read in mode 2 only, could be read. */
  function Started(mode: nat, extranonce: Field): (Session, bool) {
    var s := NewSession().(subscribed := mode != 3, authorized := mode == 1);
    if mode != 2 || extranonce == Text("") then (s, true)
    else if extranonce.NotText? then (s, false)
    else (WithExtranonce(s, extranonce.text), Stoul(Resized(extranonce.text)).Some?)
  }

  function FirstReply(c: Client, m: Message): Client
    requires m.Reply1?
  {
    if (m.error && !c.uri.confirmed) || c.uri.mode > 3 then c
    else if Speaks(c.uri.mode, m) then
      var started := Started(c.uri.mode, m.extranonce);
      c.(uri := c.uri.(confirmed := true), session := Some(started.0),
         authPending := c.authPending || ((c.uri.mode == 0 || c.uri.mode == 2) && started.1))
    else if c.uri.confirmed then c.(uri := c.uri.(unrecoverable := true))
    else c
  }

  // Difficulty and target

  const DIVIDEND: nat := 0xffff_0000_0000_0000_0000_0000_0000_0000_0000_0000_0000_0000_0000_0000_0000_0000

  /** The difficulty of work with this boundary; None where the division by a zero boundary throws. */
  function DifficultyOf(s: Session, boundary: nat): Option<real> {
    if s.difficulty != 0.0 then Some(s.difficulty)
    else if boundary == 0 then None
    else Some((DIVIDEND / boundary) as real)
  }

  /** Text padded on the left to 64 digits, after 0x. */
  function Padded(s: string): string {
    "0x" + (if |s| < 64 then Zeros(64 - |s|) + s else s)
  }

  /** A share target in modes 0 and 1 is padded to 66 characters, its first two replaced whatever they are. */
  function ShareTarget(s: string): string
    requires |s| >= 2
  {
    if |s| < 66 then "0x" + Zeros(66 - |s|) + s[2..] else s
  }

  // Job notifications in modes 0 and 1: how far the fields can be read

  datatype Block = Number(value: int) | Unreadable | TooLarge

  const MAX_BLOCK: int := 0x966_0180

  /** The block number that only some pools send, in mode 1; too large a one throws what nothing catches. */
  function BlockOf(mode: nat, p: seq<Field>, first: nat): Block {
    if mode != 1 || |p| <= first + 3 then Number(-1)
    else if p[first + 3].NotText? then Unreadable
    else
      var s := p[first + 3].text;
      var v := Stoul(s);
      if !(|s| >= 2 && s[..2] == "0x") || v.None? then Number(-1)
      else if ToInt(v.value) > MAX_BLOCK then TooLarge
      else Number(ToInt(v.value))
  }

  /** The member that holds the parameters. */
  function ParamsOf(mode: nat, n: Notice): Json {
    if mode == 1 && !n.result.Missing? then n.result else n.params
  }

  /** Where the header is among them, modes 0 and 1. */
  function FirstOf(mode: nat, n: Notice): nat {
    if mode == 1 && !n.result.Missing? then 0 else 1
  }

  predicate Named(p: Json) {
    p.Array? && p.fields != [] && p.fields[0].Text?
  }

  predicate Texts(p: Json, first: nat) {
    && Named(p)
    && FieldAt(p.fields, first).Text? && FieldAt(p.fields, first + 1).Text? && FieldAt(p.fields, first + 2).Text?
  }

  predicate Seeded(mode: nat, p: Json, first: nat) {
    && Texts(p, first) && BlockOf(mode, p.fields, first).Number?
    && |FieldAt(p.fields, first + 2).text| >= 2 && IsHash(FieldAt(p.fields, first + 1).text)
  }

  predicate Headed(mode: nat, p: Json, first: nat) {
    Seeded(mode, p, first) && IsHash(FieldAt(p.fields, first).text)
  }

  predicate Bounded(mode: nat, p: Json, first: nat) {
    Headed(mode, p, first) && IsHash(ShareTarget(FieldAt(p.fields, first + 2).text))
  }

  function BoundaryOf(mode: nat, p: Json, first: nat): nat
    requires Bounded(mode, p, first)
  {
    HashOf(ShareTarget(FieldAt(p.fields, first + 2).text))
  }

  predicate PlainReadable(s: Session, mode: nat, p: Json, first: nat) {
    Bounded(mode, p, first) && DifficultyOf(s, BoundaryOf(mode, p, first)).Some?
  }

  /** The work package after a notification in modes 0 and 1: each field is stored if everything up to it is read. */
  function PlainWork(s: Session, mode: nat, p: Json, first: nat, w: Work): Work {
    w.(job := if Named(p) then p.fields[0].text else w.job,
       block := if !Texts(p, first) then w.block
                else if BlockOf(mode, p.fields, first).Number? then BlockOf(mode, p.fields, first).value else -1,
       seed := if Seeded(mode, p, first) then HashOf(FieldAt(p.fields, first + 1).text) else w.seed,
       header := if Headed(mode, p, first) then HashOf(FieldAt(p.fields, first).text) else w.header,
       boundary := if Bounded(mode, p, first) then BoundaryOf(mode, p, first) else w.boundary,
       difficulty := if PlainReadable(s, mode, p, first) then DifficultyOf(s, BoundaryOf(mode, p, first)).value
                     else w.difficulty)
  }

  // Job notifications in mode 2

  predicate NiceSeeded(p: Json) {
    && Named(p) && FieldAt(p.fields, 1).Text? && FieldAt(p.fields, 2).Text?
    && FieldAt(p.fields, 1).text != "" && FieldAt(p.fields, 2).text != ""
    && IsHash(FieldAt(p.fields, 1).text)
  }

  predicate NiceHeaded(p: Json) {
    NiceSeeded(p) && IsHash(FieldAt(p.fields, 2).text)
  }

  predicate NiceReadable(s: Session, p: Json) {
    NiceHeaded(p) && DifficultyOf(s, s.boundary).Some?
  }

  function NiceWork(s: Session, p: Json, w: Work): Work {
    var all := NiceHeaded(p);
    w.(job := if Named(p) then p.fields[0].text else w.job,
       seed := if NiceSeeded(p) then HashOf(FieldAt(p.fields, 1).text) else w.seed,
       header := if all then HashOf(FieldAt(p.fields, 2).text) else w.header,
       boundary := if all then s.boundary else w.boundary,
       startNonce := if all then s.extraNonce else w.startNonce,
       exSizeBytes := if all then s.extraNonceSize % 0x1_0000 else w.exSizeBytes,
       block := if all then -1 else w.block,
       difficulty := if NiceReadable(s, p) then DifficultyOf(s, s.boundary).value else w.difficulty)
  }

  // Job notifications in mode 3

  predicate Names(p: Json) {
    p.Array? && |p.fields| == 4 && p.fields[0].Text?
  }

  predicate Numbers(p: Json) {
    Names(p) && p.fields[1].Text? && Stoul(p.fields[1].text).Some?
  }

  predicate Heads(p: Json) {
    Numbers(p) && p.fields[2].Text? && IsHash(Padded(p.fields[2].text))
  }

  predicate TwoReadable(s: Session, p: Json) {
    Heads(p) && DifficultyOf(s, s.boundary).Some?
  }

  function TwoWork(s: Session, p: Json, w: Work): Work {
    var all := Heads(p);
    w.(job := if Names(p) then p.fields[0].text else w.job,
       block := if Numbers(p) then ToInt(Stoul(p.fields[1].text).value) else w.block,
       header := if all then HashOf(Padded(p.fields[2].text)) else w.header,
       boundary := if all then s.boundary else w.boundary,
       epoch := if all then ToInt(s.epoch) else w.epoch,
       startNonce := if all then s.extraNonce else w.startNonce,
       exSizeBytes := if all then s.extraNonceSize % 0x1_0000 else w.exSizeBytes,
       difficulty := if TwoReadable(s, p) then DifficultyOf(s, s.boundary).value else w.difficulty)
  }

  // All modes

  /** Job notifications are looked at. */
  predicate Gate(c: Client) {
    && c.uri.confirmed && c.session.Some? && !c.ended
    && if c.uri.mode == 3 then c.session.value.firstMiningSet else c.session.value.subscribed && !c.newJob
  }

  /** Everything in the notification can be read. */
  predicate Readable(s: Session, mode: nat, n: Notice) {
    if mode == 3 then TwoReadable(s, n.params)
    else if mode == 2 then NiceReadable(s, n.params)
    else PlainReadable(s, mode, ParamsOf(mode, n), FirstOf(mode, n))
  }

  /** The work package after a notification that is looked at. */
  function WorkAfter(s: Session, mode: nat, n: Notice, w: Work): Work {
    if mode == 3 then TwoWork(s, n.params, w)
    else if mode == 2 then NiceWork(s, n.params, w)
    else PlainWork(s, mode, ParamsOf(mode, n), FirstOf(mode, n), w)
  }

  /** The notification is taken as the job to dispatch. */
  predicate Takes(c: Client, n: Notice) {
    Gate(c) && Readable(c.session.value, c.uri.mode, n)
  }

  /** The notification ends the process. */
  predicate Ends(c: Client, n: Notice) {
    && Gate(c) && c.uri.mode == 1
    && Texts(ParamsOf(1, n), FirstOf(1, n)) && BlockOf(1, ParamsOf(1, n).fields, FirstOf(1, n)).TooLarge?
  }

  function Notified(c: Client, n: Notice): Client {
    if !Gate(c) then c
    else c.(current := WorkAfter(c.session.value, c.uri.mode, n, c.current),
            newJob := c.newJob || Takes(c, n), ended := Ends(c, n))
  }

  // The session

  /** mining.set: what is read before the first thing that throws. */
  function MinerSet(s: Session, m: Message): Session
    requires m.MiningSet?
  {
    var s1 := s.(firstMiningSet := true);
    if !(m.timeout.Text? && m.epoch.Text? && m.target.Text?) then s1
    else if m.timeout.text != "" && !IsInt(m.timeout.text) then s1
    else if m.epoch.text != "" && Stoul(m.epoch.text).None? then s1
    else
      var s2 := if m.epoch.text == "" then s1 else s1.(epoch := Stoul(m.epoch.text).value % TWO_32);
      if m.target.text == "" then Extended(s2, m.extranonce)
      else if !IsHash(Padded(m.target.text)) then s2
      else
        var b := HashOf(Padded(m.target.text));
        if b == 0 then s2.(boundary := 0)
        else Extended(s2.(boundary := b, difficulty := (DIVIDEND / b) as real), m.extranonce)
  }

  function Extended(s: Session, extranonce: Field): Session {
    if extranonce.NotText? || extranonce.text == "" then s else WithExtranonce(s, extranonce.text)
  }

  function TargetSet(s: Session, p: Json): Session {
    if !p.Array? || FieldAt(p.fields, 0).NotText? then s
    else
      var t := Padded(FieldAt(p.fields, 0).text);
      if IsHash(t) then s.(boundary := HashOf(t)) else s
  }

  /** processResponse. Messages that use the session arrive only while there is one. */
  function Process(c: Client, m: Message): Client {
    if c.ended then c else
    match m
    case Reply1(_, _, _, _) => FirstReply(c, m)
    case Reply2(sessionId) =>
      if c.uri.mode != 3 then c
      else if !sessionId then c.(uri := c.uri.(unrecoverable := true))
      else if c.session.None? then c
      else c.(session := Some(c.session.value.(subscribed := true)), authPending := true)
    case Reply3(success, workerId) =>
      if c.uri.mode == 3 && !(success && workerId) then c.(uri := c.uri.(unrecoverable := true))
      else if c.session.None? then c
      else if success then c.(session := Some(c.session.value.(authorized := true)), authPending := false)
      else c.(session := Some(c.session.value.(authorized := false)), authPending := false,
              uri := c.uri.(unrecoverable := true))
    case WorkReply(n) => if c.uri.mode == 1 && n.result.Array? then Notified(c, n) else c
    case Notify(n) => Notified(c, n)
    case _ =>
      if !c.uri.confirmed || c.session.None? then c
      else c.(session := Some(Instructed(c.session.value, c.uri.mode, m)))
  }

  /** What the notifications other than jobs do to the session. */
  function Instructed(s: Session, mode: nat, m: Message): Session {
    match m
    case MiningSet(isObject, _, _, _, _) => if mode == 3 && isObject then MinerSet(s, m) else s
    case SetTarget(p) => TargetSet(s, p)
    case SetDifficulty(asked, boundary) =>
      if mode == 2 then s.(boundary := boundary, difficulty := if asked > 0.0001 then asked else 0.0001) else s
    case SetExtranonce(p) => if mode == 2 && p.Array? then Extended(s, FieldAt(p.fields, 0)) else s
    case _ => s
  }

  /** An extranonce of at most 16 digits is stored as the nonces' division takes it. */
  lemma ExtranonceStored(s: Session, enonce: string)
    requires AllHex(enonce) && |enonce| <= 16
    ensures var x := NonceSegments.ProcessExtranonce(enonce);
            WithExtranonce(s, enonce) == s.(extraNonceSize := x.sizeBytes, extraNonce := x.value)
            && Stoul(Resized(enonce)).Some?
  {
    hide ParseHex, Stoul;
    StoulDigits(Resized(enonce));
  }

  function ProcessAll(c: Client, messages: seq<Message>): Client {
    if messages == [] then c
    else Process(ProcessAll(c, messages[..|messages| - 1]), messages[|messages| - 1])
  }

  /** The state after the first i messages of a read. */
  function After(c: Client, messages: seq<Message>, i: nat): Client
    requires i <= |messages|
  {
    ProcessAll(c.(newJob := false), messages[..i])
  }

  /** One read, and the job it dispatches. */
  function Read(c: Client, messages: seq<Message>): (Client, Option<Work>) {
    var d := After(c, messages, |messages|);
    (d, if d.newJob && !d.ended then Some(d.current) else None)
  }

  // Events

  datatype Event =
    | Requested(endpoints: nat)             // connect(): so many addresses were found
    | Starting                              // the queued start_connect runs
    | Answered(result: Result)              // the connection attempt completes
    | Received(messages: seq<Message>)
    | ReadFailed
    | Dropped                               // disconnect(), for any other reason

  predicate Enabled(c: Client, e: Event) {
    && !c.ended
    && match e
    case Requested(_) => c.phase == Idle || c.phase == Reported
    case Starting => c.phase == Posted
    case Answered(_) => c.phase == Connecting && c.endpoints > 0
    case Received(_) => c.phase == Open
    case ReadFailed => c.phase == Open
    case Dropped => c.phase == Open
  }

  function Next(c: Client, e: Event): Client
    requires Enabled(c, e)
  {
    match e
    case Requested(n) => Connect(c, n)
    case Starting => StartConnect(c)
    case Answered(r) => ConnectHandler(c, r)
    case Received(messages) => Read(c, messages).0
    case ReadFailed => Finalize(c.(uri := c.uri.(unrecoverable := c.uri.unrecoverable || c.authPending)))
    case Dropped => Finalize(c)
  }

  /** Runs the events, leaving out those that cannot happen. */
  function Run(c: Client, events: seq<Event>): Client
    decreases |events|
  {
    if events == [] then c
    else Run(if Enabled(c, events[0]) then Next(c, events[0]) else c, events[1..])
  }

  const NO_WORK: Work := Work("", 0, 0, 0, -1, -1, 0, 0, 0.0)

  function Init(version: nat): Client {
    Client(Uri(version, AUTO, false, false, false), 0, Idle, 0, None, false, NO_WORK, false, false)
  }

  // What every reachable state satisfies

  predicate Inv(c: Client) {
    && (c.uri.version <= 3 || c.uri.version == AUTO)
    && (c.uri.mode <= 3 || c.uri.mode == AUTO)
    && (c.uri.confirmed ==> c.uri.mode <= 3)
    && (c.uri.version < AUTO && c.uri.confirmed ==> c.uri.mode == c.uri.version)
    && (c.phase == Open ==> c.uri.mode <= 3 && c.uri.responds && (c.uri.version < AUTO ==> c.uri.confirmed))
    && (c.uri.responds && !c.uri.unrecoverable ==> c.uri.mode <= 3)
    && (c.session.Some? ==> c.uri.confirmed && c.phase == Open)
    && (c.authPending ==> c.uri.confirmed)
    && (c.ended ==> c.uri.confirmed)
    && (c.phase == Connecting ==> c.endpoints > 0)
    && (c.phase == Posted || c.phase == Connecting ==> !c.uri.unrecoverable || c.uri.confirmed || !c.uri.responds)
  }

  /** What a message leaves alone. */
  lemma Keeps(c: Client, m: Message)
    ensures var d := Process(c, m);
            && d.uri.mode == c.uri.mode && d.uri.version == c.uri.version && d.uri.responds == c.uri.responds
            && (c.uri.confirmed ==> d.uri.confirmed) && (c.uri.unrecoverable ==> d.uri.unrecoverable)
            && d.phase == c.phase && d.endpoints == c.endpoints && d.connects == c.connects
  {
  }

  lemma InvProcess(c: Client, m: Message)
    requires Inv(c) && c.phase == Open
    ensures Inv(Process(c, m))
  {
  }

  lemma {:induction false} InvProcessAll(c: Client, messages: seq<Message>)
    requires Inv(c) && c.phase == Open
    ensures Inv(ProcessAll(c, messages))
    ensures var d := ProcessAll(c, messages);
            && d.uri.mode == c.uri.mode && d.uri.version == c.uri.version && d.uri.responds == c.uri.responds
            && (c.uri.confirmed ==> d.uri.confirmed) && (c.uri.unrecoverable ==> d.uri.unrecoverable)
            && d.phase == c.phase && d.endpoints == c.endpoints && d.connects == c.connects
    decreases |messages|
  {
    hide Process, Inv;
    if messages == [] {
    } else {
      var d := ProcessAll(c, messages[..|messages| - 1]);
      InvProcessAll(c, messages[..|messages| - 1]);
      InvProcess(d, messages[|messages| - 1]);
      Keeps(d, messages[|messages| - 1]);
    }
  }

  lemma InvRead(c: Client, messages: seq<Message>)
    requires Inv(c) && c.phase == Open
    ensures Inv(Read(c, messages).0)
    ensures var d := Read(c, messages).0;
            && d.uri.mode == c.uri.mode && d.uri.version == c.uri.version && d.uri.responds == c.uri.responds
            && (c.uri.confirmed ==> d.uri.confirmed) && (c.uri.unrecoverable ==> d.uri.unrecoverable)
            && d.phase == c.phase && d.endpoints == c.endpoints && d.connects == c.connects
  {
    hide ProcessAll;
    InvProcessAll(c.(newJob := false), messages);
    assert messages[..|messages|] == messages;
  }

  lemma InvNext(c: Client, e: Event)
    requires Inv(c) && Enabled(c, e)
    ensures Inv(Next(c, e))
    ensures c.uri.confirmed ==> Next(c, e).uri.confirmed && Next(c, e).uri.mode == c.uri.mode
  {
    hide Read;
    if e.Received? {
      InvRead(c, e.messages);
    }
  }

  lemma {:induction false} InvRun(c: Client, events: seq<Event>)
    requires Inv(c)
    ensures Inv(Run(c, events))
    ensures c.uri.confirmed ==> Run(c, events).uri.confirmed && Run(c, events).uri.mode == c.uri.mode
    decreases |events|
  {
    hide Next, Inv, Enabled;
    if events == [] {
    } else {
      if Enabled(c, events[0]) {
        InvNext(c, events[0]);
        InvRun(Next(c, events[0]), events[1..]);
      } else {
        InvRun(c, events[1..]);
      }
    }
  }

  lemma {:induction false} RunAppend(c: Client, a: seq<Event>, b: seq<Event>)
    ensures Run(c, a + b) == Run(Run(c, a), b)
    decreases |a|
  {
    hide Next, Enabled;
    if a == [] {
      assert a + b == b;
    } else {
      assert (a + b)[1..] == a[1..] + b;
      RunAppend(if Enabled(c, a[0]) then Next(c, a[0]) else c, a[1..], b);
    }
  }

  /** In every run, across any number of reconnects: a confirmed mode is never changed again, and a session exists only
      in a confirmed mode on an open connection. */
  lemma ModeStable(version: nat, before: seq<Event>, after: seq<Event>)
    requires version <= 3 || version == AUTO
    ensures var c := Run(Init(version), before);
            var d := Run(Init(version), before + after);
            && (c.uri.confirmed ==> d.uri.confirmed && d.uri.mode == c.uri.mode)
            && (c.session.Some? ==> c.uri.confirmed && c.phase == Open)
  {
    hide Run;
    InvRun(Init(version), before);
    RunAppend(Init(version), before, after);
    InvRun(Run(Init(version), before), after);
  }

  // Auto-detection ends

  /** The mode is still unknown, and the client is at work on it. */
  predicate Detecting(c: Client) {
    && c.uri.version == AUTO && !c.uri.confirmed && !c.uri.unrecoverable
    && (c.phase == Posted || c.phase == Connecting || c.phase == Open)
  }

  /** The modes left to try, with the current one. */
  function Modes(c: Client): nat {
    if c.uri.mode == AUTO then 4 else c.uri.mode + 1
  }

  /** Falls with every event of the connection: with an endpoint lost, with a mode given up, or on the way there. */
  function Rank(c: Client): nat {
    3 * (c.endpoints + Modes(c)) + (if c.phase == Posted then 2 else if c.phase == Connecting then 1 else 0)
  }

  /** The connection attempts that can still be made. */
  function Budget(c: Client): nat {
    if c.endpoints == 0 then 0
    else if c.phase == Posted then c.endpoints + Modes(c) - 1
    else if c.endpoints + Modes(c) < 2 then 0
    else c.endpoints + Modes(c) - 2
  }

  lemma DetectStep(c: Client, e: Event)
    requires Inv(c) && Detecting(c) && Enabled(c, e)
    ensures var d := Next(c, e);
            && d.connects <= c.connects + Budget(c)
            && (Detecting(d) ==> d.connects + Budget(d) <= c.connects + Budget(c))
            && (Detecting(d) ==> if e.Received? then Rank(d) == Rank(c) else Rank(d) < Rank(c))
  {
    hide Read;
    if e.Received? {
      InvRead(c, e.messages);
    }
  }

  /** Runs the events until the detection is over: mode confirmed, connection marked unrecoverable, or disconnection
      reported. */
  function Detect(c: Client, events: seq<Event>): Client
    decreases |events|
  {
    if events == [] || !Detecting(c) then c
    else Detect(if Enabled(c, events[0]) then Next(c, events[0]) else c, events[1..])
  }

  /** How many events of the connection, reads not counted, that takes. */
  function Moves(c: Client, events: seq<Event>): nat
    decreases |events|
  {
    if events == [] || !Detecting(c) then 0
    else if !Enabled(c, events[0]) then Moves(c, events[1..])
    else (if events[0].Received? then 0 else 1) + Moves(Next(c, events[0]), events[1..])
  }

  lemma {:induction false} DetectionBounded(c: Client, events: seq<Event>)
    requires Inv(c)
    ensures Detect(c, events).connects <= c.connects + (if Detecting(c) then Budget(c) else 0)
    ensures Moves(c, events) <= (if Detecting(c) then Rank(c) + 1 else 0)
    decreases |events|
  {
    hide Next, Inv, Enabled, Budget, Rank;
    if events == [] || !Detecting(c) {
    } else {
      if Enabled(c, events[0]) {
        InvNext(c, events[0]);
        DetectStep(c, events[0]);
        DetectionBounded(Next(c, events[0]), events[1..]);
      } else {
        DetectionBounded(c, events[1..]);
      }
    }
  }

  /** From a connection request with n addresses, at most n + 3 connection attempts are made before a mode is
      confirmed, the connection is given up, or the disconnection is reported; and at most 3n + 15 events of the
      connection happen before that. */
  lemma AutodetectionEnds(before: seq<Event>, n: nat, events: seq<Event>)
    requires Enabled(Run(Init(AUTO), before), Requested(n))
    ensures var c := Connect(Run(Init(AUTO), before), n);
            && Detect(c, events).connects <= c.connects + (if n == 0 then 0 else n + 3)
            && Moves(c, events) <= 3 * n + 15
  {
    hide Run, Detect, Moves;
    var b := Run(Init(AUTO), before);
    InvRun(Init(AUTO), before);
    InvNext(b, Requested(n));
    DetectionBounded(Connect(b, n), events);
  }
}
