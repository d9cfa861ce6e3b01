/** The handlers of EthStratumClient as methods that update the client step by step, each proved against what
    StratumClient says it means. */
module StratumHandlers {
  import opened CommonData
  import opened Prelude
  import opened StratumClient
  import opened StratumFields
  import Lines = StratumLines

  /** The messages among the lines that the JSON reader accepts. */
  function Parsed(parse: string -> Option<Message>, lines: seq<string>): seq<Message> {
    if lines == [] then [] else
      var m := parse(lines[|lines| - 1]);
      Parsed(parse, lines[..|lines| - 1]) + (if m.Some? then [m.value] else [])
  }

  // Reading a job: the fields are stored one by one until something throws

  method ReadBlock(mode: nat, p: seq<Field>, first: nat) returns (b: Block)
    ensures b == BlockOf(mode, p, first)
  {
    hide Stoul;
    b := Number(-1);
    if mode == 1 && |p| > first + 3 {
      if p[first + 3].NotText? {
        return Unreadable;
      }
      var s := p[first + 3].text;
      if |s| >= 2 && s[0] == '0' && s[1] == 'x' {
        var v := Stoul(s);
        if v.Some? {
          if ToInt(v.value) > MAX_BLOCK {
            return TooLarge;
          }
          b := Number(ToInt(v.value));
        }
      }
    }
  }

  /** Modes 0 and 1. */
  method ReadPlain(s: Session, mode: nat, params: Json, first: nat, w: Work) returns (v: Work, taken: bool, ends: bool)
    ensures v == PlainWork(s, mode, params, first, w) && taken == PlainReadable(s, mode, params, first)
    ensures ends == (mode == 1 && Texts(params, first) && BlockOf(mode, params.fields, first).TooLarge?)
  {
    hide BlockOf, IsHash, HashOf, ShareTarget;
    v, taken, ends := w, false, false;
    if !params.Array? || params.fields == [] {
      return;
    }
    var p := params.fields;
    if p[0].NotText? {
      return;
    }
    v := v.(job := p[0].text);
    var header, seed, target := FieldAt(p, first), FieldAt(p, first + 1), FieldAt(p, first + 2);
    if header.NotText? || seed.NotText? || target.NotText? {
      return;
    }
    v := v.(block := -1);
    var b := ReadBlock(mode, p, first);
    if b.TooLarge? {
      OnlyMode1(mode, p, first);
      ends := true;
      return;
    }
    if b.Unreadable? {
      return;
    }
    v := v.(block := b.value);
    if |target.text| < 2 {
      return;
    }
    var hash := ToHash(seed.text);
    if hash.None? {
      return;
    }
    v := v.(seed := hash.value);
    hash := ToHash(header.text);
    if hash.None? {
      return;
    }
    v := v.(header := hash.value);
    hash := ToHash(ShareTarget(target.text));
    if hash.None? {
      return;
    }
    v := v.(boundary := hash.value);
    var difficulty := DifficultyOf(s, v.boundary);
    if difficulty.None? {
      return;
    }
    v := v.(difficulty := difficulty.value);
    taken := true;
  }

  lemma OnlyMode1(mode: nat, p: seq<Field>, first: nat)
    ensures BlockOf(mode, p, first).TooLarge? ==> mode == 1
  {
    hide Stoul;
  }

  /** Mode 2. */
  method ReadNice(s: Session, params: Json, w: Work) returns (v: Work, taken: bool)
    ensures v == NiceWork(s, params, w) && taken == NiceReadable(s, params)
  {
    hide IsHash, HashOf, DifficultyOf;
    v, taken := w, false;
    if !params.Array? || params.fields == [] {
      return;
    }
    var p := params.fields;
    if p[0].NotText? {
      return;
    }
    v := v.(job := p[0].text);
    var seed, header := FieldAt(p, 1), FieldAt(p, 2);
    if seed.NotText? || header.NotText? {
      return;
    }
    if header.text != "" && seed.text != "" {
      var hash := ToHash(seed.text);
      if hash.None? {
        return;
      }
      v := v.(seed := hash.value);
      hash := ToHash(header.text);
      if hash.None? {
        return;
      }
      v := v.(header := hash.value);
      v := v.(boundary := s.boundary, startNonce := s.extraNonce, exSizeBytes := s.extraNonceSize % 0x1_0000);
      v := v.(block := -1);
      var difficulty := DifficultyOf(s, v.boundary);
      if difficulty.None? {
        return;
      }
      v := v.(difficulty := difficulty.value);
      taken := true;
    }
  }

  /** Mode 3. */
  method ReadTwo(s: Session, params: Json, w: Work) returns (v: Work, taken: bool)
    ensures v == TwoWork(s, params, w) && taken == TwoReadable(s, params)
  {
    hide IsHash, HashOf, DifficultyOf, Stoul, Padded;
    v, taken := w, false;
    if !params.Array? || |params.fields| != 4 {
      return;
    }
    var p := params.fields;
    if p[0].NotText? {
      return;
    }
    v := v.(job := p[0].text);
    if p[1].NotText? {
      return;
    }
    var number := Stoul(p[1].text);
    if number.None? {
      return;
    }
    v := v.(block := ToInt(number.value));
    if p[2].NotText? {
      return;
    }
    var hash := ToHash(Padded(p[2].text));
    if hash.None? {
      return;
    }
    v := v.(header := hash.value);
    v := v.(boundary := s.boundary, epoch := ToInt(s.epoch));
    v := v.(startNonce := s.extraNonce, exSizeBytes := s.extraNonceSize % 0x1_0000);
    var difficulty := DifficultyOf(s, v.boundary);
    if difficulty.None? {
      return;
    }
    v := v.(difficulty := difficulty.value);
    taken := true;
  }

  // The session: likewise

  /** Throws when the text is not a number, after the size has been stored. */
  method ProcessExtranonce(s: Session, enonce: string) returns (t: Session, thrown: bool)
    ensures t == WithExtranonce(s, enonce) && thrown == Stoul(Resized(enonce)).None?
  {
    hide Stoul;
    t := s.(extraNonceSize := |enonce|);
    var resized := if |enonce| < 16 then enonce + Zeros(16 - |enonce|) else enonce[..16];
    assert resized == Resized(enonce);
    var v := Stoul(resized);
    if v.None? {
      return t, true;
    }
    t := t.(extraNonce := v.value);
    return t, false;
  }

  /** The new session, as the reply to the first request fills it in. */
  method StartSession(mode: nat, extranonce: Field) returns (s: Session, thrown: bool)
    requires mode <= 3
    ensures s == Started(mode, extranonce).0 && thrown == !Started(mode, extranonce).1
  {
    hide Stoul, WithExtranonce, Resized;
    s, thrown := NewSession(), false;
    if mode == 2 {
      s := s.(subscribed := true);
      if extranonce.NotText? {
        return s, true;
      }
      if extranonce.text != "" {
        s, thrown := ProcessExtranonce(s, extranonce.text);
      }
    } else if mode == 1 {
      s := s.(subscribed := true);
      s := s.(authorized := true);
    } else if mode == 0 {
      s := s.(subscribed := true);
    }
  }

  /** mining.set */
  method ReadSet(s: Session, m: Message) returns (t: Session)
    requires m.MiningSet?
    ensures t == MinerSet(s, m)
  {
    hide Stoul, IsInt, IsHash, HashOf, Padded, WithExtranonce, Resized;
    t := s.(firstMiningSet := true);
    if m.timeout.NotText? || m.epoch.NotText? || m.target.NotText? {
      return;
    }
    if m.timeout.text != "" && !IsInt(m.timeout.text) {
      return;
    }
    if m.epoch.text != "" {
      var v := Stoul(m.epoch.text);
      if v.None? {
        return;
      }
      t := t.(epoch := v.value % TWO_32);
    }
    if m.target.text != "" {
      var b := ToHash(Padded(m.target.text));
      if b.None? {
        return;
      }
      t := t.(boundary := b.value);
      if b.value == 0 {
        return;
      }
      t := t.(difficulty := (DIVIDEND / b.value) as real);
    }
    if m.extranonce.NotText? || m.extranonce.text == "" {
      return;
    }
    var extended, _ := ProcessExtranonce(t, m.extranonce.text);
    t := extended;
  }

  class EthStratumClient {
    const parse: string -> Option<Message>
    const reader: Lines.Reader
    var uri: Uri
    var endpoints: nat
    var phase: Phase
    var connects: nat
    var session: Option<Session>
    var authPending: bool
    var current: Work
    var newJob: bool
    var ended: bool
    /** The jobs handed to the work handler so far. */
    var dispatched: seq<Work>

    function View(): Client
      reads this
    {
      Client(uri, endpoints, phase, connects, session, authPending, current, newJob, ended)
    }

    constructor (parse: string -> Option<Message>, version: nat)
      ensures View() == Init(version) && dispatched == [] && this.parse == parse
      ensures fresh(reader) && reader.message == ""
    {
      this.parse := parse;
      reader := new Lines.Reader();
      uri, endpoints, phase, connects := Uri(version, AUTO, false, false, false), 0, Idle, 0;
      session, authPending, current, newJob, ended, dispatched := None, false, NO_WORK, false, false, [];
    }

    // Connecting

    method DisconnectFinalize()
      modifies this
      ensures View() == Finalize(old(View())) && dispatched == old(dispatched)
    {
      session := None;
      authPending := false;
      if !uri.unrecoverable {
        if !uri.confirmed && uri.responds {
          if uri.mode > 0 {
            uri := uri.(mode := uri.mode - 1);
            phase := Posted;
            return;
          } else {
            uri := uri.(unrecoverable := true);
          }
        }
      }
      phase := Reported;
    }

    method HandleStartConnect()
      requires phase == Posted
      modifies this
      ensures View() == StartConnect(old(View())) && dispatched == old(dispatched)
    {
      if endpoints > 0 {
        phase := Connecting;
        connects := connects + 1;
      } else {
        DisconnectFinalize();
      }
    }

    method HandleConnect(r: Result)
      requires phase == Connecting && endpoints > 0
      modifies this, reader
      ensures View() == ConnectHandler(old(View()), r) && dispatched == old(dispatched)
      ensures r == Established ==> reader.message == ""
    {
      if r == Refused {
        endpoints := endpoints - 1;
        phase := Posted;
        return;
      }
      uri := uri.(responds := true);
      reader.message := "";
      if r == HandshakeFailed {
        uri := uri.(unrecoverable := true);
        DisconnectFinalize();
        return;
      }
      phase := Open;
      if uri.version < AUTO {
        uri := uri.(mode := uri.version, confirmed := true);
      } else if !uri.confirmed && uri.mode == AUTO {
        uri := uri.(mode := 3, confirmed := false);
      }
    }

    /** The manager asks for a connection; so many addresses were found. */
    method HandleRequest(found: nat)
      requires !ended && (phase == Idle || phase == Reported)
      modifies this
      ensures View() == Next(old(View()), Requested(found)) && dispatched == old(dispatched)
    {
      uri := uri.(responds := false);
      authPending := false;
      endpoints := found;
      session := None;
      phase := Posted;
    }

    method HandleReadError()
      requires !ended && phase == Open
      modifies this
      ensures View() == Next(old(View()), ReadFailed) && dispatched == old(dispatched)
    {
      if authPending {
        uri := uri.(unrecoverable := true);
      }
      DisconnectFinalize();
    }

    // Messages

    /** The reply to the first request. */
    method HandleFirstReply(m: Message)
      requires m.Reply1?
      modifies this
      ensures View() == FirstReply(old(View()), m) && dispatched == old(dispatched)
    {
      hide Started;
      if m.error && !uri.confirmed {
        return;
      }
      var isSuccess := !m.error;
      if uri.mode == 3 {
        isSuccess := m.hello;
      } else if uri.mode == 2 {
        isSuccess := m.subscribe;
      } else if uri.mode > 3 {
        return;
      }
      if !isSuccess {
        if uri.confirmed {
          uri := uri.(unrecoverable := true);
        }
        return;
      }
      uri := uri.(confirmed := true);
      var started, thrown := StartSession(uri.mode, m.extranonce);
      session := Some(started);
      if (uri.mode == 0 || uri.mode == 2) && !thrown {
        authPending := true;
      }
    }

    method HandleNotice(n: Notice)
      requires !ended
      modifies this
      ensures View() == Notified(old(View()), n) && dispatched == old(dispatched)
    {
      hide PlainWork, PlainReadable, NiceWork, NiceReadable, TwoWork, TwoReadable, Texts, BlockOf;
      if !uri.confirmed || session.None? {
        return;
      }
      var taken := false;
      if uri.mode == 3 {
        if !session.value.firstMiningSet {
          return;
        }
        current, taken := ReadTwo(session.value, n.params, current);
      } else {
        if !session.value.subscribed || newJob {
          return;
        }
        if uri.mode == 2 {
          current, taken := ReadNice(session.value, n.params, current);
        } else {
          var params, first := n.params, 1;
          if uri.mode == 1 && !n.result.Missing? {
            params, first := n.result, 0;
          }
          current, taken, ended := ReadPlain(session.value, uri.mode, params, first, current);
        }
      }
      if taken {
        newJob := true;
      }
    }

    method ProcessResponse(m: Message)
      modifies this
      ensures View() == Process(old(View()), m) && dispatched == old(dispatched)
    {
      hide FirstReply, Notified, MinerSet, WithExtranonce, IsHash, HashOf, Padded;
      if ended {
        return;
      }
      match m
      case Reply1(_, _, _, _) => HandleFirstReply(m);
      case Reply2(sessionId) =>
        if uri.mode == 3 {
          if !sessionId {
            uri := uri.(unrecoverable := true);
          } else if session.Some? {
            session := Some(session.value.(subscribed := true));
            authPending := true;
          }
        }
      case Reply3(success, workerId) =>
        if uri.mode == 3 {
          if !success || !workerId {
            uri := uri.(unrecoverable := true);
          } else if session.Some? {
            authPending := false;
            session := Some(session.value.(authorized := true));
          }
        } else if session.Some? {
          authPending := false;
          session := Some(session.value.(authorized := success));
          if !success {
            uri := uri.(unrecoverable := true);
          }
        }
      case WorkReply(n) =>
        if uri.mode == 1 && n.result.Array? {
          HandleNotice(n);
        }
      case Notify(n) => HandleNotice(n);
      case MiningSet(isObject, _, _, _, _) =>
        if uri.confirmed && uri.mode == 3 && isObject && session.Some? {
          var told := ReadSet(session.value, m);
          session := Some(told);
        }
      case SetTarget(params) =>
        if uri.confirmed && session.Some? && params.Array? {
          var target := FieldAt(params.fields, 0);
          if target.Text? {
            var b := ToHash(Padded(target.text));
            if b.Some? {
              session := Some(session.value.(boundary := b.value));
            }
          }
        }
      case SetDifficulty(asked, boundary) =>
        if uri.confirmed && uri.mode == 2 && session.Some? {
          var difficulty := if asked > 0.0001 then asked else 0.0001;
          session := Some(session.value.(boundary := boundary));
          session := Some(session.value.(difficulty := difficulty));
        }
      case SetExtranonce(params) =>
        if uri.confirmed && uri.mode == 2 && session.Some? && params.Array? {
          var enonce := FieldAt(params.fields, 0);
          if enonce.Text? && enonce.text != "" {
            var extended, _ := ProcessExtranonce(session.value, enonce.text);
            session := Some(extended);
          }
        }
      case Other =>
    }

    /** One read: every complete line goes through the JSON reader to processResponse, then at most one job is
        dispatched. */
    method OnRecvSocketDataCompleted(data: string)
      requires phase == Open
      modifies this, reader
      ensures reader.message == Lines.Rest(old(reader.message) + data)
      ensures var r := Read(old(View()), Parsed(parse, Lines.Cleaned(Lines.Lines(old(reader.message) + data))));
              View() == r.0 && dispatched == old(dispatched) + if r.1.Some? then [r.1.value] else []
    {
      hide Process, Parsed, Lines.Rest, Lines.Lines, Lines.Cleaned;
      var lines := reader.Receive(data);
      newJob := false;
      ghost var start := View();
      NothingParsed(parse);
      var i := 0;
      while i < |lines|
        invariant 0 <= i <= |lines|
        invariant View() == ProcessAll(start, Parsed(parse, lines[..i]))
        invariant dispatched == old(dispatched)
        modifies this
      {
        ParsedStep(parse, lines, i);
        var m := parse(lines[i]);
        if m.Some? {
          OneMore(start, Parsed(parse, lines[..i]), m.value);
          ProcessResponse(m.value);
        }
        i := i + 1;
      }
      assert lines[..i] == lines;
      ghost var messages := Parsed(parse, lines);
      assert messages[..|messages|] == messages;
      if newJob && !ended {
        dispatched := dispatched + [current];
      }
    }
  }

  lemma NothingParsed(parse: string -> Option<Message>)
    ensures Parsed(parse, []) == []
  {
  }

  lemma ParsedStep(parse: string -> Option<Message>, lines: seq<string>, i: nat)
    requires i < |lines|
    ensures var m := parse(lines[i]);
            var before := Parsed(parse, lines[..i]);
            Parsed(parse, lines[..i + 1]) == if m.Some? then before + [m.value] else before
  {
    assert lines[..i + 1][..i] == lines[..i];
  }

  lemma OneMore(c: Client, messages: seq<Message>, m: Message)
    ensures ProcessAll(c, messages + [m]) == Process(ProcessAll(c, messages), m)
  {
    hide Process;
    assert (messages + [m])[..|messages|] == messages;
  }
}
