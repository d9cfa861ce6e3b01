/** The work package that well-formed messages of each stratum mode lead to, field by field. */
module StratumWork {
  import opened CommonData
  import opened Prelude
  import opened StratumClient
  import opened StratumDetection
  import opened StratumFields
  import NonceSegments

  // Texts and their values

  /** A short share target is padded on the left: the value of its digits stays. */
  lemma ShareTargetValue(digits: string)
    requires AllHex(digits) && |digits| <= 64
    ensures var s := ShareTarget("0x" + digits); IsHash(s) && HashOf(s) == ParseHex(digits)
  {
    hide ParseHex;
    var s := "0x" + digits;
    assert s[2..] == digits;
    PaddedDigits(digits);
    if |digits| < 64 {
      assert ShareTarget(s) == "0x" + (Zeros(64 - |digits|) + digits);
      assert Stripped(ShareTarget(s)) == Zeros(64 - |digits|) + digits;
    } else {
      assert Stripped(s) == digits;
    }
  }

  /** The first two characters of a short target are dropped whatever they are. */
  lemma ShareTargetPrefix(a: string, b: string)
    requires 2 <= |a| == |b| < 66 && a[2..] == b[2..]
    ensures ShareTarget(a) == ShareTarget(b)
  {
  }

  lemma PaddedDigits(digits: string)
    requires AllHex(digits) && |digits| <= 64
    ensures var p := Zeros(64 - |digits|) + digits; AllHex(p) && |p| == 64 && ParseHex(p) == ParseHex(digits)
  {
    hide ParseHex;
    ParseAppend(Zeros(64 - |digits|), digits);
    ParseZeros(64 - |digits|);
  }

  /** Digits padded to 64 keep their value. */
  lemma PaddedValue(digits: string)
    requires AllHex(digits) && |digits| <= 64
    ensures IsHash(Padded(digits)) && HashOf(Padded(digits)) == ParseHex(digits)
  {
    hide ParseHex;
    PaddedDigits(digits);
    if |digits| < 64 {
      assert Stripped(Padded(digits)) == Zeros(64 - |digits|) + digits;
    } else {
      assert Zeros(0) + digits == digits;
      assert Stripped(Padded(digits)) == digits;
    }
  }

  /** A hash is written as 64 digits, with or without 0x. */
  lemma HashValue(digits: string)
    requires AllHex(digits) && |digits| == 64
    ensures IsHash("0x" + digits) && HashOf("0x" + digits) == ParseHex(digits)
    ensures IsHash(digits) && HashOf(digits) == ParseHex(digits)
  {
    hide ParseHex;
    assert Stripped("0x" + digits) == digits;
    assert IsHex(digits[1]);
  }

  /** Up to seven digits are a number that an int holds. */
  lemma SmallNumber(digits: string)
    requires AllHex(digits) && 0 < |digits| <= 7
    ensures Stoul(digits) == Some(ParseHex(digits)) && ToInt(ParseHex(digits)) == ParseHex(digits) < 0x1000_0000
    ensures Stoul("0x" + digits) == Some(ParseHex(digits)) && IsInt(digits)
  {
    hide ParseHex, Stoul, Magnitude, Negative;
    MagnitudeDigits(digits);
    StoulDigits(digits);
    ParseAppend("", digits);
    assert "" + digits == digits;
    SevenDigits(|digits|);
    StoulDecorated(digits);
  }

  lemma SevenDigits(n: nat)
    requires n <= 7
    ensures Power(16, n) <= 0x1000_0000
  {
    hide Power;
    PowerAdd(16, n, 7 - n);
    AtLeast(Power(16, n), Power(16, 7 - n));
    Seven();
  }

  lemma AtLeast(a: nat, b: nat)
    requires b > 0
    ensures a <= a * b
  {
    Grow(a, 1, b);
  }

  lemma Seven()
    ensures Power(16, 7) == 0x1000_0000
  {
    assert Power(16, 4) == 0x1_0000 && Power(16, 3) == 0x1000;
    PowerAdd(16, 4, 3);
  }

  /** Of a longer extranonce the first 16 digits begin the nonces, but its full length is what is cut off. */
  lemma LongExtranonce(s: Session, enonce: string)
    requires AllHex(enonce) && |enonce| > 16
    ensures WithExtranonce(s, enonce) == s.(extraNonceSize := |enonce|, extraNonce := ParseHex(enonce[..16]))
  {
    hide ParseHex, Stoul;
    StoulDigits(enonce[..16]);
  }

  // One message after another

  lemma ReadOne(c: Client, m: Message)
    requires !c.ended
    ensures Read(c, [m]).0 == Process(c.(newJob := false), m)
  {
    hide Process;
    assert [m][..1] == [m];
    ProcessOne(c.(newJob := false), m);
  }

  /** The difficulty of work with this boundary. */
  function Difficulty(s: Session, boundary: nat): real
    requires s.difficulty != 0.0 || boundary > 0
  {
    if s.difficulty != 0.0 then s.difficulty else (DIVIDEND / boundary) as real
  }

  // Modes 0 and 1

  /** Four texts, name, header, seed and share target, in modes 0 and 1. */
  lemma PlainJob(c: Client, name: string, header: string, seed: string, target: string)
    requires Gate(c.(newJob := false)) && c.uri.mode <= 1
    requires AllHex(header) && |header| == 64 && AllHex(seed) && |seed| == 64 && AllHex(target) && |target| <= 64
    requires c.session.value.difficulty != 0.0 || ParseHex(target) > 0
    ensures var p := [Text(name), Text("0x" + header), Text("0x" + seed), Text("0x" + target)];
            Read(c, [Notify(Notice(Missing, Array(p)))]).1 == Some(c.current.(
              job := name, header := ParseHex(header), seed := ParseHex(seed), boundary := ParseHex(target), block := -1,
              difficulty := Difficulty(c.session.value, ParseHex(target))))
  {
    hide ParseHex, IsHash, HashOf, ShareTarget, Read;
    var p := Array([Text(name), Text("0x" + header), Text("0x" + seed), Text("0x" + target)]);
    HashValue(header);
    HashValue(seed);
    ShareTargetValue(target);
    assert Bounded(c.uri.mode, p, 1);
    OneNotice(c, Notice(Missing, p));
  }

  /** A read of one notification. */
  lemma OneNotice(c: Client, n: Notice)
    requires Gate(c.(newJob := false)) && Readable(c.session.value, c.uri.mode, n) && !Ends(c.(newJob := false), n)
    ensures Read(c, [Notify(n)]).1 == Some(WorkAfter(c.session.value, c.uri.mode, n, c.current))
    ensures c.uri.mode == 1 && n.result.Array? ==>
              Read(c, [WorkReply(n)]).1 == Some(WorkAfter(c.session.value, c.uri.mode, n, c.current))
  {
    hide WorkAfter, Readable, Ends;
    ReadOne(c, Notify(n));
    ReadOne(c, WorkReply(n));
  }

  /** In mode 1 a reply holds header, seed and share target, the header also as the name, and in some pools the block
      number. */
  lemma ProxyJob(c: Client, header: string, seed: string, target: string, block: string)
    requires Gate(c.(newJob := false)) && c.uri.mode == 1
    requires AllHex(header) && |header| == 64 && AllHex(seed) && |seed| == 64 && AllHex(target) && |target| <= 64
    requires AllHex(block) && 0 < |block| <= 7 && ParseHex(block) <= 0x966_0180
    requires c.session.value.difficulty != 0.0 || ParseHex(target) > 0
    ensures var p := [Text("0x" + header), Text("0x" + seed), Text("0x" + target)];
            var w := c.current.(
              job := "0x" + header, header := ParseHex(header), seed := ParseHex(seed), boundary := ParseHex(target),
              block := -1, difficulty := Difficulty(c.session.value, ParseHex(target)));
            && Read(c, [WorkReply(Notice(Array(p), Missing))]).1 == Some(w)
            && Read(c, [WorkReply(Notice(Array(p + [Text("0x" + block)]), Missing))]).1
                 == Some(w.(block := ParseHex(block)))
  {
    hide ParseHex, IsHash, HashOf, ShareTarget, Read, Stoul;
    var p := [Text("0x" + header), Text("0x" + seed), Text("0x" + target)];
    HashValue(header);
    HashValue(seed);
    ShareTargetValue(target);
    SmallNumber(block);
    assert ("0x" + block)[..2] == "0x";
    assert Bounded(1, Array(p), 0);
    OneNotice(c, Notice(Array(p), Missing));
    var q := p + [Text("0x" + block)];
    assert BlockOf(1, q, 0) == Number(ParseHex(block));
    assert Bounded(1, Array(q), 0);
    OneNotice(c, Notice(Array(q), Missing));
  }

  /** A block number above 0x9660180 ends the process. */
  lemma LargeBlockEnds(c: Client, header: string, seed: string, target: string, block: string)
    requires Gate(c.(newJob := false)) && c.uri.mode == 1
    requires AllHex(block) && 0 < |block| <= 7 && ParseHex(block) > 0x966_0180
    ensures var n := Notice(Array([Text(header), Text(seed), Text(target), Text("0x" + block)]), Missing);
            Read(c, [WorkReply(n)]).0.ended && Read(c, [WorkReply(n)]).1.None?
  {
    hide ParseHex, IsHash, HashOf, ShareTarget, Stoul, PlainReadable, PlainWork;
    var n := Notice(Array([Text(header), Text(seed), Text(target), Text("0x" + block)]), Missing);
    SmallNumber(block);
    assert ("0x" + block)[..2] == "0x";
    assert BlockOf(1, n.result.fields, 0).TooLarge?;
    ReadOne(c, WorkReply(n));
  }

  /** A zero target without a difficulty to go by is not dispatched. */
  lemma ZeroTargetFails(c: Client, name: string, header: string, seed: string, target: string)
    requires Gate(c.(newJob := false)) && c.uri.mode == 0 && c.session.value.difficulty == 0.0
    requires AllHex(target) && |target| <= 64 && ParseHex(target) == 0
    ensures var p := [Text(name), Text(header), Text(seed), Text("0x" + target)];
            Read(c, [Notify(Notice(Missing, Array(p)))]).1.None?
  {
    hide ParseHex, IsHash, HashOf, ShareTarget, PlainWork;
    ShareTargetValue(target);
    ReadOne(c, Notify(Notice(Missing, Array([Text(name), Text(header), Text(seed), Text("0x" + target)]))));
  }

  // Mode 2

  /** Name, seed and header in mode 2; target and extranonce are those that were set before. */
  lemma NiceJob(c: Client, name: string, header: string, seed: string)
    requires Gate(c.(newJob := false)) && c.uri.mode == 2
    requires AllHex(header) && |header| == 64 && AllHex(seed) && |seed| == 64
    requires c.session.value.difficulty != 0.0 || c.session.value.boundary > 0
    ensures var s := c.session.value;
            Read(c, [Notify(Notice(Missing, Array([Text(name), Text(seed), Text(header)])))]).1 == Some(c.current.(
              job := name, header := ParseHex(header), seed := ParseHex(seed), boundary := s.boundary, block := -1,
              startNonce := s.extraNonce, exSizeBytes := s.extraNonceSize % 0x1_0000,
              difficulty := Difficulty(s, s.boundary)))
  {
    hide ParseHex, IsHash, HashOf, Read;
    HashValue(header);
    HashValue(seed);
    OneNotice(c, Notice(Missing, Array([Text(name), Text(seed), Text(header)])));
  }

  /** The extranonce in the first reply of mode 2. */
  lemma FirstExtranonce(c: Client, enonce: string)
    requires c.uri.mode == 2 && !c.ended && AllHex(enonce) && |enonce| <= 16
    ensures var x := NonceSegments.ProcessExtranonce(enonce);
            var s := Process(c, Reply1(false, false, true, Text(enonce))).session;
            s.Some? && s.value.extraNonceSize == x.sizeBytes && (enonce != "" ==> s.value.extraNonce == x.value)
  {
    hide ParseHex, WithExtranonce, Resized, Stoul;
    ExtranonceStored(NewSession().(subscribed := true), enonce);
  }

  /** mining.set_extranonce in mode 2. */
  lemma ExtranonceSet(c: Client, enonce: string)
    requires c.uri.confirmed && c.uri.mode == 2 && c.session.Some? && !c.ended
    requires AllHex(enonce) && 0 < |enonce| <= 16
    ensures var x := NonceSegments.ProcessExtranonce(enonce);
            Process(c, SetExtranonce(Array([Text(enonce)])))
              == c.(session := Some(c.session.value.(extraNonceSize := x.sizeBytes, extraNonce := x.value)))
  {
    hide ParseHex, WithExtranonce, Notified, FirstReply, MinerSet, TargetSet, Stoul, Resized;
    ExtranonceStored(c.session.value, enonce);
  }

  /** mining.set_target in any mode. */
  lemma TargetIsSet(c: Client, target: string)
    requires c.uri.confirmed && c.session.Some? && !c.ended && AllHex(target) && |target| <= 64
    ensures Process(c, SetTarget(Array([Text(target)])))
         == c.(session := Some(c.session.value.(boundary := ParseHex(target))))
  {
    hide ParseHex, IsHash, HashOf, Padded, Notified, FirstReply;
    PaddedValue(target);
  }

  /** mining.set_difficulty in mode 2: never zero, so that it takes effect. */
  lemma DifficultyIsSet(c: Client, asked: real, boundary: nat)
    requires c.uri.confirmed && c.uri.mode == 2 && c.session.Some? && !c.ended
    ensures var s := Process(c, SetDifficulty(asked, boundary)).session;
            && s.Some? && s.value.boundary == boundary
            && s.value.difficulty >= asked && s.value.difficulty >= 0.0001
            && (s.value.difficulty == asked || s.value.difficulty == 0.0001)
            && DifficultyOf(s.value, boundary) == Some(s.value.difficulty)
  {
    hide Notified, FirstReply;
  }

  /** The numerator of a difficulty, and the boundary of a new session. */
  lemma Constants()
    ensures DIVIDEND == 0xffff * Power(16, 60)
    ensures NewSession().boundary == 0xffff * Power(16, 52) && NewSession().difficulty == 0.0
    ensures NewSession().extraNonceSize == NewSession().extraNonce == NewSession().epoch == 0
  {
    hide Power;
    Seven();
    PowerAdd(16, 7, 7);
    PowerAdd(16, 14, 14);
    PowerAdd(16, 28, 28);
    Four();
    PowerAdd(16, 56, 4);
    PowerAdd(16, 52, 4);
  }

  lemma Four()
    ensures Power(16, 4) == 0x1_0000
  {
  }

  // Mode 3

  /** mining.set with a timeout, an epoch, a target and an extranonce, each of which may be left out. */
  lemma TwoSession(c: Client, timeout: string, epoch: string, target: string, enonce: string)
    requires c.uri.confirmed && c.uri.mode == 3 && c.session.Some? && !c.ended
    requires AllHex(timeout) && |timeout| <= 7 && AllHex(epoch) && |epoch| <= 7
    requires AllHex(target) && |target| <= 64 && (target == "" || ParseHex(target) > 0)
    requires AllHex(enonce) && |enonce| <= 16
    ensures var x := NonceSegments.ProcessExtranonce(enonce);
            var s := c.session.value;
            var d := Process(c, MiningSet(true, Text(timeout), Text(epoch), Text(target), Text(enonce)));
            && d == c.(session := d.session)
            && d.session == Some(s.(
                 firstMiningSet := true,
                 epoch := if epoch == "" then s.epoch else ParseHex(epoch),
                 boundary := if target == "" then s.boundary else ParseHex(target),
                 difficulty := if target == "" then s.difficulty else (DIVIDEND / ParseHex(target)) as real,
                 extraNonceSize := if enonce == "" then s.extraNonceSize else x.sizeBytes,
                 extraNonce := if enonce == "" then s.extraNonce else x.value))
  {
    hide ParseHex, IsHash, HashOf, Padded, WithExtranonce, Stoul, IsInt, Notified, FirstReply;
    if timeout != "" {
      SmallNumber(timeout);
    }
    if epoch != "" {
      SmallNumber(epoch);
    }
    PaddedValue(target);
    var s := c.session.value;
    ExtranonceStored(s.(
      firstMiningSet := true,
      epoch := if epoch == "" then s.epoch else ParseHex(epoch),
      boundary := if target == "" then s.boundary else ParseHex(target),
      difficulty := if target == "" then s.difficulty else (DIVIDEND / ParseHex(target)) as real), enonce);
  }

  /** A timeout that is no number keeps everything after it from being read. */
  lemma BadTimeout(c: Client, timeout: string, epoch: Field, target: Field, enonce: Field)
    requires c.uri.confirmed && c.uri.mode == 3 && c.session.Some? && !c.ended
    requires timeout != "" && !IsInt(timeout)
    ensures Process(c, MiningSet(true, Text(timeout), epoch, target, enonce))
         == c.(session := Some(c.session.value.(firstMiningSet := true)))
  {
    hide IsHash, HashOf, Padded, WithExtranonce, Stoul, IsInt, Notified, FirstReply;
  }

  /** Name, block number and header in mode 3, and the clean flag, which is not read. */
  lemma TwoJob(c: Client, name: string, block: string, header: string, clean: Field)
    requires Gate(c.(newJob := false)) && c.uri.mode == 3
    requires AllHex(block) && 0 < |block| <= 7 && AllHex(header) && |header| <= 64
    requires c.session.value.difficulty != 0.0 || c.session.value.boundary > 0
    ensures var s := c.session.value;
            var n := Notice(Missing, Array([Text(name), Text(block), Text(header), clean]));
            Read(c, [Notify(n)]).1 == Some(c.current.(
              job := name, block := ParseHex(block), header := ParseHex(header), boundary := s.boundary,
              epoch := ToInt(s.epoch), startNonce := s.extraNonce, exSizeBytes := s.extraNonceSize % 0x1_0000,
              difficulty := Difficulty(s, s.boundary)))
  {
    hide ParseHex, IsHash, HashOf, Padded, Stoul, Read;
    SmallNumber(block);
    PaddedValue(header);
    OneNotice(c, Notice(Missing, Array([Text(name), Text(block), Text(header), clean])));
  }

  /** Parameters that are not four are ignored in mode 3, and notifications of one mode in the others. */
  lemma Ignored(c: Client, n: Notice, m: Message)
    requires n.params.Array? && |n.params.fields| != 4
    ensures c.uri.mode == 3 ==> Process(c, Notify(n)) == c
    ensures c.uri.mode != 1 ==> Process(c, WorkReply(n)) == c
    ensures c.uri.mode != 2 && (m.SetExtranonce? || m.SetDifficulty?) ==> Process(c, m) == c
    ensures c.uri.mode != 3 && m.MiningSet? ==> Process(c, m) == c
  {
    hide PlainWork, PlainReadable, NiceWork, NiceReadable, MinerSet, TargetSet;
  }
}
