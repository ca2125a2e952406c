/** The count / confirm / payload / confirm exchange as two step machines over
    FIFO channels. */
module Framing {
  import opened Bytes

  const CONFIRMATION: byte := 0x55

  /** Where writeBuffer is. */
  datatype Sender =
    | Ready           // before the count is written
    | AwaitFirst      // in the first readConfirmation
    | WriteBody       // count confirmed, payload not yet written
    | AwaitSecond     // in the second readConfirmation
    | SendFailed

  /** Where readBuffer is. */
  datatype Receiver =
    | WantCount
    | ConfirmCount(count: int)
    | Reading(count: int, got: seq<byte>)
    | ReceiveFailed

  datatype System = System(sent: nat, sender: Sender, receiver: Receiver,
                           forth: seq<byte>, back: seq<byte>, delivered: seq<seq<byte>>)

  datatype Action =
    | SendCount
    | GetFirst
    | SendBody
    | GetSecond
    | ReadCount
    | WriteFirst
    | ReadChunk(n: nat)      // one read call that returns n bytes
    | WriteSecond

  const START := System(0, Ready, WantCount, [], [], [])

  predicate Enabled(msgs: seq<seq<byte>>, s: System, a: Action) {
    match a
    case SendCount => s.sender.Ready? && s.sent < |msgs|
    case GetFirst => s.sender.AwaitFirst? && s.back != []
    case SendBody => s.sender.WriteBody? && s.sent < |msgs|
    case GetSecond => s.sender.AwaitSecond? && s.back != []
    case ReadCount => s.receiver.WantCount? && |s.forth| >= 4
    case WriteFirst => s.receiver.ConfirmCount?
    case ReadChunk(n) =>
      s.receiver.Reading? && 0 < n <= |s.forth| && n <= s.receiver.count - |s.receiver.got|
    case WriteSecond => s.receiver.Reading? && |s.receiver.got| == s.receiver.count
  }

  function Next(msgs: seq<seq<byte>>, s: System, a: Action): System
    requires Enabled(msgs, s, a)
  {
    match a
    case SendCount => s.(sender := AwaitFirst, forth := s.forth + LittleEndian(|msgs[s.sent]|, 4))
    case GetFirst =>
      s.(back := s.back[1..], sender := if s.back[0] == CONFIRMATION then WriteBody else SendFailed)
    case SendBody => s.(sender := AwaitSecond, forth := s.forth + msgs[s.sent])
    case GetSecond =>
      if s.back[0] == CONFIRMATION then s.(back := s.back[1..], sender := Ready, sent := s.sent + 1)
      else s.(back := s.back[1..], sender := SendFailed)
    case ReadCount =>
      var count := Signed(s.forth[..4]);
      s.(forth := s.forth[4..], receiver := if count <= 0 then ReceiveFailed else ConfirmCount(count))
    case WriteFirst => s.(back := s.back + [CONFIRMATION], receiver := Reading(s.receiver.count, []))
    case ReadChunk(n) =>
      s.(forth := s.forth[n..], receiver := Reading(s.receiver.count, s.receiver.got + s.forth[..n]))
    case WriteSecond =>
      s.(back := s.back + [CONFIRMATION], receiver := WantCount, delivered := s.delivered + [s.receiver.got])
  }

  predicate MessagesOk(msgs: seq<seq<byte>>) {
    forall i :: 0 <= i < |msgs| ==> 0 < |msgs[i]| && Fits(|msgs[i]|, 4)
  }

  /** The phases an exchange goes through, and what the channels hold in each. */
  predicate Inv(msgs: seq<seq<byte>>, s: System) {
    && s.sent <= |msgs|
    && (match s.sender
        case Ready => s.receiver.WantCount? && s.forth == [] && s.back == [] && s.delivered == msgs[..s.sent]
        case AwaitFirst =>
          && s.sent < |msgs| && s.delivered == msgs[..s.sent]
          && var m := msgs[s.sent];
          && (match s.receiver
              case WantCount => s.forth == LittleEndian(|m|, 4) && s.back == []
              case ConfirmCount(count) => count == |m| && s.forth == [] && s.back == []
              case Reading(count, got) => count == |m| && got == [] && s.forth == [] && s.back == [0x55]
              case ReceiveFailed => false)
        case WriteBody =>
          && s.sent < |msgs| && s.delivered == msgs[..s.sent]
          && s.receiver == Reading(|msgs[s.sent]|, []) && s.forth == [] && s.back == []
        case AwaitSecond =>
          && s.sent < |msgs|
          && var m := msgs[s.sent];
          && (match s.receiver
              case Reading(count, got) =>
                count == |m| && got + s.forth == m && s.back == [] && s.delivered == msgs[..s.sent]
              case WantCount => s.forth == [] && s.back == [0x55] && s.delivered == msgs[..s.sent] + [m]
              case _ => false)
        case SendFailed => false)
  }

  lemma {:induction false} StartInv(msgs: seq<seq<byte>>)
    ensures Inv(msgs, START)
  {
  }

  lemma {:induction false} SenderStep(msgs: seq<seq<byte>>, s: System, a: Action)
    requires MessagesOk(msgs) && Inv(msgs, s) && Enabled(msgs, s, a)
    requires a.SendCount? || a.GetFirst? || a.SendBody? || a.GetSecond?
    ensures Inv(msgs, Next(msgs, s, a))
  {
    if a.GetSecond? {
      assert msgs[..s.sent + 1] == msgs[..s.sent] + [msgs[s.sent]];
    }
  }

  lemma {:induction false} ReceiverStep(msgs: seq<seq<byte>>, s: System, a: Action)
    requires MessagesOk(msgs) && Inv(msgs, s) && Enabled(msgs, s, a)
    requires a.ReadCount? || a.WriteFirst? || a.ReadChunk? || a.WriteSecond?
    ensures Inv(msgs, Next(msgs, s, a))
  {
    if a.ReadCount? {
      var m := msgs[s.sent];
      assert s.forth[..4] == LittleEndian(|m|, 4);
      SignedOfLittleEndian(|m|, 4);
    }
    if a.ReadChunk? {
      assert s.receiver.got + s.forth[..a.n] + s.forth[a.n..] == s.receiver.got + s.forth;
    }
    if a.WriteSecond? && s.sender.AwaitSecond? {
      var m := msgs[s.sent];
      assert s.forth == [] && s.receiver.got + s.forth == s.receiver.got;
    }
  }

  /** Every step keeps the phases in step; no confirmation or count is ever wrong. */
  lemma {:induction false} StepInv(msgs: seq<seq<byte>>, s: System, a: Action)
    requires MessagesOk(msgs) && Inv(msgs, s) && Enabled(msgs, s, a)
    ensures Inv(msgs, Next(msgs, s, a))
  {
    hide Inv;
    if a.SendCount? || a.GetFirst? || a.SendBody? || a.GetSecond? {
      SenderStep(msgs, s, a);
    } else {
      ReceiverStep(msgs, s, a);
    }
  }

  predicate Finished(msgs: seq<seq<byte>>, s: System) {
    s.sender.Ready? && s.sent == |msgs|
  }

  /** No deadlock: until everything is sent, some side can move. */
  lemma {:induction false} Progress(msgs: seq<seq<byte>>, s: System) returns (a: Action)
    requires MessagesOk(msgs) && Inv(msgs, s) && !Finished(msgs, s)
    ensures Enabled(msgs, s, a)
  {
    match s.sender
    case Ready => a := SendCount;
    case AwaitFirst =>
      match s.receiver {
        case WantCount => a := ReadCount;
        case ConfirmCount(_) => a := WriteFirst;
        case Reading(_, _) => a := GetFirst;
      }
    case WriteBody => a := SendBody;
    case AwaitSecond =>
      match s.receiver {
        case Reading(count, got) => a := if |got| == count then WriteSecond else ReadChunk(|s.forth|);
        case WantCount => a := GetSecond;
      }
  }

  /** Steps still to come at most: five or six per message besides one per unread byte. */
  function Work(msgs: seq<seq<byte>>, i: nat): nat
    requires i <= |msgs|
    decreases |msgs| - i
  {
    if i == |msgs| then 0 else 8 + |msgs[i]| + Work(msgs, i + 1)
  }

  function Left(msgs: seq<seq<byte>>, s: System): nat
    requires s.sent <= |msgs|
  {
    if s.sent == |msgs| then 0
    else
      var later, n := Work(msgs, s.sent + 1), |msgs[s.sent]|;
      match s.sender
      case Ready => later + n + 8
      case AwaitFirst =>
        later + n + (if s.receiver.WantCount? then 7 else if s.receiver.ConfirmCount? then 6 else 5)
      case WriteBody => later + n + 4
      case AwaitSecond =>
        (match s.receiver
         case Reading(_, got) => later + 2 + if n > |got| then n - |got| else 0
         case _ => later + 1)
      case SendFailed => 0
  }

  /** Every step brings the end nearer. */
  lemma {:induction false} StepDecreases(msgs: seq<seq<byte>>, s: System, a: Action)
    requires MessagesOk(msgs) && Inv(msgs, s) && Enabled(msgs, s, a)
    ensures Inv(msgs, Next(msgs, s, a)) && Left(msgs, Next(msgs, s, a)) < Left(msgs, s)
  {
    StepInv(msgs, s, a);
  }

  // ----- runs -----

  ghost predicate Run(msgs: seq<seq<byte>>, s: System, actions: seq<Action>, t: System)
    decreases |actions|
  {
    if actions == [] then s == t
    else Enabled(msgs, s, actions[0]) && Run(msgs, Next(msgs, s, actions[0]), actions[1..], t)
  }

  lemma {:induction false} RunInv(msgs: seq<seq<byte>>, s: System, actions: seq<Action>, t: System)
    requires MessagesOk(msgs) && Inv(msgs, s) && Run(msgs, s, actions, t)
    ensures Inv(msgs, t) && Left(msgs, t) + |actions| <= Left(msgs, s)
    decreases |actions|
  {
    hide Inv, Left, Enabled, Next;
    if actions != [] {
      StepDecreases(msgs, s, actions[0]);
      RunInv(msgs, Next(msgs, s, actions[0]), actions[1..], t);
    }
  }

  /** Whatever the interleaving and however the payload reads are split: what has
      been delivered is a prefix of what was to be sent, in order and intact;
      between messages both channels are empty; no run is longer than Work; and a
      run that cannot continue has delivered everything. */
  lemma {:induction false} EveryRunDelivers(msgs: seq<seq<byte>>, actions: seq<Action>, t: System)
    requires MessagesOk(msgs) && Run(msgs, START, actions, t)
    ensures t.delivered <= msgs && t.sent <= |t.delivered| <= t.sent + 1
    ensures t.sender.Ready? ==> t.forth == [] && t.back == [] && t.delivered == msgs[..t.sent]
    ensures !t.sender.SendFailed? && !t.receiver.ReceiveFailed?
    ensures |actions| <= Work(msgs, 0)
    ensures (forall a :: !Enabled(msgs, t, a)) <==> Finished(msgs, t)
    ensures Finished(msgs, t) ==> t.delivered == msgs && t.forth == [] && t.back == []
  {
    StartInv(msgs);
    RunInv(msgs, START, actions, t);
    if t.sent < |msgs| {
      assert msgs[..t.sent + 1] == msgs[..t.sent] + [msgs[t.sent]];
    }
    if !Finished(msgs, t) {
      var a := Progress(msgs, t);
    } else {
      assert msgs[..|msgs|] == msgs;
      forall a ensures !Enabled(msgs, t, a) {
      }
    }
  }
}
