/** The log pipeline (biz/base_log.go): the bounded buffer between emitters and the background
    worker, the idempotent consumer, and the primary key made of a queue message id. */
module LogPipeline {
  import opened Common

  datatype Event = Event(kind: string, body: string)

  // ----- the buffer between emitters and the worker -----

  const BUFFER_SIZE: nat := 2048

  datatype Buffer = Buffer(events: seq<Event>, closed: bool, channelCloses: nat)

  /** The select of Emit: into the channel, or dropped when it is full. */
  function Offer(b: Buffer, e: Event): Option<Buffer> {
    if |b.events| < BUFFER_SIZE then Some(b.(events := b.events + [e])) else None
  }

  /** Emit, under the read lock: refused after the close and when the buffer is full. */
  function Emit(b: Buffer, e: Event): Option<Buffer> { if b.closed then None else Offer(b, e) }

  /** What the worker's range over the channel yields; None when it would block or end. */
  function Next(b: Buffer): Option<(Event, Buffer)> {
    if b.events == [] then None else Some((b.events[0], b.(events := b.events[1..])))
  }

  /** The lock section of close. */
  function CloseBuffer(b: Buffer): Buffer {
    if b.closed then b else b.(closed := true, channelCloses := b.channelCloses + 1)
  }

  class Pipeline {
    var events: seq<Event>
    var closed: bool
    var channelCloses: nat

    function View(): Buffer
      reads this
    {
      Buffer(events, closed, channelCloses)
    }

    constructor ()
      ensures View() == Buffer([], false, 0)
    {
      events, closed, channelCloses := [], false, 0;
    }

    method EmitEvent(e: Event) returns (accepted: bool)
      modifies this
      ensures accepted <==> !old(closed) && |old(events)| < BUFFER_SIZE
      ensures View() == if accepted then Buffer(old(events) + [e], false, old(channelCloses)) else old(View())
      ensures Emit(old(View()), e) == if accepted then Some(View()) else None
    {
      if closed {
        return false;
      }
      if |events| < BUFFER_SIZE {
        events := events + [e];
        return true;
      }
      return false;
    }

    method Receive() returns (e: Option<Event>)
      modifies this
      ensures var next := Next(old(View()));
        && e == (if next.None? then None else Some(next.value.0))
        && View() == if next.None? then old(View()) else next.value.1
    {
      if events == [] {
        return None;
      }
      e := Some(events[0]);
      events := events[1..];
    }

    method Close()
      modifies this
      ensures View() == CloseBuffer(old(View()))
    {
      if !closed {
        closed := true;
        channelCloses := channelCloses + 1;
      }
    }
  }

  /** The background worker: at the head of its loop, handling an event, or out of the loop. */
  datatype Worker = Receiving | Handling(event: Event) | Done

  /** `emitting` are the events of emitters that hold the read lock and have seen the pipeline open;
      `closers` have passed the lock section of close and wait for the worker. */
  datatype System = System(buffer: Buffer, worker: Worker, emitting: seq<Event>, closers: nat, returned: nat,
                           accepted: seq<Event>, dropped: seq<Event>, handled: seq<Event>, sentOnClosed: bool)

  const IDLE := System(Buffer([], false, 0), Receiving, [], 0, 0, [], [], [], false)

  datatype Action = EmitEnters(event: Event) | EmitSends(k: nat) | WorkerReceives | WorkerHandles | WorkerExits
                  | CloseLocks | CloseReturns

  /** One atomic step; the lock section of close is not enabled while an emitter holds the read lock. */
  function Step(s: System, a: Action): Option<System> {
    match a
    case EmitEnters(e) =>
      if s.buffer.closed then Some(s.(dropped := s.dropped + [e])) else Some(s.(emitting := s.emitting + [e]))
    case EmitSends(k) =>
      if k >= |s.emitting| then None
      else
        var e := s.emitting[k];
        var t := s.(emitting := s.emitting[..k] + s.emitting[k + 1..]);
        if Offer(s.buffer, e).None? then Some(t.(dropped := s.dropped + [e]))
        else Some(t.(buffer := Offer(s.buffer, e).value, accepted := s.accepted + [e],
                     sentOnClosed := s.sentOnClosed || s.buffer.channelCloses > 0))
    case WorkerReceives =>
      if s.worker.Receiving? && Next(s.buffer).Some? then
        Some(s.(worker := Handling(Next(s.buffer).value.0), buffer := Next(s.buffer).value.1))
      else None
    case WorkerHandles =>
      if s.worker.Handling? then Some(s.(worker := Receiving, handled := s.handled + [s.worker.event])) else None
    case WorkerExits =>
      if s.worker.Receiving? && Next(s.buffer).None? && s.buffer.channelCloses > 0 then Some(s.(worker := Done))
          else None
    case CloseLocks =>
      if s.emitting == [] then Some(s.(buffer := CloseBuffer(s.buffer), closers := s.closers + 1)) else None
    case CloseReturns =>
      if s.closers > 0 && s.worker.Done? then Some(s.(closers := s.closers - 1, returned := s.returned + 1)) else None
  }

  function Run(s: System, actions: seq<Action>): Option<System> {
    if actions == [] then Some(s)
    else
      var before := Run(s, actions[..|actions| - 1]);
      if before.None? then None else Step(before.value, actions[|actions| - 1])
  }

  function InHand(w: Worker): seq<Event> { if w.Handling? then [w.event] else [] }

  ghost predicate Inv(s: System) {
    && s.accepted == s.handled + InHand(s.worker) + s.buffer.events
    && |s.buffer.events| <= BUFFER_SIZE
    && s.buffer.channelCloses == (if s.buffer.closed then 1 else 0)
    && (s.buffer.closed ==> s.emitting == [])
    && !s.sentOnClosed
    && (s.worker.Done? ==> s.buffer.closed && s.buffer.events == [])
    && (s.closers > 0 ==> s.buffer.closed)
    && (s.returned > 0 ==> s.worker.Done?)
  }

  lemma {:induction false} StepKeepsInv(s: System, a: Action)
    requires Inv(s) && Step(s, a).Some?
    ensures Inv(Step(s, a).value)
    ensures s.buffer.closed ==> Step(s, a).value.buffer.closed && Step(s, a).value.accepted == s.accepted
    ensures s.worker.Done? ==> Step(s, a).value.worker.Done? && Step(s, a).value.handled == s.handled
  {
  }

  lemma {:induction false} RunKeepsInv(s: System, actions: seq<Action>)
    requires Inv(s) && Run(s, actions).Some?
    ensures Inv(Run(s, actions).value)
    ensures s.buffer.closed ==> Run(s, actions).value.accepted == s.accepted && Run(s, actions).value.buffer.closed
    ensures s.worker.Done? ==> Run(s, actions).value.handled == s.handled && Run(s, actions).value.worker.Done?
  {
    if actions != [] {
      var init := actions[..|actions| - 1];
      RunKeepsInv(s, init);
      StepKeepsInv(Run(s, init).value, actions[|actions| - 1]);
    }
  }

  /** In every interleaving of emitters, worker and closers nothing is sent on a closed channel, the channel
      is closed at most once, and the accepted events are the handled ones, in order, then at most one
      in the worker's hand, then at most the buffer's capacity waiting. */
  lemma {:induction false} EveryRunConserves(actions: seq<Action>)
    requires Run(IDLE, actions).Some?
    ensures var s := Run(IDLE, actions).value;
      && !s.sentOnClosed && s.buffer.channelCloses <= 1
      && s.accepted == s.handled + InHand(s.worker) + s.buffer.events
      && |s.buffer.events| <= 2048
  {
    RunKeepsInv(IDLE, actions);
  }

  /** The events that Emit was called with. */
  function Emitted(actions: seq<Action>): seq<Event> {
    if actions == [] then []
    else
      var a := actions[|actions| - 1];
      Emitted(actions[..|actions| - 1]) + (if a.EmitEnters? then [a.event] else [])
  }

  predicate ClosedIn(actions: seq<Action>) { exists k :: 0 <= k < |actions| && actions[k].CloseLocks? }

  /** How often the event is among the accepted, the dropped and the ones still held by their emitters. */
  function Tally(s: System, e: Event): nat {
    multiset(s.accepted)[e] + multiset(s.dropped)[e] + multiset(s.emitting)[e]
  }

  /** Every event that Emit was called with is accepted, dropped or still held by its emitter, and just one of these;
      the pipeline is closed exactly if some closer has been through its lock section. */
  lemma {:induction false} EveryEventIsAccountedFor(actions: seq<Action>, e: Event)
    requires Run(IDLE, actions).Some?
    ensures Tally(Run(IDLE, actions).value, e) == multiset(Emitted(actions))[e]
    ensures Run(IDLE, actions).value.buffer.closed <==> ClosedIn(actions)
  {
    hide Step, Tally;
    if actions == [] {
      assert Tally(IDLE, e) == 0 by {
        NothingTallied(e);
      }
    } else {
      var init := actions[..|actions| - 1];
      EveryEventIsAccountedFor(init, e);
      StepAccounts(Run(IDLE, init).value, actions[|actions| - 1], e);
      ClosedInGrows(actions);
      hide ClosedIn;
    }
  }

  lemma {:induction false} NothingTallied(e: Event)
    ensures Tally(IDLE, e) == 0
  {
  }

  lemma {:induction false} ClosedInGrows(actions: seq<Action>)
    requires actions != []
    ensures ClosedIn(actions) <==> ClosedIn(actions[..|actions| - 1]) || actions[|actions| - 1].CloseLocks?
  {
    var init := actions[..|actions| - 1];
    assert forall k :: 0 <= k < |init| ==> init[k] == actions[k];
  }

  lemma {:induction false} StepAccounts(s: System, a: Action, e: Event)
    requires Step(s, a).Some?
    ensures Tally(Step(s, a).value, e) == Tally(s, e) + (if a.EmitEnters? && a.event == e then 1 else 0)
    ensures Step(s, a).value.buffer.closed <==> s.buffer.closed || a.CloseLocks?
  {
    match a
    case EmitSends(k) => SendAccounts(s, k, e);
    case _ =>
  }

  lemma {:induction false} EmitIs(s: System, k: nat, e: Event)
    ensures Step(s, EmitEnters(e)) == Some(if s.buffer.closed then s.(dropped := s.dropped + [e])
                                           else s.(emitting := s.emitting + [e]))
    ensures k < |s.emitting| ==>
              var sent := Step(s, EmitSends(k));
              && sent.Some? && sent.value.emitting == s.emitting[..k] + s.emitting[k + 1..]
              && if |s.buffer.events| < BUFFER_SIZE then
                   sent.value.accepted == s.accepted + [s.emitting[k]] && sent.value.dropped == s.dropped
                 else sent.value.accepted == s.accepted && sent.value.dropped == s.dropped + [s.emitting[k]]
  {
  }

  lemma {:induction false} SendAccounts(s: System, k: nat, e: Event)
    requires k < |s.emitting|
    ensures Tally(Step(s, EmitSends(k)).value, e) == Tally(s, e)
  {
    hide Tally, Step;
    EmitIs(s, k, e);
    var given := s.emitting[k];
    var t := Step(s, EmitSends(k)).value;
    OneTaken(s.emitting, k);
    TallyIs(s, e);
    TallyIs(t, e);
    assert multiset(s.accepted + [given])[e] == multiset(s.accepted)[e] + multiset([given])[e];
    assert multiset(s.dropped + [given])[e] == multiset(s.dropped)[e] + multiset([given])[e];
  }

  lemma {:induction false} TallyIs(s: System, e: Event)
    ensures Tally(s, e) == multiset(s.accepted)[e] + multiset(s.dropped)[e] + multiset(s.emitting)[e]
  {
  }

  lemma {:induction false} OneTaken(events: seq<Event>, k: nat)
    requires k < |events|
    ensures multiset(events) == multiset(events[..k] + events[k + 1..]) + multiset([events[k]])
  {
    assert events == events[..k] + [events[k]] + events[k + 1..];
  }

  /** An emitter that finds the pipeline open has its event accepted exactly if there is room: fewer accepted events
      wait than the buffer holds. One that finds it closed has its event dropped. */
  lemma {:induction false} AcceptedIffRoom(actions: seq<Action>, k: nat, e: Event)
    requires Run(IDLE, actions).Some?
    ensures var s := Run(IDLE, actions).value; var entered := Step(s, EmitEnters(e));
      && entered.Some?
      && entered.value == if ClosedIn(actions) then s.(dropped := s.dropped + [e])
                          else s.(emitting := s.emitting + [e])
    ensures var s := Run(IDLE, actions).value; var sent := Step(s, EmitSends(k));
      k < |s.emitting| ==>
        && sent.Some? && sent.value.emitting == s.emitting[..k] + s.emitting[k + 1..]
        && if |s.accepted| - |s.handled| - |InHand(s.worker)| < 2048 then
             sent.value.accepted == s.accepted + [s.emitting[k]] && sent.value.dropped == s.dropped
           else sent.value.accepted == s.accepted && sent.value.dropped == s.dropped + [s.emitting[k]]
  {
    hide Run, Step, InHand, ClosedIn;
    EveryRunConserves(actions);
    EveryEventIsAccountedFor(actions, e);
    EmitIs(Run(IDLE, actions).value, k, e);
  }

  /** When close has returned, every accepted event has been handled, once and in the order of acceptance,
      and that stays so whatever runs afterwards. */
  lemma {:induction false} CloseDrains(actions: seq<Action>, more: seq<Action>)
    requires Run(IDLE, actions).Some? && Run(IDLE, actions).value.returned > 0
    requires Run(Run(IDLE, actions).value, more).Some?
    ensures var s, t := Run(IDLE, actions).value, Run(Run(IDLE, actions).value, more).value;
      s.handled == s.accepted == t.accepted == t.handled
  {
    RunKeepsInv(IDLE, actions);
    RunKeepsInv(Run(IDLE, actions).value, more);
  }

  /** A closer is never stuck: until the worker is out of its loop, the worker has an enabled step. */
  lemma {:induction false} CloserGetsAnswer(s: System)
    requires Inv(s) && s.closers > 0
    ensures exists a :: a in [WorkerReceives, WorkerHandles, WorkerExits, CloseReturns] && Step(s, a).Some?
  {
    var a := match s.worker
      case Done => CloseReturns
      case Handling(_) => WorkerHandles
      case Receiving => if s.buffer.events != [] then WorkerReceives else WorkerExits;
    assert a in [WorkerReceives, WorkerHandles, WorkerExits, CloseReturns] && Step(s, a).Some?;
  }

  /** The worker waits only for an event or the close; a closer for the emitters inside, then for the worker. */
  lemma {:induction false} BlockedIff(s: System)
    requires Inv(s)
    ensures Step(s, WorkerReceives).None? && Step(s, WorkerHandles).None? && Step(s, WorkerExits).None? <==>
            s.worker.Done? || (s.worker.Receiving? && s.buffer.events == [] && !s.buffer.closed)
    ensures Step(s, CloseLocks).Some? <==> s.emitting == []
    ensures Step(s, CloseReturns).Some? <==> s.closers > 0 && s.worker.Done?
  {
  }

  // ----- decimal numbers -----

  const MAX_INT64: int := 0x7fff_ffff_ffff_ffff

  function Digit(c: char): Option<nat> { if '0' <= c <= '9' then Some(c as int - '0' as int) else None }

  /** The value of a possibly empty string of decimal digits. */
  function DigitsValue(s: string): Option<nat> {
    if s == [] then Some(0)
    else
      match (DigitsValue(s[..|s| - 1]), Digit(s[|s| - 1]))
      case (Some(n), Some(d)) => Some(10 * n + d)
      case _ => None
  }

  /** strconv.ParseInt in base 10 for 64 bits: an optional sign, at least one digit, and the int64 range. */
  function ParseInt(s: string): Option<int> {
    var signed := s != [] && (s[0] == '+' || s[0] == '-');
    var digits := if signed then s[1..] else s;
    if digits == [] || DigitsValue(digits).None? then None
    else
      var magnitude: int := DigitsValue(digits).value;
      var value := if s[0] == '-' then -magnitude else magnitude;
      if -MAX_INT64 - 1 <= value <= MAX_INT64 then Some(value) else None
  }

  const DIGITS := "0123456789"

  function Decimal(n: nat): string { (if n < 10 then [] else Decimal(n / 10)) + [DIGITS[n % 10]] }

  lemma {:induction false} DigitParses(d: nat)
    requires d < 10
    ensures Digit(DIGITS[d]) == Some(d) && DIGITS[d] != '-' && DIGITS[d] != '+'
  {
  }

  lemma {:induction false} DigitsAppend(front: string, c: char)
    requires DigitsValue(front).Some? && Digit(c).Some?
    ensures DigitsValue(front + [c]) == Some(10 * DigitsValue(front).value + Digit(c).value)
  {
    assert (front + [c])[..|front|] == front;
  }

  lemma {:induction false} DecimalParses(n: nat)
    ensures Decimal(n) != [] && DigitsValue(Decimal(n)) == Some(n)
    ensures forall k :: 0 <= k < |Decimal(n)| ==> Decimal(n)[k] != '-' && Decimal(n)[k] != '+'
  {
    hide Digit, DigitsValue;
    var front := if n < 10 then [] else Decimal(n / 10);
    DigitParses(n % 10);
    if n >= 10 {
      DecimalParses(n / 10);
    } else {
      NoDigits();
    }
    DigitsAppend(front, DIGITS[n % 10]);
  }

  lemma {:induction false} NoDigits()
    ensures DigitsValue([]) == Some(0)
  {
  }

  /** `n` with `k` zeros behind it. */
  function Shifted(n: nat, k: nat): nat { if k == 0 then n else 10 * Shifted(n, k - 1) }

  /** The value of a number is that of its front, shifted by the digits that follow, and of these. */
  lemma {:induction false} DigitsJoin(a: string, b: string)
    ensures DigitsValue(a).Some? && DigitsValue(b).Some? ==>
              DigitsValue(a + b) == Some(Shifted(DigitsValue(a).value, |b|) + DigitsValue(b).value)
    ensures DigitsValue(a + b).Some? <==> DigitsValue(a).Some? && DigitsValue(b).Some?
  {
    hide Digit;
    if b == [] {
      assert a + b == a;
    } else {
      DigitsJoin(a, b[..|b| - 1]);
      assert (a + b)[..|a + b| - 1] == a + b[..|b| - 1];
    }
  }

  /** A number is digits alone. */
  lemma {:induction false} DigitsOnly(s: string)
    ensures DigitsValue(s).Some? <==> forall k :: 0 <= k < |s| ==> '0' <= s[k] <= '9'
  {
    if s != [] {
      DigitsOnly(s[..|s| - 1]);
    }
  }

  /** Digits, with at most one sign before them, are an integer if their value is in the int64 range. */
  lemma {:induction false} ParseIntOfDigits(digits: string)
    requires digits != [] && DigitsValue(digits).Some?
    ensures var n: int := DigitsValue(digits).value;
      && ParseInt(digits) == ParseInt(['+'] + digits) == (if n <= 0x7fff_ffff_ffff_ffff then Some(n) else None)
      && ParseInt(['-'] + digits) == (if n <= 0x8000_0000_0000_0000 then Some(-n) else None)
  {
    DigitsOnly(digits);
    hide DigitsValue;
    var plus, minus := ['+'] + digits, ['-'] + digits;
    assert plus[1..] == minus[1..] == digits && plus[0] == '+' && minus[0] == '-';
  }

  /** And nothing else is. */
  lemma {:induction false} ParseIntNeedsDigits(s: string)
    requires ParseInt(s).Some?
    ensures s != [] && (s[0] in ['+', '-'] || '0' <= s[0] <= '9') && (|s| == 1 ==> '0' <= s[0] <= '9')
    ensures forall k :: 1 <= k < |s| ==> '0' <= s[k] <= '9'
  {
    var signed := s != [] && (s[0] == '+' || s[0] == '-');
    var digits := if signed then s[1..] else s;
    DigitsOnly(digits);
    assert signed ==> forall k :: 1 <= k < |s| ==> s[k] == digits[k - 1];
  }

  // ----- the primary key -----

  const SEQUENCE_BITS: nat := 20
  const SEQUENCES: nat := 0x10_0000
  const MAX_TIMESTAMP: nat := 0x7ff_ffff_ffff

  function Pow2(k: nat): nat { if k == 0 then 1 else 2 * Pow2(k - 1) }

  /** The bitwise or of two natural numbers. */
  function BitOr(a: nat, b: nat): nat
    decreases a + b
  {
    if a == 0 then b else if b == 0 then a
    else (if a % 2 == 1 || b % 2 == 1 then 1 else 0) + 2 * BitOr(a / 2, b / 2)
  }

  lemma {:induction false} BitOrDisjoint(high: nat, k: nat, low: nat)
    requires low < Pow2(k)
    ensures BitOr(high * Pow2(k), low) == high * Pow2(k) + low
  {
    if k > 0 {
      var a := high * Pow2(k);
      assert a == 2 * (high * Pow2(k - 1));
      BitOrDisjoint(high, k - 1, low / 2);
    }
  }

  function FirstDash(s: string): (r: nat)
    ensures r <= |s|
    ensures r < |s| ==> s[r] == '-'
    ensures forall k :: 0 <= k < r ==> s[k] != '-'
  {
    if s == [] || s[0] == '-' then 0 else 1 + FirstDash(s[1..])
  }

  datatype Stamp = Stamp(timestamp: nat, sequence: nat)

  /** The timestamp and sequence of a well-formed message id. */
  function StampOf(messageId: string): Option<Stamp> {
    var at := FirstDash(messageId);
    if at == |messageId| then None
    else
      match (ParseInt(messageId[..at]), ParseInt(messageId[at + 1..]))
      case (Some(t), Some(q)) => if 0 < t <= MAX_TIMESTAMP && 0 <= q < SEQUENCES then Some(Stamp(t, q)) else None
      case _ => None
  }

  /** LogMessagePrimaryKey; `fnv64a` is the 64-bit hash of ids of another form, cut to 63 bits. */
  function PrimaryKey(fnv64a: string -> nat, messageId: string): int {
    if messageId == "" then 0
    else
      match StampOf(messageId)
      case Some(s) => BitOr(s.timestamp * Pow2(SEQUENCE_BITS), s.sequence)
      case None =>
        var value := fnv64a(messageId) % (MAX_INT64 + 1);
        if value == 0 then 1 else value
  }

  lemma {:induction false} SequencePow()
    ensures Pow2(SEQUENCE_BITS) == SEQUENCES
  {
    assert Pow2(5) == 32;
    assert Pow2(10) == 1024;
    assert Pow2(15) == 32768;
    assert Pow2(20) == 1048576;
  }

  /** On well-formed ids the key holds the timestamp above the 20 bits of the sequence. */
  lemma {:induction false} KeyOfStamp(fnv64a: string -> nat, messageId: string)
    requires StampOf(messageId).Some?
    ensures var s := StampOf(messageId).value;
      PrimaryKey(fnv64a, messageId) == s.timestamp * SEQUENCES + s.sequence
  {
    SequencePow();
    var s := StampOf(messageId).value;
    BitOrDisjoint(s.timestamp, SEQUENCE_BITS, s.sequence);
  }

  /** The key never leaves the range of a positive int64, and is 0 for the empty id alone. */
  lemma {:induction false} KeyInRange(fnv64a: string -> nat, messageId: string)
    ensures 0 <= PrimaryKey(fnv64a, messageId) <= MAX_INT64
    ensures PrimaryKey(fnv64a, messageId) == 0 <==> messageId == ""
  {
    if StampOf(messageId).Some? {
      KeyOfStamp(fnv64a, messageId);
    }
  }

  /** Any other id has the low 63 bits of its hash for a key, or 1 if they are 0: two such ids share a key exactly if
      their hashes agree in those bits, or one has 0 there and the other 1. */
  lemma {:induction false} KeysOfHashes(fnv64a: string -> nat, a: string, b: string)
    requires a != "" && b != "" && StampOf(a).None? && StampOf(b).None?
    ensures var x, y := fnv64a(a) % 0x8000_0000_0000_0000, fnv64a(b) % 0x8000_0000_0000_0000;
      && PrimaryKey(fnv64a, a) == (if x == 0 then 1 else x)
      && (PrimaryKey(fnv64a, a) == PrimaryKey(fnv64a, b) <==> x == y || (x <= 1 && y <= 1))
  {
  }

  predicate Earlier(a: Stamp, b: Stamp) {
    a.timestamp < b.timestamp || (a.timestamp == b.timestamp && a.sequence < b.sequence)
  }

  /** Keys of well-formed ids are ordered as their timestamps and sequences are. */
  lemma {:induction false} KeysFollowStamps(fnv64a: string -> nat, a: string, b: string)
    requires StampOf(a).Some? && StampOf(b).Some?
    ensures PrimaryKey(fnv64a, a) < PrimaryKey(fnv64a, b) <==> Earlier(StampOf(a).value, StampOf(b).value)
    ensures PrimaryKey(fnv64a, a) == PrimaryKey(fnv64a, b) <==> StampOf(a) == StampOf(b)
  {
    KeyOfStamp(fnv64a, a);
    KeyOfStamp(fnv64a, b);
  }

  lemma {:induction false} DecimalIsInt(n: nat)
    requires n <= MAX_INT64
    ensures ParseInt(Decimal(n)) == Some(n)
  {
    hide DigitsValue, Decimal;
    DecimalParses(n);
  }

  lemma {:induction false} SplitsAtDash(left: string, right: string)
    requires forall k :: 0 <= k < |left| ==> left[k] != '-'
    ensures var s := left + "-" + right;
      FirstDash(s) == |left| && s[..FirstDash(s)] == left && s[FirstDash(s) + 1..] == right
  {
    var s := left + "-" + right;
    assert s[|left|] == '-';
    assert forall k :: 0 <= k < |left| ==> s[k] == left[k];
  }

  /** The id written from a timestamp and a sequence leads back to them through its key. */
  lemma {:induction false} KeyRoundTrip(fnv64a: string -> nat, s: Stamp)
    requires 0 < s.timestamp <= MAX_TIMESTAMP && s.sequence < SEQUENCES
    ensures StampOf(Decimal(s.timestamp) + "-" + Decimal(s.sequence)) == Some(s)
    ensures PrimaryKey(fnv64a, Decimal(s.timestamp) + "-" + Decimal(s.sequence)) / SEQUENCES == s.timestamp
    ensures PrimaryKey(fnv64a, Decimal(s.timestamp) + "-" + Decimal(s.sequence)) % SEQUENCES == s.sequence
  {
    hide Decimal, ParseInt, FirstDash, BitOr, Pow2, PrimaryKey;
    DecimalIsInt(s.timestamp);
    DecimalIsInt(s.sequence);
    DecimalParses(s.timestamp);
    SplitsAtDash(Decimal(s.timestamp), Decimal(s.sequence));
    KeyOfStamp(fnv64a, Decimal(s.timestamp) + "-" + Decimal(s.sequence));
  }

  // ----- the consumer -----

  datatype Row = Row(id: int, event: Event)

  /** The two log tables. */
  datatype Tables = Tables(api: seq<Row>, evaluations: seq<Row>)

  /** What the database answers to an insert it could make: it may also insert and still report an error. */
  datatype Answer = Inserts | Refuses | InsertsAndFails

  /** One delivery: the message id, the decoded event if the body decodes, the answer to the insert,
      whether the lookup after a failed insert fails, and the key the database picks for id 0. */
  datatype Delivery = Delivery(messageId: string, event: Option<Event>, answer: Answer, lookupFails: bool, nextId: int)

  predicate HasId(rows: seq<Row>, id: int) { exists k :: 0 <= k < |rows| && rows[k].id == id }

  /** The primary key is unique: an insert under a key that is taken fails. */
  function Inserted(rows: seq<Row>, id: int, d: Delivery): seq<Row>
    requires d.event.Some?
  {
    var key := if id == 0 then d.nextId else id;
    if HasId(rows, key) || d.answer.Refuses? then rows else rows + [Row(key, d.event.value)]
  }

  predicate InsertFails(rows: seq<Row>, id: int, d: Delivery) {
    HasId(rows, if id == 0 then d.nextId else id) || !d.answer.Inserts?
  }

  /** Whether persist returns nil: the insert was confirmed, or the lookup finds the key. */
  predicate Acknowledged(rows: seq<Row>, id: int, d: Delivery)
    requires d.event.Some?
  {
    !InsertFails(rows, id, d) || (id != 0 && !d.lookupFails && HasId(Inserted(rows, id, d), id))
  }

  function Normalize(e: Event): Event { if e.kind == "" then e.(kind := "api") else e }

  datatype Consumed = Consumed(tables: Tables, acknowledged: bool)

  function Consume(fnv64a: string -> nat, t: Tables, given: Delivery): Consumed {
    if given.event.None? then Consumed(t, false)
    else
      var d := given.(event := Some(Normalize(given.event.value)));
      var id := PrimaryKey(fnv64a, d.messageId);
      if d.event.value.kind == "api" then Consumed(t.(api := Inserted(t.api, id, d)), Acknowledged(t.api, id, d))
      else if d.event.value.kind == "policy_evaluation" then
        Consumed(t.(evaluations := Inserted(t.evaluations, id, d)), Acknowledged(t.evaluations, id, d))
      else Consumed(t, false)
  }

  class LogSink {
    var api: seq<Row>
    var evaluations: seq<Row>

    function View(): Tables
      reads this
    {
      Tables(api, evaluations)
    }

    method CreateApi(id: int, d: Delivery) returns (failed: bool)
      requires d.event.Some?
      modifies this`api
      ensures api == Inserted(old(api), id, d) && failed == InsertFails(old(api), id, d)
    {
      var key := if id == 0 then d.nextId else id;
      if HasId(api, key) || d.answer.Refuses? {
        return true;
      }
      api := api + [Row(key, d.event.value)];
      return d.answer.InsertsAndFails?;
    }

    method CreatePolicyEvaluation(id: int, d: Delivery) returns (failed: bool)
      requires d.event.Some?
      modifies this`evaluations
      ensures evaluations == Inserted(old(evaluations), id, d) && failed == InsertFails(old(evaluations), id, d)
    {
      var key := if id == 0 then d.nextId else id;
      if HasId(evaluations, key) || d.answer.Refuses? {
        return true;
      }
      evaluations := evaluations + [Row(key, d.event.value)];
      return d.answer.InsertsAndFails?;
    }

    method ConsumeMessage(fnv64a: string -> nat, given: Delivery) returns (ok: bool)
      modifies this
      ensures Consumed(View(), ok) == Consume(fnv64a, old(View()), given)
    {
      if given.event.None? {
        return false;
      }
      var d := given.(event := Some(Normalize(given.event.value)));
      var recordId := PrimaryKey(fnv64a, d.messageId);
      if d.event.value.kind == "api" {
        var failed := CreateApi(recordId, d);
        if !failed || recordId == 0 {
          return !failed;
        }
        return !d.lookupFails && HasId(api, recordId);
      }
      if d.event.value.kind == "policy_evaluation" {
        var failed := CreatePolicyEvaluation(recordId, d);
        if !failed || recordId == 0 {
          return !failed;
        }
        return !d.lookupFails && HasId(evaluations, recordId);
      }
      return false;
    }
  }

  predicate KeysUnique(rows: seq<Row>) { forall j, k :: 0 <= j < k < |rows| ==> rows[j].id != rows[k].id }

  function TableOf(t: Tables, e: Event): seq<Row> {
    if Normalize(e).kind == "api" then t.api else t.evaluations
  }

  lemma {:induction false} InsertOnce(rows: seq<Row>, id: int, d: Delivery)
    requires KeysUnique(rows) && d.event.Some?
    ensures rows <= Inserted(rows, id, d) && |Inserted(rows, id, d)| <= |rows| + 1 && KeysUnique(Inserted(rows, id, d))
    ensures id != 0 && !InsertFails(rows, id, d) ==> HasId(Inserted(rows, id, d), id)
  {
    if id != 0 && !InsertFails(rows, id, d) {
      assert Inserted(rows, id, d)[|rows|].id == id;
    }
  }

  function KeyOf(fnv64a: string -> nat, d: Delivery): int { PrimaryKey(fnv64a, d.messageId) }

  /** The delivery's own row: its key and its event. */
  function RowOf(fnv64a: string -> nat, d: Delivery): Row
    requires d.event.Some?
  {
    Row(KeyOf(fnv64a, d), Normalize(d.event.value))
  }

  /** The table holds the delivery's key with the event of another. */
  ghost predicate TakenByAnother(fnv64a: string -> nat, t: Tables, d: Delivery)
    requires d.event.Some?
  {
    exists row :: row in TableOf(t, d.event.value) && row.id == KeyOf(fnv64a, d) && row != RowOf(fnv64a, d)
  }

  /** A delivery keeps what is there, adds at most one row, which is its own event, and keeps the keys unique.
      It is acknowledged, if its id is not empty, only with a row under its key in the table; the row is its own
      event unless the table held the key with another. */
  lemma {:induction false} ConsumeOnce(fnv64a: string -> nat, t: Tables, d: Delivery)
    requires KeysUnique(t.api) && KeysUnique(t.evaluations)
    ensures var r := Consume(fnv64a, t, d);
      && KeysUnique(r.tables.api) && KeysUnique(r.tables.evaluations)
      && t.api <= r.tables.api && t.evaluations <= r.tables.evaluations
      && |r.tables.api| + |r.tables.evaluations| <= |t.api| + |t.evaluations| + 1
      && (r.tables != t ==>
            && d.event.Some?
            && TableOf(r.tables, d.event.value) == TableOf(t, d.event.value) +
                 [Row(if d.messageId == "" then d.nextId else KeyOf(fnv64a, d), Normalize(d.event.value))])
      && (r.acknowledged && d.messageId != "" ==>
            && d.event.Some? && HasId(TableOf(r.tables, d.event.value), KeyOf(fnv64a, d))
            && (RowOf(fnv64a, d) in TableOf(r.tables, d.event.value) <==> !TakenByAnother(fnv64a, t, d)))
  {
    hide PrimaryKey, KeysUnique;
    KeyInRange(fnv64a, d.messageId);
    if d.event.Some? {
      var normal := d.(event := Some(Normalize(d.event.value)));
      InsertOnce(t.api, KeyOf(fnv64a, d), normal);
      InsertOnce(t.evaluations, KeyOf(fnv64a, d), normal);
      if Consume(fnv64a, t, d).acknowledged && d.messageId != "" {
        OwnRow(TableOf(t, d.event.value), KeyOf(fnv64a, d), normal);
      }
    }
  }

  lemma {:induction false} OwnRow(rows: seq<Row>, id: int, d: Delivery)
    requires KeysUnique(rows) && d.event.Some? && id != 0 && Acknowledged(rows, id, d)
    ensures HasId(Inserted(rows, id, d), id)
    ensures Row(id, d.event.value) in Inserted(rows, id, d)
            <==> !exists row :: row in rows && row.id == id && row != Row(id, d.event.value)
  {
    var own := Row(id, d.event.value);
    if HasId(rows, id) {
      var k :| 0 <= k < |rows| && rows[k].id == id;
      if own in rows {
        var j :| 0 <= j < |rows| && rows[j] == own;
        forall row | row in rows && row.id == id ensures row == own {
          var i :| 0 <= i < |rows| && rows[i] == row;
        }
      } else {
        assert rows[k] in rows;
      }
    } else {
      assert !d.answer.Refuses? && Inserted(rows, id, d)[|rows|] == own;
    }
  }

  /** Where an event goes: to the table of its kind, a missing kind being "api"; of another kind, or without a body that
      decodes, nothing is stored and nothing acknowledged. */
  lemma {:induction false} ConsumeByKind(fnv64a: string -> nat, t: Tables, d: Delivery)
    ensures var r := Consume(fnv64a, t, d);
      if d.event.None? || d.event.value.kind !in ["", "api", "policy_evaluation"] then r == Consumed(t, false)
      else
        var api := d.event.value.kind != "policy_evaluation";
        var before, after := if api then t.api else t.evaluations, if api then r.tables.api else r.tables.evaluations;
        var key := if d.messageId == "" then d.nextId else PrimaryKey(fnv64a, d.messageId);
        var row := Row(key, Event(if api then "api" else "policy_evaluation", d.event.value.body));
        && (if api then r.tables.evaluations == t.evaluations else r.tables.api == t.api)
        && after == (if HasId(before, key) || d.answer.Refuses? then before else before + [row])
        && (r.acknowledged <==>
              || (!HasId(before, key) && d.answer.Inserts?)
              || (d.messageId != "" && !d.lookupFails && (HasId(before, key) || d.answer.InsertsAndFails?)))
  {
    hide PrimaryKey;
    KeyInRange(fnv64a, d.messageId);
    var kinds := ["", "api", "policy_evaluation"];
    assert kinds[0] == "" && kinds[1] == "api" && kinds[2] == "policy_evaluation";
    if d.event.Some? && d.event.value.kind in kinds {
      var api, id := d.event.value.kind != "policy_evaluation", PrimaryKey(fnv64a, d.messageId);
      var before := if api then t.api else t.evaluations;
      var normal := d.(event := Some(Normalize(d.event.value)));
      InsertedHas(before, if id == 0 then d.nextId else id, id, normal);
    }
  }

  lemma {:induction false} InsertedHas(rows: seq<Row>, key: int, id: int, d: Delivery)
    requires d.event.Some? && key == (if id == 0 then d.nextId else id)
    ensures HasId(Inserted(rows, id, d), key) <==> HasId(rows, key) || !d.answer.Refuses?
  {
    var after := Inserted(rows, id, d);
    if HasId(rows, key) {
      var k :| 0 <= k < |rows| && rows[k].id == key;
      assert after[k].id == key;
    } else if !d.answer.Refuses? {
      assert after[|rows|].id == key;
    }
  }

  /** Delivering a message again once its row exists changes nothing, and is acknowledged exactly if the lookup
      answers. */
  lemma {:induction false} Redelivery(fnv64a: string -> nat, t: Tables, d: Delivery)
    requires d.messageId != "" && d.event.Some? && Normalize(d.event.value).kind in {"api", "policy_evaluation"}
    requires HasId(TableOf(t, d.event.value), PrimaryKey(fnv64a, d.messageId))
    ensures Consume(fnv64a, t, d) == Consumed(t, !d.lookupFails)
  {
    KeyInRange(fnv64a, d.messageId);
  }

  /** The tables after the deliveries, and which of them were acknowledged. */
  function ConsumeAll(fnv64a: string -> nat, t: Tables, ds: seq<Delivery>): (r: (Tables, seq<bool>))
    ensures |r.1| == |ds|
  {
    if ds == [] then (t, [])
    else
      var (before, acks) := ConsumeAll(fnv64a, t, ds[..|ds| - 1]);
      var r := Consume(fnv64a, before, ds[|ds| - 1]);
      (r.tables, acks + [r.acknowledged])
  }

  /** The tables when the first `n` messages have been delivered. */
  function After(fnv64a: string -> nat, ds: seq<Delivery>, n: nat): Tables
    requires n <= |ds|
  {
    ConsumeAll(fnv64a, Tables([], []), ds[..n]).0
  }

  function Acks(fnv64a: string -> nat, ds: seq<Delivery>): (r: seq<bool>)
    ensures |r| == |ds|
  {
    ConsumeAll(fnv64a, Tables([], []), ds).1
  }

  /** Delivery `j` put the row into its table, with its own event. */
  ghost predicate PutBy(fnv64a: string -> nat, ds: seq<Delivery>, j: nat, row: Row) {
    && j < |ds| && ds[j].event.Some? && row.event == Normalize(ds[j].event.value)
    && TableOf(After(fnv64a, ds, j + 1), ds[j].event.value) == TableOf(After(fnv64a, ds, j), ds[j].event.value) + [row]
  }

  lemma {:induction false} AfterOneMore(fnv64a: string -> nat, ds: seq<Delivery>, n: nat)
    requires n < |ds|
    ensures After(fnv64a, ds, n + 1) == Consume(fnv64a, After(fnv64a, ds, n), ds[n]).tables
    ensures Acks(fnv64a, ds[..n + 1]) ==
            Acks(fnv64a, ds[..n]) + [Consume(fnv64a, After(fnv64a, ds, n), ds[n]).acknowledged]
  {
    hide Consume;
    assert ds[..n + 1][..n] == ds[..n];
  }

  lemma {:induction false} AfterKeepsKeys(fnv64a: string -> nat, ds: seq<Delivery>, n: nat)
    requires n <= |ds|
    ensures KeysUnique(After(fnv64a, ds, n).api) && KeysUnique(After(fnv64a, ds, n).evaluations)
  {
    hide Consume, KeysUnique, After, TakenByAnother;
    if n == 0 {
      NoKeys();
      AfterNone(fnv64a, ds);
    } else {
      AfterKeepsKeys(fnv64a, ds, n - 1);
      AfterOneMore(fnv64a, ds, n - 1);
      ConsumeOnce(fnv64a, After(fnv64a, ds, n - 1), ds[n - 1]);
    }
  }

  lemma {:induction false} AfterNone(fnv64a: string -> nat, ds: seq<Delivery>)
    ensures After(fnv64a, ds, 0) == Tables([], []) && Acks(fnv64a, ds[..0]) == []
  {
    assert ds[..0] == [];
  }

  lemma {:induction false} AfterGrows(fnv64a: string -> nat, ds: seq<Delivery>, m: nat, n: nat)
    requires m <= n <= |ds|
    ensures After(fnv64a, ds, m).api <= After(fnv64a, ds, n).api &&
            After(fnv64a, ds, m).evaluations <= After(fnv64a, ds, n).evaluations
  {
    hide Consume, KeysUnique, After, TakenByAnother;
    if m < n {
      AfterGrows(fnv64a, ds, m, n - 1);
      AfterKeepsKeys(fnv64a, ds, n - 1);
      AfterOneMore(fnv64a, ds, n - 1);
      ConsumeOnce(fnv64a, After(fnv64a, ds, n - 1), ds[n - 1]);
    }
  }

  lemma {:induction false} AcksAre(fnv64a: string -> nat, ds: seq<Delivery>, n: nat)
    requires n <= |ds|
    ensures forall k :: 0 <= k < n ==>
            Acks(fnv64a, ds[..n])[k] == Consume(fnv64a, After(fnv64a, ds, k), ds[k]).acknowledged
  {
    hide Consume, After, Acks;
    if n > 0 {
      AcksAre(fnv64a, ds, n - 1);
      AfterOneMore(fnv64a, ds, n - 1);
    } else {
      AfterNone(fnv64a, ds);
    }
  }

  /** Every row was put in by some delivery. */
  lemma {:induction false} EveryRowWasPut(fnv64a: string -> nat, ds: seq<Delivery>, n: nat, kind: Event, row: Row)
    returns (j: nat)
    requires n <= |ds| && row in TableOf(After(fnv64a, ds, n), kind)
    ensures j < n && PutBy(fnv64a, ds, j, row)
  {
    hide Consume, KeysUnique, After, TakenByAnother;
    if n == 0 {
      AfterNone(fnv64a, ds);
      assert false;
    } else if row in TableOf(After(fnv64a, ds, n - 1), kind) {
      j := EveryRowWasPut(fnv64a, ds, n - 1, kind, row);
    } else {
      j := n - 1;
      AfterKeepsKeys(fnv64a, ds, j);
      AfterOneMore(fnv64a, ds, j);
      ConsumeOnce(fnv64a, After(fnv64a, ds, j), ds[j]);
    }
  }

  /** Under any redelivery and any failures there is at most one row for a key in a table, and for every
      acknowledged message with an id there is a row under its key, with the event of the delivery, this one or an
      earlier one, that put it there. */
  lemma {:induction false} EveryAcknowledgedIsStored(fnv64a: string -> nat, ds: seq<Delivery>)
    ensures KeysUnique(After(fnv64a, ds, |ds|).api) && KeysUnique(After(fnv64a, ds, |ds|).evaluations)
    ensures forall k :: 0 <= k < |ds| && Acks(fnv64a, ds)[k] && ds[k].messageId != "" ==>
              && ds[k].event.Some?
              && exists j: nat, row :: j <= k && PutBy(fnv64a, ds, j, row) && row.id == KeyOf(fnv64a, ds[k])
                                       && row in TableOf(After(fnv64a, ds, |ds|), ds[k].event.value)
  {
    hide Consume, KeysUnique, PrimaryKey, After, Acks, TakenByAnother, PutBy;
    AcksAre(fnv64a, ds, |ds|);
    assert ds[..|ds|] == ds;
    AfterKeepsKeys(fnv64a, ds, |ds|);
    forall k | 0 <= k < |ds| && Acks(fnv64a, ds)[k] && ds[k].messageId != ""
      ensures ds[k].event.Some?
      ensures exists j: nat, row :: j <= k && PutBy(fnv64a, ds, j, row) && row.id == KeyOf(fnv64a, ds[k])
                                    && row in TableOf(After(fnv64a, ds, |ds|), ds[k].event.value)
    {
      AfterKeepsKeys(fnv64a, ds, k);
      AfterOneMore(fnv64a, ds, k);
      ConsumeOnce(fnv64a, After(fnv64a, ds, k), ds[k]);
      var rows := TableOf(After(fnv64a, ds, k + 1), ds[k].event.value);
      var i :| 0 <= i < |rows| && rows[i].id == KeyOf(fnv64a, ds[k]);
      var j := EveryRowWasPut(fnv64a, ds, k + 1, ds[k].event.value, rows[i]);
      AfterGrows(fnv64a, ds, k + 1, |ds|);
    }
  }

  /** An acknowledged message with an id is lost, its own event stored nowhere under its key, exactly if the table held
      its key with another event when it was delivered. */
  lemma {:induction false} AcknowledgedIsLostIff(fnv64a: string -> nat, ds: seq<Delivery>, k: nat)
    requires k < |ds| && Acks(fnv64a, ds)[k] && ds[k].messageId != ""
    ensures ds[k].event.Some?
    ensures RowOf(fnv64a, ds[k]) !in TableOf(After(fnv64a, ds, |ds|), ds[k].event.value)
            <==> TakenByAnother(fnv64a, After(fnv64a, ds, k), ds[k])
  {
    hide Consume, PrimaryKey, After, Acks, TakenByAnother, HasId;
    AcksAre(fnv64a, ds, |ds|);
    assert ds[..|ds|] == ds;
    AfterKeepsKeys(fnv64a, ds, k);
    AfterKeepsKeys(fnv64a, ds, |ds|);
    AfterOneMore(fnv64a, ds, k);
    ConsumeOnce(fnv64a, After(fnv64a, ds, k), ds[k]);
    AfterGrows(fnv64a, ds, k + 1, |ds|);
    KeyStays(TableOf(After(fnv64a, ds, k + 1), ds[k].event.value), TableOf(After(fnv64a, ds, |ds|), ds[k].event.value),
             RowOf(fnv64a, ds[k]));
  }

  /** More rows with unique keys bring no second row for a key that is there. */
  lemma {:induction false} KeyStays(rows: seq<Row>, more: seq<Row>, row: Row)
    requires rows <= more && KeysUnique(more) && HasId(rows, row.id)
    ensures row in rows <==> row in more
  {
    var k :| 0 <= k < |rows| && rows[k].id == row.id;
    if row in more {
      var j :| 0 <= j < |more| && more[j] == row;
      assert j == k;
    }
  }

  /** Two messages, "1-0" and "01-0": the leading zero is not part of the key, so the second is acknowledged and
      lost. */
  lemma {:induction false} LeadingZeroLosesAMessage(fnv64a: string -> nat, a: Event, b: Event)
    requires a.kind == b.kind == "api" && a != b
    ensures var ds := [Delivery("1-0", Some(a), Inserts, false, 0), Delivery("01-0", Some(b), Inserts, false, 0)];
      Acks(fnv64a, ds) == [true, true] && After(fnv64a, ds, 2) == Tables([Row(SEQUENCES, a)], [])
  {
    hide PrimaryKey, After, Acks, Consume;
    var first, second := Delivery("1-0", Some(a), Inserts, false, 0), Delivery("01-0", Some(b), Inserts, false, 0);
    var ds, stored := [first, second], Tables([Row(SEQUENCES, a)], []);
    KeysAlike(fnv64a);
    AfterNone(fnv64a, ds);
    AfterOneMore(fnv64a, ds, 0);
    AfterOneMore(fnv64a, ds, 1);
    assert ds[..2] == ds;
    FreshApiRow(fnv64a, Tables([], []), first);
    assert [] + [RowOf(fnv64a, first)] == stored.api;
    assert stored.api[0].id == KeyOf(fnv64a, second);
    Redelivery(fnv64a, stored, second);
  }

  lemma {:induction false} FreshApiRow(fnv64a: string -> nat, t: Tables, d: Delivery)
    requires d.messageId != "" && d.event.Some? && d.event.value.kind == "api" && d.answer.Inserts?
    requires !HasId(t.api, KeyOf(fnv64a, d))
    ensures Consume(fnv64a, t, d) == Consumed(t.(api := t.api + [RowOf(fnv64a, d)]), true)
  {
    hide PrimaryKey;
    KeyInRange(fnv64a, d.messageId);
  }

  lemma {:induction false} KeysAlike(fnv64a: string -> nat)
    ensures PrimaryKey(fnv64a, "1-0") == PrimaryKey(fnv64a, "01-0") == SEQUENCES
  {
    StampIs("1", "0", 1);
    StampIs("01", "0", 1);
    assert "1" + "-" + "0" == "1-0" && "01" + "-" + "0" == "01-0";
    KeyOfStamp(fnv64a, "1-0");
    KeyOfStamp(fnv64a, "01-0");
  }

  lemma {:induction false} StampIs(left: string, right: string, timestamp: nat)
    requires (left == "1" || left == "01") && right == "0" && timestamp == 1
    ensures StampOf(left + "-" + right) == Some(Stamp(timestamp, 0))
  {
    SplitsAtDash(left, right);
    assert "01"[..1] == "0" && "0"[..0] == "" && "1"[..0] == "";
    assert DigitsValue("0") == Some(0) && DigitsValue("1") == Some(1) && DigitsValue("01") == Some(1);
    hide DigitsValue, FirstDash;
    assert ParseInt(left) == Some(1) && ParseInt(right) == Some(0);
  }

  lemma {:induction false} NoKeys()
    ensures KeysUnique([])
  {
  }
}
