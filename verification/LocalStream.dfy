/** The in-process gRPC stream (client/localgrpc/conn.go).

    `Shared` is what the goroutines of one stream share: two one-slot message channels, three
    channels that are only ever closed, and the fields the mutex guards. `LocalStream` updates it
    in place, one method for each lock section or select branch. `Stream` adds what the goroutines
    are in the middle of and what they have seen; `Step` is one atomic step of one of them, so a
    sequence of actions is an interleaving. */
module LocalStreams {
  import opened Common

  datatype Message = Message(content: string)

  /** An error of the handler or of the context. A handler may also return io.EOF, say the one of a RecvMsg that has
      seen the client close its side; finish keeps it as it is. */
  datatype Error = HandlerError(text: string) | ContextError | EofError

  // ----- metadata -----

  type Metadata = map<string, seq<string>>

  function Values(md: Metadata, key: string): seq<string> { if key in md then md[key] else [] }

  /** Joining keeps every value of every key, those of `a` first. */
  function Join(a: Metadata, b: Metadata): Metadata {
    map key | key in a.Keys + b.Keys :: Values(a, key) + Values(b, key)
  }

  function JoinAll(all: seq<Metadata>): Metadata {
    if all == [] then map[] else Join(JoinAll(all[..|all| - 1]), all[|all| - 1])
  }

  // ----- the state the goroutines share -----

  /** A close-only channel is its number of closes: one closes it, two are a panic. */
  datatype Shared = Shared(
    clientMessages: seq<Message>, serverMessages: seq<Message>,
    clientSendDone: nat, done: nat, headerReady: nat, headerOnce: bool,
    finished: bool, finishedErr: Option<Error>, clientSendClose: bool,
    header: Metadata, trailer: Metadata, headerSent: bool) {

    function SetHeader(md: Metadata): Shared {
      if finished || headerSent then this else this.(header := Join(header, md))
    }

    function SendHeader(md: Metadata): Shared {
      if finished || headerSent then this else this.(header := Join(header, md), headerSent := true)
    }

    function MarkHeaderReady(): Shared {
      if headerOnce then this else this.(headerOnce := true, headerReady := headerReady + 1)
    }

    function SetTrailer(md: Metadata): Shared {
      if finished then this else this.(trailer := Join(trailer, md))
    }

    function BeginServerSend(): Shared {
      if finished then this else this.(headerSent := true)
    }

    function CloseSend(): Shared {
      if clientSendClose then this else this.(clientSendClose := true, clientSendDone := clientSendDone + 1)
    }

    function Finish(err: Option<Error>): Shared { this.(finishedErr := err, finished := true) }

    function CloseDone(): Shared { this.(done := done + 1) }

    /** The slot that leads to the server, or to the client. */
    function Slot(toServer: bool): seq<Message> { if toServer then clientMessages else serverMessages }

    function Fill(toServer: bool, slot: seq<Message>): Shared {
      if toServer then this.(clientMessages := slot) else this.(serverMessages := slot)
    }

    /** A select finds the slot free and puts the message in; None when it is taken. */
    function Push(toServer: bool, message: Message): Option<Shared> {
      if |Slot(toServer)| < 1 then Some(Fill(toServer, Slot(toServer) + [message])) else None
    }

    /** A select takes the message out; None when there is none. */
    function Take(toServer: bool): Option<(Message, Shared)> {
      if Slot(toServer) == [] then None else Some((Slot(toServer)[0], Fill(toServer, Slot(toServer)[1..])))
    }
  }

  const OPEN := Shared([], [], 0, 0, 0, false, false, None, false, map[], map[], false)

  class LocalStream {
    var clientMessages: seq<Message>
    var serverMessages: seq<Message>
    var clientSendDone: nat
    var done: nat
    var headerReady: nat
    var headerOnce: bool
    var finished: bool
    var finishedErr: Option<Error>
    var clientSendClose: bool
    var header: Metadata
    var trailer: Metadata
    var headerSent: bool

    function View(): Shared
      reads this
    {
      Shared(clientMessages, serverMessages, clientSendDone, done, headerReady, headerOnce,
             finished, finishedErr, clientSendClose, header, trailer, headerSent)
    }

    constructor ()
      ensures View() == OPEN
    {
      clientMessages, serverMessages := [], [];
      clientSendDone, done, headerReady, headerOnce := 0, 0, 0, false;
      finished, finishedErr, clientSendClose := false, None, false;
      header, trailer, headerSent := map[], map[], false;
    }

    method SetHeader(md: Metadata) returns (accepted: bool)
      modifies this
      ensures View() == old(View()).SetHeader(md)
      ensures accepted <==> !old(finished) && !old(headerSent)
    {
      if finished || headerSent {
        return false;
      }
      header := Join(header, md);
      return true;
    }

    /** The lock section of SendHeader; `MarkHeaderReady` follows when it was accepted. */
    method SendHeader(md: Metadata) returns (accepted: bool)
      modifies this
      ensures View() == old(View()).SendHeader(md)
      ensures accepted <==> !old(finished) && !old(headerSent)
    {
      if finished || headerSent {
        return false;
      }
      header := Join(header, md);
      headerSent := true;
      return true;
    }

    method MarkHeaderReady()
      modifies this
      ensures View() == old(View()).MarkHeaderReady()
    {
      if !headerOnce {
        headerOnce := true;
        headerReady := headerReady + 1;
      }
    }

    method SetTrailer(md: Metadata)
      modifies this
      ensures View() == old(View()).SetTrailer(md)
    {
      if !finished {
        trailer := Join(trailer, md);
      }
    }

    /** The lock section of the server's SendMsg: after the end it returns the result, nil as io.EOF. */
    method BeginServerSend() returns (ended: Option<Option<Error>>)
      modifies this
      ensures View() == old(View()).BeginServerSend()
      ensures ended == if old(finished) then Some(old(finishedErr)) else None
    {
      if finished {
        return Some(finishedErr);
      }
      headerSent := true;
      return None;
    }

    /** One attempt of a select to put a message into a free slot. */
    method TrySend(toServer: bool, message: Message) returns (sent: bool)
      modifies this
      ensures sent <==> old(View()).Push(toServer, message).Some?
      ensures View() == if sent then old(View()).Push(toServer, message).value else old(View())
    {
      if toServer {
        sent := |clientMessages| < 1;
        if sent {
          clientMessages := clientMessages + [message];
        }
      } else {
        sent := |serverMessages| < 1;
        if sent {
          serverMessages := serverMessages + [message];
        }
      }
    }

    /** One attempt of a select to take a message out. */
    method TryReceive(atServer: bool) returns (received: Option<Message>)
      modifies this
      ensures var taken := old(View()).Take(atServer);
        && received == (if taken.None? then None else Some(taken.value.0))
        && View() == if taken.None? then old(View()) else taken.value.1
    {
      if atServer {
        if clientMessages == [] {
          return None;
        }
        received := Some(clientMessages[0]);
        clientMessages := clientMessages[1..];
      } else {
        if serverMessages == [] {
          return None;
        }
        received := Some(serverMessages[0]);
        serverMessages := serverMessages[1..];
      }
    }

    method CloseSend()
      modifies this
      ensures View() == old(View()).CloseSend()
    {
      if clientSendClose {
        return;
      }
      clientSendClose := true;
      clientSendDone := clientSendDone + 1;
    }

    /** The lock section of finish; `MarkHeaderReady` and `CloseDone` follow. */
    method Finish(err: Option<Error>)
      modifies this
      ensures View() == old(View()).Finish(err)
    {
      finishedErr := err;
      finished := true;
    }

    method CloseDone()
      modifies this
      ensures View() == old(View()).CloseDone()
    {
      done := done + 1;
    }
  }

  // ----- the goroutines -----

  /** A SendMsg: outside, between the lock section and the header mark, or in the select. */
  datatype Sender = SendIdle | Marking(message: Message) | Sending(message: Message)

  datatype Outcome = Delivered(message: Message) | EndOfStream | Failed(error: Error)

  /** How a caller reads an error that it is returned: an io.EOF of the handler is io.EOF. */
  function OutcomeOf(e: Error): Outcome { if e.EofError? then EndOfStream else Failed(e) }

  /** streamResult: a nil result is io.EOF. */
  function ResultOutcome(err: Option<Error>): Outcome {
    if err.None? then EndOfStream else OutcomeOf(err.value)
  }

  /** A RecvMsg: outside, in the select, about to read the result, in the last look at the slot,
      or about to write the trailer back and return. `Draining` remembers why the receiver ends. */
  datatype Receiver = ReceiveIdle | Waiting | Ending | Draining(afterFinish: bool) | Returning(outcome: Outcome)

  /** finish: not called, after its lock section, after its header mark, after closing `done`. */
  datatype Finisher = Running | Locked | Marked | Closed

  /** What a RecvMsg returned and the trailer it wrote back. */
  datatype Report = Report(outcome: Outcome, trailer: Metadata)

  /** What a SendMsg was given and what it returned: nil, or the end it met. */
  datatype Sent = Sent(message: Message, end: Option<Outcome>)

  datatype Stream = Stream(
    shared: Shared, cancelled: bool, finisher: Finisher,
    clientSender: Sender, serverSender: Sender, clientReceiver: Receiver, serverReceiver: Receiver,
    pendingMarks: nat, headerReaders: nat,
    clientSent: seq<Message>, serverReceived: seq<Message>,
    serverSent: seq<Message>, clientReceived: seq<Message>,
    clientReports: seq<Report>, serverReports: seq<Outcome>, headerResults: seq<Metadata>,
    clientSends: seq<Sent>, serverSends: seq<Sent>)

  const START := Stream(OPEN, false, Running, SendIdle, SendIdle, ReceiveIdle, ReceiveIdle, 0, 0,
                        [], [], [], [], [], [], [], [], [])

  datatype SendAction =
    | ClientSend(message: Message) | ClientPush | ClientSendCancelled | ClientSendDone | CloseSend
    | ServerSend(message: Message) | ServerMark | ServerPush | ServerSendCancelled | ServerSendDone

  datatype ClientReceiveAction =
    | ClientReceive | ClientTake | ClientReceiveCancelled | ClientSeesDone | ClientReadsResult | ClientDrain
    | ClientReturn

  datatype ServerReceiveAction =
    | ServerReceive | ServerTake | ServerReceiveCancelled | ServerSeesSendDone | ServerSeesDone | ServerReadsResult
    | ServerDrain | ServerReturn

  datatype ControlAction =
    | SetHeader(md: Metadata) | SendHeader(md: Metadata) | MarkHeader | SetTrailer(md: Metadata)
    | HeaderPasses | HeaderReads
    | Finish(err: Option<Error>) | FinishMarks | FinishCloses
    | Cancel

  datatype Action =
    | Sends(send: SendAction)
    | ClientReceives(client: ClientReceiveAction)
    | ServerReceives(server: ServerReceiveAction)
    | Controls(control: ControlAction)

  function ClientTakes(s: Stream): Option<Stream> {
    var taken := s.shared.Take(false);
    if taken.None? then None
    else Some(s.(shared := taken.value.1, clientReceived := s.clientReceived + [taken.value.0],
                 clientReceiver := Returning(Delivered(taken.value.0))))
  }

  function ServerTakes(s: Stream): Option<Stream> {
    var taken := s.shared.Take(true);
    if taken.None? then None
    else Some(s.(shared := taken.value.1, serverReceived := s.serverReceived + [taken.value.0],
                 serverReceiver := Returning(Delivered(taken.value.0))))
  }

  // One atomic step; None when the action is not enabled. The usage contract is in three places:
  // one call at a time for each sender and each receiver, CloseSend outside a client SendMsg, and
  // finish (the handler has returned) outside a server SendMsg.

  /** The pending SendMsg of the client, or of the server, returns with this end. */
  function ClientSendEnds(s: Stream, end: Outcome): Stream
    requires s.clientSender.Sending?
  {
    s.(clientSends := s.clientSends + [Sent(s.clientSender.message, Some(end))], clientSender := SendIdle)
  }

  function ServerSendEnds(s: Stream, end: Outcome): Stream
    requires s.serverSender.Sending?
  {
    s.(serverSends := s.serverSends + [Sent(s.serverSender.message, Some(end))], serverSender := SendIdle)
  }

  function SendStep(s: Stream, a: SendAction): Option<Stream> {
    var sh := s.shared;
    match a
    // the client sends
    case ClientSend(m) =>
      if !s.clientSender.SendIdle? then None
      else if sh.clientSendClose then Some(s.(clientSends := s.clientSends + [Sent(m, Some(EndOfStream))]))
      else Some(s.(clientSender := Sending(m)))
    case ClientPush =>
      if s.clientSender.Sending? && sh.Push(true, s.clientSender.message).Some? then
        var m := s.clientSender.message;
        Some(s.(shared := sh.Push(true, m).value, clientSent := s.clientSent + [m],
                clientSends := s.clientSends + [Sent(m, None)], clientSender := SendIdle))
      else None
    case ClientSendCancelled =>
      if s.clientSender.Sending? && s.cancelled then Some(ClientSendEnds(s, Failed(ContextError))) else None
    case ClientSendDone =>
      if s.clientSender.Sending? && sh.done > 0 then Some(ClientSendEnds(s, ResultOutcome(sh.finishedErr))) else None
    case CloseSend =>
      if s.clientSender.SendIdle? then Some(s.(shared := sh.CloseSend())) else None
    // the server sends
    case ServerSend(m) =>
      if !s.serverSender.SendIdle? then None
      else if sh.finished then
        Some(s.(serverSends := s.serverSends + [Sent(m, Some(ResultOutcome(sh.finishedErr)))]))
      else Some(s.(shared := sh.BeginServerSend(), serverSender := Marking(m)))
    case ServerMark =>
      if s.serverSender.Marking? then
        Some(s.(shared := sh.MarkHeaderReady(), serverSender := Sending(s.serverSender.message)))
      else None
    case ServerPush =>
      if s.serverSender.Sending? && sh.Push(false, s.serverSender.message).Some? then
        var m := s.serverSender.message;
        Some(s.(shared := sh.Push(false, m).value, serverSent := s.serverSent + [m],
                serverSends := s.serverSends + [Sent(m, None)], serverSender := SendIdle))
      else None
    case ServerSendCancelled =>
      if s.serverSender.Sending? && s.cancelled then Some(ServerSendEnds(s, Failed(ContextError))) else None
    case ServerSendDone =>
      if s.serverSender.Sending? && sh.done > 0 then Some(ServerSendEnds(s, ResultOutcome(sh.finishedErr))) else None
  }

  function ClientReceiveStep(s: Stream, a: ClientReceiveAction): Option<Stream> {
    var sh := s.shared;
    match a
    case ClientReceive =>
      if !s.clientReceiver.ReceiveIdle? then None
      else if ClientTakes(s).Some? then ClientTakes(s) else Some(s.(clientReceiver := Waiting))
    case ClientTake =>
      if s.clientReceiver.Waiting? then ClientTakes(s) else None
    case ClientReceiveCancelled =>
      if s.clientReceiver.Waiting? && s.cancelled then Some(s.(clientReceiver := Returning(Failed(ContextError))))
          else None
    case ClientSeesDone =>
      if s.clientReceiver.Waiting? && sh.done > 0 then Some(s.(clientReceiver := Ending)) else None
    case ClientReadsResult =>
      if !s.clientReceiver.Ending? then None
      else if sh.finishedErr.Some? then Some(s.(clientReceiver := Returning(OutcomeOf(sh.finishedErr.value))))
      else Some(s.(clientReceiver := Draining(true)))
    case ClientDrain =>
      if !s.clientReceiver.Draining? then None
      else if ClientTakes(s).Some? then ClientTakes(s)
      else Some(s.(clientReceiver := Returning(EndOfStream)))
    case ClientReturn =>
      if s.clientReceiver.Returning? then
        Some(s.(clientReports := s.clientReports + [Report(s.clientReceiver.outcome, sh.trailer)],
                clientReceiver := ReceiveIdle))
      else None
  }

  function ServerReceiveStep(s: Stream, a: ServerReceiveAction): Option<Stream> {
    var sh := s.shared;
    match a
    case ServerReceive =>
      if !s.serverReceiver.ReceiveIdle? then None
      else if ServerTakes(s).Some? then ServerTakes(s) else Some(s.(serverReceiver := Waiting))
    case ServerTake =>
      if s.serverReceiver.Waiting? then ServerTakes(s) else None
    case ServerReceiveCancelled =>
      if s.serverReceiver.Waiting? && s.cancelled then Some(s.(serverReceiver := Returning(Failed(ContextError))))
          else None
    case ServerSeesSendDone =>
      if s.serverReceiver.Waiting? && sh.clientSendDone > 0 then Some(s.(serverReceiver := Draining(false))) else None
    case ServerSeesDone =>
      if s.serverReceiver.Waiting? && sh.done > 0 then Some(s.(serverReceiver := Ending)) else None
    case ServerReadsResult =>
      if !s.serverReceiver.Ending? then None
      else if sh.finishedErr.Some? then Some(s.(serverReceiver := Returning(OutcomeOf(sh.finishedErr.value))))
      else Some(s.(serverReceiver := Draining(true)))
    case ServerDrain =>
      if !s.serverReceiver.Draining? then None
      else if ServerTakes(s).Some? then ServerTakes(s)
      else Some(s.(serverReceiver := Returning(EndOfStream)))
    case ServerReturn =>
      if s.serverReceiver.Returning? then
        Some(s.(serverReports := s.serverReports + [s.serverReceiver.outcome], serverReceiver := ReceiveIdle))
      else None
  }

  function ControlStep(s: Stream, a: ControlAction): Option<Stream> {
    var sh := s.shared;
    match a
    case SetHeader(md) => Some(s.(shared := sh.SetHeader(md)))
    case SendHeader(md) =>
      if sh.finished || sh.headerSent then Some(s)
      else Some(s.(shared := sh.SendHeader(md), pendingMarks := s.pendingMarks + 1))
    case MarkHeader =>
      if s.pendingMarks > 0 then Some(s.(shared := sh.MarkHeaderReady(), pendingMarks := s.pendingMarks - 1)) else None
    case SetTrailer(md) => Some(s.(shared := sh.SetTrailer(md)))
    case HeaderPasses =>
      if sh.headerReady > 0 || sh.done > 0 then Some(s.(headerReaders := s.headerReaders + 1)) else None
    case HeaderReads =>
      if s.headerReaders > 0 then
        Some(s.(headerResults := s.headerResults + [sh.header], headerReaders := s.headerReaders - 1))
      else None
    case Finish(err) =>
      if s.finisher.Running? && s.serverSender.SendIdle? then Some(s.(shared := sh.Finish(err), finisher := Locked))
          else None
    case FinishMarks =>
      if s.finisher.Locked? then Some(s.(shared := sh.MarkHeaderReady(), finisher := Marked)) else None
    case FinishCloses =>
      if s.finisher.Marked? then Some(s.(shared := sh.CloseDone(), finisher := Closed)) else None
    case Cancel => Some(s.(cancelled := true))
  }

  function Step(s: Stream, a: Action): Option<Stream> {
    match a
    case Sends(b) => SendStep(s, b)
    case ClientReceives(b) => ClientReceiveStep(s, b)
    case ServerReceives(b) => ServerReceiveStep(s, b)
    case Controls(b) => ControlStep(s, b)
  }

  /** The state after an interleaving, if each of its actions was enabled in its turn. */
  function Run(s: Stream, actions: seq<Action>): Option<Stream> {
    if actions == [] then Some(s)
    else
      var before := Run(s, actions[..|actions| - 1]);
      if before.None? then None else Step(before.value, actions[|actions| - 1])
  }

  // ----- what every interleaving keeps -----

  predicate HeaderFrozen(s: Stream) { s.shared.headerSent || s.shared.finished }

  ghost predicate Conserved(s: Stream) {
    && s.clientSent == s.serverReceived + s.shared.clientMessages && |s.shared.clientMessages| <= 1
    && s.serverSent == s.clientReceived + s.shared.serverMessages && |s.shared.serverMessages| <= 1
  }

  /** Each close-only channel is closed when its flag says so, and once. */
  ghost predicate ClosedOnce(s: Stream) {
    && s.shared.clientSendDone == (if s.shared.clientSendClose then 1 else 0)
    && s.shared.done == (if s.finisher.Closed? then 1 else 0)
    && s.shared.headerReady == (if s.shared.headerOnce then 1 else 0)
  }

  ghost predicate Ordered(s: Stream) {
    && (s.shared.finished <==> !s.finisher.Running?)
    && (s.shared.finished ==> s.serverSender.SendIdle?)
    && (s.shared.clientSendClose ==> s.clientSender.SendIdle?)
    && (s.finisher.Marked? || s.finisher.Closed? ==> s.shared.headerOnce)
    && !s.clientSender.Marking?
    && (s.clientReceiver.Ending? ==> s.shared.finished)
    && (s.clientReceiver.Draining? ==> s.shared.finished && s.shared.finishedErr.None?)
    && (s.serverReceiver.Ending? ==> s.shared.finished)
    && (s.serverReceiver.Draining? ==>
        if s.serverReceiver.afterFinish then s.shared.finished && s.shared.finishedErr.None?
                                       else s.shared.clientSendClose)
  }

  /** A header that anyone may have read no longer changes. */
  ghost predicate HeaderStable(s: Stream) {
    && (s.shared.headerOnce || s.pendingMarks > 0 || s.headerReaders > 0 || s.headerResults != [] ==> HeaderFrozen(s))
    && (!s.serverSender.SendIdle? ==> s.shared.headerSent)
    && forall k :: 0 <= k < |s.headerResults| ==> s.headerResults[k] == s.shared.header
  }

  /** Whether finish decided the outcome: io.EOF or the handler's error. */
  predicate Final(o: Outcome) { o.EndOfStream? || (o.Failed? && o.error.HandlerError?) }

  /** io.EOF means that the handler returned nil and nothing is left, or that it returned io.EOF; an error is the
      handler's or the context's; an outcome decided by finish comes with the final trailer. */
  predicate ReportHolds(r: Report, sh: Shared, cancelled: bool) {
    match r.outcome
    case Delivered(_) => true
    case EndOfStream =>
      && sh.finished && r.trailer == sh.trailer
      && ((sh.finishedErr.None? && sh.serverMessages == []) || sh.finishedErr == Some(EofError))
    case Failed(e) =>
      !e.EofError? && (e.HandlerError? ==> sh.finished && r.trailer == sh.trailer)
      && ((sh.finished && sh.finishedErr == Some(e)) || (cancelled && e.ContextError?))
  }

  ghost predicate ReportsSound(s: Stream) {
    var reports, pending := s.clientReports, s.clientReceiver;
    && (pending.Returning? ==> ReportHolds(Report(pending.outcome, s.shared.trailer), s.shared, s.cancelled))
    && (forall k :: 0 <= k < |reports| ==> ReportHolds(reports[k], s.shared, s.cancelled))
    && (s.shared.finishedErr != Some(EofError) ==>
        && (forall k :: 0 <= k < |reports| && reports[k].outcome.EndOfStream? && pending.Returning? ==>
              !pending.outcome.Delivered?)
        && (forall j, k :: 0 <= j < k < |reports| && reports[j].outcome.EndOfStream? ==>
            !reports[k].outcome.Delivered?))
  }

  /** io.EOF at the server: the client has closed its side and everything is taken, or the handler has returned nil
      or io.EOF. */
  predicate ServerReportHolds(o: Outcome, sh: Shared, cancelled: bool) {
    match o
    case Delivered(_) => true
    case EndOfStream =>
      || (sh.clientSendClose && sh.clientMessages == [])
      || (sh.finished && (sh.finishedErr.None? || sh.finishedErr == Some(EofError)))
    case Failed(e) => !e.EofError? && ((sh.finished && sh.finishedErr == Some(e)) || (cancelled && e.ContextError?))
  }

  ghost predicate ServerReportsSound(s: Stream) {
    && (s.serverReceiver.Returning? ==> ServerReportHolds(s.serverReceiver.outcome, s.shared, s.cancelled))
    && (forall k :: 0 <= k < |s.serverReports| ==> ServerReportHolds(s.serverReports[k], s.shared, s.cancelled))
  }

  /** The messages that RecvMsg returned, in order. */
  function Returned(outcomes: seq<Outcome>): seq<Message> {
    if outcomes == [] then []
    else
      var last := outcomes[|outcomes| - 1];
      Returned(outcomes[..|outcomes| - 1]) + (if last.Delivered? then [last.message] else [])
  }

  function Outcomes(reports: seq<Report>): seq<Outcome> {
    seq(|reports|, k requires 0 <= k < |reports| => reports[k].outcome)
  }

  /** The message that a RecvMsg is about to return. */
  function InHand(r: Receiver): seq<Message> {
    if r.Returning? && r.outcome.Delivered? then [r.outcome.message] else []
  }

  /** The messages of the SendMsg calls that returned nil, in order. */
  function Accepted(sends: seq<Sent>): seq<Message> {
    if sends == [] then []
    else
      var last := sends[|sends| - 1];
      Accepted(sends[..|sends| - 1]) + (if last.end.None? then [last.message] else [])
  }

  /** Why a SendMsg may return an end: the result of finish, as receivers read it, or the cancelled context. */
  predicate EndHolds(o: Outcome, sh: Shared, cancelled: bool) {
    match o
    case Delivered(_) => false
    case EndOfStream => sh.finished && (sh.finishedErr.None? || sh.finishedErr == Some(EofError))
    case Failed(e) => !e.EofError? && ((sh.finished && sh.finishedErr == Some(e)) || (cancelled && e.ContextError?))
  }

  /** What the calls returned is what was sent and received: nil from a SendMsg means that its message was sent, and a
      RecvMsg returns the message that it took. */
  ghost predicate CallsTold(s: Stream) {
    && Accepted(s.clientSends) == s.clientSent
    && Accepted(s.serverSends) == s.serverSent
    && Returned(s.serverReports) + InHand(s.serverReceiver) == s.serverReceived
    && Returned(Outcomes(s.clientReports)) + InHand(s.clientReceiver) == s.clientReceived
  }

  ghost predicate SendsSound(s: Stream) {
    && (forall k :: 0 <= k < |s.clientSends| && s.clientSends[k].end.Some? ==>
          || EndHolds(s.clientSends[k].end.value, s.shared, s.cancelled)
          || (s.clientSends[k].end == Some(EndOfStream) && s.shared.clientSendClose))
    && (forall k :: 0 <= k < |s.serverSends| && s.serverSends[k].end.Some? ==>
        EndHolds(s.serverSends[k].end.value, s.shared, s.cancelled))
  }

  ghost predicate Inv(s: Stream) {
    && Conserved(s) && ClosedOnce(s) && Ordered(s) && HeaderStable(s) && ReportsSound(s) && ServerReportsSound(s)
    && CallsTold(s) && SendsSound(s)
  }

  lemma {:induction false} SendsKeepConserved(s: Stream, a: SendAction)
    requires Conserved(s) && SendStep(s, a).Some?
    ensures Conserved(SendStep(s, a).value)
  {
  }

  lemma {:induction false} SendsKeepOrder(s: Stream, a: SendAction)
    requires ClosedOnce(s) && Ordered(s) && SendStep(s, a).Some?
    ensures ClosedOnce(SendStep(s, a).value) && Ordered(SendStep(s, a).value)
  {
  }

  lemma {:induction false} SendsKeepHeader(s: Stream, a: SendAction)
    requires ClosedOnce(s) && Ordered(s) && HeaderStable(s) && SendStep(s, a).Some?
    ensures HeaderStable(SendStep(s, a).value)
  {
  }

  lemma {:induction false} SendsKeepReports(s: Stream, a: SendAction)
    requires Conserved(s) && ClosedOnce(s) && Ordered(s) && ReportsSound(s) && SendStep(s, a).Some?
    ensures ReportsSound(SendStep(s, a).value)
  {
  }

  /** A receive of the client takes at most a message out of its slot, and sends nothing. */
  ghost predicate ClientFrame(s: Stream, t: Stream) {
    && t.shared == s.shared.(serverMessages := t.shared.serverMessages)
    && t.serverSent == s.serverSent && t.clientSent == s.clientSent
    && t.finisher == s.finisher && t.clientSender == s.clientSender && t.serverSender == s.serverSender
    && t.pendingMarks == s.pendingMarks && t.headerReaders == s.headerReaders && t.headerResults == s.headerResults
    && t.cancelled == s.cancelled && t.serverReports == s.serverReports && t.serverReceiver == s.serverReceiver
    && t.clientSends == s.clientSends && t.serverSends == s.serverSends
  }

  lemma {:induction false} ClientTakesFrame(s: Stream)
    requires ClientTakes(s).Some?
    ensures ClientFrame(s, ClientTakes(s).value) && ClientTakes(s).value.clientReceiver.Returning?
  {
  }

  lemma {:induction false} ClientReceiveFrame(s: Stream, a: ClientReceiveAction)
    requires ClientReceiveStep(s, a).Some?
    ensures ClientFrame(s, ClientReceiveStep(s, a).value)
  {
    hide ClientTakes;
    if ClientTakes(s).Some? {
      ClientTakesFrame(s);
    }
  }

  /** A receive of the server takes at most a message out of its slot, and sends nothing. */
  ghost predicate ServerFrame(s: Stream, t: Stream) {
    && t.shared == s.shared.(clientMessages := t.shared.clientMessages)
    && t.serverSent == s.serverSent && t.clientSent == s.clientSent
    && t.finisher == s.finisher && t.clientSender == s.clientSender && t.serverSender == s.serverSender
    && t.pendingMarks == s.pendingMarks && t.headerReaders == s.headerReaders && t.headerResults == s.headerResults
    && t.cancelled == s.cancelled && t.clientReports == s.clientReports && t.clientReceiver == s.clientReceiver
    && t.clientSends == s.clientSends && t.serverSends == s.serverSends
  }

  lemma {:induction false} ServerTakesFrame(s: Stream)
    requires ServerTakes(s).Some?
    ensures ServerFrame(s, ServerTakes(s).value) && ServerTakes(s).value.serverReceiver.Returning?
  {
  }

  lemma {:induction false} ServerReceiveFrame(s: Stream, a: ServerReceiveAction)
    requires ServerReceiveStep(s, a).Some?
    ensures ServerFrame(s, ServerReceiveStep(s, a).value)
  {
    hide ServerTakes;
    if ServerTakes(s).Some? {
      ServerTakesFrame(s);
    }
  }

  /** Where a receive of the client that has seen an end comes from. */
  lemma {:induction false} ClientReceiverMoves(s: Stream, a: ClientReceiveAction)
    requires ClientReceiveStep(s, a).Some?
    ensures var t := ClientReceiveStep(s, a).value;
      && (t.clientReceiver.Ending? ==> s.shared.done > 0)
      && (t.clientReceiver.Draining? ==> s.clientReceiver.Ending? && s.shared.finishedErr.None?)
  {
  }

  /** Where a receive of the server that has seen an end comes from. */
  lemma {:induction false} ServerReceiverMoves(s: Stream, a: ServerReceiveAction)
    requires ServerReceiveStep(s, a).Some?
    ensures var t := ServerReceiveStep(s, a).value;
      && (t.serverReceiver.Ending? ==> s.shared.done > 0)
      && (t.serverReceiver.Draining? ==>
          if t.serverReceiver.afterFinish then s.serverReceiver.Ending? && s.shared.finishedErr.None?
                                       else s.shared.clientSendDone > 0)
  {
  }

  lemma {:induction false} ClientReceivesKeepConserved(s: Stream, a: ClientReceiveAction)
    requires Conserved(s) && ClientReceiveStep(s, a).Some?
    ensures Conserved(ClientReceiveStep(s, a).value)
  {
  }

  lemma {:induction false} ClientReceivesKeepOrder(s: Stream, a: ClientReceiveAction)
    requires ClosedOnce(s) && Ordered(s) && ClientReceiveStep(s, a).Some?
    ensures ClosedOnce(ClientReceiveStep(s, a).value) && Ordered(ClientReceiveStep(s, a).value)
  {
    ClientReceiveFrame(s, a);
    ClientReceiverMoves(s, a);
    hide ClientReceiveStep;
  }

  lemma {:induction false} ClientReceivesKeepHeader(s: Stream, a: ClientReceiveAction)
    requires ClosedOnce(s) && Ordered(s) && HeaderStable(s) && ClientReceiveStep(s, a).Some?
    ensures HeaderStable(ClientReceiveStep(s, a).value)
  {
    ClientReceiveFrame(s, a);
    hide ClientReceiveStep;
  }

  lemma {:induction false} ClientReceivesKeepReports(s: Stream, a: ClientReceiveAction)
    requires Conserved(s) && ClosedOnce(s) && Ordered(s) && ReportsSound(s) && ClientReceiveStep(s, a).Some?
    ensures ReportsSound(ClientReceiveStep(s, a).value)
  {
    hide ReportHolds;
    var t := ClientReceiveStep(s, a).value;
    ClientPendingHolds(s, a);
    if s.shared.finishedErr != Some(EofError) {
      EndedIsEmpty(s);
    }
    forall r | ReportHolds(r, s.shared, s.cancelled) ensures ReportHolds(r, t.shared, t.cancelled) {
      HoldsWithFewer(r, s, t);
    }
  }

  lemma {:induction false} EndedIsEmpty(s: Stream)
    requires ReportsSound(s) && s.shared.finishedErr != Some(EofError)
    ensures forall k :: 0 <= k < |s.clientReports| && s.clientReports[k].outcome.EndOfStream? ==>
              s.shared.serverMessages == []
  {
  }

  /** What a step of a RecvMsg is about to return holds, and is no message once io.EOF has been returned. */
  lemma {:induction false} ClientPendingHolds(s: Stream, a: ClientReceiveAction)
    requires Ordered(s) && ReportsSound(s) && ClientReceiveStep(s, a).Some?
    ensures var t := ClientReceiveStep(s, a).value;
      && (s.shared.serverMessages == [] ==> t.shared.serverMessages == [])
      && (t.clientReceiver.Returning? ==>
            ReportHolds(Report(t.clientReceiver.outcome, t.shared.trailer), t.shared, t.cancelled))
      && (t.clientReceiver.Returning? && t.clientReceiver.outcome.Delivered? && !s.clientReceiver.Returning? ==>
            s.shared.serverMessages != [])
  {
  }

  lemma {:induction false} HoldsWithFewer(r: Report, s: Stream, t: Stream)
    requires t.shared == s.shared.(serverMessages := t.shared.serverMessages) && t.cancelled == s.cancelled
    requires s.shared.serverMessages == [] ==> t.shared.serverMessages == []
    requires ReportHolds(r, s.shared, s.cancelled)
    ensures ReportHolds(r, t.shared, t.cancelled)
  {
  }

  lemma {:induction false} ServerReceivesKeepConserved(s: Stream, a: ServerReceiveAction)
    requires Conserved(s) && ServerReceiveStep(s, a).Some?
    ensures Conserved(ServerReceiveStep(s, a).value)
  {
  }

  lemma {:induction false} ServerReceivesKeepOrder(s: Stream, a: ServerReceiveAction)
    requires ClosedOnce(s) && Ordered(s) && ServerReceiveStep(s, a).Some?
    ensures ClosedOnce(ServerReceiveStep(s, a).value) && Ordered(ServerReceiveStep(s, a).value)
  {
    ServerReceiveFrame(s, a);
    ServerReceiverMoves(s, a);
    hide ServerReceiveStep;
  }

  lemma {:induction false} ServerReceivesKeepHeader(s: Stream, a: ServerReceiveAction)
    requires ClosedOnce(s) && Ordered(s) && HeaderStable(s) && ServerReceiveStep(s, a).Some?
    ensures HeaderStable(ServerReceiveStep(s, a).value)
  {
    ServerReceiveFrame(s, a);
    hide ServerReceiveStep;
  }

  lemma {:induction false} ServerReceivesKeepReports(s: Stream, a: ServerReceiveAction)
    requires Conserved(s) && ClosedOnce(s) && Ordered(s) && ReportsSound(s) && ServerReceiveStep(s, a).Some?
    ensures ReportsSound(ServerReceiveStep(s, a).value)
  {
    ServerReceiveFrame(s, a);
    hide ServerReceiveStep, ReportHolds;
    assert forall r, c :: ReportHolds(r, ServerReceiveStep(s, a).value.shared, c) == ReportHolds(r, s.shared, c);
  }

  lemma {:induction false} ControlsKeepConserved(s: Stream, a: ControlAction)
    requires Conserved(s) && ControlStep(s, a).Some?
    ensures Conserved(ControlStep(s, a).value)
  {
  }

  lemma {:induction false} ControlsKeepOrder(s: Stream, a: ControlAction)
    requires ClosedOnce(s) && Ordered(s) && ControlStep(s, a).Some?
    ensures ClosedOnce(ControlStep(s, a).value) && Ordered(ControlStep(s, a).value)
  {
  }

  lemma {:induction false} ControlsKeepHeader(s: Stream, a: ControlAction)
    requires ClosedOnce(s) && Ordered(s) && HeaderStable(s) && ControlStep(s, a).Some?
    ensures HeaderStable(ControlStep(s, a).value)
  {
  }

  /** No control step receives; after finish it changes neither the result nor the trailer. */
  lemma {:induction false} ControlFrame(s: Stream, a: ControlAction)
    requires Ordered(s) && ControlStep(s, a).Some?
    ensures var t := ControlStep(s, a).value;
      && t.clientReports == s.clientReports && t.clientReceiver == s.clientReceiver
      && t.shared.serverMessages == s.shared.serverMessages && (s.cancelled ==> t.cancelled)
      && (s.shared.finished ==>
            t.shared.finished && t.shared.finishedErr == s.shared.finishedErr && t.shared.trailer == s.shared.trailer)
  {
    hide Join;
  }

  lemma {:induction false} ControlsKeepReports(s: Stream, a: ControlAction)
    requires Conserved(s) && ClosedOnce(s) && Ordered(s) && ReportsSound(s) && ControlStep(s, a).Some?
    ensures ReportsSound(ControlStep(s, a).value)
  {
    ControlFrame(s, a);
    hide ControlStep;
  }

  lemma {:induction false} SendsKeepServerReports(s: Stream, a: SendAction)
    requires Ordered(s) && ServerReportsSound(s) && SendStep(s, a).Some?
    ensures ServerReportsSound(SendStep(s, a).value)
  {
  }

  lemma {:induction false} ClientReceivesKeepServerReports(s: Stream, a: ClientReceiveAction)
    requires ServerReportsSound(s) && ClientReceiveStep(s, a).Some?
    ensures ServerReportsSound(ClientReceiveStep(s, a).value)
  {
    ClientReceiveFrame(s, a);
    hide ClientReceiveStep;
  }

  lemma {:induction false} ServerReceivesKeepServerReports(s: Stream, a: ServerReceiveAction)
    requires Conserved(s) && Ordered(s) && ServerReportsSound(s) && ServerReceiveStep(s, a).Some?
    ensures ServerReportsSound(ServerReceiveStep(s, a).value)
  {
  }

  lemma {:induction false} ControlsKeepServerReports(s: Stream, a: ControlAction)
    requires Ordered(s) && ServerReportsSound(s) && ControlStep(s, a).Some?
    ensures ServerReportsSound(ControlStep(s, a).value)
  {
  }

  lemma {:induction false} ReturnedAppend(outcomes: seq<Outcome>, o: Outcome)
    ensures Returned(outcomes + [o]) == Returned(outcomes) + (if o.Delivered? then [o.message] else [])
  {
    assert (outcomes + [o])[..|outcomes|] == outcomes;
  }

  lemma {:induction false} OutcomesAppend(reports: seq<Report>, r: Report)
    ensures Outcomes(reports + [r]) == Outcomes(reports) + [r.outcome]
  {
  }

  lemma {:induction false} AcceptedAppend(sends: seq<Sent>, sent: Sent)
    ensures Accepted(sends + [sent]) == Accepted(sends) + (if sent.end.None? then [sent.message] else [])
  {
    assert (sends + [sent])[..|sends|] == sends;
  }

  lemma {:induction false} SendsKeepTold(s: Stream, a: SendAction)
    requires CallsTold(s) && SendStep(s, a).Some?
    ensures CallsTold(SendStep(s, a).value)
  {
    hide Returned, Accepted;
    var t := SendStep(s, a).value;
    if |t.clientSends| > |s.clientSends| {
      AcceptedAppend(s.clientSends, t.clientSends[|s.clientSends|]);
    }
    if |t.serverSends| > |s.serverSends| {
      AcceptedAppend(s.serverSends, t.serverSends[|s.serverSends|]);
    }
  }

  lemma {:induction false} ClientReceivesKeepTold(s: Stream, a: ClientReceiveAction)
    requires CallsTold(s) && ClientReceiveStep(s, a).Some?
    ensures CallsTold(ClientReceiveStep(s, a).value)
  {
    hide Returned, Accepted, Outcomes;
    var t := ClientReceiveStep(s, a).value;
    if a.ClientReturn? {
      OutcomesAppend(s.clientReports, t.clientReports[|s.clientReports|]);
      ReturnedAppend(Outcomes(s.clientReports), s.clientReceiver.outcome);
    }
  }

  lemma {:induction false} ServerReceivesKeepTold(s: Stream, a: ServerReceiveAction)
    requires CallsTold(s) && ServerReceiveStep(s, a).Some?
    ensures CallsTold(ServerReceiveStep(s, a).value)
  {
    hide Returned, Accepted, Outcomes;
    if a.ServerReturn? {
      ReturnedAppend(s.serverReports, s.serverReceiver.outcome);
    }
  }

  lemma {:induction false} ControlsKeepTold(s: Stream, a: ControlAction)
    requires CallsTold(s) && ControlStep(s, a).Some?
    ensures CallsTold(ControlStep(s, a).value)
  {
    hide Join;
  }

  /** Ends that a SendMsg may have returned stay true. */
  ghost predicate EndsStay(s: Stream, t: Stream) {
    && (s.cancelled ==> t.cancelled) && (s.shared.clientSendClose ==> t.shared.clientSendClose)
    && (s.shared.finished ==> t.shared.finished && t.shared.finishedErr == s.shared.finishedErr)
    && t.clientSends == s.clientSends && t.serverSends == s.serverSends
  }

  lemma {:induction false} StayingKeepsSends(s: Stream, t: Stream)
    requires SendsSound(s) && EndsStay(s, t)
    ensures SendsSound(t)
  {
  }

  lemma {:induction false} SendsKeepSends(s: Stream, a: SendAction)
    requires ClosedOnce(s) && Ordered(s) && SendsSound(s) && SendStep(s, a).Some?
    ensures SendsSound(SendStep(s, a).value)
  {
  }

  lemma {:induction false} ClientReceivesKeepSends(s: Stream, a: ClientReceiveAction)
    requires SendsSound(s) && ClientReceiveStep(s, a).Some?
    ensures SendsSound(ClientReceiveStep(s, a).value)
  {
    ClientReceiveFrame(s, a);
    StayingKeepsSends(s, ClientReceiveStep(s, a).value);
  }

  lemma {:induction false} ServerReceivesKeepSends(s: Stream, a: ServerReceiveAction)
    requires SendsSound(s) && ServerReceiveStep(s, a).Some?
    ensures SendsSound(ServerReceiveStep(s, a).value)
  {
    ServerReceiveFrame(s, a);
    StayingKeepsSends(s, ServerReceiveStep(s, a).value);
  }

  lemma {:induction false} ControlsKeepSends(s: Stream, a: ControlAction)
    requires Ordered(s) && SendsSound(s) && ControlStep(s, a).Some?
    ensures SendsSound(ControlStep(s, a).value)
  {
    hide Join;
    assert EndsStay(s, ControlStep(s, a).value);
    StayingKeepsSends(s, ControlStep(s, a).value);
  }

  lemma {:induction false} StepKeepsInv(s: Stream, a: Action)
    requires Inv(s) && Step(s, a).Some?
    ensures Inv(Step(s, a).value)
  {
    hide Conserved, ClosedOnce, Ordered, HeaderStable, ReportsSound, ServerReportsSound, CallsTold, SendsSound;
    hide SendStep, ClientReceiveStep, ServerReceiveStep, ControlStep;
    match a
    case Sends(b) =>
      SendsKeepConserved(s, b);
      SendsKeepOrder(s, b);
      SendsKeepHeader(s, b);
      SendsKeepReports(s, b);
      SendsKeepServerReports(s, b);
      SendsKeepTold(s, b);
      SendsKeepSends(s, b);
    case ClientReceives(b) =>
      ClientReceivesKeepConserved(s, b);
      ClientReceivesKeepOrder(s, b);
      ClientReceivesKeepHeader(s, b);
      ClientReceivesKeepReports(s, b);
      ClientReceivesKeepServerReports(s, b);
      ClientReceivesKeepTold(s, b);
      ClientReceivesKeepSends(s, b);
    case ServerReceives(b) =>
      ServerReceivesKeepConserved(s, b);
      ServerReceivesKeepOrder(s, b);
      ServerReceivesKeepHeader(s, b);
      ServerReceivesKeepReports(s, b);
      ServerReceivesKeepServerReports(s, b);
      ServerReceivesKeepTold(s, b);
      ServerReceivesKeepSends(s, b);
    case Controls(b) =>
      ControlsKeepConserved(s, b);
      ControlsKeepOrder(s, b);
      ControlsKeepHeader(s, b);
      ControlsKeepReports(s, b);
      ControlsKeepServerReports(s, b);
      ControlsKeepTold(s, b);
      ControlsKeepSends(s, b);
  }

  lemma {:induction false} RunKeepsInv(s: Stream, actions: seq<Action>)
    requires Inv(s) && Run(s, actions).Some?
    ensures Inv(Run(s, actions).value)
  {
    hide Inv, Step;
    if actions != [] {
      var init := actions[..|actions| - 1];
      RunKeepsInv(s, init);
      StepKeepsInv(Run(s, init).value, actions[|actions| - 1]);
    }
  }

  lemma {:induction false} Reachable(actions: seq<Action>)
    requires Run(START, actions).Some?
    ensures Inv(Run(START, actions).value)
  {
    RunKeepsInv(START, actions);
  }

  // ----- what single steps do to the end, the header and the trailer -----

  /** The calls after which the header is fixed. */
  predicate Freezes(a: Action) {
    (a.Controls? && a.control.SendHeader?) || Finishes(a) || (a.Sends? && a.send.ServerSend?)
  }

  predicate Finishes(a: Action) { a.Controls? && a.control.Finish? }

  predicate MarksHeader(a: Action) {
    (a.Sends? && a.send.ServerMark?) || (a.Controls? && (a.control.MarkHeader? || a.control.FinishMarks?))
  }

  predicate SetsHeader(a: Action) { a.Controls? && (a.control.SetHeader? || a.control.SendHeader?) }

  predicate SetsTrailer(a: Action) { a.Controls? && a.control.SetTrailer? }

  ghost predicate Follows(s: Stream, a: Action, t: Stream) {
    && (t.shared.finished <==> s.shared.finished || Finishes(a))
    && (HeaderFrozen(t) <==> HeaderFrozen(s) || Freezes(a))
    && t.shared.header == (if !HeaderFrozen(s) && SetsHeader(a) then Join(s.shared.header, a.control.md)
        else s.shared.header)
    && t.shared.trailer == (if !s.shared.finished && SetsTrailer(a) then Join(s.shared.trailer, a.control.md)
        else s.shared.trailer)
    && t.shared.finishedErr == (if Finishes(a) then a.control.err else s.shared.finishedErr)
    && (s.shared.finished ==> t.serverSent == s.serverSent && !Finishes(a))
    && (t.shared.headerOnce <==> s.shared.headerOnce || MarksHeader(a))
    && (s.shared.clientSendClose ==> t.clientSent == s.clientSent)
    && (t.shared.clientSendClose <==> s.shared.clientSendClose || a == Sends(CloseSend))
    && (t.cancelled <==> s.cancelled || a == Controls(Cancel))
  }

  lemma {:induction false} SendsFollow(s: Stream, a: SendAction)
    requires Ordered(s) && SendStep(s, a).Some?
    ensures Follows(s, Sends(a), SendStep(s, a).value)
  {
  }

  lemma {:induction false} ClientReceivesFollow(s: Stream, a: ClientReceiveAction)
    requires Ordered(s) && ClientReceiveStep(s, a).Some?
    ensures Follows(s, ClientReceives(a), ClientReceiveStep(s, a).value)
  {
    ClientReceiveFrame(s, a);
    hide ClientReceiveStep, Ordered, Join;
  }

  lemma {:induction false} ServerReceivesFollow(s: Stream, a: ServerReceiveAction)
    requires Ordered(s) && ServerReceiveStep(s, a).Some?
    ensures Follows(s, ServerReceives(a), ServerReceiveStep(s, a).value)
  {
    ServerReceiveFrame(s, a);
    hide ServerReceiveStep, Ordered, Join;
  }

  lemma {:induction false} ControlsFollow(s: Stream, a: ControlAction)
    requires Ordered(s) && ControlStep(s, a).Some?
    ensures Follows(s, Controls(a), ControlStep(s, a).value)
  {
  }

  lemma {:induction false} StepFollows(s: Stream, a: Action)
    requires Inv(s) && Step(s, a).Some?
    ensures Follows(s, a, Step(s, a).value)
  {
    hide Conserved, ClosedOnce, Ordered, HeaderStable, ReportsSound, ServerReportsSound, Follows;
    hide SendStep, ClientReceiveStep, ServerReceiveStep, ControlStep;
    match a
    case Sends(b) => SendsFollow(s, b);
    case ClientReceives(b) => ClientReceivesFollow(s, b);
    case ServerReceives(b) => ServerReceivesFollow(s, b);
    case Controls(b) => ControlsFollow(s, b);
  }

  // ----- delivery -----

  /** The message that the action gives to a SendMsg of that side. */
  function GivenBy(a: Action, atClient: bool): seq<Message> {
    if a.Sends? && a.send.ClientSend? && atClient then [a.send.message]
    else if a.Sends? && a.send.ServerSend? && !atClient then [a.send.message]
    else []
  }

  function Given(actions: seq<Action>, atClient: bool): seq<Message> {
    if actions == [] then []
    else Given(actions[..|actions| - 1], atClient) + GivenBy(actions[|actions| - 1], atClient)
  }

  /** The messages that SendMsg calls have reported on, and the one of a call under way. */
  function Messages(sends: seq<Sent>): seq<Message> {
    seq(|sends|, k requires 0 <= k < |sends| => sends[k].message)
  }

  function UnderWay(sender: Sender): seq<Message> { if sender.SendIdle? then [] else [sender.message] }

  /** The calls of the client, or of the server. */
  function Calls(s: Stream, atClient: bool): seq<Message> {
    if atClient then Messages(s.clientSends) + UnderWay(s.clientSender)
    else Messages(s.serverSends) + UnderWay(s.serverSender)
  }

  lemma {:induction false} MessagesAppend(sends: seq<Sent>, sent: Sent)
    ensures Messages(sends + [sent]) == Messages(sends) + [sent.message]
  {
  }

  lemma {:induction false} SendsAnswer(s: Stream, a: SendAction, atClient: bool)
    requires SendStep(s, a).Some?
    ensures Calls(SendStep(s, a).value, atClient) == Calls(s, atClient) + GivenBy(Sends(a), atClient)
  {
    hide Messages;
    var t := SendStep(s, a).value;
    if |t.clientSends| > |s.clientSends| {
      MessagesAppend(s.clientSends, t.clientSends[|s.clientSends|]);
    }
    if |t.serverSends| > |s.serverSends| {
      MessagesAppend(s.serverSends, t.serverSends[|s.serverSends|]);
    }
  }

  lemma {:induction false} ControlsAnswerNothing(s: Stream, a: ControlAction)
    requires ControlStep(s, a).Some?
    ensures var t := ControlStep(s, a).value;
      && t.clientSends == s.clientSends && t.serverSends == s.serverSends
      && t.clientSender == s.clientSender && t.serverSender == s.serverSender
  {
    hide Join;
  }

  lemma {:induction false} StepAnswers(s: Stream, a: Action, atClient: bool)
    requires Step(s, a).Some?
    ensures Calls(Step(s, a).value, atClient) == Calls(s, atClient) + GivenBy(a, atClient)
  {
    hide SendStep, ClientReceiveStep, ServerReceiveStep, ControlStep, Messages;
    match a
    case Sends(b) => SendsAnswer(s, b, atClient);
    case ClientReceives(b) => ClientReceiveFrame(s, b);
    case ServerReceives(b) => ServerReceiveFrame(s, b);
    case Controls(b) => ControlsAnswerNothing(s, b);
  }

  lemma {:induction false} RunAnswers(actions: seq<Action>, atClient: bool)
    requires Run(START, actions).Some?
    ensures Given(actions, atClient) == Calls(Run(START, actions).value, atClient)
  {
    hide Step;
    if actions != [] {
      RunAnswers(actions[..|actions| - 1], atClient);
      StepAnswers(Run(START, actions[..|actions| - 1]).value, actions[|actions| - 1], atClient);
    }
  }

  /** In every interleaving the SendMsg calls report in order, each with its own message; those that returned nil are,
      in order and once, what RecvMsg of the other side has returned, or is about to return, short of at most the one
      message in the slot. */
  lemma {:induction false} DeliversInOrder(actions: seq<Action>)
    requires Run(START, actions).Some?
    ensures var s := Run(START, actions).value;
      && Given(actions, true) == Messages(s.clientSends) + UnderWay(s.clientSender)
      && Given(actions, false) == Messages(s.serverSends) + UnderWay(s.serverSender)
      && Accepted(s.clientSends) ==
         Returned(s.serverReports) + InHand(s.serverReceiver) + s.shared.clientMessages
      && Accepted(s.serverSends) ==
         Returned(Outcomes(s.clientReports)) + InHand(s.clientReceiver) + s.shared.serverMessages
      && |s.shared.clientMessages| <= 1 && |s.shared.serverMessages| <= 1
  {
    Reachable(actions);
    RunAnswers(actions, true);
    RunAnswers(actions, false);
  }

  /** A SendMsg that returns an end has met it: the client's own CloseSend, the result of finish or the cancelled
      context. */
  lemma {:induction false} SendEndsForCause(actions: seq<Action>, k: nat, end: Outcome)
    requires Run(START, actions).Some?
    ensures var s := Run(START, actions).value;
      && (k < |s.clientSends| && s.clientSends[k].end == Some(end) ==>
            EndHolds(end, s.shared, s.cancelled) || (end.EndOfStream? && s.shared.clientSendClose))
      && (k < |s.serverSends| && s.serverSends[k].end == Some(end) ==> EndHolds(end, s.shared, s.cancelled))
  {
    Reachable(actions);
  }

  /** io.EOF is only decided on when everything sent so far has been received, unless the handler itself returned it. */
  lemma {:induction false} EndIsDecidedOnEmptySlot(actions: seq<Action>, a: Action)
    requires Run(START, actions).Some? && Step(Run(START, actions).value, a).Some?
    ensures var s, t := Run(START, actions).value, Step(Run(START, actions).value, a).value;
      && (s.serverReceiver != Returning(EndOfStream) && t.serverReceiver == Returning(EndOfStream) ==>
            t.serverReceived == t.clientSent || FinishedWith(s, Some(EofError)))
      && (s.clientReceiver != Returning(EndOfStream) && t.clientReceiver == Returning(EndOfStream) ==>
            t.clientReceived == t.serverSent || FinishedWith(s, Some(EofError)))
  {
    var s := Run(START, actions).value;
    Reachable(actions);
    hide Run, Inv, ClosedOnce, HeaderStable, ReportsSound, ServerReportsSound, CallsTold, SendsSound;
    hide SendStep, ClientReceiveStep, ServerReceiveStep, ControlStep, FinishedWith;
    InvHas(s);
    match a
    case Sends(b) => OthersDecideNothing(s, a);
    case ClientReceives(b) => ClientDecides(s, b);
    case ServerReceives(b) => ServerDecides(s, b);
    case Controls(b) => OthersDecideNothing(s, a);
  }

  lemma {:induction false} InvHas(s: Stream)
    requires Inv(s)
    ensures Conserved(s) && Ordered(s)
  {
  }

  lemma {:induction false} OthersDecideNothing(s: Stream, a: Action)
    requires Step(s, a).Some? && (a.Sends? || a.Controls?)
    ensures var t := Step(s, a).value;
      t.serverReceiver == s.serverReceiver && t.clientReceiver == s.clientReceiver
  {
    hide Join;
  }

  lemma {:induction false} ClientDecides(s: Stream, a: ClientReceiveAction)
    requires Conserved(s) && Ordered(s) && ClientReceiveStep(s, a).Some?
    ensures var t := ClientReceiveStep(s, a).value;
      && t.serverReceiver == s.serverReceiver
      && (s.clientReceiver != Returning(EndOfStream) && t.clientReceiver == Returning(EndOfStream) ==>
            t.clientReceived == t.serverSent || FinishedWith(s, Some(EofError)))
  {
    if s.shared.serverMessages == [] {
      assert s.clientReceived + [] == s.clientReceived;
    }
  }

  lemma {:induction false} ServerDecides(s: Stream, a: ServerReceiveAction)
    requires Conserved(s) && Ordered(s) && ServerReceiveStep(s, a).Some?
    ensures var t := ServerReceiveStep(s, a).value;
      && t.clientReceiver == s.clientReceiver
      && (s.serverReceiver != Returning(EndOfStream) && t.serverReceiver == Returning(EndOfStream) ==>
            t.serverReceived == t.clientSent || FinishedWith(s, Some(EofError)))
  {
    if s.shared.clientMessages == [] {
      assert s.serverReceived + [] == s.serverReceived;
    }
  }

  lemma {:induction false} RunAfterEnd(s: Stream, actions: seq<Action>)
    requires Inv(s) && Run(s, actions).Some?
    ensures s.shared.finished ==>
              Run(s, actions).value.shared.finished && Run(s, actions).value.serverSent == s.serverSent
              && Run(s, actions).value.shared.finishedErr == s.shared.finishedErr
    ensures s.shared.clientSendClose ==>
              Run(s, actions).value.shared.clientSendClose && Run(s, actions).value.clientSent == s.clientSent
  {
    hide Inv, Step;
    if actions != [] {
      var init := actions[..|actions| - 1];
      RunKeepsInv(s, init);
      RunAfterEnd(s, init);
      StepFollows(Run(s, init).value, actions[|actions| - 1]);
    }
  }

  ghost predicate FinishedWith(s: Stream, err: Option<Error>) { s.shared.finished && s.shared.finishedErr == err }

  /** A client that has been told io.EOF by `s` has everything the server has sent then and later, in `t`. */
  ghost predicate ClientHasAll(s: Stream, t: Stream) {
    forall k :: 0 <= k < |s.clientReports| && s.clientReports[k].outcome.EndOfStream? ==>
      s.clientReceived == s.serverSent == t.serverSent
  }

  /** A client that has been told io.EOF is told io.EOF ever after, or the context's error once cancelled. */
  ghost predicate EndsForEver(s: Stream) {
    forall j, k :: 0 <= j < k < |s.clientReports| && s.clientReports[j].outcome.EndOfStream? ==>
      || s.clientReports[k].outcome.EndOfStream?
      || (s.cancelled && s.clientReports[k].outcome == Failed(ContextError))
  }

  lemma {:induction false} EndOfRunIsFinal(actions: seq<Action>, more: seq<Action>)
    requires Run(START, actions).Some? && Run(Run(START, actions).value, more).Some?
    requires Run(START, actions).value.shared.finishedErr != Some(EofError)
    ensures ClientHasAll(Run(START, actions).value, Run(Run(START, actions).value, more).value)
    ensures EndsForEver(Run(START, actions).value)
  {
    hide Step;
    Reachable(actions);
    RunAfterEnd(Run(START, actions).value, more);
  }

  /** In every run that finishes with `err`, whoever is told io.EOF has everything the server ever sends, exactly if
      `err` is not io.EOF itself. */
  lemma {:induction false} ClientEndOfStreamIsFinal(err: Option<Error>)
    ensures (forall actions, more :: Run(START, actions).Some? && Run(Run(START, actions).value, more).Some?
                                     && FinishedWith(Run(START, actions).value, err) ==>
               ClientHasAll(Run(START, actions).value, Run(Run(START, actions).value, more).value))
            <==> err != Some(EofError)
  {
    hide Run, ClientHasAll, EndsForEver;
    if err != Some(EofError) {
      forall actions, more | Run(START, actions).Some? && Run(Run(START, actions).value, more).Some?
                             && FinishedWith(Run(START, actions).value, err)
        ensures ClientHasAll(Run(START, actions).value, Run(Run(START, actions).value, more).value)
      {
        EndOfRunIsFinal(actions, more);
      }
    } else {
      EarlyEndLacksAMessage();
      RunNone(Run(START, EARLY_END[..10]).value);
    }
  }

  /** In every run that finishes with `err`, io.EOF is for ever, exactly if `err` is not io.EOF itself. */
  lemma {:induction false} EndOfStreamForEver(err: Option<Error>)
    ensures (forall actions :: Run(START, actions).Some? && FinishedWith(Run(START, actions).value, err) ==>
               EndsForEver(Run(START, actions).value))
            <==> err != Some(EofError)
  {
    hide Run, ClientHasAll, EndsForEver;
    if err != Some(EofError) {
      forall actions | Run(START, actions).Some? && FinishedWith(Run(START, actions).value, err)
        ensures EndsForEver(Run(START, actions).value)
      {
        RunNone(Run(START, actions).value);
        EndOfRunIsFinal(actions, []);
      }
    } else {
      MessageAfterEndOfStream();
    }
  }

  lemma {:induction false} RunNone(s: Stream)
    ensures Run(s, []) == Some(s)
  {
  }

  /** The client waits, the server sends, and the handler returns io.EOF before the client has taken the message: the
      waiting receive sees `done` and returns io.EOF, the next one the message. */
  const EARLY_END: seq<Action> :=
    [ClientReceives(ClientReceive), Sends(ServerSend(Message("sent"))), Sends(ServerMark), Sends(ServerPush),
     Controls(Finish(Some(EofError))), Controls(FinishMarks), Controls(FinishCloses),
     ClientReceives(ClientSeesDone), ClientReceives(ClientReadsResult), ClientReceives(ClientReturn),
     ClientReceives(ClientReceive), ClientReceives(ClientReturn)]

  /** The server has sent its message to the waiting client. */
  const PUSHED: Stream :=
    START.(shared := OPEN.BeginServerSend().MarkHeaderReady().(serverMessages := [Message("sent")]),
           serverSent := [Message("sent")], serverSends := [Sent(Message("sent"), None)], clientReceiver := Waiting)

  /** And its handler has returned io.EOF. */
  const ENDED: Stream :=
    PUSHED.(shared := PUSHED.shared.Finish(Some(EofError)).MarkHeaderReady().CloseDone(), finisher := Closed)

  const TOLD: Stream := ENDED.(clientReceiver := ReceiveIdle, clientReports := [Report(EndOfStream, map[])])

  const BEGUN: Stream := START.(shared := OPEN.BeginServerSend(), clientReceiver := Waiting)

  lemma {:induction false} ServerBegins()
    ensures Run(START, EARLY_END[..2]) == Some(BEGUN.(serverSender := Marking(Message("sent"))))
  {
    assert EARLY_END[..0] == [];
    RunOnTo(EARLY_END, 0, START);
    RunOnTo(EARLY_END, 1, START.(clientReceiver := Waiting));
  }

  lemma {:induction false} ServerPushes()
    ensures Run(START, EARLY_END[..4]) == Some(PUSHED)
  {
    hide Run;
    var m := Message("sent");
    ServerBegins();
    RunOnTo(EARLY_END, 2, BEGUN.(serverSender := Marking(m)));
    assert [] + [m] == [m];
    assert START.serverSends + [Sent(m, None)] == [Sent(m, None)];
    RunOnTo(EARLY_END, 3, BEGUN.(shared := BEGUN.shared.MarkHeaderReady(), serverSender := Sending(m)));
  }

  const LOCKED: Stream := PUSHED.(shared := PUSHED.shared.Finish(Some(EofError)), finisher := Locked)

  lemma {:induction false} HandlerReturnsEof()
    ensures Run(START, EARLY_END[..5]) == Some(LOCKED)
  {
    hide Run;
    ServerPushes();
    RunOnTo(EARLY_END, 4, PUSHED);
  }

  lemma {:induction false} StreamEnds()
    ensures Run(START, EARLY_END[..7]) == Some(ENDED)
  {
    hide Run;
    HandlerReturnsEof();
    RunOnTo(EARLY_END, 5, LOCKED);
    RunOnTo(EARLY_END, 6, LOCKED.(finisher := Marked));
  }

  lemma {:induction false} ClientSeesTheEnd()
    ensures Run(START, EARLY_END[..9]) == Some(ENDED.(clientReceiver := Returning(EndOfStream)))
  {
    hide Run;
    StreamEnds();
    RunOnTo(EARLY_END, 7, ENDED);
    RunOnTo(EARLY_END, 8, ENDED.(clientReceiver := Ending));
  }

  lemma {:induction false} ClientIsTold()
    ensures Run(START, EARLY_END[..10]) == Some(TOLD)
  {
    hide Run;
    ClientSeesTheEnd();
    RunOnTo(EARLY_END, 9, ENDED.(clientReceiver := Returning(EndOfStream)));
    assert ENDED.clientReports + TOLD.clientReports == TOLD.clientReports;
  }

  lemma {:induction false} EarlyEndLacksAMessage()
    ensures Run(START, EARLY_END[..10]).Some? && FinishedWith(Run(START, EARLY_END[..10]).value, Some(EofError))
    ensures forall t :: !ClientHasAll(Run(START, EARLY_END[..10]).value, t)
  {
    ClientIsTold();
    assert TOLD.clientReports[0].outcome.EndOfStream?;
  }

  /** An interleaving in which the client is told io.EOF and is then delivered a message. */
  lemma {:induction false} MessageAfterEndOfStream()
    ensures Run(START, EARLY_END).Some? && FinishedWith(Run(START, EARLY_END).value, Some(EofError))
    ensures var reports := Run(START, EARLY_END).value.clientReports;
      |reports| == 2 && reports[0].outcome == EndOfStream && reports[1].outcome == Delivered(Message("sent"))
    ensures !EndsForEver(Run(START, EARLY_END).value)
  {
    hide Run;
    ClientIsTold();
    assert EARLY_END[..12] == EARLY_END;
    RunOnTo(EARLY_END, 10, TOLD);
    RunOnTo(EARLY_END, 11, ClientTakes(TOLD).value);
  }

  lemma {:induction false} RunOnTo(run: seq<Action>, n: nat, s: Stream)
    requires n < |run| && Run(START, run[..n]) == Some(s)
    ensures Run(START, run[..n + 1]) == Step(s, run[n])
  {
    assert run[..n + 1][..n] == run[..n];
  }

  /** A handler that was told io.EOF while it was running has everything the client has sent and will ever send. */
  lemma {:induction false} ServerEndOfStreamHasAll(actions: seq<Action>, k: nat, more: seq<Action>)
    requires Run(START, actions).Some? && Run(Run(START, actions).value, more).Some?
    requires k < |Run(START, actions).value.serverReports|
    requires Run(START, actions).value.serverReports[k].EndOfStream? && !Run(START, actions).value.shared.finished
    ensures var s, t := Run(START, actions).value, Run(Run(START, actions).value, more).value;
      s.serverReceived == s.clientSent == t.clientSent == t.serverReceived
  {
    hide Step;
    Reachable(actions);
    RunAfterEnd(Run(START, actions).value, more);
    RunKeepsInv(Run(START, actions).value, more);
    StillReceived(Run(START, actions).value, more);
  }

  lemma {:induction false} StillReceived(s: Stream, more: seq<Action>)
    requires Inv(s) && Run(s, more).Some?
    ensures s.serverReceived <= Run(s, more).value.serverReceived
  {
    hide Inv, Step;
    if more != [] {
      var init := more[..|more| - 1];
      RunKeepsInv(s, init);
      StillReceived(s, init);
      ReceivedGrows(Run(s, init).value, more[|more| - 1]);
    }
  }

  lemma {:induction false} ReceivedGrows(s: Stream, a: Action)
    requires Step(s, a).Some?
    ensures s.serverReceived <= Step(s, a).value.serverReceived
  {
  }

  /** A server about to return io.EOF, in whatever interleaving, has been told the truth, that the client sends
      nothing but what it has received, exactly if the client has closed its side and the slot is empty. */
  lemma {:induction false} ServerEndOfStreamIsCompleteIff(actions: seq<Action>)
    requires Run(START, actions).Some? && Run(START, actions).value.serverReceiver == Returning(EndOfStream)
    ensures var s := Run(START, actions).value;
      (forall more :: Run(s, more).Some? ==> Run(s, more).value.clientSent == s.serverReceived)
      <==> s.shared.clientSendClose && s.shared.clientMessages == []
  {
    var s := Run(START, actions).value;
    Reachable(actions);
    ServerEndOfStreamIsFinalIffClosed(s);
    assert Run(s, []) == Some(s);
  }

  /** And the client sends nothing more exactly if it has closed its side: a server that still receives after its
      handler has returned nil gets an io.EOF that may be premature. */
  lemma {:induction false} ServerEndOfStreamIsFinalIffClosed(s: Stream)
    requires Inv(s) && s.serverReceiver == Returning(EndOfStream)
    ensures (forall more :: Run(s, more).Some? ==> Run(s, more).value.clientSent == s.clientSent)
            <==> s.shared.clientSendClose
  {
    if s.shared.clientSendClose {
      forall more | Run(s, more).Some?
        ensures Run(s, more).value.clientSent == s.clientSent
      {
        RunAfterEnd(s, more);
      }
    } else if s.shared.clientMessages == [] {
      var more := LateSend(s);
    } else {
      var back := s.(serverReports := s.serverReports + [EndOfStream], serverReceiver := ReceiveIdle);
      var free := ServerTakes(back).value;
      var late := LateSend(free);
      RunCons(back, ServerReceives(ServerReceive), free, late);
      RunCons(s, ServerReceives(ServerReturn), back, [ServerReceives(ServerReceive)] + late);
    }
  }

  /** With its side open and the slot free, the client can still send. */
  lemma {:induction false} LateSend(s: Stream) returns (more: seq<Action>)
    requires !s.shared.clientSendClose && s.shared.clientMessages == [] && !s.clientSender.Marking?
    ensures Run(s, more).Some? && Run(s, more).value.clientSent != s.clientSent
  {
    if s.clientSender.Sending? {
      more := [Sends(ClientPush)];
      RunOne(s, more[0]);
    } else {
      more := [Sends(ClientSend(Message("late"))), Sends(ClientPush)];
      RunTwo(s, more[0], more[1]);
    }
  }

  /** The handler returns nil; a receive after it sees `done`, finds the slot empty and is about to return io.EOF
      when the client, which has not closed its side, sends. */
  const PREMATURE: seq<Action> :=
    [Controls(Finish(None)), Controls(FinishMarks), Controls(FinishCloses),
     ServerReceives(ServerReceive), ServerReceives(ServerSeesDone), ServerReceives(ServerReadsResult),
     ServerReceives(ServerDrain),
     Sends(ClientSend(Message("late"))), Sends(ClientPush), ServerReceives(ServerReturn)]

  const RETURNED: Stream := START.(shared := OPEN.Finish(None).MarkHeaderReady().CloseDone(), finisher := Closed)

  const DRAINED: Stream := RETURNED.(serverReceiver := Returning(EndOfStream))

  lemma {:induction false} HandlerReturns()
    ensures Run(START, PREMATURE[..3]) == Some(RETURNED)
  {
    assert PREMATURE[..0] == [];
    var locked := START.(shared := OPEN.Finish(None), finisher := Locked);
    RunOnTo(PREMATURE, 0, START);
    RunOnTo(PREMATURE, 1, locked);
    RunOnTo(PREMATURE, 2, locked.(shared := locked.shared.MarkHeaderReady(), finisher := Marked));
  }

  lemma {:induction false} ServerSeesTheEnd()
    ensures Run(START, PREMATURE[..5]) == Some(RETURNED.(serverReceiver := Ending))
  {
    HandlerReturns();
    RunOnTo(PREMATURE, 3, RETURNED);
    RunOnTo(PREMATURE, 4, RETURNED.(serverReceiver := Waiting));
  }

  lemma {:induction false} ServerFindsNothing()
    ensures Run(START, PREMATURE[..7]) == Some(DRAINED)
  {
    hide Run;
    ServerSeesTheEnd();
    RunOnTo(PREMATURE, 5, RETURNED.(serverReceiver := Ending));
    RunOnTo(PREMATURE, 6, RETURNED.(serverReceiver := Draining(true)));
  }

  /** An interleaving after which the server has been told io.EOF and lacks a message. */
  lemma {:induction false} PrematureEndOfStream()
    ensures Run(START, PREMATURE).Some?
    ensures var s := Run(START, PREMATURE).value;
      s.serverReports == [EndOfStream] && s.clientSent == [Message("late")] && s.serverReceived == []
  {
    assert PREMATURE[..10] == PREMATURE;
    var late := Message("late");
    ServerFindsNothing();
    RunOnTo(PREMATURE, 7, DRAINED);
    RunOnTo(PREMATURE, 8, DRAINED.(clientSender := Sending(late)));
    assert DRAINED.clientSent + [late] == DRAINED.shared.clientMessages + [late] == [late];
    assert DRAINED.clientSends + [Sent(late, None)] == [Sent(late, None)];
    RunOnTo(PREMATURE, 9, DRAINED.(shared := DRAINED.shared.(clientMessages := [late]), clientSent := [late],
                                   clientSends := [Sent(late, None)]));
  }

  lemma {:induction false} RunOne(s: Stream, a: Action)
    ensures Run(s, [a]) == Step(s, a)
  {
    assert [a][..0] == [];
  }

  lemma {:induction false} RunTwo(s: Stream, a: Action, b: Action)
    ensures Run(s, [a, b]) == if Step(s, a).None? then None else Step(Step(s, a).value, b)
  {
    assert [a, b][..1] == [a];
    RunOne(s, a);
  }

  // ----- closing channels, headers and trailers -----

  /** No interleaving closes a channel twice. */
  lemma {:induction false} NoChannelClosedTwice(actions: seq<Action>)
    requires Run(START, actions).Some?
    ensures var sh := Run(START, actions).value.shared; sh.clientSendDone <= 1 && sh.done <= 1 && sh.headerReady <= 1
  {
    Reachable(actions);
  }

  predicate HeaderSentIn(actions: seq<Action>) {
    actions != [] && (HeaderSentIn(actions[..|actions| - 1]) || Freezes(actions[|actions| - 1]))
  }

  predicate FinishedIn(actions: seq<Action>) {
    actions != [] && (FinishedIn(actions[..|actions| - 1]) || Finishes(actions[|actions| - 1]))
  }

  /** The metadata of the SetHeader and SendHeader calls that came before the header was sent. */
  function HeadersBeforeSent(actions: seq<Action>): seq<Metadata> {
    if actions == [] then []
    else
      var init, a := actions[..|actions| - 1], actions[|actions| - 1];
      HeadersBeforeSent(init) +
      (if SetsHeader(a) && !HeaderSentIn(init) then [a.control.md] else [])
  }

  /** All values of a key, call by call. */
  function AllValues(all: seq<Metadata>, key: string): seq<string> {
    if all == [] then [] else (if key in all[0] then all[0][key] else []) + AllValues(all[1..], key)
  }

  lemma {:induction false} AllValuesAppend(all: seq<Metadata>, md: Metadata, key: string)
    ensures AllValues(all + [md], key) == AllValues(all, key) + (if key in md then md[key] else [])
  {
    if all == [] {
      assert ([] + [md])[1..] == [];
    } else {
      assert (all + [md])[1..] == all[1..] + [md];
      AllValuesAppend(all[1..], md, key);
    }
  }

  /** Joining keeps every value of every key, in the order of the calls. */
  lemma {:induction false} JoinKeepsEveryValue(all: seq<Metadata>, key: string)
    ensures key in JoinAll(all) <==> exists k :: 0 <= k < |all| && key in all[k]
    ensures key in JoinAll(all) ==> JoinAll(all)[key] == AllValues(all, key)
    ensures key !in JoinAll(all) ==> AllValues(all, key) == []
  {
    if all != [] {
      var init, md := all[..|all| - 1], all[|all| - 1];
      assert all == init + [md];
      JoinKeepsEveryValue(init, key);
      AllValuesAppend(init, md, key);
    }
  }

  lemma {:induction false} JoinAllAppend(all: seq<Metadata>, md: Metadata)
    ensures JoinAll(all + [md]) == Join(JoinAll(all), md)
    ensures JoinAll(all + []) == JoinAll(all)
  {
    assert (all + [md])[..|all|] == all;
    assert all + [] == all;
  }

  lemma {:induction false} HeaderIsJoin(actions: seq<Action>)
    requires Run(START, actions).Some?
    ensures var s := Run(START, actions).value;
      && (HeaderFrozen(s) <==> HeaderSentIn(actions))
      && s.shared.header == JoinAll(HeadersBeforeSent(actions))
  {
    hide Step, Inv, Join;
    if actions != [] {
      var init, a := actions[..|actions| - 1], actions[|actions| - 1];
      var s := Run(START, init).value;
      HeaderIsJoin(init);
      Reachable(init);
      StepFollows(s, a);
      var before := HeadersBeforeSent(init);
      if SetsHeader(a) {
        JoinAllAppend(before, a.control.md);
      }
      JoinAllAppend(before, map[]);
    }
  }

  /** Every successful Header call on a stream returns the same metadata: the join of what was set before it was
      sent. */
  lemma {:induction false} HeaderResultsAgree(actions: seq<Action>, k: nat)
    requires Run(START, actions).Some? && k < |Run(START, actions).value.headerResults|
    ensures Run(START, actions).value.headerResults[k] == JoinAll(HeadersBeforeSent(actions))
  {
    Reachable(actions);
    HeaderIsJoin(actions);
  }

  /** The metadata of the SetTrailer calls before finish. */
  function TrailersBeforeFinish(actions: seq<Action>): seq<Metadata> {
    if actions == [] then []
    else
      var init, a := actions[..|actions| - 1], actions[|actions| - 1];
      TrailersBeforeFinish(init) +
      (if SetsTrailer(a) && !FinishedIn(init) then [a.control.md] else [])
  }

  lemma {:induction false} TrailerIsJoin(actions: seq<Action>)
    requires Run(START, actions).Some?
    ensures var s := Run(START, actions).value;
      && (s.shared.finished <==> FinishedIn(actions))
      && s.shared.trailer == JoinAll(TrailersBeforeFinish(actions))
  {
    hide Step, Inv, Join;
    if actions != [] {
      var init, a := actions[..|actions| - 1], actions[|actions| - 1];
      var s := Run(START, init).value;
      TrailerIsJoin(init);
      Reachable(init);
      StepFollows(s, a);
      var before := TrailersBeforeFinish(init);
      if SetsTrailer(a) {
        JoinAllAppend(before, a.control.md);
      }
      JoinAllAppend(before, map[]);
    }
  }

  /** Every RecvMsg writes back the trailers that were set before it returned and before finish. */
  lemma {:induction false} ReportHasTrailerSoFar(actions: seq<Action>, k: nat) returns (n: nat)
    requires Run(START, actions).Some? && k < |Run(START, actions).value.clientReports|
    ensures n < |actions| && actions[n] == ClientReceives(ClientReturn)
    ensures Run(START, actions[..n]).Some? && |Run(START, actions[..n]).value.clientReports| == k
    ensures Run(START, actions).value.clientReports[k].trailer == JoinAll(TrailersBeforeFinish(actions[..n]))
  {
    hide Step, TrailersBeforeFinish;
    var init, a := actions[..|actions| - 1], actions[|actions| - 1];
    var s := Run(START, init).value;
    ReportsGrow(s, a);
    if k < |s.clientReports| {
      n := ReportHasTrailerSoFar(init, k);
      assert init[..n] == actions[..n];
    } else {
      n := |init|;
      TrailerIsJoin(init);
    }
  }

  lemma {:induction false} ReportsGrow(s: Stream, a: Action)
    requires Step(s, a).Some?
    ensures var before, after := s.clientReports, Step(s, a).value.clientReports;
      if a == ClientReceives(ClientReturn) then
        |after| == |before| + 1 && before == after[..|before|] && after[|before|].trailer == s.shared.trailer
      else after == before
  {
    match a
    case ServerReceives(b) => ServerReceiveFrame(s, b);
    case _ =>
  }

  /** The result of the stream is what finish was called with. */
  lemma {:induction false} ResultIsThatOfFinish(actions: seq<Action>, k: nat)
    requires Run(START, actions).Some? && k < |actions| && Finishes(actions[k])
    ensures FinishedWith(Run(START, actions).value, actions[k].control.err)
  {
    hide Step, Inv;
    var init, a := actions[..|actions| - 1], actions[|actions| - 1];
    Reachable(init);
    StepFollows(Run(START, init).value, a);
    if k < |init| {
      assert init[k] == actions[k];
      ResultIsThatOfFinish(init, k);
    }
  }

  /** The client's side is closed, and the context cancelled, exactly if the run has an action that does so. */
  lemma {:induction false} EndsAreBroughtAbout(actions: seq<Action>)
    requires Run(START, actions).Some?
    ensures Run(START, actions).value.shared.clientSendClose <==> Sends(CloseSend) in actions
    ensures Run(START, actions).value.cancelled <==> Controls(Cancel) in actions
  {
    hide Step, Inv;
    if actions != [] {
      var init, a := actions[..|actions| - 1], actions[|actions| - 1];
      EndsAreBroughtAbout(init);
      Reachable(init);
      StepFollows(Run(START, init).value, a);
      assert actions == init + [a];
    }
  }

  predicate MarkedIn(actions: seq<Action>) {
    actions != [] && (MarkedIn(actions[..|actions| - 1]) || MarksHeader(actions[|actions| - 1]))
  }

  /** A Header call is let through exactly if the header has been marked ready, by SendHeader, by a SendMsg of the
      server or by finish. */
  lemma {:induction false} HeaderPassesIffMarked(actions: seq<Action>)
    requires Run(START, actions).Some?
    ensures Step(Run(START, actions).value, Controls(HeaderPasses)).Some? <==> MarkedIn(actions)
  {
    Reachable(actions);
    HeaderOnceIffMarked(actions);
  }

  lemma {:induction false} HeaderOnceIffMarked(actions: seq<Action>)
    requires Run(START, actions).Some?
    ensures Run(START, actions).value.shared.headerOnce <==> MarkedIn(actions)
  {
    hide Step, Inv;
    if actions != [] {
      var init, a := actions[..|actions| - 1], actions[|actions| - 1];
      HeaderOnceIffMarked(init);
      Reachable(init);
      StepFollows(Run(START, init).value, a);
    }
  }

  /** A RecvMsg that ends with io.EOF or the handler's error writes back every trailer set before finish. */
  lemma {:induction false} FinalReportHasWholeTrailer(actions: seq<Action>, k: nat)
    requires Run(START, actions).Some? && k < |Run(START, actions).value.clientReports|
    requires Final(Run(START, actions).value.clientReports[k].outcome)
    ensures Run(START, actions).value.clientReports[k].trailer == JoinAll(TrailersBeforeFinish(actions))
  {
    Reachable(actions);
    TrailerIsJoin(actions);
  }

  // ----- after finish -----

  ghost predicate ClientCanSend(s: Stream) {
    exists b: SendAction :: (b.ClientPush? || b.ClientSendCancelled? || b.ClientSendDone?) && Step(s, Sends(b)).Some?
  }

  ghost predicate ServerCanSend(s: Stream) {
    exists b: SendAction ::
      (b.ServerMark? || b.ServerPush? || b.ServerSendCancelled? || b.ServerSendDone?) && Step(s, Sends(b)).Some?
  }

  ghost predicate ClientCanReceive(s: Stream) {
    exists b: ClientReceiveAction :: b != ClientReceive && Step(s, ClientReceives(b)).Some?
  }

  ghost predicate ServerCanReceive(s: Stream) {
    exists b: ServerReceiveAction :: b != ServerReceive && Step(s, ServerReceives(b)).Some?
  }

  /** Calls under way are blocked exactly in their select: a SendMsg while the slot is taken, a RecvMsg while it is
      empty, and either only as long as the context is not cancelled, finish has not closed `done` and, for the server's
      RecvMsg, the client has not closed its side. */
  lemma {:induction false} BlockedIff(s: Stream)
    requires Inv(s)
    ensures !s.clientSender.SendIdle? ==>
              (!ClientCanSend(s) <==> s.shared.clientMessages != [] && !s.cancelled && !s.finisher.Closed?)
    ensures !s.serverSender.SendIdle? ==>
              (!ServerCanSend(s) <==> s.serverSender.Sending? && s.shared.serverMessages != [] && !s.cancelled)
    ensures !s.clientReceiver.ReceiveIdle? ==>
              (!ClientCanReceive(s) <==> s.clientReceiver.Waiting? && s.shared.serverMessages == [] && !s.cancelled
                                         && !s.finisher.Closed?)
    ensures !s.serverReceiver.ReceiveIdle? ==>
              (!ServerCanReceive(s) <==> s.serverReceiver.Waiting? && s.shared.clientMessages == [] && !s.cancelled
                                         && !s.finisher.Closed? && !s.shared.clientSendClose)
  {
    hide ReportsSound, ServerReportsSound, HeaderStable, CallsTold, SendsSound;
    hide ClosedOnce, Ordered, ClientCanSend, ServerCanSend, ClientCanReceive, ServerCanReceive;
    if !s.clientSender.SendIdle? {
      ClientSendBlocked(s);
    }
    if !s.serverSender.SendIdle? {
      ServerSendBlocked(s);
    }
    if !s.clientReceiver.ReceiveIdle? {
      ClientReceiveBlocked(s);
    }
    if !s.serverReceiver.ReceiveIdle? {
      ServerReceiveBlocked(s);
    }
  }

  lemma {:induction false} ClientSendBlocked(s: Stream)
    requires ClosedOnce(s) && Ordered(s) && !s.clientSender.SendIdle?
    ensures !ClientCanSend(s) <==> s.shared.clientMessages != [] && !s.cancelled && !s.finisher.Closed?
  {
    var b := if s.shared.clientMessages == [] then ClientPush else if s.cancelled then ClientSendCancelled
             else ClientSendDone;
    assert SendStep(s, b).Some? ==> Step(s, Sends(b)).Some?;
  }

  lemma {:induction false} ServerSendBlocked(s: Stream)
    requires ClosedOnce(s) && Ordered(s) && !s.serverSender.SendIdle?
    ensures !ServerCanSend(s) <==> s.serverSender.Sending? && s.shared.serverMessages != [] && !s.cancelled
  {
    var b := if s.serverSender.Marking? then ServerMark else if s.shared.serverMessages == [] then ServerPush
             else ServerSendCancelled;
    assert SendStep(s, b).Some? ==> Step(s, Sends(b)).Some?;
  }

  lemma {:induction false} ClientReceiveBlocked(s: Stream)
    requires ClosedOnce(s) && Ordered(s) && !s.clientReceiver.ReceiveIdle?
    ensures !ClientCanReceive(s) <==> s.clientReceiver.Waiting? && s.shared.serverMessages == [] && !s.cancelled
                                      && !s.finisher.Closed?
  {
    var b := match s.clientReceiver
      case Ending => ClientReadsResult
      case Draining(_) => ClientDrain
      case Returning(_) => ClientReturn
      case _ =>
        if s.shared.serverMessages != [] then ClientTake else if s.cancelled then ClientReceiveCancelled
        else ClientSeesDone;
    assert ClientReceiveStep(s, b).Some? ==> Step(s, ClientReceives(b)).Some?;
  }

  lemma {:induction false} ServerReceiveBlocked(s: Stream)
    requires ClosedOnce(s) && Ordered(s) && !s.serverReceiver.ReceiveIdle?
    ensures !ServerCanReceive(s) <==> s.serverReceiver.Waiting? && s.shared.clientMessages == [] && !s.cancelled
                                      && !s.finisher.Closed? && !s.shared.clientSendClose
  {
    var b := match s.serverReceiver
      case Ending => ServerReadsResult
      case Draining(_) => ServerDrain
      case Returning(_) => ServerReturn
      case _ =>
        if s.shared.clientMessages != [] then ServerTake else if s.cancelled then ServerReceiveCancelled
        else if s.shared.clientSendClose then ServerSeesSendDone else ServerSeesDone;
    assert ServerReceiveStep(s, b).Some? ==> Step(s, ServerReceives(b)).Some?;
  }

  /** When calls may begin: each goroutine has one call at a time, CloseSend is not called during a SendMsg of the
      client, nor finish during one of the server, and nothing else stands in the way, whatever has happened before. */
  lemma {:induction false} CallsMayBegin(s: Stream, m: Message, md: Metadata, err: Option<Error>)
    ensures Step(s, Sends(ClientSend(m))).Some? <==> s.clientSender.SendIdle?
    ensures Step(s, Sends(ServerSend(m))).Some? <==> s.serverSender.SendIdle?
    ensures Step(s, Sends(CloseSend)).Some? <==> s.clientSender.SendIdle?
    ensures Step(s, ClientReceives(ClientReceive)).Some? <==> s.clientReceiver.ReceiveIdle?
    ensures Step(s, ServerReceives(ServerReceive)).Some? <==> s.serverReceiver.ReceiveIdle?
    ensures Step(s, Controls(SetHeader(md))).Some? && Step(s, Controls(SendHeader(md))).Some?
            && Step(s, Controls(SetTrailer(md))).Some? && Step(s, Controls(Cancel)).Some?
    ensures Step(s, Controls(Finish(err))).Some? <==> s.finisher.Running? && s.serverSender.SendIdle?
    ensures !s.finisher.Running? && !s.finisher.Closed? ==>
              Step(s, Controls(FinishMarks)).Some? || Step(s, Controls(FinishCloses)).Some?
    ensures s.headerReaders > 0 ==> Step(s, Controls(HeaderReads)).Some?
    ensures s.pendingMarks > 0 ==> Step(s, Controls(MarkHeader)).Some?
  {
    hide SendStep, ClientReceiveStep, ServerReceiveStep, ControlStep;
    SendsMayBegin(s, m);
    ReceivesMayBegin(s);
    ControlsMayBegin(s, md, err);
  }

  lemma {:induction false} SendsMayBegin(s: Stream, m: Message)
    ensures SendStep(s, ClientSend(m)).Some? <==> s.clientSender.SendIdle?
    ensures SendStep(s, ServerSend(m)).Some? <==> s.serverSender.SendIdle?
    ensures SendStep(s, CloseSend).Some? <==> s.clientSender.SendIdle?
  {
  }

  lemma {:induction false} ReceivesMayBegin(s: Stream)
    ensures ClientReceiveStep(s, ClientReceive).Some? <==> s.clientReceiver.ReceiveIdle?
    ensures ServerReceiveStep(s, ServerReceive).Some? <==> s.serverReceiver.ReceiveIdle?
  {
  }

  lemma {:induction false} ControlsMayBegin(s: Stream, md: Metadata, err: Option<Error>)
    ensures ControlStep(s, SetHeader(md)).Some? && ControlStep(s, SendHeader(md)).Some?
            && ControlStep(s, SetTrailer(md)).Some? && ControlStep(s, Cancel).Some?
    ensures ControlStep(s, Finish(err)).Some? <==> s.finisher.Running? && s.serverSender.SendIdle?
    ensures !s.finisher.Running? && !s.finisher.Closed? ==>
              ControlStep(s, FinishMarks).Some? || ControlStep(s, FinishCloses).Some?
    ensures s.headerReaders > 0 ==> ControlStep(s, HeaderReads).Some?
    ensures s.pendingMarks > 0 ==> ControlStep(s, MarkHeader).Some?
  {
    hide Join;
  }

  /** So once finish has closed `done`, every call of the client that is under way has an enabled step. */
  lemma {:induction false} ClientNeverStuckAfterFinish(s: Stream)
    requires Inv(s) && s.finisher.Closed?
    ensures !s.clientSender.SendIdle? ==> ClientCanSend(s)
    ensures !s.clientReceiver.ReceiveIdle? ==> ClientCanReceive(s)
    ensures Step(s, Controls(HeaderPasses)).Some?
  {
    hide ClientCanSend, ClientCanReceive;
    BlockedIff(s);
  }

  /** After finish at most one more message reaches the client. */
  lemma {:induction false} AtMostOneMoreMessage(s: Stream, actions: seq<Action>)
    requires Inv(s) && s.shared.finished && Run(s, actions).Some?
    ensures |Run(s, actions).value.clientReceived| <= |s.clientReceived| + 1
  {
    hide Step;
    RunAfterEnd(s, actions);
    RunKeepsInv(s, actions);
  }

  /** The steps of a RecvMsg that starts after `done` is closed and runs undisturbed. */
  function ReceiveCall(s: Stream): seq<Action> {
    [ClientReceives(ClientReceive)] +
    (if s.shared.serverMessages != [] then [ClientReceives(ClientReturn)]
     else [ClientReceives(ClientSeesDone)] + ([ClientReceives(ClientReadsResult)] +
          ((if s.shared.finishedErr.Some? then [] else [ClientReceives(ClientDrain)]) +
              [ClientReceives(ClientReturn)])))
  }

  lemma {:induction false} RunCons(s: Stream, a: Action, t: Stream, rest: seq<Action>)
    requires Step(s, a) == Some(t)
    ensures Run(s, [a] + rest) == Run(t, rest)
  {
    hide Step;
    var all := [a] + rest;
    if rest == [] {
      assert all == [a];
      RunOne(s, a);
    } else {
      assert all[..|all| - 1] == [a] + rest[..|rest| - 1];
      RunCons(s, a, t, rest[..|rest| - 1]);
    }
  }

  /** What a RecvMsg after finish returns: the message left in the slot, else what finish decided. */
  function OutcomeAfterFinish(s: Stream): Outcome {
    if s.shared.serverMessages != [] then Delivered(s.shared.serverMessages[0])
    else if s.shared.finishedErr.Some? then OutcomeOf(s.shared.finishedErr.value)
    else EndOfStream
  }

  lemma {:induction false} ReportStep(s: Stream, o: Outcome)
    requires s.clientReceiver == Returning(o)
    ensures Run(s, [ClientReceives(ClientReturn)]).Some?
    ensures Run(s, [ClientReceives(ClientReturn)]).value.clientReports ==
            s.clientReports + [Report(o, s.shared.trailer)]
  {
    RunOne(s, ClientReceives(ClientReturn));
  }

  lemma {:induction false} ReceiveAfterFinish(s: Stream)
    requires Inv(s) && s.finisher.Closed? && s.clientReceiver.ReceiveIdle?
    ensures Run(s, ReceiveCall(s)).Some?
    ensures Run(s, ReceiveCall(s)).value.clientReports ==
            s.clientReports + [Report(OutcomeAfterFinish(s), s.shared.trailer)]
  {
    hide Run;
    var call := ReceiveCall(s);
    var back := [ClientReceives(ClientReturn)];
    if s.shared.serverMessages != [] {
      RunCons(s, call[0], ClientTakes(s).value, back);
      ReportStep(ClientTakes(s).value, OutcomeAfterFinish(s));
    } else {
      var waiting, ending := s.(clientReceiver := Waiting), s.(clientReceiver := Ending);
      var last := s.(clientReceiver := Returning(OutcomeAfterFinish(s)));
      var drain := if s.shared.finishedErr.Some? then back else [ClientReceives(ClientDrain)] + back;
      assert [] + back == back;
      RunCons(s, call[0], waiting, [ClientReceives(ClientSeesDone)] + ([ClientReceives(ClientReadsResult)] + drain));
      RunCons(waiting, ClientReceives(ClientSeesDone), ending, [ClientReceives(ClientReadsResult)] + drain);
      if s.shared.finishedErr.Some? {
        RunCons(ending, ClientReceives(ClientReadsResult), last, back);
      } else {
        var draining := s.(clientReceiver := Draining(true));
        RunCons(ending, ClientReceives(ClientReadsResult), draining, drain);
        RunCons(draining, ClientReceives(ClientDrain), last, back);
      }
      ReportStep(last, OutcomeAfterFinish(s));
    }
  }
}
