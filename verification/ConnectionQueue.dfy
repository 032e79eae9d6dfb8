/** The outbound queue of one connection: many producers, one writer, a bounded buffer and a socket. */
module ConnectionQueue {
  import opened Prelude

  type Message = string

  /**
   The queue and its writer. `writing` is the message that the writer has taken and not finished sending; `accepted`,
   `sent` and `lost` are history, in order.
   */
  datatype State = State(
    queue: seq<Option<Message>>, closed: bool, writer: Writer,
    accepted: seq<Message>, sent: seq<Message>, lost: seq<Message>)

  datatype Writer = Idle | Writing(message: Message) | Stopped

  const EMPTY := State([], false, Idle, [], [], [])

  /** A bound that is not positive is no bound. */
  predicate Full(s: State, max: int) {
    max > 0 && |s.queue| >= max
  }

  datatype Action =
    | Put(message: Message)
    | PutWaited(message: Message)
    | Take
    | SendDone
    | SendFailed
    | Stop
    | Cancelled

  datatype PutResult = Queued | QueueClosed | QueueFull

  function PutOutcome(s: State, max: int): PutResult {
    if s.closed then QueueClosed else if Full(s, max) then QueueFull else Queued
  }

  /**
   A put that waits for room looks only once, before it waits, whether the queue is closed.
   The writer takes the head of the queue when it is idle: a message to send, or the end marker, on which it
   stops. A writer that finds the queue closed after a send stops without looking. A failed send ends it, and so
   does its cancellation, which may strike while it waits or sends.
   */
  function Next(s: State, max: int, action: Action): State {
    match action
    case Put(m) =>
      if PutOutcome(s, max) == Queued then s.(queue := s.queue + [Some(m)], accepted := s.accepted + [m]) else s
    case PutWaited(m) =>
      if Full(s, max) then s else s.(queue := s.queue + [Some(m)], accepted := s.accepted + [m])
    case Take =>
      if s.writer != Idle || s.queue == [] then s
      else if s.queue[0].None? then s.(queue := s.queue[1..], writer := Stopped)
      else s.(queue := s.queue[1..], writer := Writing(s.queue[0].value))
    case SendDone =>
      if !s.writer.Writing? then s
      else s.(sent := s.sent + [s.writer.message], writer := if s.closed then Stopped else Idle)
    case SendFailed =>
      if !s.writer.Writing? then s else s.(lost := [s.writer.message], writer := Stopped)
    case Stop =>
      s.(closed := true, queue := if Full(s, max) then s.queue else s.queue + [None])
    case Cancelled =>
      if s.writer.Writing? then s.(lost := [s.writer.message], writer := Stopped) else s.(writer := Stopped)
  }

  /** A put is refused exactly when the queue is closed or has reached its bound; one that waits for room ignores a close. */
  lemma PutEffect(s: State, max: int, m: Message)
    ensures PutOutcome(s, max) ==
            if s.closed then QueueClosed else if 0 < max <= |s.queue| then QueueFull else Queued
    ensures Next(s, max, Put(m)) ==
            if s.closed || 0 < max <= |s.queue| then s
            else s.(queue := s.queue + [Some(m)], accepted := s.accepted + [m])
    ensures Next(s, max, PutWaited(m)) ==
            if 0 < max <= |s.queue| then s else s.(queue := s.queue + [Some(m)], accepted := s.accepted + [m])
  {
  }

  /** What the writer does: an idle one takes the head, and a send, the end marker, a failure or a cancellation follows. */
  lemma WriterEffect(s: State, max: int)
    ensures s.writer == Idle && s.queue != [] ==>
              Next(s, max, Take) ==
              s.(queue := s.queue[1..], writer := if s.queue[0] == None then Stopped else Writing(s.queue[0].value))
    ensures s.writer != Idle || s.queue == [] ==> Next(s, max, Take) == s
    ensures s.writer.Writing? ==>
              && Next(s, max, SendDone).sent == s.sent + [s.writer.message] && Next(s, max, SendDone).queue == s.queue
              && Next(s, max, SendDone).writer == (if s.closed then Stopped else Idle)
              && Next(s, max, SendFailed) == s.(lost := [s.writer.message], writer := Stopped)
              && Next(s, max, Cancelled) == Next(s, max, SendFailed)
    ensures !s.writer.Writing? ==>
              Next(s, max, SendDone) == Next(s, max, SendFailed) == s && Next(s, max, Cancelled) == s.(writer := Stopped)
    ensures Next(s, max, Stop) ==
            s.(closed := true, queue := s.queue + (if 0 < max <= |s.queue| then [] else [None]))
  {
    assert s.queue + [] == s.queue;
  }

  function After(max: int, run: seq<Action>): State {
    if run == [] then EMPTY else Next(After(max, run[..|run| - 1]), max, run[|run| - 1])
  }

  function Messages(queue: seq<Option<Message>>): seq<Message> {
    if queue == [] then []
    else (if queue[0].Some? then [queue[0].value] else []) + Messages(queue[1..])
  }

  lemma {:induction false} MessagesSnoc(queue: seq<Option<Message>>, m: Option<Message>)
    ensures Messages(queue + [m]) == Messages(queue) + if m.Some? then [m.value] else []
  {
    if queue != [] {
      MessagesSnoc(queue[1..], m);
      assert (queue + [m])[1..] == queue[1..] + [m];
    }
  }

  /** What the writer has in hand, or had when it ended. */
  function InHand(s: State): seq<Message> {
    if s.writer.Writing? then [s.writer.message] else s.lost
  }

  ghost predicate StateInv(s: State, max: int) {
    && s.sent + InHand(s) + Messages(s.queue) == s.accepted
    && (s.lost != [] ==> s.writer == Stopped) && |s.lost| <= 1
    && (max > 0 ==> |s.queue| <= max)
    && (!s.closed ==> forall i | 0 <= i < |s.queue| :: s.queue[i].Some?)
  }

  lemma NextInv(s: State, max: int, action: Action)
    requires StateInv(s, max)
    ensures StateInv(Next(s, max, action), max)
  {
    var t := Next(s, max, action);
    match action
    case Put(m) => Appended(s, t, max, Some(m));
    case PutWaited(m) => Appended(s, t, max, Some(m));
    case Stop => Appended(s, t, max, None);
    case Take =>
      if s.writer == Idle && s.queue != [] {
        assert s.sent + InHand(s) + Messages(s.queue) == s.sent + InHand(t) + Messages(t.queue);
      }
    case SendDone =>
      if s.writer.Writing? {
        assert s.sent + InHand(s) == t.sent + InHand(t);
      }
    case SendFailed =>
    case Cancelled =>
  }

  lemma Appended(s: State, t: State, max: int, m: Option<Message>)
    requires StateInv(s, max)
    requires t == s || t == s.(closed := s.closed || m.None?)
      || (!Full(s, max) && t == s.(queue := s.queue + [m], closed := s.closed || m.None?,
                                   accepted := if m.Some? then s.accepted + [m.value] else s.accepted))
    ensures StateInv(t, max)
  {
    MessagesSnoc(s.queue, m);
    if m.Some? {
      assert s.sent + InHand(s) + (Messages(s.queue) + [m.value]) == s.accepted + [m.value];
    }
  }

  lemma NextQuiet(s: State, max: int, action: Action)
    ensures var t := Next(s, max, action);
            && (s.writer == Stopped ==> t.writer == Stopped && t.sent == s.sent)
            && (s.closed ==> t.closed && (!action.PutWaited? ==> t.accepted == s.accepted))
  {
  }

  /**
   For every interleaving of producers and the writer: what was sent, then the message in hand or lost, then
   what is queued, is what was accepted, in order; the queue never exceeds its bound; and so the socket has received
   a prefix of what was accepted, also after a failed send or a stop.
   */
  lemma {:induction false} NothingReordered(max: int, run: seq<Action>)
    ensures StateInv(After(max, run), max)
    ensures After(max, run).sent <= After(max, run).accepted
  {
    if run != [] {
      hide StateInv, Next;
      var before := After(max, run[..|run| - 1]);
      NothingReordered(max, run[..|run| - 1]);
      NextInv(before, max, run[|run| - 1]);
      SentFirst(After(max, run), max);
    }
  }

  lemma SentFirst(s: State, max: int)
    requires StateInv(s, max)
    ensures s.sent <= s.accepted
  {
    assert s.sent + InHand(s) + Messages(s.queue) == s.sent + (InHand(s) + Messages(s.queue));
  }

  /**
   After a failure or a cancellation nothing more is sent, and after a stop nothing more is accepted except from
   puts that were waiting for room.
   */
  lemma {:induction false} SilentAfterwards(max: int, run: seq<Action>, later: seq<Action>)
    ensures var (s, t) := (After(max, run), After(max, run + later));
            && (s.writer == Stopped ==> t.writer == Stopped && t.sent == s.sent)
            && (s.closed ==> t.closed)
            && (s.closed && (forall a | a in later :: !a.PutWaited?) ==> t.accepted == s.accepted)
    decreases |later|
  {
    if later == [] {
      assert run + later == run;
    } else {
      hide Next;
      var n := |later| - 1;
      SilentAfterwards(max, run, later[..n]);
      assert (run + later)[..|run + later| - 1] == run + later[..n];
      NextQuiet(After(max, run + later[..n]), max, later[n]);
    }
  }

  class Connection {
    const maxSize: int
    var queue: seq<Option<Message>>
    var closed: bool
    ghost var accepted: seq<Message>
    ghost var sent: seq<Message>
    ghost var lost: seq<Message>
    ghost var writer: Writer

    ghost function View(): State
      reads this
    {
      State(queue, closed, writer, accepted, sent, lost)
    }

    constructor (maxSize: int)
      ensures View() == EMPTY && this.maxSize == maxSize
    {
      this.maxSize, queue, closed := maxSize, [], false;
      accepted, sent, lost, writer := [], [], [], Idle;
    }

    method PutNowait(message: Message) returns (result: PutResult)
      modifies this
      ensures View() == Next(old(View()), maxSize, Put(message)) && result == PutOutcome(old(View()), maxSize)
      ensures result == if old(closed) then QueueClosed else if 0 < maxSize <= |old(queue)| then QueueFull else Queued
    {
      if closed {
        return QueueClosed;
      }
      if maxSize > 0 && |queue| >= maxSize {
        return QueueFull;
      }
      queue, accepted := queue + [Some(message)], accepted + [message];
      result := Queued;
    }

    /** Closes the queue and leaves the end marker if there is room; the writer is cancelled if there is one. */
    method Stop(writing: bool)
      modifies this
      ensures View() == if writing then Next(Next(old(View()), maxSize, Action.Stop), maxSize, Cancelled)
                        else Next(old(View()), maxSize, Action.Stop)
    {
      closed := true;
      if !(maxSize > 0 && |queue| >= maxSize) {
        queue := queue + [None];
      }
      if writing {
        if writer.Writing? {
          lost := [writer.message];
        }
        writer := Stopped;
      }
    }

    /**
     The writer loop with nobody else at work, until the queue is empty or it ends; `outcomes` says of each
     message whether its send succeeds, and `socket` is what reaches the socket. A closed queue is not looked
     at; otherwise the messages go out in order up to the first failed send or end marker, which ends the writer.
     */
    method WriterLoop(outcomes: seq<bool>) returns (socket: seq<Message>, ghost run: seq<Action>)
      requires writer == Idle && lost == [] && |outcomes| >= |queue|
      modifies this
      ensures View() == Follow(old(View()), maxSize, run) && sent == old(sent) + socket
      ensures closed == old(closed) && accepted == old(accepted)
      ensures Ended(old(queue), outcomes, closed, socket, queue, writer, lost)
    {
      socket, run := [], [];
      ghost var before := queue;
      while !closed && queue != []
        invariant View() == Follow(old(View()), maxSize, run) && sent == old(sent) + socket
        invariant closed == old(closed) && accepted == old(accepted) && lost == [] && writer == Idle
        invariant |socket| <= |before| && queue == before[|socket|..] && (closed ==> socket == [])
        invariant forall k | 0 <= k < |socket| :: before[k] == Some(socket[k]) && outcomes[k]
        decreases |queue|
      {
        var head := queue[0];
        FollowSnoc(old(View()), maxSize, run, Take);
        queue := queue[1..];
        run := run + [Take];
        if head.None? {
          writer := Stopped;
          break;
        }
        writer := Writing(head.value);
        if !outcomes[|socket|] {
          FollowSnoc(old(View()), maxSize, run, SendFailed);
          lost, writer := [head.value], Stopped;
          run := run + [SendFailed];
          break;
        }
        FollowSnoc(old(View()), maxSize, run, SendDone);
        socket, sent, writer := socket + [head.value], sent + [head.value], Idle;
        run := run + [SendDone];
      }
    }
  }

  /**
   How a writer that found `before` in the queue has ended: what it sent are the first entries of `before`, all
   of them messages whose send succeeded; a closed queue was left alone, and otherwise the next entry, if there is
   one, is the end marker or a message whose send failed, which is lost and ends the writer.
   */
  ghost predicate Ended(before: seq<Option<Message>>, outcomes: seq<bool>, closed: bool,
                        socket: seq<Message>, queue: seq<Option<Message>>, writer: Writer, lost: seq<Message>)
    requires |outcomes| >= |before|
  {
    var n := |socket|;
    && n <= |before| && (forall k | 0 <= k < n :: before[k] == Some(socket[k]) && outcomes[k])
    && if closed then n == 0 && queue == before && writer == Idle && lost == []
       else if n == |before| then queue == [] && writer == Idle && lost == []
       else
         && queue == before[n + 1..] && writer == Stopped
         && if before[n].None? then lost == [] else !outcomes[n] && lost == [before[n].value]
  }

  /** The state after a run from any state. */
  function Follow(s: State, max: int, run: seq<Action>): State {
    if run == [] then s else Next(Follow(s, max, run[..|run| - 1]), max, run[|run| - 1])
  }

  lemma FollowSnoc(s: State, max: int, run: seq<Action>, action: Action)
    ensures Follow(s, max, run + [action]) == Next(Follow(s, max, run), max, action)
  {
    assert (run + [action])[..|run|] == run;
  }
}
