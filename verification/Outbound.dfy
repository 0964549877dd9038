/** The bounded queue between a connection's producers and its writer, and board events on their way through it
    to one subscriber: the broadcast channel, the forwarder that may lag behind it, and what the client has read. */
module Outbound {
  import opened Text

  /** A board event; `note` is whatever else it carries. */
  datatype Event<T> = BoardChanged(note: T) | OtherEvent(note: T)

  datatype Outgoing<T> = Response(line: string) | Notice(event: Event<T>)

  predicate IsBoardChange<T>(item: Outgoing<T>) {
    item.Notice? && item.event.BoardChanged?
  }

  datatype Queue<T> = Queue(entries: seq<Outgoing<T>>, capacity: nat, closed: bool, pressureLogged: bool)

  function EmptyQueue<T>(capacity: nat): Queue<T> {
    Queue([], capacity, false, false)
  }

  // ---------------------------------------------------------------------------
  // What each operation does
  // ---------------------------------------------------------------------------

  predicate TakesResponse<T>(q: Queue<T>) {
    !q.closed && |q.entries| != q.capacity
  }

  function AfterResponse<T>(q: Queue<T>, line: string): Queue<T> {
    if TakesResponse(q) then q.(entries := q.entries + [Response(line)]) else q
  }

  /** The newest entry is a board change that another one makes redundant. */
  predicate Coalesces<T>(q: Queue<T>, event: Event<T>) {
    event.BoardChanged? && q.entries != [] && IsBoardChange(q.entries[|q.entries| - 1])
  }

  predicate TakesEvent<T>(q: Queue<T>, event: Event<T>) {
    !q.closed && (Coalesces(q, event) || |q.entries| != q.capacity)
  }

  function AfterEvent<T>(q: Queue<T>, event: Event<T>): Queue<T> {
    if q.closed then q
    else if Coalesces(q, event) then
      q.(entries := q.entries[..|q.entries| - 1] + [Notice(event)], pressureLogged := true)
    else if |q.entries| == q.capacity then q.(closed := true, pressureLogged := true)
    else q.(entries := q.entries + [Notice(event)])
  }

  function Taken<T>(q: Queue<T>): Option<Outgoing<T>> {
    if q.entries == [] then None else Some(q.entries[0])
  }

  function AfterTake<T>(q: Queue<T>): Queue<T> {
    var rest := if q.entries == [] then [] else q.entries[1..];
    q.(entries := rest, pressureLogged := q.pressureLogged && rest != [])
  }

  class Buffer<T> {
    var entries: seq<Outgoing<T>>
    const capacity: nat
    var closed: bool
    var pressureLogged: bool

    ghost function Contents(): Queue<T>
      reads this
    {
      Queue(entries, capacity, closed, pressureLogged)
    }

    constructor (capacity: nat)
      ensures Contents() == EmptyQueue(capacity)
    {
      this.entries, this.capacity, this.closed, this.pressureLogged := [], capacity, false, false;
    }

    /** Queues a response, or hands it back. */
    method PushResponse(line: string) returns (rejected: Option<string>)
      modifies this
      ensures Contents() == AfterResponse(old(Contents()), line)
      ensures rejected == if TakesResponse(old(Contents())) then None else Some(line)
      ensures |old(entries)| <= capacity ==> (rejected.None? <==> !old(closed) && |old(entries)| < capacity)
    {
      if closed || |entries| == capacity {
        return Some(line);
      }
      entries := entries + [Response(line)];
      rejected := None;
    }

    /** Queues an event. A board change replaces a board change it directly follows; an event for which
        there is no room closes the queue. */
    method PushEvent(event: Event<T>) returns (accepted: bool)
      modifies this
      ensures Contents() == AfterEvent(old(Contents()), event)
      ensures accepted == TakesEvent(old(Contents()), event)
      ensures closed <==> !accepted
    {
      if closed {
        return false;
      }
      if event.BoardChanged? && entries != [] && IsBoardChange(entries[|entries| - 1]) {
        entries := entries[..|entries| - 1];
        entries := entries + [Notice(event)];
        LogPressure();
        return true;
      }
      if |entries| == capacity {
        LogPressure();
        closed := true;
        return false;
      }
      entries := entries + [Notice(event)];
      accepted := true;
    }

    method Pop() returns (item: Option<Outgoing<T>>)
      modifies this
      ensures Contents() == AfterTake(old(Contents()))
      ensures item == Taken(old(Contents()))
    {
      if entries == [] {
        item := None;
      } else {
        item := Some(entries[0]);
        entries := entries[1..];
      }
      if entries == [] {
        pressureLogged := false;
      }
    }

    method LogPressure()
      modifies this
      ensures Contents() == old(Contents()).(pressureLogged := true)
    {
      if !pressureLogged {
        pressureLogged := true;
      }
    }

    method Close()
      modifies this
      ensures Contents() == old(Contents()).(closed := true)
    {
      closed := true;
    }
  }

  // ---------------------------------------------------------------------------
  // Any interleaving of the operations
  // ---------------------------------------------------------------------------

  datatype Operation<T> = Respond(line: string) | Notify(event: Event<T>) | Take | Shut

  /** The queue with everything it ever accepted and everything it ever gave out. */
  datatype History<T> = History(queue: Queue<T>, accepted: seq<Outgoing<T>>, delivered: seq<Outgoing<T>>)

  function Next<T>(h: History<T>, op: Operation<T>): History<T> {
    var q := h.queue;
    match op
    case Respond(line) =>
      History(AfterResponse(q, line), h.accepted + (if TakesResponse(q) then [Response(line)] else []), h.delivered)
    case Notify(event) =>
      History(AfterEvent(q, event), h.accepted + (if TakesEvent(q, event) then [Notice(event)] else []), h.delivered)
    case Take =>
      History(AfterTake(q), h.accepted, h.delivered + (if Taken(q).Some? then [Taken(q).value] else []))
    case Shut => h.(queue := q.(closed := true))
  }

  function After<T>(capacity: nat, ops: seq<Operation<T>>): History<T> {
    if ops == [] then History(EmptyQueue(capacity), [], [])
    else Next(After(capacity, ops[..|ops| - 1]), ops[|ops| - 1])
  }

  function Out<T>(h: History<T>): seq<Outgoing<T>> {
    h.delivered + h.queue.entries
  }

  predicate IsRising(s: seq<nat>) {
    forall i, j :: 0 <= i < j < |s| ==> s[i] < s[j]
  }

  /** `kept` lists, in order, the accepted items that came or will come out; every other is a board change
      accepted right before another one. */
  ghost predicate IsThinned<T>(out: seq<Outgoing<T>>, accepted: seq<Outgoing<T>>, kept: seq<nat>) {
    |kept| == |out| && IsRising(kept)
    && (forall i :: 0 <= i < |kept| ==> kept[i] < |accepted| && out[i] == accepted[kept[i]])
    && forall p :: 0 <= p < |accepted| && p !in kept ==>
         p + 1 < |accepted| && IsBoardChange(accepted[p]) && IsBoardChange(accepted[p + 1])
  }

  predicate NoAdjacentChanges<T>(entries: seq<Outgoing<T>>) {
    forall i :: 0 < i < |entries| ==> !(IsBoardChange(entries[i - 1]) && IsBoardChange(entries[i]))
  }

  // One more accepted item comes out last.
  lemma {:induction false} ThinnedAppend<T>(out: seq<Outgoing<T>>, accepted: seq<Outgoing<T>>, kept: seq<nat>, item: Outgoing<T>)
    requires IsThinned(out, accepted, kept)
    ensures IsThinned(out + [item], accepted + [item], kept + [|accepted|])
  {
    var kept', accepted' := kept + [|accepted|], accepted + [item];
    forall p | 0 <= p < |accepted'| && p !in kept'
      ensures p + 1 < |accepted'| && IsBoardChange(accepted'[p]) && IsBoardChange(accepted'[p + 1])
    {
      assert p !in kept && kept'[|kept|] == |accepted|;
      assert accepted'[p] == accepted[p] && accepted'[p + 1] == accepted[p + 1];
    }
  }

  // The newest item of all is the last to come out.
  lemma {:induction false} LastIsKept<T>(out: seq<Outgoing<T>>, accepted: seq<Outgoing<T>>, kept: seq<nat>)
    requires IsThinned(out, accepted, kept) && out != []
    ensures accepted != [] && kept[|kept| - 1] == |accepted| - 1
  {
    var n := |accepted| - 1;
    assert kept[|kept| - 1] < |accepted|;
    assert n in kept;
    var i :| 0 <= i < |kept| && kept[i] == n;
  }

  // A board change replaces the board change accepted just before it.
  lemma {:induction false} ThinnedReplace<T>(out: seq<Outgoing<T>>, accepted: seq<Outgoing<T>>, kept: seq<nat>, item: Outgoing<T>)
    requires IsThinned(out, accepted, kept) && out != [] && IsBoardChange(out[|out| - 1]) && IsBoardChange(item)
    ensures IsThinned(out[..|out| - 1] + [item], accepted + [item], kept[..|kept| - 1] + [|accepted|])
  {
    LastIsKept(out, accepted, kept);
    var n := |kept| - 1;
    var kept', accepted' := kept[..n] + [|accepted|], accepted + [item];
    assert kept == kept[..n] + [kept[n]];
    forall p | 0 <= p < |accepted'| && p !in kept'
      ensures p + 1 < |accepted'| && IsBoardChange(accepted'[p]) && IsBoardChange(accepted'[p + 1])
    {
      assert kept'[n] == |accepted|;
      if p != |accepted| - 1 {
        assert p !in kept;
        assert accepted'[p] == accepted[p] && accepted'[p + 1] == accepted[p + 1];
      }
    }
  }

  predicate IsTidy<T>(q: Queue<T>) {
    |q.entries| <= q.capacity && NoAdjacentChanges(q.entries)
  }

  lemma {:induction false} NextIsTidy<T>(h: History<T>, op: Operation<T>)
    requires IsTidy(h.queue)
    ensures IsTidy(Next(h, op).queue) && Next(h, op).queue.capacity == h.queue.capacity
  {
  }

  // One operation replaces the last item that is out, adds one, or adds none.
  lemma {:induction false} OutOfNext<T>(h: History<T>, op: Operation<T>)
    ensures var after := Next(h, op);
            if op.Notify? && !h.queue.closed && Coalesces(h.queue, op.event) then
              Out(h) != [] && IsBoardChange(Out(h)[|Out(h)| - 1]) && IsBoardChange(Notice(op.event))
              && Out(after) == Out(h)[..|Out(h)| - 1] + [Notice(op.event)] && after.accepted == h.accepted + [Notice(op.event)]
            else if |after.accepted| > |h.accepted| then
              Out(after) == Out(h) + [after.accepted[|h.accepted|]] && after.accepted == h.accepted + [after.accepted[|h.accepted|]]
            else Out(after) == Out(h) && after.accepted == h.accepted
  {
  }

  lemma {:induction false} NextIsThinned<T>(h: History<T>, op: Operation<T>, kept: seq<nat>) returns (kept': seq<nat>)
    requires IsThinned(Out(h), h.accepted, kept)
    ensures IsThinned(Out(Next(h, op)), Next(h, op).accepted, kept')
  {
    hide Next, Out, NoAdjacentChanges;
    OutOfNext(h, op);
    var n := |h.accepted|;
    kept' := kept;
    if op.Notify? && !h.queue.closed && Coalesces(h.queue, op.event) {
      ThinnedReplace(Out(h), h.accepted, kept, Notice(op.event));
      kept' := kept[..|kept| - 1] + [n];
    } else if |Next(h, op).accepted| > n {
      ThinnedAppend(Out(h), h.accepted, kept, Next(h, op).accepted[n]);
      kept' := kept + [n];
    }
  }

  /** What has been delivered and what is queued are together the accepted history, thinned only of board
      changes directly followed by another; the queue is bounded and never holds two in a row. */
  lemma {:induction false} QueueRefinesHistory<T>(capacity: nat, ops: seq<Operation<T>>) returns (kept: seq<nat>)
    ensures var h := After(capacity, ops);
            IsThinned(Out(h), h.accepted, kept)
            && h.queue.capacity == capacity && |h.queue.entries| <= capacity && NoAdjacentChanges(h.queue.entries)
  {
    hide IsThinned, Next;
    if ops == [] {
      NothingThinned<T>();
      kept := [];
      assert Out(After(capacity, ops)) == [];
    } else {
      var before := After(capacity, ops[..|ops| - 1]);
      var earlier := QueueRefinesHistory(capacity, ops[..|ops| - 1]);
      kept := NextIsThinned(before, ops[|ops| - 1], earlier);
      NextIsTidy(before, ops[|ops| - 1]);
    }
  }

  lemma {:induction false} NothingThinned<T>()
    ensures IsThinned<T>([], [], [])
  {
  }

  lemma {:induction false} ClosedStep<T>(h: History<T>, op: Operation<T>)
    requires h.queue.closed
    ensures var after := Next(h, op);
            after.queue.closed && after.accepted == h.accepted && Out(after) == Out(h) && h.delivered <= after.delivered
  {
    var after := Next(h, op);
    assert Out(after) == Out(h) && after.accepted == h.accepted;
  }

  /** Once closed, by overflow or from outside, a queue stays closed and accepts nothing; what it holds can
      still be taken, in order. */
  lemma {:induction false} ClosedAcceptsNothing<T>(capacity: nat, ops: seq<Operation<T>>, more: seq<Operation<T>>)
    requires After(capacity, ops).queue.closed
    ensures var before, now := After(capacity, ops), After(capacity, ops + more);
            now.queue.closed && now.accepted == before.accepted && Out(now) == Out(before)
            && before.delivered <= now.delivered
  {
    if more == [] {
      assert ops + more == ops;
    } else {
      var n := |more| - 1;
      ClosedAcceptsNothing(capacity, ops, more[..n]);
      assert (ops + more)[..|ops + more| - 1] == ops + more[..n];
      hide After, Next, Out;
      ClosedStep(After(capacity, ops + more[..n]), more[n]);
    }
  }

  /** In every run the room there is gets used: an open queue refuses a response exactly if it holds as many entries as
      it can, and an event exactly if, besides, it is not a board change that follows another; that closes it. */
  lemma {:induction false} RoomIsUsed<T>(capacity: nat, ops: seq<Operation<T>>, line: string, event: Event<T>)
    ensures var h := After(capacity, ops);
            var q, answered, told := h.queue, Next(h, Respond(line)), Next(h, Notify(event));
            var follows := event.BoardChanged? && q.entries != [] && q.entries[|q.entries| - 1].Notice? && q.entries[|q.entries| - 1].event.BoardChanged?;
            |q.entries| <= capacity
            && answered.queue.closed == q.closed
            && answered.accepted == h.accepted + (if !q.closed && |q.entries| < capacity then [Response(line)] else [])
            && answered.queue.entries == q.entries + (if !q.closed && |q.entries| < capacity then [Response(line)] else [])
            && (told.queue.closed <==> q.closed || (|q.entries| == capacity && !follows))
            && told.accepted == h.accepted + (if told.queue.closed then [] else [Notice(event)])
            && told.queue.entries == if told.queue.closed then q.entries
                                     else (if follows then q.entries[..|q.entries| - 1] else q.entries) + [Notice(event)]
  {
    hide After;
    var kept := QueueRefinesHistory(capacity, ops);
  }

  // ---------------------------------------------------------------------------
  // From the board to a subscriber
  // ---------------------------------------------------------------------------

  /** What the board broadcasts. */
  datatype Sent = BoardRefresh | OtherNews

  /** An event on the way to the client, noting the number of the broadcast it reports; a refresh made up
      after a lag notes the last broadcast that was dropped. */
  type Stamped = Event<nat>

  function Received(sent: Sent, index: nat): Stamped {
    if sent.BoardRefresh? then BoardChanged(index) else OtherEvent(index)
  }

  datatype Forwarder =
    | NotSubscribed
    | Waiting(next: nat)
    | Holding(next: nat, event: Stamped)
    | Stopped(next: nat)

  /** `subscribed` and `acked` are the numbers of broadcasts when the receiver was registered and when the
      first acknowledgement came to be. */
  datatype Link = Link(sent: seq<Sent>, channelOpen: bool, forwarder: Forwarder, queue: Queue<nat>,
                       delivered: seq<Outgoing<nat>>, subscribed: Option<nat>, acked: Option<nat>)

  datatype Action =
    | Broadcast(what: Sent)      // the board changes
    | CloseChannel               // the daemon drops the sender
    | Register                   // a subscribe request registers a receiver, unless there is one
    | Acknowledge                // ... and only then makes its acknowledgement
    | Answer(line: string)       // a response, the acknowledgement or another, is queued
    | Receive                    // the forwarder takes the next broadcast
    | Lag(upTo: nat)             // ... or learns that those before `upTo` are gone
    | EndOfChannel               // ... or that there will be no more
    | Forward                    // the forwarder queues what it holds
    | Read                       // the client's writer takes an entry
    | Disconnect                 // the connection closes the queue

  function NewLink(capacity: nat): Link {
    Link([], true, NotSubscribed, EmptyQueue(capacity), [], None, None)
  }

  /** One atomic step; an action that is not enabled changes nothing. */
  function Act(s: Link, action: Action): Link {
    match action
    case Broadcast(what) => if s.channelOpen then s.(sent := s.sent + [what]) else s
    case CloseChannel => s.(channelOpen := false)
    case Register =>
      if s.forwarder.NotSubscribed? then s.(forwarder := Waiting(|s.sent|), subscribed := Some(|s.sent|)) else s
    case Acknowledge =>
      if s.forwarder.NotSubscribed? || s.acked.Some? then s else s.(acked := Some(|s.sent|))
    case Answer(line) => s.(queue := AfterResponse(s.queue, line))
    case Receive =>
      if s.forwarder.Waiting? && s.forwarder.next < |s.sent|
      then s.(forwarder := Holding(s.forwarder.next + 1, Received(s.sent[s.forwarder.next], s.forwarder.next)))
      else s
    case Lag(upTo) =>
      if s.forwarder.Waiting? && s.forwarder.next < upTo <= |s.sent|
      then s.(forwarder := Holding(upTo, BoardChanged(upTo - 1)))
      else s
    case EndOfChannel =>
      if s.forwarder.Waiting? && !s.channelOpen && s.forwarder.next == |s.sent|
      then s.(forwarder := Stopped(s.forwarder.next))
      else s
    case Forward =>
      if !s.forwarder.Holding? then s
      else
        var accepted := TakesEvent(s.queue, s.forwarder.event);
        s.(queue := AfterEvent(s.queue, s.forwarder.event),
           forwarder := if accepted then Waiting(s.forwarder.next) else Stopped(s.forwarder.next))
    case Read =>
      s.(queue := AfterTake(s.queue),
         delivered := s.delivered + if Taken(s.queue).Some? then [Taken(s.queue).value] else [])
    case Disconnect => s.(queue := s.queue.(closed := true))
  }

  function Reached(capacity: nat, actions: seq<Action>): Link {
    if actions == [] then NewLink(capacity)
    else Act(Reached(capacity, actions[..|actions| - 1]), actions[|actions| - 1])
  }

  // ---------------------------------------------------------------------------
  // No board refresh is lost
  // ---------------------------------------------------------------------------

  /** A board change that tells of broadcast `i` or a later one. */
  predicate Tells(item: Outgoing<nat>, i: nat) {
    IsBoardChange(item) && item.event.note >= i
  }

  predicate SomeTells(items: seq<Outgoing<nat>>, i: nat) {
    exists k :: 0 <= k < |items| && Tells(items[k], i)
  }

  /** Broadcast `i` is still in the channel, in the forwarder, queued or delivered, or the queue is closed. */
  predicate IsCovered(s: Link, i: nat) {
    s.queue.closed
    || ((s.forwarder.Waiting? || s.forwarder.Holding?) && s.forwarder.next <= i)
    || (s.forwarder.Holding? && Tells(Notice(s.forwarder.event), i))
    || SomeTells(s.queue.entries, i)
    || SomeTells(s.delivered, i)
  }

  predicate AllCovered(s: Link) {
    forall i :: 0 <= i < |s.sent| && s.subscribed.Some? && s.subscribed.value <= i && s.sent[i].BoardRefresh? ==> IsCovered(s, i)
  }

  /** The bookkeeping of the positions. */
  predicate IsConsistent(s: Link) {
    (s.forwarder.NotSubscribed? <==> s.subscribed.None?)
    && (s.subscribed.None? ==> s.acked.None?)
    && (s.subscribed.Some? ==> s.subscribed.value <= s.forwarder.next <= |s.sent|)
    && (s.acked.Some? ==> s.subscribed.value <= s.acked.value <= |s.sent|)
    && (s.forwarder.Stopped? ==> s.queue.closed || (!s.channelOpen && s.forwarder.next == |s.sent|))
  }

  lemma {:induction false} ConsistentAfter(s: Link, action: Action)
    requires IsConsistent(s)
    ensures IsConsistent(Act(s, action))
  {
  }

  lemma {:induction false} TellsLast(items: seq<Outgoing<nat>>, item: Outgoing<nat>, i: nat)
    ensures SomeTells(items + [item], i) <==> SomeTells(items, i) || Tells(item, i)
  {
    var all := items + [item];
    if Tells(item, i) {
      assert Tells(all[|items|], i);
    }
    if SomeTells(items, i) {
      var k :| 0 <= k < |items| && Tells(items[k], i);
      assert Tells(all[k], i);
    }
  }

  // ---------------------------------------------------------------------------
  // Events come in order
  // ---------------------------------------------------------------------------

  /** Events carry strictly rising numbers. */
  predicate NotesRise(items: seq<Outgoing<nat>>) {
    forall i, j :: 0 <= i < j < |items| && items[i].Notice? && items[j].Notice? ==> items[i].event.note < items[j].event.note
  }

  /** All events here are older than broadcast `bound`. */
  predicate NotesBelow(items: seq<Outgoing<nat>>, bound: nat) {
    forall i :: 0 <= i < |items| && items[i].Notice? ==> items[i].event.note < bound
  }

  function OnTheWay(s: Link): seq<Outgoing<nat>> {
    s.delivered + s.queue.entries
  }

  /** The number the next event to be queued has at least. */
  function NextNote(f: Forwarder): nat {
    match f
    case NotSubscribed => 0
    case Waiting(next) => next
    case Holding(_, event) => event.note
    case Stopped(next) => next
  }

  predicate IsOrdered(s: Link) {
    NotesRise(OnTheWay(s)) && (s.forwarder.Stopped? || NotesBelow(OnTheWay(s), NextNote(s.forwarder)))
    && (s.forwarder.Holding? ==> s.forwarder.event.note < s.forwarder.next)
  }

  lemma {:induction false} NotesAppend(items: seq<Outgoing<nat>>, item: Outgoing<nat>, bound: nat)
    requires NotesRise(items) && NotesBelow(items, bound)
    requires item.Notice? ==> item.event.note >= bound
    ensures NotesRise(items + [item])
    ensures forall b :: b >= bound && (item.Notice? ==> item.event.note < b) ==> NotesBelow(items + [item], b)
  {
  }

  lemma {:induction false} NotesOfPrefix(items: seq<Outgoing<nat>>, n: nat)
    requires NotesRise(items) && n <= |items|
    ensures NotesRise(items[..n])
    ensures forall b :: NotesBelow(items, b) ==> NotesBelow(items[..n], b)
  {
  }

  // Queueing an event: after what is on the way, or in place of the last of it.
  lemma {:induction false} WayAfterForward(s: Link)
    requires s.forwarder.Holding?
    ensures var way, event := OnTheWay(s), s.forwarder.event;
            OnTheWay(Act(s, Forward))
            == if !TakesEvent(s.queue, event) then way
               else if Coalesces(s.queue, event) then way[..|way| - 1] + [Notice(event)]
               else way + [Notice(event)]
  {
  }

  lemma {:induction false} OrderedAfterForward(s: Link)
    requires IsOrdered(s) && s.forwarder.Holding?
    ensures IsOrdered(Act(s, Forward))
  {
    var way, event := OnTheWay(s), s.forwarder.event;
    WayAfterForward(s);
    if way != [] {
      NotesOfPrefix(way, |way| - 1);
      NotesAppend(way[..|way| - 1], Notice(event), event.note);
    }
    NotesAppend(way, Notice(event), event.note);
    hide NotesRise, OnTheWay;
  }

  lemma {:induction false} OrderedAfterAnswer(s: Link, line: string)
    requires IsOrdered(s)
    ensures IsOrdered(Act(s, Answer(line)))
  {
    var way, after := OnTheWay(s), OnTheWay(Act(s, Answer(line)));
    assert after == way || after == way + [Response(line)];
    hide OnTheWay;
  }

  lemma {:induction false} OrderedAfter(s: Link, action: Action)
    requires IsOrdered(s) && IsConsistent(s)
    ensures IsOrdered(Act(s, action))
  {
    if action.Forward? && s.forwarder.Holding? {
      OrderedAfterForward(s);
    } else if action.Answer? {
      OrderedAfterAnswer(s, action.line);
    } else {
      assert OnTheWay(Act(s, action)) == OnTheWay(s);
      hide NotesRise, OnTheWay, AfterEvent, AfterResponse, AfterTake;
    }
  }

  // ---------------------------------------------------------------------------
  // Coverage through every step
  // ---------------------------------------------------------------------------

  lemma {:induction false} TellsMoves(items: seq<Outgoing<nat>>, delivered: seq<Outgoing<nat>>, i: nat)
    requires items != [] && SomeTells(items, i)
    ensures SomeTells(items[1..], i) || SomeTells(delivered + [items[0]], i)
  {
    var k :| 0 <= k < |items| && Tells(items[k], i);
    if k == 0 {
      TellsLast(delivered, items[0], i);
    } else {
      assert items[1..][k - 1] == items[k];
    }
  }

  lemma {:induction false} CoveredAfterRead(s: Link, i: nat)
    requires IsCovered(s, i)
    ensures IsCovered(Act(s, Read), i)
  {
    if s.queue.entries != [] {
      TellsLast(s.delivered, s.queue.entries[0], i);
      if SomeTells(s.queue.entries, i) {
        TellsMoves(s.queue.entries, s.delivered, i);
      }
      hide SomeTells, Tells;
    } else {
      assert s.delivered + [] == s.delivered;
    }
  }

  // What a board change replaces was older.
  lemma {:induction false} CoveredAfterForward(s: Link, i: nat)
    requires IsCovered(s, i) && IsOrdered(s) && s.forwarder.Holding?
    ensures IsCovered(Act(s, Forward), i)
  {
    var q, item := s.queue, Notice(s.forwarder.event);
    TellsLast(q.entries, item, i);
    if q.entries != [] {
      var n := |q.entries| - 1;
      var last := q.entries[n];
      TellsLast(q.entries[..n], item, i);
      TellsLast(q.entries[..n], last, i);
      assert q.entries[..n] + [last] == q.entries;
      assert OnTheWay(s)[|s.delivered| + n] == last;
    }
    hide SomeTells, NotesRise;
  }

  lemma {:induction false} CoveredAfter(s: Link, action: Action, i: nat)
    requires IsConsistent(s) && IsOrdered(s) && IsCovered(s, i) && i < |s.sent| && s.sent[i].BoardRefresh?
    ensures IsCovered(Act(s, action), i)
  {
    if action.Forward? && s.forwarder.Holding? {
      CoveredAfterForward(s, i);
    } else if action.Read? {
      CoveredAfterRead(s, i);
    } else if action.Answer? {
      TellsLast(s.queue.entries, Response(action.line), i);
      hide SomeTells, NotesRise;
    } else {
      hide SomeTells, NotesRise, OnTheWay, AfterEvent, AfterResponse, AfterTake;
    }
  }

  lemma {:induction false} AllCoveredAfter(s: Link, action: Action)
    requires IsConsistent(s) && IsOrdered(s) && AllCovered(s)
    ensures AllCovered(Act(s, action))
  {
    var after := Act(s, action);
    forall i | 0 <= i < |after.sent| && after.subscribed.Some? && after.subscribed.value <= i && after.sent[i].BoardRefresh?
      ensures IsCovered(after, i)
    {
      if i < |s.sent| {
        assert s.subscribed == after.subscribed;
        CoveredAfter(s, action, i);
      }
    }
  }

  lemma {:induction false} ReachedIsSound(capacity: nat, actions: seq<Action>)
    ensures var s := Reached(capacity, actions); IsConsistent(s) && IsOrdered(s) && AllCovered(s)
  {
    hide Act, IsConsistent, IsOrdered, AllCovered;
    if actions == [] {
      NewLinkIsSound(capacity);
    } else {
      var n := |actions| - 1;
      var before := Reached(capacity, actions[..n]);
      ReachedIsSound(capacity, actions[..n]);
      ConsistentAfter(before, actions[n]);
      OrderedAfter(before, actions[n]);
      AllCoveredAfter(before, actions[n]);
    }
  }

  lemma {:induction false} NewLinkIsSound(capacity: nat)
    ensures var s := NewLink(capacity); IsConsistent(s) && IsOrdered(s) && AllCovered(s)
  {
  }

  /** No lost refresh: in every reachable state each board change broadcast since the acknowledgement is still
      in the channel, or a board change as new is with the forwarder, queued or delivered, or the queue is
      closed. Lagging and coalescing are included. */
  lemma {:induction false} NoRefreshIsLost(capacity: nat, actions: seq<Action>, i: nat)
    requires var s := Reached(capacity, actions);
             s.acked.Some? && s.acked.value <= i < |s.sent| && s.sent[i].BoardRefresh?
    ensures IsCovered(Reached(capacity, actions), i)
  {
    ReachedIsSound(capacity, actions);
    hide Reached, IsOrdered, IsCovered;
  }

  /** A client that has read everything there is, over a queue still open, has been told of the newest refresh. */
  lemma {:induction false} IdleClientIsCurrent(capacity: nat, actions: seq<Action>, i: nat)
    requires var s := Reached(capacity, actions);
             s.acked.Some? && s.acked.value <= i < |s.sent| && s.sent[i].BoardRefresh?
             && !s.queue.closed && s.queue.entries == [] && !s.forwarder.NotSubscribed? && !s.forwarder.Holding?
             && s.forwarder.next == |s.sent|
    ensures SomeTells(Reached(capacity, actions).delivered, i)
  {
    NoRefreshIsLost(capacity, actions, i);
    hide Reached;
  }

  /** Events reach the client in the order of the broadcasts they tell of, none twice. */
  lemma {:induction false} EventsComeInOrder(capacity: nat, actions: seq<Action>)
    ensures var s := Reached(capacity, actions); NotesRise(s.delivered + s.queue.entries)
  {
    ReachedIsSound(capacity, actions);
    hide Reached;
  }

  // ---------------------------------------------------------------------------
  // Events are what was broadcast
  // ---------------------------------------------------------------------------

  /** The forwarder, waiting, learns that broadcasts are gone, broadcast `i` among them. */
  predicate SkipsOver(s: Link, action: Action, i: nat) {
    action.Lag? && s.forwarder.Waiting? && s.forwarder.next <= i < action.upTo <= |s.sent|
  }

  /** At some step of the run broadcast `i` was dropped by a lag, or, asked for the last such, was the last of those. */
  ghost predicate WasSkipped(capacity: nat, actions: seq<Action>, i: nat, last: bool) {
    exists k :: 0 <= k < |actions| && SkipsOver(Reached(capacity, actions[..k]), actions[k], i)
                && (last ==> actions[k] == Lag(i + 1))
  }

  lemma {:induction false} SkippedBefore(capacity: nat, actions: seq<Action>, action: Action, i: nat, last: bool)
    ensures WasSkipped(capacity, actions + [action], i, last)
       <==> WasSkipped(capacity, actions, i, last)
            || (SkipsOver(Reached(capacity, actions), action, i) && (last ==> action == Lag(i + 1)))
  {
    hide Reached, SkipsOver;
    var all := actions + [action];
    assert all[..|actions|] == actions;
    forall k | 0 <= k < |actions|
      ensures all[..k] == actions[..k] && all[k] == actions[k]
    {
    }
    if WasSkipped(capacity, actions, i, last) {
      var k :| 0 <= k < |actions| && SkipsOver(Reached(capacity, actions[..k]), actions[k], i) && (last ==> actions[k] == Lag(i + 1));
      assert SkipsOver(Reached(capacity, all[..k]), all[k], i);
    }
    if SkipsOver(Reached(capacity, actions), action, i) && (last ==> action == Lag(i + 1)) {
      assert SkipsOver(Reached(capacity, all[..|actions|]), all[|actions|], i);
    }
  }

  /** What the forwarder holds and what is queued or delivered. */
  function InHand(s: Link): seq<Outgoing<nat>> {
    OnTheWay(s) + if s.forwarder.Holding? then [Notice(s.forwarder.event)] else []
  }

  /** An event reports the broadcast it is numbered by, or is a board change made up for a lag that ended there. */
  ghost predicate IsReport(capacity: nat, actions: seq<Action>, sent: seq<Sent>, item: Outgoing<nat>) {
    item.Notice? ==>
      item.event.note < |sent|
      && match item.event
         case OtherEvent(i) => sent[i].OtherNews?
         case BoardChanged(i) => sent[i].BoardRefresh? || WasSkipped(capacity, actions, i, true)
  }

  ghost predicate AreReports(capacity: nat, actions: seq<Action>, sent: seq<Sent>, items: seq<Outgoing<nat>>) {
    forall k :: 0 <= k < |items| ==> IsReport(capacity, actions, sent, items[k])
  }

  /** News that no lag dropped is still in the channel, or in hand as itself, or the queue is closed. */
  predicate IsNewsKept(s: Link, i: nat) {
    s.queue.closed
    || ((s.forwarder.Waiting? || s.forwarder.Holding?) && s.forwarder.next <= i)
    || Notice(OtherEvent(i)) in InHand(s)
  }

  lemma {:induction false} ReportsLast(capacity: nat, actions: seq<Action>, action: Action, sent: seq<Sent>, more: seq<Sent>, items: seq<Outgoing<nat>>)
    requires AreReports(capacity, actions, sent, items)
    ensures AreReports(capacity, actions + [action], sent + more, items)
  {
    hide WasSkipped;
    forall k | 0 <= k < |items|
      ensures IsReport(capacity, actions + [action], sent + more, items[k])
    {
      if items[k].Notice? {
        SkippedBefore(capacity, actions, action, items[k].event.note, true);
      }
    }
  }

  // What is in hand after a step: what was, without the board change that another replaces, and at most one item more.
  lemma {:induction false} HandAfter(s: Link, action: Action) returns (item: Option<Outgoing<nat>>)
    ensures forall x :: x in InHand(Act(s, action)) ==> x in InHand(s) || item == Some(x)
    ensures forall x :: x in InHand(s) && !Act(s, action).queue.closed && !IsBoardChange(x) ==> x in InHand(Act(s, action))
    ensures item.Some? ==>
              match action
              case Answer(line) => item.value == Response(line)
              case Receive =>
                s.forwarder.Waiting? && var n := s.forwarder.next;
                n < |s.sent| && item.value == Notice(if s.sent[n].BoardRefresh? then BoardChanged(n) else OtherEvent(n))
              case Lag(upTo) => 0 < upTo <= |s.sent| && SkipsOver(s, action, upTo - 1) && item.value == Notice(BoardChanged(upTo - 1))
              case _ => false
    ensures action.Receive? && s.forwarder.Waiting? && s.forwarder.next < |s.sent| && s.sent[s.forwarder.next].OtherNews? ==>
              Notice(OtherEvent(s.forwarder.next)) in InHand(Act(s, action))
  {
    var after := Act(s, action);
    item := None;
    match action
    case Answer(line) =>
      item := Some(Response(line));
    case Receive =>
      if s.forwarder.Waiting? && s.forwarder.next < |s.sent| {
        item := Some(Notice(after.forwarder.event));
      }
    case Lag(upTo) =>
      if s.forwarder.Waiting? && s.forwarder.next < upTo <= |s.sent| {
        item := Some(Notice(BoardChanged(upTo - 1)));
      }
    case Forward =>
      if s.forwarder.Holding? {
        WayAfterForward(s);
      }
    case Read =>
      assert OnTheWay(after) == OnTheWay(s);
    case _ =>
  }

  lemma {:induction false} ReportsAfter(capacity: nat, actions: seq<Action>, action: Action)
    requires var s := Reached(capacity, actions); AreReports(capacity, actions, s.sent, InHand(s))
    ensures var s := Reached(capacity, actions + [action]); AreReports(capacity, actions + [action], s.sent, InHand(s))
  {
    hide Reached, WasSkipped, InHand;
    var s := Reached(capacity, actions);
    OneMoreAction(capacity, actions, action);
    var after := Act(s, action);
    var more := if action.Broadcast? && s.channelOpen then [action.what] else [];
    assert after.sent == s.sent + more;
    ReportsLast(capacity, actions, action, s.sent, more, InHand(s));
    var item := HandAfter(s, action);
    forall k | 0 <= k < |InHand(after)|
      ensures IsReport(capacity, actions + [action], after.sent, InHand(after)[k])
    {
      var x := InHand(after)[k];
      if x in InHand(s) {
        var j :| 0 <= j < |InHand(s)| && InHand(s)[j] == x;
      } else if action.Lag? {
        SkippedBefore(capacity, actions, action, action.upTo - 1, true);
      }
    }
  }

  lemma {:induction false} OneMoreAction(capacity: nat, actions: seq<Action>, action: Action)
    ensures Reached(capacity, actions + [action]) == Act(Reached(capacity, actions), action)
  {
    assert (actions + [action])[..|actions|] == actions;
  }

  /** Every event held, queued or delivered is one that was broadcast, or a board change made up for a lag. */
  lemma {:induction false} EventsAreReports(capacity: nat, actions: seq<Action>)
    ensures var s := Reached(capacity, actions); AreReports(capacity, actions, s.sent, InHand(s))
  {
    hide Act, AreReports;
    if actions == [] {
      NothingInHand(capacity);
    } else {
      var n := |actions| - 1;
      EventsAreReports(capacity, actions[..n]);
      ReportsAfter(capacity, actions[..n], actions[n]);
      assert actions[..n] + [actions[n]] == actions;
    }
  }

  lemma {:induction false} NothingInHand(capacity: nat)
    ensures AreReports(capacity, [], NewLink(capacity).sent, InHand(NewLink(capacity)))
  {
  }

  lemma {:induction false} NewsKeptAfter(s: Link, action: Action, i: nat)
    requires IsConsistent(s) && s.subscribed.Some? && s.subscribed.value <= i < |s.sent| && s.sent[i].OtherNews?
    requires IsNewsKept(s, i) && !SkipsOver(s, action, i)
    ensures IsNewsKept(Act(s, action), i)
  {
    hide InHand, AfterResponse, AfterTake;
    var item := HandAfter(s, action);
    if s.queue.closed {
      ClosedStays(s, action);
    }
  }

  lemma {:induction false} ClosedStays(s: Link, action: Action)
    requires s.queue.closed
    ensures Act(s, action).queue.closed
  {
  }

  /** No lost news: whatever else was broadcast since the client was registered, and not dropped by a lag, is still in
      the channel, or held, queued or delivered as itself, or the queue is closed. */
  lemma {:induction false} NoNewsIsLost(capacity: nat, actions: seq<Action>, i: nat)
    requires var s := Reached(capacity, actions);
             s.subscribed.Some? && s.subscribed.value <= i < |s.sent| && s.sent[i].OtherNews?
    requires !WasSkipped(capacity, actions, i, false)
    ensures IsNewsKept(Reached(capacity, actions), i)
  {
    hide WasSkipped, IsNewsKept, IsConsistent, SkipsOver;
    if actions != [] {
      var n := |actions| - 1;
      var before := Reached(capacity, actions[..n]);
      assert actions[..n] + [actions[n]] == actions;
      SkippedBefore(capacity, actions[..n], actions[n], i, false);
      ReachedIsSound(capacity, actions[..n]);
      ReachedIsSound(capacity, actions);
      if before.subscribed.Some? && i < |before.sent| {
        NoNewsIsLost(capacity, actions[..n], i);
        NewsKeptAfter(before, actions[n], i);
      } else {
        NewsStartsKept(before, actions[n], i);
      }
    }
  }

  lemma {:induction false} NewsStartsKept(s: Link, action: Action, i: nat)
    requires IsConsistent(s) && !(s.subscribed.Some? && i < |s.sent|)
    requires var after := Act(s, action); after.subscribed.Some? && after.subscribed.value <= i < |after.sent|
    ensures IsNewsKept(Act(s, action), i)
  {
  }

  // ---------------------------------------------------------------------------
  // A client can catch up
  // ---------------------------------------------------------------------------

  /** What reports the broadcasts from `next` on, each by itself. */
  function Reports(sent: seq<Sent>, next: nat): seq<Outgoing<nat>>
    requires next <= |sent|
  {
    seq(|sent| - next, i requires 0 <= i < |sent| - next =>
      Notice(if sent[next + i].BoardRefresh? then BoardChanged(next + i) else OtherEvent(next + i)))
  }

  /** Only the forwarder and the writer do something. */
  predicate AreQuiet(actions: seq<Action>) {
    forall i :: 0 <= i < |actions| ==> actions[i] in [Receive, Forward, Read]
  }

  // The two ends of the run do not change what was sent, and no step closes a queue with room.
  predicate IsIdle(s: Link, t: Link, next: nat) {
    t.sent == s.sent && t.forwarder == Waiting(next) && t.queue.entries == [] && !t.queue.closed && t.queue.capacity == s.queue.capacity
  }

  lemma {:induction false} ReadAll(capacity: nat, actions: seq<Action>) returns (more: seq<Action>)
    ensures AreQuiet(more)
    ensures var s, t := Reached(capacity, actions), Reached(capacity, actions + more);
            t.sent == s.sent && t.forwarder == s.forwarder && t.queue.entries == [] && t.queue.closed == s.queue.closed
            && t.queue.capacity == s.queue.capacity && t.delivered == s.delivered + s.queue.entries
    decreases |Reached(capacity, actions).queue.entries|
  {
    hide Reached;
    var s := Reached(capacity, actions);
    if s.queue.entries == [] {
      more := [];
      assert actions + [] == actions;
    } else {
      OneMoreAction(capacity, actions, Read);
      var rest := ReadAll(capacity, actions + [Read]);
      more := [Read] + rest;
      assert actions + more == actions + [Read] + rest;
      assert s.queue.entries == [s.queue.entries[0]] + s.queue.entries[1..];
    }
  }

  // A held event goes through an empty queue.
  lemma {:induction false} PassHeld(capacity: nat, actions: seq<Action>)
    requires var s := Reached(capacity, actions);
             s.forwarder.Holding? && s.queue.entries == [] && !s.queue.closed && s.queue.capacity > 0
    ensures var s, t := Reached(capacity, actions), Reached(capacity, actions + [Forward, Read]);
            IsIdle(s, t, s.forwarder.next) && t.delivered == s.delivered + [Notice(s.forwarder.event)]
  {
    hide Reached;
    OneMoreAction(capacity, actions, Forward);
    OneMoreAction(capacity, actions + [Forward], Read);
    assert actions + [Forward] + [Read] == actions + [Forward, Read];
  }

  lemma {:induction false} PassAll(capacity: nat, actions: seq<Action>) returns (more: seq<Action>)
    requires var s := Reached(capacity, actions);
             s.forwarder.Waiting? && s.forwarder.next <= |s.sent| && s.queue.entries == [] && !s.queue.closed && s.queue.capacity > 0
    ensures AreQuiet(more)
    ensures var s, t := Reached(capacity, actions), Reached(capacity, actions + more);
            IsIdle(s, t, |s.sent|) && t.delivered == s.delivered + Reports(s.sent, s.forwarder.next)
    decreases |Reached(capacity, actions).sent| - Reached(capacity, actions).forwarder.next
  {
    hide Reached;
    var s := Reached(capacity, actions);
    var n := s.forwarder.next;
    if n == |s.sent| {
      more := [];
      assert actions + [] == actions;
    } else {
      var step: seq<Action> := [Receive] + [Forward, Read];
      OneMoreAction(capacity, actions, Receive);
      PassHeld(capacity, actions + [Receive]);
      assert actions + step == actions + [Receive] + [Forward, Read];
      var rest := PassAll(capacity, actions + step);
      more := step + rest;
      assert actions + more == actions + step + rest;
      assert Reports(s.sent, n) == [Reports(s.sent, n)[0]] + Reports(s.sent, n + 1);
    }
  }

  /** However far a subscriber is behind, as long as its queue is open it can still get everything that has not been
      dropped, in order: what is queued, what is held, and then each broadcast left in the channel by itself. */
  lemma {:induction false} ClientCatchesUp(capacity: nat, actions: seq<Action>) returns (more: seq<Action>)
    requires var s := Reached(capacity, actions);
             (s.forwarder.Waiting? || s.forwarder.Holding?) && !s.queue.closed && capacity > 0
    ensures AreQuiet(more)
    ensures var s, t := Reached(capacity, actions), Reached(capacity, actions + more);
            s.forwarder.next <= |s.sent| && IsIdle(s, t, |s.sent|)
            && t.delivered == s.delivered + s.queue.entries
                              + (if s.forwarder.Holding? then [Notice(s.forwarder.event)] else []) + Reports(s.sent, s.forwarder.next)
  {
    hide Reached, Reports, Act;
    var s := Reached(capacity, actions);
    ReachedIsSound(capacity, actions);
    CapacityStays(capacity, actions);
    var read := ReadAll(capacity, actions);
    var held: seq<Action> := if s.forwarder.Holding? then [Forward, Read] else [];
    if s.forwarder.Holding? {
      PassHeld(capacity, actions + read);
    } else {
      assert actions + read + held == actions + read;
    }
    var rest := PassAll(capacity, actions + read + held);
    more := read + held + rest;
    assert actions + more == actions + read + held + rest;
  }

  lemma {:induction false} CapacityStays(capacity: nat, actions: seq<Action>)
    ensures Reached(capacity, actions).queue.capacity == capacity
  {
    if actions != [] {
      CapacityStays(capacity, actions[..|actions| - 1]);
    }
  }

  // ---------------------------------------------------------------------------
  // Whose broadcasts are counted
  // ---------------------------------------------------------------------------

  /** What is broadcast before the channel is closed. */
  function Broadcasts(actions: seq<Action>): seq<Sent> {
    if actions == [] then []
    else
      var before, last := actions[..|actions| - 1], actions[|actions| - 1];
      Broadcasts(before) + if last.Broadcast? && CloseChannel !in before then [last.what] else []
  }

  predicate IsFirstRegister(actions: seq<Action>, k: int) {
    0 <= k < |actions| && actions[k] == Register && Register !in actions[..k]
  }

  /** The first acknowledgement that comes after a registration. */
  predicate IsFirstAck(actions: seq<Action>, k: int) {
    0 <= k < |actions| && actions[k] == Acknowledge && Register in actions[..k]
    && forall j :: 0 <= j < k && actions[j] == Acknowledge ==> Register !in actions[..j]
  }

  lemma {:induction false} FirstsBefore(before: seq<Action>, last: Action)
    ensures forall k :: IsFirstRegister(before + [last], k)
                   <==> IsFirstRegister(before, k) || (k == |before| && last == Register && Register !in before)
    ensures forall k :: IsFirstAck(before + [last], k)
                   <==> IsFirstAck(before, k)
                        || (k == |before| && last == Acknowledge && Register in before && forall j :: !IsFirstAck(before, j))
  {
    var all := before + [last];
    assert forall k :: 0 <= k <= |before| ==> all[..k] == before[..k];
    assert before[..|before|] == before;
    if exists j :: 0 <= j < |before| && before[j] == Acknowledge && Register in before[..j] {
      var j := FirstAck(before);
    }
  }

  // Where there is an acknowledgement after a registration, there is a first.
  lemma {:induction false} FirstAck(actions: seq<Action>) returns (k: nat)
    requires exists j :: 0 <= j < |actions| && actions[j] == Acknowledge && Register in actions[..j]
    ensures IsFirstAck(actions, k)
  {
    k := 0;
    while !(actions[k] == Acknowledge && Register in actions[..k])
      invariant k < |actions|
      invariant forall j :: 0 <= j < k && actions[j] == Acknowledge ==> Register !in actions[..j]
      decreases |actions| - k
    {
      k := k + 1;
    }
  }

  /** The channel carries what was broadcast before it was closed, and a subscriber counts from the broadcasts there had
      been when it first registered, and when the first acknowledgement after that was made. */
  ghost predicate IsCounted(s: Link, actions: seq<Action>) {
    s.sent == Broadcasts(actions) && (s.channelOpen <==> CloseChannel !in actions)
    && (s.forwarder.NotSubscribed? <==> Register !in actions)
    && (s.subscribed.Some? <==> Register in actions)
    && (s.acked.Some? <==> exists k :: IsFirstAck(actions, k))
    && (forall k :: IsFirstRegister(actions, k) ==> s.subscribed == Some(|Broadcasts(actions[..k])|))
    && forall k :: IsFirstAck(actions, k) ==> s.acked == Some(|Broadcasts(actions[..k])|)
  }

  // What a step does to the bookkeeping.
  lemma {:induction false} StepStarts(s: Link, action: Action)
    ensures var after := Act(s, action);
            after.sent == s.sent + (if action.Broadcast? && s.channelOpen then [action.what] else [])
            && (after.channelOpen <==> s.channelOpen && action != CloseChannel)
            && (after.forwarder.NotSubscribed? <==> s.forwarder.NotSubscribed? && action != Register)
            && after.subscribed == (if action == Register && s.forwarder.NotSubscribed? then Some(|s.sent|) else s.subscribed)
            && after.acked == if action == Acknowledge && !s.forwarder.NotSubscribed? && s.acked.None? then Some(|s.sent|) else s.acked
  {
    hide AfterEvent, AfterResponse, AfterTake, TakesEvent;
  }

  lemma {:induction false} PrefixOfRun(before: seq<Action>, action: Action, k: int)
    requires 0 <= k <= |before|
    ensures (before + [action])[..k] == before[..k]
  {
  }

  lemma {:induction false} StepIsCounted(s: Link, before: seq<Action>, action: Action)
    requires IsCounted(s, before)
    ensures IsCounted(Act(s, action), before + [action])
  {
    hide Act, IsFirstRegister, IsFirstAck;
    var all, after := before + [action], Act(s, action);
    StepStarts(s, action);
    FirstsBefore(before, action);
    FirstIsWithin(before);
    FirstIsWithin(all);
    PrefixOfRun(before, action, |before|);
    assert before[..|before|] == before;
    assert after.sent == Broadcasts(all);
    hide Broadcasts;
    forall k | IsFirstRegister(all, k)
      ensures after.subscribed == Some(|Broadcasts(all[..k])|)
    {
      PrefixOfRun(before, action, k);
    }
    forall k | IsFirstAck(all, k)
      ensures after.acked == Some(|Broadcasts(all[..k])|)
    {
      PrefixOfRun(before, action, k);
    }
  }

  lemma {:induction false} FirstIsWithin(actions: seq<Action>)
    ensures forall k :: IsFirstRegister(actions, k) || IsFirstAck(actions, k) ==> 0 <= k < |actions|
  {
  }

  lemma {:induction false} RunIsCounted(capacity: nat, actions: seq<Action>)
    ensures IsCounted(Reached(capacity, actions), actions)
  {
    hide Act, IsCounted;
    if actions == [] {
      NothingCounted(capacity);
    } else {
      var n := |actions| - 1;
      RunIsCounted(capacity, actions[..n]);
      StepIsCounted(Reached(capacity, actions[..n]), actions[..n], actions[n]);
      assert actions == actions[..n] + [actions[n]];
    }
  }

  lemma {:induction false} NothingCounted(capacity: nat)
    ensures IsCounted(NewLink(capacity), [])
  {
  }
}
