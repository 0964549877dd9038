/** The timeout budget of a run: paused while its card awaits review, carried across daemon restarts. All
    clocks count milliseconds. */
module Timeout {
  import opened Text

  // ---------------------------------------------------------------------------
  // Clocks
  // ---------------------------------------------------------------------------

  function Saturated(n: int): int {
    if n < I64_MIN then I64_MIN else if n > I64_MAX then I64_MAX else n
  }

  function AtLeastZero(n: int): int {
    if n < 0 then 0 else n
  }

  /** The monotonic clock counts 64-bit seconds and a fraction. */
  predicate IsInstant(n: int) {
    I64_MIN * 1000 <= n <= I64_MAX * 1000 + 999
  }

  /** The clocks by their numbers: signed 64 bits of seconds, split into milliseconds, and of milliseconds. */
  lemma {:induction false} ClocksByNumber(n: int)
    ensures IsInstant(n) <==> -0x8000_0000_0000_0000 * 1000 <= n < 0x8000_0000_0000_0000 * 1000
    ensures Saturated(n) == if n < -0x8000_0000_0000_0000 then -0x8000_0000_0000_0000
                            else if n >= 0x8000_0000_0000_0000 then 0x7fff_ffff_ffff_ffff else n
  {
  }

  // ---------------------------------------------------------------------------
  // The run in memory, on the monotonic clock
  // ---------------------------------------------------------------------------

  datatype Timer = Timer(deadline: Option<int>, idleSince: Option<int>, awaitingSince: Option<int>)

  function Entered(t: Timer, now: int): Timer {
    t.(idleSince := None, awaitingSince := Some(now))
  }

  /** How far leaving at `now` shifts the deadline. */
  function Shift(t: Timer, now: int): int {
    if t.awaitingSince.Some? then AtLeastZero(now - t.awaitingSince.value) else 0
  }

  function Left(t: Timer, now: int): Timer {
    t.(deadline := if t.deadline.Some? then Some(t.deadline.value + Shift(t, now)) else None, awaitingSince := None)
  }

  class ActiveRun {
    var timeoutDeadline: Option<int>
    var idleSince: Option<int>
    var awaitingSince: Option<int>

    ghost function State(): Timer
      reads this
    {
      Timer(timeoutDeadline, idleSince, awaitingSince)
    }

    constructor (deadline: Option<int>)
      ensures State() == Timer(deadline, None, None)
    {
      timeoutDeadline, idleSince, awaitingSince := deadline, None, None;
    }

    method EnterAwaiting(now: int)
      modifies this
      ensures State() == Entered(old(State()), now)
      ensures idleSince.None? && awaitingSince == Some(now) && timeoutDeadline == old(timeoutDeadline)
    {
      idleSince := None;
      awaitingSince := Some(now);
    }

    /** The sum must be an instant: adding to a deadline does not saturate. */
    method LeaveAwaiting(now: int)
      requires timeoutDeadline.Some? ==> IsInstant(timeoutDeadline.value + Shift(State(), now))
      modifies this
      ensures State() == Left(old(State()), now)
      ensures idleSince == old(idleSince) && awaitingSince.None?
    {
      if awaitingSince.Some? {
        var paused := awaitingSince.value;
        awaitingSince := None;
        if timeoutDeadline.Some? {
          timeoutDeadline := Some(timeoutDeadline.value + AtLeastZero(now - paused));
        }
      }
    }
  }

  /** The deadline of an adopted run, from its durable deadline. */
  function ReconstructDeadline(adoptedAt: int, wallNow: int, deadlineAt: Option<int>): Option<int> {
    if deadlineAt.None? then None
    else
      var sum := adoptedAt + AtLeastZero(Saturated(deadlineAt.value - wallNow));
      if IsInstant(sum) then Some(sum) else None
  }

  /** The pause start of an adopted run, from its durable pause start. */
  function ReconstructAwaitingSince(adoptedAt: int, wallNow: int, pausedAt: Option<int>): Option<int> {
    if pausedAt.None? then None
    else
      var difference := adoptedAt - AtLeastZero(Saturated(wallNow - pausedAt.value));
      Some(if IsInstant(difference) then difference else adoptedAt)
  }

  // ---------------------------------------------------------------------------
  // The budget is spent only while the run is not paused
  // ---------------------------------------------------------------------------

  datatype Moment = Enter(at: int) | Leave(at: int)

  /** Every entering is left before the next, starting with an entering; times do not go back. */
  predicate IsTrace(start: int, moments: seq<Moment>) {
    (forall i :: 0 <= i < |moments| ==> moments[i].Enter? == (i % 2 == 0) && start <= moments[i].at)
    && forall i, j :: 0 <= i < j < |moments| ==> moments[i].at <= moments[j].at
  }

  function AfterMoment(t: Timer, m: Moment): Timer {
    match m
    case Enter(at) => Entered(t, at)
    case Leave(at) => Left(t, at)
  }

  function AfterMoments(t: Timer, moments: seq<Moment>): Timer {
    if moments == [] then t else AfterMoment(AfterMoments(t, moments[..|moments| - 1]), moments[|moments| - 1])
  }

  /** Whether the card awaits review at tick `t`: the last thing that happened by then was an entering. */
  predicate IsPausedAt(moments: seq<Moment>, t: int) {
    moments != [] &&
    var last := moments[|moments| - 1];
    if last.at <= t then last.Enter? else IsPausedAt(moments[..|moments| - 1], t)
  }

  /** The ticks since `since` and before `end` during which the card does not await review. */
  function SpentTicks(moments: seq<Moment>, since: int, end: int): (ticks: nat)
    ensures ticks <= if since <= end then end - since else 0
    decreases end - since
  {
    if end <= since then 0 else SpentTicks(moments, since, end - 1) + if IsPausedAt(moments, end - 1) then 0 else 1
  }

  // After the last moment nothing changes.
  lemma {:induction false} SpentAfterLast(moments: seq<Moment>, since: int, mid: int, end: int)
    requires since <= mid <= end
    requires forall t :: mid <= t < end ==> IsPausedAt(moments, t) == IsPausedAt(moments, mid)
    ensures SpentTicks(moments, since, end)
         == SpentTicks(moments, since, mid) + (if mid < end && !IsPausedAt(moments, mid) then end - mid else 0)
    decreases end - mid
  {
    hide IsPausedAt;
    if mid < end {
      SpentAfterLast(moments, since, mid, end - 1);
      assert mid <= end - 1;
    }
  }

  // Before the last moment it makes no difference.
  lemma {:induction false} SpentBeforeLast(moments: seq<Moment>, last: Moment, since: int, end: int)
    requires end <= last.at
    ensures SpentTicks(moments + [last], since, end) == SpentTicks(moments, since, end)
    decreases end - since
  {
    if end > since {
      SpentBeforeLast(moments, last, since, end - 1);
      assert (moments + [last])[..|moments|] == moments;
    }
  }

  // What is spent once a last moment is past: all up to it, and all since unless it was an entering.
  lemma {:induction false} SpentSinceLast(start: int, moments: seq<Moment>, now: int)
    requires IsTrace(start, moments) && moments != [] && moments[|moments| - 1].at <= now
    ensures var n := |moments| - 1; var at := moments[n].at;
            SpentTicks(moments, start, now)
            == SpentTicks(moments[..n], start, at) + (if moments[n].Enter? then 0 else now - at)
  {
    hide SpentTicks;
    var n := |moments| - 1;
    assert moments == moments[..n] + [moments[n]];
    SpentBeforeLast(moments[..n], moments[n], start, moments[n].at);
    SpentAfterLast(moments, start, moments[n].at, now);
  }

  lemma {:induction false} TraceBefore(start: int, moments: seq<Moment>)
    requires IsTrace(start, moments) && moments != []
    ensures var n := |moments| - 1;
            IsTrace(start, moments[..n]) && start <= moments[n].at && moments[n].Enter? == (n % 2 == 0)
            && (n > 0 ==> moments[..n][n - 1].at <= moments[n].at)
  {
  }

  // The deadline, less the time already spent, is what is left of the budget.
  lemma {:induction false} DeadlineAccounts(start: int, budget: int, moments: seq<Moment>, now: int)
    requires IsTrace(start, moments) && start <= now
    requires moments != [] ==> moments[|moments| - 1].at <= now
    ensures var t := AfterMoments(Timer(Some(start + budget), None, None), moments);
            t.deadline.Some? && t.awaitingSince.Some? == (|moments| % 2 == 1)
            && (t.awaitingSince.Some? ==> t.awaitingSince.value == moments[|moments| - 1].at)
            && t.deadline.value + Shift(t, now) - now == budget - SpentTicks(moments, start, now)
    decreases |moments|
  {
    hide IsTrace, SpentTicks, IsPausedAt;
    if moments == [] {
      NoMomentSpends(start, now);
    } else {
      var n := |moments| - 1;
      TraceBefore(start, moments);
      DeadlineAccounts(start, budget, moments[..n], moments[n].at);
      SpentSinceLast(start, moments, now);
    }
  }

  lemma {:induction false} NoMomentSpends(start: int, now: int)
    requires start <= now
    ensures SpentTicks([], start, now) == now - start
  {
    SpentAfterLast([], start, start, now);
  }

  /** Over any alternating trace, a run that does not await review has timed out exactly when the time it
      has spent not awaiting review has reached its budget. */
  lemma {:induction false} TimesOutOnSpentTime(start: int, budget: int, moments: seq<Moment>, now: int)
    requires IsTrace(start, moments) && start <= now && |moments| % 2 == 0
    requires moments != [] ==> moments[|moments| - 1].at <= now
    ensures var t := AfterMoments(Timer(Some(start + budget), None, None), moments);
            t.deadline.Some? && (now >= t.deadline.value <==> SpentTicks(moments, start, now) >= budget)
  {
    DeadlineAccounts(start, budget, moments, now);
  }

  // ---------------------------------------------------------------------------
  // The durable record, on the wall clock
  // ---------------------------------------------------------------------------

  datatype Durable = Durable(deadlineAt: Option<int>, pausedAt: Option<int>)

  /** Pausing keeps the first pause start. */
  function PausedRecord(d: Durable, now: int): Durable {
    if d.pausedAt.Some? then d else d.(pausedAt := Some(now))
  }

  function ResumedRecord(d: Durable, now: int): Durable {
    if d.pausedAt.None? then d
    else if d.deadlineAt.None? then Durable(None, None)
    else Durable(Some(Saturated(d.deadlineAt.value + AtLeastZero(Saturated(now - d.pausedAt.value)))), None)
  }

  function AfterRecord(d: Durable, m: Moment): Durable {
    match m
    case Enter(at) => PausedRecord(d, at)
    case Leave(at) => ResumedRecord(d, at)
  }

  /** The wall clock never reads before the epoch. */
  predicate IsWall(n: int) {
    0 <= n <= I64_MAX
  }

  /** How far the monotonic clock is ahead of the wall clock: no further than either counts milliseconds. */
  predicate IsOrigin(origin: int) {
    -I64_MAX <= origin <= I64_MAX
  }

  /** An unpaused run is adopted with exactly what its durable deadline leaves, or nothing if that has
      passed. It has no limit exactly if there was no durable deadline: the sum is an instant on every clock
      that is not a thousand times further ahead than the wall clock counts. */
  lemma {:induction false} AdoptionKeepsRemaining(adoptedAt: int, wallNow: int, deadlineAt: Option<int>)
    requires IsWall(wallNow) && (deadlineAt.Some? ==> IsI64(deadlineAt.value))
    ensures var deadline := ReconstructDeadline(adoptedAt, wallNow, deadlineAt);
            var left := if deadlineAt.Some? && deadlineAt.value > wallNow then deadlineAt.value - wallNow else 0;
            (deadline.Some? ==> deadlineAt.Some? && deadline.value - adoptedAt == left)
            && (IsInstant(adoptedAt) && adoptedAt <= 998 * I64_MAX ==> (deadline.None? <==> deadlineAt.None?))
            && (IsOrigin(adoptedAt - wallNow) ==> (deadline.None? <==> deadlineAt.None?))
  {
  }

  /** The timer of a run adopted from its durable record. */
  function Adopted(adoptedAt: int, wallNow: int, d: Durable): Timer {
    Timer(ReconstructDeadline(adoptedAt, wallNow, d.deadlineAt), None,
          ReconstructAwaitingSince(adoptedAt, wallNow, d.pausedAt))
  }

  /** A paused run resumes after an adoption with exactly what its durable deadline left at the pause, if and
      only if that deadline is still ahead at adoption; one already past is moved up to the adoption. */
  lemma {:induction false} AdoptionKeepsPaused(adoptedAt: int, wallNow: int, deadlineAt: int, pausedAt: int, now: int)
    requires IsWall(wallNow) && IsI64(deadlineAt) && IsWall(pausedAt) && pausedAt <= wallNow && adoptedAt <= now
    requires IsInstant(adoptedAt + AtLeastZero(deadlineAt - wallNow)) && IsInstant(adoptedAt - (wallNow - pausedAt))
    ensures var left := Left(Adopted(adoptedAt, wallNow, Durable(Some(deadlineAt), Some(pausedAt))), now).deadline;
            left.Some?
            && left.value - now == (if deadlineAt >= wallNow then deadlineAt else wallNow) - pausedAt
            && (left.value - now == deadlineAt - pausedAt <==> deadlineAt >= wallNow)
  {
  }

  // ---------------------------------------------------------------------------
  // A run's life, across any number of restarts
  // ---------------------------------------------------------------------------

  /** Times are wall times; a restart starts a monotonic clock of its own. */
  datatype Event = Happens(moment: Moment) | Restart(wall: int, adoptedAt: int)

  /** A run in memory and on disk; the monotonic clock reads the wall time plus `origin`. */
  datatype Life = Life(timer: Timer, durable: Durable, origin: int)

  function OnClock(m: Moment, origin: int): Moment {
    match m
    case Enter(at) => Enter(at + origin)
    case Leave(at) => Leave(at + origin)
  }

  function AfterEvent(l: Life, e: Event): Life {
    match e
    case Happens(m) => Life(AfterMoment(l.timer, OnClock(m, l.origin)), AfterRecord(l.durable, m), l.origin)
    case Restart(wall, adoptedAt) => Life(Adopted(adoptedAt, wall, l.durable), l.durable, adoptedAt - wall)
  }

  function Live(start: int, budget: int, origin: int, events: seq<Event>): Life {
    if events == [] then
      Life(Timer(Some(start + origin + budget), None, None), Durable(Some(Saturated(start + budget)), None), origin)
    else AfterEvent(Live(start, budget, origin, events[..|events| - 1]), events[|events| - 1])
  }

  function WallOf(e: Event): int {
    if e.Restart? then e.wall else e.moment.at
  }

  function Moments(events: seq<Event>): seq<Moment> {
    if events == [] then []
    else
      Moments(events[..|events| - 1])
      + if events[|events| - 1].Happens? then [events[|events| - 1].moment] else []
  }

  /** Wall times do not go back, and the two clocks are no further apart than either counts. */
  predicate AreTimed(start: int, events: seq<Event>) {
    (forall i :: 0 <= i < |events| ==> start <= WallOf(events[i]))
    && (forall i, j :: 0 <= i < j < |events| ==> WallOf(events[i]) <= WallOf(events[j]))
    && forall i :: 0 <= i < |events| && events[i].Restart? ==> IsOrigin(events[i].adoptedAt - events[i].wall)
  }

  /** A restart finds the run not paused, or its durable deadline still ahead. */
  predicate IsFair(d: Durable, wall: int) {
    d.pausedAt.None? || d.deadlineAt.None? || d.deadlineAt.value >= wall
  }

  predicate RestartsAreFair(start: int, budget: int, origin: int, events: seq<Event>) {
    forall i :: 0 <= i < |events| && events[i].Restart? ==>
      IsFair(Live(start, budget, origin, events[..i]).durable, events[i].wall)
  }

  /** What is left of the budget at a wall time, by the run in memory and by its record. */
  function InMemory(l: Life, wall: int): int
    requires l.timer.deadline.Some?
  {
    l.timer.deadline.value + Shift(l.timer, wall + l.origin) - (wall + l.origin)
  }

  function OnDisk(d: Durable, wall: int): int
    requires d.deadlineAt.Some?
  {
    d.deadlineAt.value + (if d.pausedAt.Some? then AtLeastZero(wall - d.pausedAt.value) else 0) - wall
  }

  /** Memory and disk agree on what is left, or on that nothing is. */
  predicate Agrees(l: Life, wall: int) {
    l.timer.deadline.Some? && l.durable.deadlineAt.Some? && IsI64(l.durable.deadlineAt.value) && IsOrigin(l.origin)
    && (l.durable.pausedAt.Some? ==> 0 <= l.durable.pausedAt.value <= wall)
    && l.timer.awaitingSince == (if l.durable.pausedAt.Some? then Some(l.durable.pausedAt.value + l.origin) else None)
    && (InMemory(l, wall) == OnDisk(l.durable, wall) || OnDisk(l.durable, wall) <= InMemory(l, wall) <= 0)
  }

  lemma {:induction false} AgreesLater(l: Life, wall: int, later: int)
    requires Agrees(l, wall) && wall <= later
    ensures Agrees(l, later)
  {
  }

  lemma {:induction false} AgreesAfterMoment(l: Life, m: Moment)
    requires Agrees(l, m.at) && IsWall(m.at) && m.Enter? == l.durable.pausedAt.None?
    requires l.durable.deadlineAt.value + (m.at - (if l.durable.pausedAt.Some? then l.durable.pausedAt.value else m.at)) <= I64_MAX
    ensures Agrees(AfterEvent(l, Happens(m)), m.at)
  {
  }

  /** A restart keeps memory and disk in agreement exactly if it is fair, or comes at the very tick of the pause. */
  lemma {:induction false} RestartAgreesIfFair(l: Life, wall: int, adoptedAt: int)
    requires Agrees(l, wall) && IsWall(wall) && IsOrigin(adoptedAt - wall)
    ensures Agrees(AfterEvent(l, Restart(wall, adoptedAt)), wall)
       <==> IsFair(l.durable, wall) || l.durable.pausedAt == Some(wall)
  {
  }

  function TimerOf(start: int, budget: int, moments: seq<Moment>): Timer {
    AfterMoments(Timer(Some(start + budget), None, None), moments)
  }

  function LastAt(start: int, moments: seq<Moment>): int {
    if moments == [] then start else moments[|moments| - 1].at
  }

  // Where nothing saturates, the record follows the same account as a timer on the wall clock.
  lemma {:induction false} RecordFollows(d: Durable, start: int, budget: int, moments: seq<Moment>)
    requires moments != [] && IsTrace(start, moments) && 0 <= start && 0 <= budget && LastAt(start, moments) + budget <= I64_MAX
    requires var n := |moments| - 1;
             var t := TimerOf(start, budget, moments[..n]);
             d == Durable(t.deadline, t.awaitingSince)
    ensures var t := TimerOf(start, budget, moments);
            AfterRecord(d, moments[|moments| - 1]) == Durable(t.deadline, t.awaitingSince)
  {
    var n := |moments| - 1;
    var last := moments[n];
    DeadlineAccounts(start, budget, moments[..n], last.at);
    hide SpentTicks, AfterMoments;
    assert TimerOf(start, budget, moments) == AfterMoment(TimerOf(start, budget, moments[..n]), last) by {
      OneMoreMoment(start, budget, moments);
    }
    if n % 2 == 1 {
      assert moments[n - 1] == moments[..n][n - 1];
      assert start <= moments[n - 1].at <= last.at;
    }
  }

  lemma {:induction false} OneMoreMoment(start: int, budget: int, moments: seq<Moment>)
    requires moments != []
    ensures TimerOf(start, budget, moments)
         == AfterMoment(TimerOf(start, budget, moments[..|moments| - 1]), moments[|moments| - 1])
  {
  }

  lemma {:induction false} MomentsAreTimed(start: int, events: seq<Event>)
    requires AreTimed(start, events)
    ensures var moments := Moments(events);
            (forall i :: 0 <= i < |moments| ==> start <= moments[i].at)
            && (moments != [] ==> events != [] && moments[|moments| - 1].at <= WallOf(events[|events| - 1]))
  {
    if events != [] {
      MomentsAreTimed(start, events[..|events| - 1]);
    }
  }

  // The record of a life is the record of its moments: restarts leave it alone.
  lemma {:induction false} RecordAccounts(start: int, budget: int, origin: int, events: seq<Event>, now: int)
    requires AreTimed(start, events) && IsTrace(start, Moments(events)) && 0 <= start <= now && 0 <= budget
    requires now + budget <= I64_MAX && (events != [] ==> WallOf(events[|events| - 1]) <= now)
    ensures var t := TimerOf(start, budget, Moments(events));
            Live(start, budget, origin, events).durable == Durable(t.deadline, t.awaitingSince)
  {
    if events != [] {
      var n := |events| - 1;
      var wall := WallOf(events[n]);
      MomentsAreTimed(start, events);
      PrefixOfTrace(start, events);
      RecordAccounts(start, budget, origin, events[..n], wall);
      if events[n].Happens? {
        hide IsTrace, AfterRecord, TimerOf;
        var moments := Moments(events);
        assert moments[..|moments| - 1] == Moments(events[..n]);
        RecordFollows(Live(start, budget, origin, events[..n]).durable, start, budget, moments);
      } else {
        assert Moments(events) == Moments(events[..n]);
      }
    }
  }

  lemma {:induction false} PrefixOfTrace(start: int, events: seq<Event>)
    requires events != [] && AreTimed(start, events) && IsTrace(start, Moments(events))
    ensures var n := |events| - 1;
            AreTimed(start, events[..n]) && IsTrace(start, Moments(events[..n]))
            && (n > 0 ==> WallOf(events[..n][n - 1]) <= WallOf(events[n])) && start <= WallOf(events[n])
  {
    var n := |events| - 1;
    if events[n].Happens? {
      assert Moments(events)[..|Moments(events)| - 1] == Moments(events[..n]);
    } else {
      assert Moments(events) == Moments(events[..n]);
    }
    hide Moments;
  }

  lemma {:induction false} PrefixIsFair(start: int, budget: int, origin: int, events: seq<Event>)
    requires events != [] && RestartsAreFair(start, budget, origin, events)
    ensures RestartsAreFair(start, budget, origin, events[..|events| - 1])
  {
    var n := |events| - 1;
    hide Live;
    forall i | 0 <= i < n && events[..n][i].Restart?
      ensures IsFair(Live(start, budget, origin, events[..n][..i]).durable, events[..n][i].wall)
    {
      assert events[..n][..i] == events[..i];
    }
  }

  /** Through any life whose restarts are fair, what is left of the budget on disk is the budget less the time
      spent not awaiting review, and memory agrees. */
  lemma {:induction false} LifeAgrees(start: int, budget: int, origin: int, events: seq<Event>, now: int)
    requires AreTimed(start, events) && IsTrace(start, Moments(events)) && 0 <= start <= now && 0 <= budget
    requires now + budget <= I64_MAX && (events != [] ==> WallOf(events[|events| - 1]) <= now)
    requires IsOrigin(origin) && RestartsAreFair(start, budget, origin, events)
    ensures var l := Live(start, budget, origin, events);
            Agrees(l, now) && l.durable.pausedAt.Some? == (|Moments(events)| % 2 == 1)
            && OnDisk(l.durable, now) == budget - SpentTicks(Moments(events), start, now)
    decreases |events|
  {
    var l := Live(start, budget, origin, events);
    MomentsAreTimed(start, events);
    RecordAccounts(start, budget, origin, events, now);
    DeadlineAccounts(start, budget, Moments(events), now);
    if events == [] {
      hide SpentTicks;
    } else {
      var n := |events| - 1;
      var before, last, wall := Live(start, budget, origin, events[..n]), events[n], WallOf(events[n]);
      PrefixOfTrace(start, events);
      PrefixIsFair(start, budget, origin, events);
      LifeAgrees(start, budget, origin, events[..n], wall);
      hide SpentTicks, IsTrace, AreTimed, Agrees, AfterEvent;
      LastStepAgrees(start, budget, origin, events);
      AgreesLater(l, wall, now);
    }
  }

  // What an adoption or a moment finds on disk.
  lemma {:induction false} OnDiskAccounts(start: int, budget: int, origin: int, events: seq<Event>, now: int)
    requires AreTimed(start, events) && IsTrace(start, Moments(events)) && 0 <= start <= now && 0 <= budget
    requires now + budget <= I64_MAX && (events != [] ==> WallOf(events[|events| - 1]) <= now)
    ensures var d := Live(start, budget, origin, events).durable;
            d.deadlineAt.Some? && d.pausedAt.Some? == (|Moments(events)| % 2 == 1)
            && OnDisk(d, now) == budget - SpentTicks(Moments(events), start, now)
  {
    MomentsAreTimed(start, events);
    RecordAccounts(start, budget, origin, events, now);
    DeadlineAccounts(start, budget, Moments(events), now);
    hide SpentTicks, Moments, AfterMoments, Live;
  }

  lemma {:induction false} LastStepAgrees(start: int, budget: int, origin: int, events: seq<Event>)
    requires events != []
    requires AreTimed(start, events) && IsTrace(start, Moments(events)) && 0 <= start && 0 <= budget
    requires WallOf(events[|events| - 1]) + budget <= I64_MAX && RestartsAreFair(start, budget, origin, events)
    requires Agrees(Live(start, budget, origin, events[..|events| - 1]), WallOf(events[|events| - 1]))
    ensures Agrees(Live(start, budget, origin, events), WallOf(events[|events| - 1]))
  {
    hide Agrees, SpentTicks, AfterEvent, IsTrace, OnDisk;
    var n := |events| - 1;
    var before, last := Live(start, budget, origin, events[..n]), events[n];
    if last.Happens? {
      LastMomentIsTimed(start, budget, origin, events);
      AgreesAfterMoment(before, last.moment);
    } else {
      RestartAgreesIfFair(before, last.wall, last.adoptedAt);
    }
  }

  // What memory and disk need to agree after a moment.
  lemma {:induction false} LastMomentIsTimed(start: int, budget: int, origin: int, events: seq<Event>)
    requires events != [] && events[|events| - 1].Happens?
    requires AreTimed(start, events) && IsTrace(start, Moments(events)) && 0 <= start && 0 <= budget
    requires WallOf(events[|events| - 1]) + budget <= I64_MAX
    ensures var n := |events| - 1; var at, d := events[n].moment.at, Live(start, budget, origin, events[..n]).durable;
            d.deadlineAt.Some? && events[n].moment.Enter? == d.pausedAt.None?
            && d.deadlineAt.value + (at - (if d.pausedAt.Some? then d.pausedAt.value else at)) <= I64_MAX
  {
    hide SpentTicks, Live;
    var n := |events| - 1;
    var moments := Moments(events);
    PrefixOfTrace(start, events);
    OnDiskAccounts(start, budget, origin, events[..n], WallOf(events[n]));
    assert moments[|moments| - 1] == events[n].moment && |moments| - 1 == |Moments(events[..n])|;
  }

  /** Whatever restarts there were, as long as they were fair, a run that does not await review is taken to have
      timed out exactly when the time it spent not awaiting review has reached its budget. */
  lemma {:induction false} RestartsKeepTheBudget(start: int, budget: int, origin: int, events: seq<Event>, now: int)
    requires AreTimed(start, events) && IsTrace(start, Moments(events)) && 0 <= start <= now && 0 <= budget
    requires now + budget <= I64_MAX && (events != [] ==> WallOf(events[|events| - 1]) <= now)
    requires IsOrigin(origin) && RestartsAreFair(start, budget, origin, events) && |Moments(events)| % 2 == 0
    ensures var l := Live(start, budget, origin, events);
            l.timer.deadline.Some?
            && (now + l.origin >= l.timer.deadline.value <==> SpentTicks(Moments(events), start, now) >= budget)
  {
    LifeAgrees(start, budget, origin, events, now);
    hide SpentTicks, Live, Moments;
  }

  // ---------------------------------------------------------------------------
  // Lives with any restarts
  // ---------------------------------------------------------------------------

  /** How long before the last restart the durable deadline it found had passed. */
  function Grace(start: int, budget: int, origin: int, events: seq<Event>): nat {
    if events == [] then 0
    else
      var n := |events| - 1;
      if events[n].Happens? then Grace(start, budget, origin, events[..n])
      else
        var found := Live(start, budget, origin, events[..n]).durable.deadlineAt;
        if found.Some? then AtLeastZero(events[n].wall - found.value) else 0
  }

  /** Memory has so much more left than the record. */
  predicate IsAhead(l: Life, wall: int, grace: int) {
    l.timer.deadline.Some? && l.durable.deadlineAt.Some? && IsI64(l.durable.deadlineAt.value) && IsOrigin(l.origin)
    && (l.durable.pausedAt.Some? ==> 0 <= l.durable.pausedAt.value <= wall)
    && l.timer.awaitingSince == (if l.durable.pausedAt.Some? then Some(l.durable.pausedAt.value + l.origin) else None)
    && InMemory(l, wall) == OnDisk(l.durable, wall) + grace
  }

  lemma {:induction false} AheadLater(l: Life, wall: int, later: int, grace: int)
    requires IsAhead(l, wall, grace) && wall <= later
    ensures IsAhead(l, later, grace)
  {
  }

  lemma {:induction false} AheadAfterMoment(l: Life, m: Moment, grace: int)
    requires IsAhead(l, m.at, grace) && IsWall(m.at) && m.Enter? == l.durable.pausedAt.None?
    requires l.durable.deadlineAt.value + (m.at - (if l.durable.pausedAt.Some? then l.durable.pausedAt.value else m.at)) <= I64_MAX
    ensures IsAhead(AfterEvent(l, Happens(m)), m.at, grace)
  {
  }

  // A restart forgets what earlier ones granted: memory is made anew from the record.
  lemma {:induction false} AheadAfterRestart(l: Life, wall: int, adoptedAt: int, grace: int)
    requires IsAhead(l, wall, grace) && IsWall(wall) && IsOrigin(adoptedAt - wall)
    ensures IsAhead(AfterEvent(l, Restart(wall, adoptedAt)), wall, AtLeastZero(wall - l.durable.deadlineAt.value))
  {
  }

  lemma {:induction false} LastStepIsAhead(start: int, budget: int, origin: int, events: seq<Event>)
    requires events != []
    requires AreTimed(start, events) && IsTrace(start, Moments(events)) && 0 <= start && 0 <= budget
    requires WallOf(events[|events| - 1]) + budget <= I64_MAX
    requires var n := |events| - 1;
             IsAhead(Live(start, budget, origin, events[..n]), WallOf(events[n]), Grace(start, budget, origin, events[..n]))
    ensures IsAhead(Live(start, budget, origin, events), WallOf(events[|events| - 1]), Grace(start, budget, origin, events))
  {
    hide SpentTicks, AfterEvent, IsTrace, InMemory, OnDisk;
    var n := |events| - 1;
    var before, last, grace := Live(start, budget, origin, events[..n]), events[n], Grace(start, budget, origin, events[..n]);
    if last.Happens? {
      LastMomentIsTimed(start, budget, origin, events);
      AheadAfterMoment(before, last.moment, grace);
    } else {
      AheadAfterRestart(before, last.wall, last.adoptedAt, grace);
    }
  }

  lemma {:induction false} LifeIsAhead(start: int, budget: int, origin: int, events: seq<Event>, now: int)
    requires AreTimed(start, events) && IsTrace(start, Moments(events)) && 0 <= start <= now && 0 <= budget
    requires now + budget <= I64_MAX && (events != [] ==> WallOf(events[|events| - 1]) <= now) && IsOrigin(origin)
    ensures IsAhead(Live(start, budget, origin, events), now, Grace(start, budget, origin, events))
    decreases |events|
  {
    if events != [] {
      var n := |events| - 1;
      var wall := WallOf(events[n]);
      PrefixOfTrace(start, events);
      LifeIsAhead(start, budget, origin, events[..n], wall);
      hide IsTrace, AreTimed, IsAhead, AfterEvent, Live, Grace;
      LastStepIsAhead(start, budget, origin, events);
      AheadLater(Live(start, budget, origin, events), wall, now, Grace(start, budget, origin, events));
    }
  }

  /** Whatever restarts there were, a run that does not await review is taken to have timed out exactly when the time
      it spent not awaiting review has reached its budget and, beyond it, the time by which the durable deadline that
      the last restart found had passed then. Earlier restarts grant nothing. */
  lemma {:induction false} LastRestartGrants(start: int, budget: int, origin: int, events: seq<Event>, now: int)
    requires AreTimed(start, events) && IsTrace(start, Moments(events)) && 0 <= start <= now && 0 <= budget
    requires now + budget <= I64_MAX && (events != [] ==> WallOf(events[|events| - 1]) <= now)
    requires IsOrigin(origin) && |Moments(events)| % 2 == 0
    ensures var l, grace := Live(start, budget, origin, events), Grace(start, budget, origin, events);
            l.timer.deadline.Some?
            && (now + l.origin >= l.timer.deadline.value <==> SpentTicks(Moments(events), start, now) >= budget + grace)
  {
    hide SpentTicks, Live, Moments, Grace, IsTrace, AreTimed;
    LifeIsAhead(start, budget, origin, events, now);
    OnDiskAccounts(start, budget, origin, events, now);
  }

  /** A run with a budget of 10, paused at 5 and restarted at 100, is due 95 after it resumes, not 5. */
  lemma {:induction false} UnfairRestart()
    ensures var events := [Happens(Enter(5)), Restart(100, 100), Happens(Leave(100))];
            Live(0, 10, 0, events).timer.deadline == Some(195) && Grace(0, 10, 0, events) == 90
  {
    var events := [Happens(Enter(5)), Restart(100, 100), Happens(Leave(100))];
    assert events[..2] == [events[0], events[1]] && events[..2][..1] == [events[0]] && events[..2][..1][..0] == [];
    assert Live(0, 10, 0, events[..2][..1]) == Life(Timer(Some(10), None, Some(5)), Durable(Some(10), Some(5)), 0);
    assert Live(0, 10, 0, events[..2]) == Life(Timer(Some(100), None, Some(5)), Durable(Some(10), Some(5)), 0);
  }
}
