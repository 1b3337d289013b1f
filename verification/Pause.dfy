/**
 The pause and cancel flag: two watch channels with version counters, and the waiting loop that
 reads them.  A channel keeps its latest value; `changed` is ready for a subscriber exactly when
 the version differs from the one it has seen.
 */
module Pause {

  datatype Watch = Watch(value: bool, version: nat)

  function Send(w: Watch, value: bool): Watch {
    Watch(value, w.version + 1)
  }

  datatype Flag = Flag(pause: Watch, cancel: Watch)

  const Clear: Flag := Flag(Watch(false, 0), Watch(false, 0))

  datatype Command = DoPause | DoResume | DoCancel

  function Obey(f: Flag, cmd: Command): Flag {
    match cmd
    case DoPause => f.(pause := Send(f.pause, true))
    case DoResume => f.(pause := Send(f.pause, false))
    case DoCancel => f.(cancel := Send(f.cancel, true))
  }

  class PauseFlag {
    var pauseValue: bool
    var pauseVersion: nat
    var cancelValue: bool
    var cancelVersion: nat

    constructor ()
      ensures View() == Clear
    {
      pauseValue, pauseVersion, cancelValue, cancelVersion := false, 0, false, 0;
    }

    ghost function View(): Flag
      reads this
    {
      Flag(Watch(pauseValue, pauseVersion), Watch(cancelValue, cancelVersion))
    }

    method Pause()
      modifies this
      ensures View() == Obey(old(View()), DoPause)
    {
      pauseValue, pauseVersion := true, pauseVersion + 1;
    }

    method Resume()
      modifies this
      ensures View() == Obey(old(View()), DoResume)
    {
      pauseValue, pauseVersion := false, pauseVersion + 1;
    }

    method Cancel()
      modifies this
      ensures View() == Obey(old(View()), DoCancel)
    {
      cancelValue, cancelVersion := true, cancelVersion + 1;
    }
  }

  // ---- the waiting loop, one read of the flag a step ----

  datatype Phase =
    | SubscribePause | SubscribeCancel      // taking both receivers
    | CheckCancel | CheckPause              // top of the loop
    | PollCancel | PollPause                // the two arms, cancel first
    | Blocked                               // neither arm ready
    | Recheck                               // the cancel arm fired
    | Returned(cancelled: bool)

  datatype Waiter = Waiter(phase: Phase, seenPause: nat, seenCancel: nat)

  const Call: Waiter := Waiter(SubscribePause, 0, 0)

  /** A blocked waiter runs again only when one of its channels has changed. */
  predicate Awake(f: Flag, w: Waiter) {
    match w.phase
    case Blocked => f.pause.version != w.seenPause || f.cancel.version != w.seenCancel
    case Returned(_) => false
    case _ => true
  }

  function Advance(f: Flag, w: Waiter): Waiter {
    match w.phase
    case SubscribePause => w.(phase := SubscribeCancel, seenPause := f.pause.version)
    case SubscribeCancel => w.(phase := CheckCancel, seenCancel := f.cancel.version)
    case CheckCancel => w.(phase := if f.cancel.value then Returned(true) else CheckPause)
    case CheckPause => w.(phase := if f.pause.value then PollCancel else Returned(false))
    case PollCancel =>
      if f.cancel.version != w.seenCancel then w.(phase := Recheck, seenCancel := f.cancel.version)
      else w.(phase := PollPause)
    case PollPause =>
      if f.pause.version != w.seenPause then w.(phase := CheckCancel, seenPause := f.pause.version)
      else w.(phase := Blocked)
    case Blocked => w.(phase := PollCancel)
    case Recheck => w.(phase := if f.cancel.value then Returned(true) else CheckCancel)
    case Returned(_) => w
  }

  /** One event of a history: somebody sends a command, or the waiter takes a step. */
  datatype Event = Order(cmd: Command) | Step

  /** `wasClear` records whether the pause flag was clear at some instant since the call began. */
  datatype Scene = Scene(flag: Flag, waiter: Waiter, wasClear: bool)

  function Happen(s: Scene, e: Event): Scene {
    match e
    case Order(cmd) =>
      var f := Obey(s.flag, cmd);
      Scene(f, s.waiter, s.wasClear || !f.pause.value)
    case Step => if Awake(s.flag, s.waiter) then s.(waiter := Advance(s.flag, s.waiter)) else s
  }

  function Play(s: Scene, events: seq<Event>): Scene {
    if events == [] then s else Happen(Play(s, events[..|events| - 1]), events[|events| - 1])
  }

  /** A call begun when the flag is f. */
  function Begin(f: Flag): Scene {
    Scene(f, Call, !f.pause.value)
  }

  predicate PastCancelCheck(p: Phase) {
    p.CheckPause? || p.PollCancel? || p.PollPause? || p.Blocked?
  }

  predicate PastPauseCheck(p: Phase) {
    p.PollCancel? || p.PollPause? || p.Blocked?
  }

  /** What the waiter has seen is not newer than the flag, and what it has not seen change still holds. */
  ghost predicate WaiterOk(f: Flag, w: Waiter) {
    && (w.phase != SubscribePause ==> w.seenPause <= f.pause.version)
    && (w.phase != SubscribePause && w.phase != SubscribeCancel ==> w.seenCancel <= f.cancel.version)
    && (PastCancelCheck(w.phase) && f.cancel.version == w.seenCancel ==> !f.cancel.value)
    && (PastPauseCheck(w.phase) && f.pause.version == w.seenPause ==> f.pause.value)
    && (w.phase == Returned(true) ==> f.cancel.value)
  }

  ghost predicate Faithful(s: Scene) {
    && WaiterOk(s.flag, s.waiter)
    && (!s.flag.pause.value ==> s.wasClear)
    && (s.waiter.phase == Returned(false) ==> s.wasClear)
  }

  lemma FaithfulStep(s: Scene, e: Event)
    requires Faithful(s)
    ensures Faithful(Happen(s, e))
  {
  }

  lemma {:induction false} FaithfulPlay(f: Flag, events: seq<Event>)
    ensures Faithful(Play(Begin(f), events))
  {
    if events != [] {
      FaithfulPlay(f, events[..|events| - 1]);
      FaithfulStep(Play(Begin(f), events[..|events| - 1]), events[|events| - 1]);
    }
  }

  /** No wakeup is lost: whatever commands arrive and whenever, a waiter that cannot run is waiting on
      a flag that is paused and not cancelled now; and what it returns was true at some instant. */
  lemma NoLostWakeup(f: Flag, events: seq<Event>)
    ensures var s := Play(Begin(f), events);
            && (s.waiter.phase == Blocked && !Awake(s.flag, s.waiter) ==> s.flag.pause.value && !s.flag.cancel.value)
            && (s.waiter.phase == Returned(false) ==> s.wasClear)
            && (s.waiter.phase == Returned(true) ==> s.flag.cancel.value)
  {
    FaithfulPlay(f, events);
  }

  /** A call that begins after cancel() passes no pause check: it is subscribing, checking, or has
      returned true, whatever pauses and resumes happen meanwhile. */
  lemma {:induction false} CancelledCallReturnsTrue(f: Flag, events: seq<Event>)
    requires f.cancel.value
    ensures var s := Play(Begin(f), events);
            s.flag.cancel.value && s.waiter.phase in {SubscribePause, SubscribeCancel, CheckCancel, Returned(true)}
    ensures Steps(events) >= 3 ==> Play(Begin(f), events).waiter.phase == Returned(true)
  {
    CancelledCallProgress(f, events);
  }

  function Steps(events: seq<Event>): nat {
    if events == [] then 0
    else Steps(events[..|events| - 1]) + if events[|events| - 1].Step? then 1 else 0
  }

  lemma {:induction false} CancelledCallProgress(f: Flag, events: seq<Event>)
    requires f.cancel.value
    ensures var s, n := Play(Begin(f), events), Steps(events);
            && s.flag.cancel.value
            && s.waiter.phase == if n == 0 then SubscribePause else if n == 1 then SubscribeCancel
                                 else if n == 2 then CheckCancel else Returned(true)
  {
    if events != [] {
      CancelledCallProgress(f, events[..|events| - 1]);
    }
  }

  // ---- what the flag holds, and what resume does ----

  /** The last pause or resume of a history decides; before any, the start does. */
  predicate PausedAfter(start: bool, events: seq<Event>) {
    if events == [] then start
    else
      match events[|events| - 1]
      case Order(DoPause) => true
      case Order(DoResume) => false
      case _ => PausedAfter(start, events[..|events| - 1])
  }

  /** A flag is paused exactly when the last pause or resume was a pause, and cancelled from the first
      cancel on. */
  lemma {:induction false} FlagFollowsCommands(f: Flag, events: seq<Event>)
    ensures var g := Play(Begin(f), events).flag;
            && (g.pause.value <==> PausedAfter(f.pause.value, events))
            && (g.cancel.value <==> f.cancel.value || Order(DoCancel) in events)
  {
    if events != [] {
      var n := |events| - 1;
      FlagFollowsCommands(f, events[..n]);
      assert events == events[..n] + [events[n]];
    }
  }

  /** The steps a call still takes at most on a flag that is clear. */
  function StepsToReturn(p: Phase): nat {
    match p
    case Blocked => 5
    case PollCancel => 4
    case SubscribePause => 4
    case PollPause => 3
    case Recheck => 3
    case SubscribeCancel => 3
    case CheckCancel => 2
    case CheckPause => 1
    case Returned(_) => 0
  }

  lemma ClearStep(f: Flag, w: Waiter)
    requires WaiterOk(f, w) && !f.pause.value && !f.cancel.value && !w.phase.Returned?
    ensures Awake(f, w) && StepsToReturn(Advance(f, w).phase) < StepsToReturn(w.phase)
    ensures Advance(f, w).phase != Returned(true)
  {
  }

  ghost predicate NoPauseNoCancel(events: seq<Event>) {
    Order(DoPause) !in events && Order(DoCancel) !in events
  }

  lemma {:induction false} ClearRun(s: Scene, events: seq<Event>)
    requires WaiterOk(s.flag, s.waiter) && !s.flag.pause.value && !s.flag.cancel.value && NoPauseNoCancel(events)
    ensures var t := Play(s, events);
            && WaiterOk(t.flag, t.waiter) && !t.flag.pause.value && !t.flag.cancel.value
            && (t.waiter.phase.Returned? || StepsToReturn(t.waiter.phase) + Steps(events) <= StepsToReturn(s.waiter.phase))
            && (s.waiter.phase.Returned? ==> t.waiter == s.waiter)
  {
    if events != [] {
      var n := |events| - 1;
      assert events == events[..n] + [events[n]];
      ClearRun(s, events[..n]);
      var u := Play(s, events[..n]);
      if events[n].Step? && !u.waiter.phase.Returned? { ClearStep(u.flag, u.waiter); }
    }
  }

  /** Resume is not lost either: wherever it finds a waiting call, on a flag that is not cancelled, five of
      the call's steps make it return false, if no further pause or cancel comes. */
  lemma ResumeWakes(f: Flag, before: seq<Event>, after: seq<Event>)
    requires !f.cancel.value && Order(DoCancel) !in before && NoPauseNoCancel(after) && Steps(after) >= 5
    ensures Play(Happen(Play(Begin(f), before), Order(DoResume)), after).waiter.phase == Returned(false)
  {
    var s := Play(Begin(f), before);
    FaithfulPlay(f, before);
    FaithfulStep(s, Order(DoResume));
    FlagFollowsCommands(f, before);
    var t := Happen(s, Order(DoResume));
    assert (before + [Order(DoResume)])[..|before|] == before;
    FlagFollowsCommands(f, before + [Order(DoResume)]);
    ClearRun(t, after);
    FaithfulRun(t, after);
  }

  lemma {:induction false} FaithfulRun(s: Scene, events: seq<Event>)
    requires Faithful(s)
    ensures Faithful(Play(s, events))
  {
    if events != [] {
      FaithfulRun(s, events[..|events| - 1]);
      FaithfulStep(Play(s, events[..|events| - 1]), events[|events| - 1]);
    }
  }

  /** A call begun on a paused flag, on which no resume comes, never returns false. */
  lemma PausedCallWaits(f: Flag, events: seq<Event>)
    requires f.pause.value && Order(DoResume) !in events
    ensures Play(Begin(f), events).waiter.phase != Returned(false)
  {
    StaysUnclear(f, events);
    FaithfulPlay(f, events);
  }

  lemma {:induction false} StaysUnclear(f: Flag, events: seq<Event>)
    requires f.pause.value && Order(DoResume) !in events
    ensures !Play(Begin(f), events).wasClear && Play(Begin(f), events).flag.pause.value
  {
    if events != [] {
      assert events == events[..|events| - 1] + [events[|events| - 1]];
      StaysUnclear(f, events[..|events| - 1]);
    }
  }

  // ---- waiting for cancel alone ----

  datatype CancelPhase =
    | Subscribe | Look                      // the receiver, and its first look
    | Poll | Asleep                         // waiting for the channel to change
    | LookAgain                             // it has
    | Seen                                  // returned

  datatype CancelWaiter = CancelWaiter(phase: CancelPhase, seen: nat)

  const CancelCall: CancelWaiter := CancelWaiter(Subscribe, 0)

  predicate CancelAwake(f: Flag, w: CancelWaiter) {
    w.phase != Seen && (w.phase == Asleep ==> f.cancel.version != w.seen)
  }

  function CancelAdvance(f: Flag, w: CancelWaiter): CancelWaiter {
    match w.phase
    case Subscribe => CancelWaiter(Look, f.cancel.version)
    case Look => w.(phase := if f.cancel.value then Seen else Poll)
    case Poll => if f.cancel.version != w.seen then CancelWaiter(LookAgain, f.cancel.version) else w.(phase := Asleep)
    case Asleep => w.(phase := Poll)
    case LookAgain => w.(phase := if f.cancel.value then Seen else Poll)
    case Seen => w
  }

  datatype CancelScene = CancelScene(flag: Flag, waiter: CancelWaiter)

  function CancelHappen(s: CancelScene, e: Event): CancelScene {
    match e
    case Order(cmd) => s.(flag := Obey(s.flag, cmd))
    case Step => if CancelAwake(s.flag, s.waiter) then s.(waiter := CancelAdvance(s.flag, s.waiter)) else s
  }

  function CancelPlay(s: CancelScene, events: seq<Event>): CancelScene {
    if events == [] then s else CancelHappen(CancelPlay(s, events[..|events| - 1]), events[|events| - 1])
  }

  /** A waiter that has looked and still waits has seen every version in which the flag was not cancelled. */
  ghost predicate CancelWaiterOk(f: Flag, w: CancelWaiter) {
    && (w.phase != Subscribe ==> w.seen <= f.cancel.version)
    && (w.phase == Poll || w.phase == Asleep ==> f.cancel.version == w.seen ==> !f.cancel.value)
    && (w.phase == Seen ==> f.cancel.value)
  }

  lemma {:induction false} CancelPlayOk(s: CancelScene, events: seq<Event>)
    requires CancelWaiterOk(s.flag, s.waiter)
    ensures CancelWaiterOk(CancelPlay(s, events).flag, CancelPlay(s, events).waiter)
  {
    if events != [] { CancelPlayOk(s, events[..|events| - 1]); }
  }

  /** No cancel is missed: a call that cannot run has not been cancelled, and one that has returned has. */
  lemma NoLostCancel(f: Flag, events: seq<Event>)
    ensures var s := CancelPlay(CancelScene(f, CancelCall), events);
            && (s.waiter.phase == Asleep && !CancelAwake(s.flag, s.waiter) ==> !s.flag.cancel.value)
            && (s.waiter.phase == Seen ==> s.flag.cancel.value)
  {
    CancelPlayOk(CancelScene(f, CancelCall), events);
  }

  function StepsToSeen(p: CancelPhase): nat {
    match p
    case Asleep => 3
    case Subscribe => 2
    case Poll => 2
    case Look => 1
    case LookAgain => 1
    case Seen => 0
  }

  lemma {:induction false} CancelledRunsOut(s: CancelScene, events: seq<Event>)
    requires CancelWaiterOk(s.flag, s.waiter) && s.flag.cancel.value
    ensures var t := CancelPlay(s, events);
            && t.flag.cancel.value
            && (t.waiter.phase == Seen || StepsToSeen(t.waiter.phase) + Steps(events) <= StepsToSeen(s.waiter.phase))
  {
    if events != [] {
      CancelledRunsOut(s, events[..|events| - 1]);
      CancelPlayOk(s, events[..|events| - 1]);
    }
  }

  /** After cancel(), wherever it finds the call, three of its steps are enough for it to return, whatever
      is sent meanwhile. */
  lemma CancelWakes(f: Flag, before: seq<Event>, after: seq<Event>)
    requires Steps(after) >= 3
    ensures var s := CancelPlay(CancelScene(f, CancelCall), before);
            CancelPlay(CancelHappen(s, Order(DoCancel)), after).waiter.phase == Seen
  {
    var s := CancelPlay(CancelScene(f, CancelCall), before);
    CancelPlayOk(CancelScene(f, CancelCall), before);
    CancelledRunsOut(CancelHappen(s, Order(DoCancel)), after);
  }

  /** While the flag stands still the first poll of a call settles it: it returns if the flag is cancelled,
      and otherwise goes to sleep until the next cancel.  The send loops poll a new call each time round. */
  lemma FirstPoll(f: Flag)
    ensures CancelPlay(CancelScene(f, CancelCall), [Step, Step, Step]).waiter.phase == if f.cancel.value then Seen else Asleep
  {
    var s := CancelScene(f, CancelCall);
    assert [Step, Step, Step][..2] == [Step, Step] && [Step, Step][..1] == [Step] && [Step][..0] == [];
    assert CancelPlay(s, [Step]) == CancelHappen(s, Step);
    assert CancelPlay(s, [Step, Step]) == CancelHappen(CancelHappen(s, Step), Step);
  }
}
