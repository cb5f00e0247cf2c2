/** Waiters and appenders of the long poll, interleaved at every await point. */
module LongPoll {
  import opened Strings
  import opened Lifecycles
  import opened EventLogs

  type WaiterId = nat
  type AppenderId = nat

  /** Where one `events_since_or_wait` call stands. `notified` is the flag of its
      registered `Notified` future. */
  datatype Waiter =
    | Checking(since: Option<nat>, waits: bool)
    | Unregistered(since: Option<nat>)
    | Registered(since: Option<nat>, notified: bool)
    | Parked(since: Option<nat>, notified: bool, page: Reply)
    | Answered(since: Option<nat>, reply: Reply)

  datatype World = World(
    history: seq<Entry>,
    dropped: nat,
    waiters: map<WaiterId, Waiter>,
    waiterCount: int,                 // the atomic the guard raises and drops
    inFlight: map<AppenderId, nat>,   // pushed, not yet at notify_waiters: the entry's number
    lost: set<nat>)                   // entries whose append failed after its push, since the last notify

  datatype Action =
    | Begin(w: WaiterId, since: Option<nat>, waits: bool)
    | FirstCheck(w: WaiterId)
    | Register(w: WaiterId)
    | SecondCheck(w: WaiterId)
    | Wake(w: WaiterId)
    | TimeOut(w: WaiterId)
    | Disconnect(w: WaiterId)
    | PushEvent(a: AppenderId, event: RuntimeEvent, tsMs: nat, drop: nat)
    | Notify(a: AppenderId)
    | FailBeforeNotify(a: AppenderId)

  const START := World([], 0, map[], 0, map[], {})

  function Events(s: World): seq<Entry> {
    if s.dropped <= |s.history| then s.history[s.dropped..] else []
  }

  function Read(s: World, since: Option<nat>): Reply { PageSince(Events(s), since) }

  predicate Empty(r: Reply) { r.Page? && r.events == [] }

  function Awakened(waiters: map<WaiterId, Waiter>): map<WaiterId, Waiter> {
    map w | w in waiters ::
      match waiters[w]
      case Registered(since, _) => Registered(since, true)
      case Parked(since, _, page) => Parked(since, true, page)
      case other => other
  }

  function Apply(s: World, a: Action): World {
    match a
    case Begin(w, since, waits) =>
      if w in s.waiters then s else s.(waiters := s.waiters[w := Checking(since, waits)])
    case FirstCheck(w) =>
      if w !in s.waiters || !s.waiters[w].Checking? then s
      else
        var Checking(since, waits) := s.waiters[w];
        var r := Read(s, since);
        s.(waiters := s.waiters[w := if !waits || !Empty(r) then Answered(since, r) else Unregistered(since)])
    case Register(w) =>
      if w !in s.waiters || !s.waiters[w].Unregistered? then s
      else s.(waiters := s.waiters[w := Registered(s.waiters[w].since, false)])
    case SecondCheck(w) =>
      if w !in s.waiters || !s.waiters[w].Registered? then s
      else
        var Registered(since, notified) := s.waiters[w];
        var r := Read(s, since);
        if !Empty(r) then s.(waiters := s.waiters[w := Answered(since, r)])
        else s.(waiters := s.waiters[w := Parked(since, notified, r)], waiterCount := s.waiterCount + 1)
    case Wake(w) =>
      if w !in s.waiters || !s.waiters[w].Parked? || !s.waiters[w].notified then s
      else
        var since := s.waiters[w].since;
        s.(waiters := s.waiters[w := Answered(since, Read(s, since))], waiterCount := s.waiterCount - 1)
    case TimeOut(w) =>
      if w !in s.waiters || !s.waiters[w].Parked? then s
      else s.(waiters := s.waiters[w := Answered(s.waiters[w].since, s.waiters[w].page)],
              waiterCount := s.waiterCount - 1)
    case Disconnect(w) =>
      if w !in s.waiters then s
      else s.(waiters := s.waiters - {w},
              waiterCount := if s.waiters[w].Parked? then s.waiterCount - 1 else s.waiterCount)
    case PushEvent(a, event, tsMs, drop) =>
      // the lock spans push and compaction; `drop` is the prefix compaction removes
      if a in s.inFlight || drop > |s.history| || drop < s.dropped then s
      else s.(history := s.history + [Entry(|s.history| + 1, tsMs, event)], dropped := drop,
              inFlight := s.inFlight[a := |s.history| + 1])
    case Notify(a) =>
      if a !in s.inFlight then s
      else s.(inFlight := s.inFlight - {a}, waiters := Awakened(s.waiters), lost := {})
    case FailBeforeNotify(a) =>
      if a !in s.inFlight then s
      else s.(inFlight := s.inFlight - {a}, lost := s.lost + {s.inFlight[a]})
  }

  function Exec(acts: seq<Action>): World {
    if acts == [] then START else Apply(Exec(acts[..|acts| - 1]), acts[|acts| - 1])
  }

  // ---------- No lost wake-up ----------

  ghost predicate WindowInv(s: World) {
    && (forall i :: 0 <= i < |s.history| ==> s.history[i].sequence == i + 1)
    && s.dropped <= |s.history| && (s.history == [] || s.dropped < |s.history|)
  }

  /** The entry is in memory but its append has not notified: it still may, or it failed. */
  ghost predicate Unannounced(s: World, n: nat) {
    n in s.lost || exists a :: a in s.inFlight && s.inFlight[a] == n
  }

  /** Every entry beyond the cursor of a parked, unnotified waiter is unannounced. */
  ghost predicate WaiterFresh(s: World, w: WaiterId) {
    w in s.waiters && s.waiters[w].Parked? && !s.waiters[w].notified ==>
      forall n: nat :: CursorOf(s.waiters[w].since) < n <= |s.history| ==> Unannounced(s, n)
  }

  /** Unannounced entries exist. */
  ghost predicate Numbers(s: World) {
    && (forall n :: n in s.lost ==> n <= |s.history|)
    && (forall a :: a in s.inFlight ==> s.inFlight[a] <= |s.history|)
  }

  ghost predicate Fresh(s: World) { Numbers(s) && forall w :: WaiterFresh(s, w) }

  lemma ReadEmptyIff(s: World, since: Option<nat>)
    requires WindowInv(s)
    ensures Empty(Read(s, since)) <==> CursorOf(since) >= |s.history|
  {
    var es := Events(s);
    assert forall i :: 0 <= i < |es| ==> es[i] == s.history[s.dropped + i];
    AfterSlice(es, s.dropped, CursorOf(since));
  }

  /** A step other than a notify keeps an unannounced entry so. */
  lemma UnannouncedStays(s: World, a: Action, n: nat)
    requires Unannounced(s, n) && !a.Notify?
    ensures Unannounced(Apply(s, a), n)
  {
    var s' := Apply(s, a);
    if n !in s.lost {
      var x :| x in s.inFlight && s.inFlight[x] == n;
      if a == FailBeforeNotify(x) {
        assert n in s'.lost;
      } else {
        assert x in s'.inFlight && s'.inFlight[x] == n;
      }
    }
  }

  lemma ApplyKeepsWaiter(s: World, a: Action, w: WaiterId)
    requires WindowInv(s) && WaiterFresh(s, w)
    ensures WaiterFresh(Apply(s, a), w)
  {
    var s' := Apply(s, a);
    if w in s'.waiters && s'.waiters[w].Parked? && !s'.waiters[w].notified {
      if w in s.waiters && s.waiters[w].Parked? {
        forall n: nat | CursorOf(s'.waiters[w].since) < n <= |s'.history|
          ensures Unannounced(s', n)
        {
          if n <= |s.history| && s' != s {
            UnannouncedStays(s, a, n);
          } else if s' != s {
            assert s'.inFlight[a.a] == n;
          }
        }
      } else {
        ReadEmptyIff(s, s.waiters[w].since);
      }
    }
  }

  lemma ApplyKeepsNumbers(s: World, a: Action)
    requires WindowInv(s) && Numbers(s)
    ensures WindowInv(Apply(s, a)) && Numbers(Apply(s, a))
  {
  }

  lemma ApplyKeepsFresh(s: World, a: Action)
    requires WindowInv(s) && Fresh(s)
    ensures WindowInv(Apply(s, a)) && Fresh(Apply(s, a))
  {
    ApplyKeepsNumbers(s, a);
    forall w
      ensures WaiterFresh(Apply(s, a), w)
    {
      ApplyKeepsWaiter(s, a, w);
    }
  }

  lemma {:induction false} ExecKeepsFresh(acts: seq<Action>)
    ensures WindowInv(Exec(acts)) && Fresh(Exec(acts))
  {
    if acts != [] {
      ExecKeepsFresh(acts[..|acts| - 1]);
      ApplyKeepsFresh(Exec(acts[..|acts| - 1]), acts[|acts| - 1]);
    }
  }

  /** NO LOST WAKE-UP. In every interleaving, a parked waiter with no pending notification
      has something beyond its cursor exactly when an entry beyond its cursor was pushed
      by an append that has not notified; once no append is under way, exactly when such
      an append failed and none has notified since. */
  lemma NoLostWakeup(acts: seq<Action>, w: WaiterId)
    requires w in Exec(acts).waiters && Exec(acts).waiters[w].Parked? && !Exec(acts).waiters[w].notified
    ensures var s := Exec(acts);
            var cursor := CursorOf(s.waiters[w].since);
            && (!Empty(Read(s, s.waiters[w].since)) <==> exists n: nat :: n > cursor && Unannounced(s, n))
            && (s.inFlight == map[] ==>
                  (!Empty(Read(s, s.waiters[w].since)) <==> exists n :: n in s.lost && n > cursor))
  {
    ExecKeepsFresh(acts);
    var s := Exec(acts);
    var cursor := CursorOf(s.waiters[w].since);
    ReadEmptyIff(s, s.waiters[w].since);
    assert WaiterFresh(s, w);
    if |s.history| > cursor {
      assert Unannounced(s, |s.history|);
    }
  }

  lemma ExecPush(acts: seq<Action>, a: Action)
    ensures Exec(acts + [a]) == Apply(Exec(acts), a)
  {
    assert (acts + [a])[..|acts|] == acts;
  }

  /** One waiter brought to its parked state over the empty log. */
  function Parking(): seq<Action> { [Begin(0, None, true)] + [FirstCheck(0)] + [Register(0)] + [SecondCheck(0)] }

  function Lone(x: Waiter): World { World([], 0, map[0 := x], if x.Parked? then 1 else 0, map[], {}) }

  const PARKED_WORLD := World([], 0, map[0 := Parked(None, false, Page([], 0))], 1, map[], {})

  lemma LoneReads(x: Waiter)
    ensures Read(Lone(x), None) == Page([], 0)
  {
    assert EventsOf([]) == [];
  }

  lemma LoneMoves(x: Waiter, y: Waiter)
    ensures map[0 := x][0 := y] == map[0 := y]
  {
  }

  lemma LoneFirstCheck()
    ensures Apply(Lone(Checking(None, true)), FirstCheck(0)) == Lone(Unregistered(None))
  {
    LoneReads(Checking(None, true));
    LoneMoves(Checking(None, true), Unregistered(None));
  }

  lemma LoneRegister()
    ensures Apply(Lone(Unregistered(None)), Register(0)) == Lone(Registered(None, false))
  {
    LoneMoves(Unregistered(None), Registered(None, false));
  }

  lemma LoneSecondCheck()
    ensures Apply(Lone(Registered(None, false)), SecondCheck(0)) == PARKED_WORLD
  {
    LoneReads(Registered(None, false));
    LoneMoves(Registered(None, false), Parked(None, false, Page([], 0)));
  }

  lemma ParkingParks()
    ensures Exec(Parking()) == PARKED_WORLD
  {
    var a1 := [Begin(0, None, true)];
    assert [] + a1 == a1;
    ExecPush([], Begin(0, None, true));
    assert Exec(a1) == Lone(Checking(None, true));
    ExecPush(a1, FirstCheck(0));
    LoneFirstCheck();
    ExecPush(a1 + [FirstCheck(0)], Register(0));
    LoneRegister();
    ExecPush(a1 + [FirstCheck(0)] + [Register(0)], SecondCheck(0));
    LoneSecondCheck();
  }

  lemma FailedAppendAfter(acts: seq<Action>, event: RuntimeEvent)
    requires Exec(acts) == PARKED_WORLD
    ensures Exec(acts + [PushEvent(0, event, 0, 0)] + [FailBeforeNotify(0)])
         == PARKED_WORLD.(history := [Entry(1, 0, event)], lost := {1})
  {
    var push := PushEvent(0, event, 0, 0);
    ExecPush(acts, push);
    assert Apply(PARKED_WORLD, push) == PARKED_WORLD.(history := [Entry(1, 0, event)], inFlight := map[0 := 1]);
    ExecPush(acts + [push], FailBeforeNotify(0));
  }

  /** Such a failure happens: one waiter, one append that fails after its push,
      and the waiter sleeps on an event it should have. */
  lemma FailedAppendStrandsWaiter(event: RuntimeEvent)
    ensures var s := Exec(Parking() + [PushEvent(0, event, 0, 0)] + [FailBeforeNotify(0)]);
              && 0 in s.waiters && s.waiters[0].Parked? && !s.waiters[0].notified && s.inFlight == map[]
              && Read(s, s.waiters[0].since) == Page([event], 1)
  {
    ParkingParks();
    var acts := Parking() + [PushEvent(0, event, 0, 0)] + [FailBeforeNotify(0)];
    FailedAppendAfter(Parking(), event);
    assert Events(Exec(acts)) == [Entry(1, 0, event)][0..];
    OneEntryPage(Entry(1, 0, event));
  }

  lemma OneEntryPage(e: Entry)
    requires e.sequence == 1
    ensures PageSince([e][0..], None) == Page([e.event], 1)
  {
    assert [e][0..] == [e];
    assert After([e], 0) == [e];
    assert EventsOf([e]) == [e.event];
  }

  // ---------- What a call is answered ----------

  lemma AfterFrom(history: seq<Entry>, dropped: nat, cursor: nat)
    requires forall i :: 0 <= i < |history| ==> history[i].sequence == i + 1
    requires dropped <= cursor <= |history|
    ensures After(history[dropped..], cursor) == history[cursor..]
  {
    var es := history[dropped..];
    assert forall i :: 0 <= i < |es| ==> es[i] == history[dropped + i];
    AfterSlice(es, dropped, cursor);
    assert es[cursor - dropped..] == history[cursor..];
  }

  lemma WindowEnds(s: World)
    requires WindowInv(s) && s.history != []
    ensures Events(s)[0].sequence == s.dropped + 1 && Events(s)[|Events(s)| - 1].sequence == |s.history|
  {
    assert Events(s)[0] == s.history[s.dropped];
    assert Events(s)[|Events(s)| - 1] == s.history[|s.history| - 1];
  }

  /** A read on the window, in terms of history and dropped prefix alone. */
  lemma ReadIs(s: World, since: Option<nat>)
    requires WindowInv(s) && CursorOf(since) <= |s.history|
    ensures Read(s, since) == if CursorOf(since) < s.dropped then CursorExpired(s.dropped)
                              else Page(EventsOf(s.history[CursorOf(since)..]), |s.history|)
  {
    if s.history != [] {
      WindowEnds(s);
    }
    if s.dropped <= CursorOf(since) {
      AfterFrom(s.history, s.dropped, CursorOf(since));
    }
  }

  predicate AnsweredNow(s: World, a: Action, w: WaiterId) {
    && w in s.waiters && !s.waiters[w].Answered?
    && w in Apply(s, a).waiters && Apply(s, a).waiters[w].Answered?
  }

  /** An answer is a read of this moment, or the page a parked call holds when it times out. */
  lemma AnswerIsRead(s: World, a: Action, w: WaiterId)
    requires AnsweredNow(s, a, w)
    ensures var before := s.waiters[w];
            && Apply(s, a).waiters[w].since == before.since
            && (a == FirstCheck(w) || a == SecondCheck(w) || a == Wake(w) || a == TimeOut(w))
            && (a != TimeOut(w) ==> Apply(s, a).waiters[w].reply == Read(s, before.since))
            && (a == TimeOut(w) ==> before.Parked? && Apply(s, a).waiters[w].reply == before.page)
            && (a == FirstCheck(w) ==> before.Checking? && (before.waits ==> !Empty(Read(s, before.since))))
            && (a == SecondCheck(w) ==> !Empty(Read(s, before.since)))
            && (a == Wake(w) ==> before.Parked? && before.notified)
  {
  }

  /** ANSWERS. In every run a call whose cursor lies inside the history is answered by its
      first check, its second check or its wake with everything beyond the cursor at that
      moment, or with the start of the log if that lies beyond the cursor; only a timeout
      answers with the older, empty page. The checks of a call that waits answer only when
      there is something to read. */
  lemma AnswersAreCurrent(acts: seq<Action>, a: Action, w: WaiterId)
    requires AnsweredNow(Exec(acts), a, w) && CursorOf(Exec(acts).waiters[w].since) <= |Exec(acts).history|
    ensures var s := Exec(acts);
            var before := s.waiters[w];
            var cursor, reply := CursorOf(before.since), Apply(s, a).waiters[w].reply;
            && Apply(s, a).waiters[w].since == before.since
            && (a == FirstCheck(w) || a == SecondCheck(w) || a == Wake(w) || a == TimeOut(w))
            && (a != TimeOut(w) ==>
                  reply == if cursor < s.dropped then CursorExpired(s.dropped)
                           else Page(EventsOf(s.history[cursor..]), |s.history|))
            && (a == TimeOut(w) ==> reply.Page? && reply.events == [])
            && (a == FirstCheck(w) && before.waits ==> cursor < |s.history|)
            && (a == SecondCheck(w) ==> cursor < |s.history|)
            && (a == Wake(w) ==> before.notified)
  {
    ExecKeepsFresh(acts);
    ExecKeepsEmpty(acts, w);
    var s := Exec(acts);
    AnswerIsRead(s, a, w);
    ReadIs(s, s.waiters[w].since);
    ReadEmptyIff(s, s.waiters[w].since);
  }

  /** A parked call holds an empty page. */
  predicate HoldsEmpty(s: World, w: WaiterId) { w in s.waiters && s.waiters[w].Parked? ==> Empty(s.waiters[w].page) }

  lemma {:induction false} ExecKeepsEmpty(acts: seq<Action>, w: WaiterId)
    ensures HoldsEmpty(Exec(acts), w)
  {
    if acts != [] {
      ExecKeepsEmpty(acts[..|acts| - 1], w);
    }
  }

  /** Every step a call can take is taken: a check answers when there is something to read
      or the call does not wait, and otherwise moves the call on; a notified call wakes and
      a parked one can time out. */
  lemma CallsProceed(acts: seq<Action>, w: WaiterId)
    requires w in Exec(acts).waiters
    ensures var s := Exec(acts);
            var x := s.waiters[w];
            match x
            case Checking(since, waits) =>
              AnsweredNow(s, FirstCheck(w), w) <==> !waits || CursorOf(since) < |s.history|
            case Unregistered(since) => Apply(s, Register(w)).waiters[w] == Registered(since, false)
            case Registered(since, notified) =>
              if CursorOf(since) < |s.history| then AnsweredNow(s, SecondCheck(w), w)
              else
                var after := Apply(s, SecondCheck(w)).waiters[w];
                after.Parked? && after.notified == notified
            case Parked(since, notified, page) =>
              && (AnsweredNow(s, Wake(w), w) <==> notified)
              && AnsweredNow(s, TimeOut(w), w) && Apply(s, TimeOut(w)).waiters[w] == Answered(since, page)
            case Answered(_, _) => true
  {
    ExecKeepsFresh(acts);
    ReadEmptyIff(Exec(acts), Exec(acts).waiters[w].since);
  }

  /** The appender's side: a push adds the next entry and is under way until it notifies,
      which flags exactly the listening calls and settles what failed before, or fails. */
  lemma AppendersProceed(s: World, a: AppenderId, event: RuntimeEvent, tsMs: nat, drop: nat)
    ensures a !in s.inFlight && s.dropped <= drop <= |s.history| ==>
              Apply(s, PushEvent(a, event, tsMs, drop))
              == s.(history := s.history + [Entry(|s.history| + 1, tsMs, event)], dropped := drop,
                    inFlight := s.inFlight[a := |s.history| + 1])
    ensures a in s.inFlight ==>
              var r := Apply(s, Notify(a));
              && r.inFlight == s.inFlight - {a} && r.lost == {} && r.history == s.history && r.dropped == s.dropped
              && r.waiters.Keys == s.waiters.Keys && r.waiterCount == s.waiterCount
              && forall w :: w in s.waiters ==> FlaggedOnly(s.waiters[w], r.waiters[w])
    ensures a in s.inFlight ==>
              Apply(s, FailBeforeNotify(a))
              == s.(inFlight := s.inFlight - {a}, lost := s.lost + {s.inFlight[a]})
  {
    if a in s.inFlight {
      assert Apply(s, Notify(a)).waiters.Keys == s.waiters.Keys;
    }
  }

  /** A notify flags a listening call and changes nothing else of any call. */
  predicate FlaggedOnly(before: Waiter, after: Waiter) {
    match before
    case Registered(since, _) => after == Registered(since, true)
    case Parked(since, _, page) => after == Parked(since, true, page)
    case _ => after == before
  }

  /** Calls come and go: a new one starts at its first check, a disconnected one is gone. */
  lemma CallsComeAndGo(s: World, w: WaiterId, since: Option<nat>, waits: bool)
    ensures w !in s.waiters ==> Apply(s, Begin(w, since, waits)).waiters == s.waiters[w := Checking(since, waits)]
    ensures Apply(s, Disconnect(w)).waiters == s.waiters - {w}
    ensures Apply(s, Disconnect(w)).history == s.history && Apply(s, Disconnect(w)).inFlight == s.inFlight
  {
  }

  predicate Listening(x: Waiter) { x.Registered? || x.Parked? }

  predicate NotifiedIn(s: World, w: WaiterId) {
    w in s.waiters && Listening(s.waiters[w]) && s.waiters[w].notified
  }

  lemma NotifyStep(s: World, a: Action, w: WaiterId)
    requires !NotifiedIn(s, w) && NotifiedIn(Apply(s, a), w)
    ensures a.Notify? && a.a in s.inFlight && w in s.waiters && Listening(s.waiters[w])
  {
  }

  /** A call is notified only by an append that reached its notify while the call listened. */
  lemma {:induction false} NotifiedByNotify(acts: seq<Action>, w: WaiterId)
    requires NotifiedIn(Exec(acts), w)
    ensures exists k :: 0 <= k < |acts| && acts[k].Notify? && acts[k].a in Exec(acts[..k]).inFlight
              && w in Exec(acts[..k]).waiters && Listening(Exec(acts[..k]).waiters[w])
  {
    var n := |acts| - 1;
    if NotifiedIn(Exec(acts[..n]), w) {
      NotifiedByNotify(acts[..n], w);
      var k :| 0 <= k < n && acts[..n][k].Notify? && acts[..n][k].a in Exec(acts[..n][..k]).inFlight
        && w in Exec(acts[..n][..k]).waiters && Listening(Exec(acts[..n][..k]).waiters[w]);
      assert acts[..n][..k] == acts[..k];
    } else {
      NotifyStep(Exec(acts[..n]), acts[n], w);
    }
  }

  // ---------- The waiter count ----------

  function ParkedIn(waiters: map<WaiterId, Waiter>): set<WaiterId> {
    set w | w in waiters && waiters[w].Parked?
  }

  function One(b: bool): nat { if b then 1 else 0 }

  predicate ParkedAt(waiters: map<WaiterId, Waiter>, w: WaiterId) { w in waiters && waiters[w].Parked? }

  lemma ParkedUpdate(waiters: map<WaiterId, Waiter>, w: WaiterId, x: Waiter)
    ensures |ParkedIn(waiters[w := x])| == |ParkedIn(waiters)| - One(ParkedAt(waiters, w)) + One(x.Parked?)
  {
    var others := ParkedIn(waiters) - {w};
    assert ParkedIn(waiters) == if ParkedAt(waiters, w) then others + {w} else others;
    assert ParkedIn(waiters[w := x]) == if x.Parked? then others + {w} else others;
  }

  lemma ParkedRemove(waiters: map<WaiterId, Waiter>, w: WaiterId)
    ensures |ParkedIn(waiters - {w})| == |ParkedIn(waiters)| - One(ParkedAt(waiters, w))
  {
    var others := ParkedIn(waiters) - {w};
    assert ParkedIn(waiters) == if ParkedAt(waiters, w) then others + {w} else others;
    assert ParkedIn(waiters - {w}) == others;
  }

  lemma ParkedAwakened(waiters: map<WaiterId, Waiter>)
    ensures ParkedIn(Awakened(waiters)) == ParkedIn(waiters)
  {
  }

  lemma ApplyKeepsCount(s: World, a: Action)
    requires s.waiterCount == |ParkedIn(s.waiters)|
    ensures Apply(s, a).waiterCount == |ParkedIn(Apply(s, a).waiters)|
  {
    var s' := Apply(s, a);
    match a
    case Notify(_) => ParkedAwakened(s.waiters);
    case Disconnect(w) => ParkedRemove(s.waiters, w);
    case PushEvent(_, _, _, _) =>
    case FailBeforeNotify(_) =>
    case _ =>
      if s' != s { ParkedUpdate(s.waiters, a.w, s'.waiters[a.w]); }
  }

  /** The guard's counter equals the number of parked calls, however they end. */
  lemma {:induction false} WaiterCountIsParked(acts: seq<Action>)
    ensures Exec(acts).waiterCount == |ParkedIn(Exec(acts).waiters)|
  {
    if acts != [] {
      WaiterCountIsParked(acts[..|acts| - 1]);
      ApplyKeepsCount(Exec(acts[..|acts| - 1]), acts[|acts| - 1]);
    }
  }

  // ---------- Timed-out answers ----------

  lemma ApplyGrows(s: World, a: Action)
    ensures s.history <= Apply(s, a).history
  {
  }

  lemma {:induction false} ExecGrows(acts: seq<Action>, more: seq<Action>)
    ensures Exec(acts).history <= Exec(acts + more).history
  {
    if more == [] {
      assert acts + more == acts;
    } else {
      var front := more[..|more| - 1];
      ExecGrows(acts, front);
      ExecPush(acts + front, more[|more| - 1]);
      assert acts + more == acts + front + [more[|more| - 1]];
      ApplyGrows(Exec(acts + front), more[|more| - 1]);
    }
  }

  /** The page a parked waiter will time out with never runs ahead of its request. */
  predicate PageBehind(s: World, w: WaiterId) {
    w in s.waiters && s.waiters[w].Parked? ==>
      var since, page := CursorOf(s.waiters[w].since), s.waiters[w].page;
      && Empty(page)
      && (page.cursor == since || (page.cursor < since && page.cursor <= |s.history|))
  }

  ghost predicate AllBehind(s: World) { forall w :: PageBehind(s, w) }

  lemma SecondCheckBehind(s: World, w: WaiterId)
    requires WindowInv(s) && |s.history| <= U64_MAX
    requires w in s.waiters && s.waiters[w].Registered?
    ensures PageBehind(Apply(s, SecondCheck(w)), w)
  {
    PageOfWindow(s.history, s.dropped, s.waiters[w].since);
  }

  lemma ApplyKeepsBehind(s: World, a: Action, w: WaiterId)
    requires WindowInv(s) && |s.history| <= U64_MAX && PageBehind(s, w)
    ensures PageBehind(Apply(s, a), w)
  {
    if a == SecondCheck(w) && w in s.waiters && s.waiters[w].Registered? {
      SecondCheckBehind(s, w);
    } else {
      ApplyGrows(s, a);
    }
  }

  lemma {:induction false} ExecKeepsBehind(acts: seq<Action>)
    requires |Exec(acts).history| <= U64_MAX
    ensures AllBehind(Exec(acts))
  {
    if acts != [] {
      var front := acts[..|acts| - 1];
      ExecKeepsFresh(front);
      ApplyGrows(Exec(front), acts[|acts| - 1]);
      ExecKeepsBehind(front);
      forall w
        ensures PageBehind(Exec(acts), w)
      {
        assert PageBehind(Exec(front), w);
        ApplyKeepsBehind(Exec(front), acts[|acts| - 1], w);
      }
    }
  }

  lemma ReadFrom(s: World, cursor: nat)
    requires WindowInv(s) && |s.history| <= U64_MAX && cursor <= |s.history|
    ensures Read(s, Some(cursor))
         == if cursor < s.dropped then CursorExpired(s.dropped)
            else Page(EventsOf(s.history[cursor..]), |s.history|)
  {
    PageOfWindow(s.history, s.dropped, Some(cursor));
  }

  lemma BehindAt(acts: seq<Action>, w: WaiterId)
    requires |Exec(acts).history| <= U64_MAX
    requires w in Exec(acts).waiters && Exec(acts).waiters[w].Parked?
    ensures ReplyCursor(Exec(acts).waiters[w].page) <= CursorOf(Exec(acts).waiters[w].since)
  {
    ExecKeepsBehind(acts);
    assert PageBehind(Exec(acts), w);
  }

  /** A timed-out answer may be stale, but its cursor loses nothing: at any later point
      of the run a poll from it returns every later event, or says that it expired. */
  lemma StalePageLosesNothing(acts: seq<Action>, more: seq<Action>, w: WaiterId)
    requires w in Exec(acts).waiters && Exec(acts).waiters[w].Parked?
    requires |Exec(acts + more).history| <= U64_MAX
    requires ReplyCursor(Exec(acts).waiters[w].page) <= |Exec(acts + more).history|
    ensures var p := ReplyCursor(Exec(acts).waiters[w].page);
            var s := Exec(acts + more);
            && p <= CursorOf(Exec(acts).waiters[w].since)
            && Read(s, Some(p))
               == if p < s.dropped then CursorExpired(s.dropped)
                  else Page(EventsOf(s.history[p..]), |s.history|)
  {
    ExecGrows(acts, more);
    BehindAt(acts, w);
    ExecKeepsFresh(acts + more);
    ReadFrom(Exec(acts + more), ReplyCursor(Exec(acts).waiters[w].page));
  }
}
