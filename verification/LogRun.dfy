/** Every run of the event log: appends byte by byte, compactions step by step, process
    crashes anywhere, and one watcher polling in between. The log's mutex is what makes
    a read possible only between operations. */
module LogRun {
  import opened Strings
  import opened Lifecycles
  import opened EventLogs

  /** Where the operation holding the mutex stands. */
  datatype Phase =
    | Idle
    | Writing(entry: Entry, written: nat)             // bytes of the entry's line on disk
    | Pushed                                          // in memory, compaction not yet decided
    | Compacting(retained: seq<Entry>, written: nat)  // temporary file being filled
    | Renamed(kept: seq<Entry>)                       // file replaced, memory not yet

  datatype Run = Run(
    file: seq<Byte>,
    temp: Option<seq<Byte>>,
    events: seq<Entry>,
    nextSequence: nat,
    phase: Phase,
    // observers
    history: seq<Entry>,      // entries whose newline reached the file, in order
    dropped: nat,             // how many of them compaction removed from the file
    issued: set<nat>,         // cursors the log has returned to the watcher
    // the watcher
    start: Option<nat>,
    replies: seq<Reply>,
    pending: Option<Reply>)   // answer read under the lock, not yet delivered

  datatype Action =
    | BeginAppend(event: RuntimeEvent, tsMs: nat)
    | WriteByte
    | Push
    | Decide(nowMs: nat)
    | WriteTempByte
    | Rename
    | Swap
    | Crash                   // the process dies; the next life opens the file
    | Poll                    // also the re-reads of the long poll: a later read replaces an earlier one
    | Deliver
    | Lose                    // the client sees an error instead of the answer
    | Rebuild(since: Option<nat>)

  const START := Run([], None, [], 1, Idle, [], 0, {}, None, [], None)

  /** The watcher's cursor after its first `k` replies. */
  function CursorAt(start: Option<nat>, replies: seq<Reply>, k: nat): nat
    requires k <= |replies|
  {
    if k == 0 then CursorOf(start) else ReplyCursor(replies[k - 1])
  }

  function Since(s: Run): Option<nat> {
    if s.replies == [] then s.start else Some(ReplyCursor(s.replies[|s.replies| - 1]))
  }

  /** One action; an action that is not possible here changes nothing. */
  function Apply(c: Codec, s: Run, a: Action): Run {
    match a
    case BeginAppend(event, tsMs) =>
      if s.phase != Idle then s
      else s.(phase := Writing(Entry(s.nextSequence, tsMs, event), 0), nextSequence := SatAdd(s.nextSequence, 1))
    case WriteByte =>
      if !s.phase.Writing? then s
      else
        var Writing(entry, k) := s.phase;
        var line := Line(c, entry);
        if k >= |line| then s
        else s.(file := s.file + [line[k]], phase := Writing(entry, k + 1),
                history := if k + 1 == |line| then s.history + [entry] else s.history)
    case Push =>
      if !s.phase.Writing? || s.phase.written < |Line(c, s.phase.entry)| then s
      else s.(events := s.events + [s.phase.entry], phase := Pushed)
    case Decide(nowMs) =>
      if s.phase != Pushed then s
      else
        (match RetainFrom(s.events, nowMs)
         case None => s.(phase := Idle)
         case Some(k) =>
           s.(temp := Some([]), phase := Compacting(s.events[k..], 0), events := s.events[..k]))
    case WriteTempByte =>
      if !s.phase.Compacting? || s.temp.None? then s
      else
        var bytes := Render(c, s.phase.retained);
        var k := s.phase.written;
        if k >= |bytes| then s
        else s.(temp := Some(s.temp.value + [bytes[k]]), phase := Compacting(s.phase.retained, k + 1))
    case Rename =>
      if !s.phase.Compacting? || s.temp.None? || s.phase.written < |Render(c, s.phase.retained)| then s
      else s.(file := s.temp.value, temp := None, phase := Renamed(s.phase.retained),
              dropped := s.dropped + |s.events|)
    case Swap =>
      if !s.phase.Renamed? then s else s.(events := s.phase.kept, phase := Idle)
    case Crash =>
      (match Reopen(c, s.file)
       case None => s
       case Some((events, next)) =>
         s.(file := RecoverTail(s.file), events := events, nextSequence := next, phase := Idle))
    case Poll =>
      if s.phase != Idle then s
      else
        var r := PageSince(s.events, Since(s));
        s.(pending := Some(r), issued := s.issued + {ReplyCursor(r)})
    case Deliver =>
      if s.pending.None? then s else s.(replies := s.replies + [s.pending.value], pending := None)
    case Lose => s.(pending := None)
    case Rebuild(since) =>
      if since.Some? && since.value !in s.issued then s
      else s.(start := since, replies := [], pending := None)
  }

  function Exec(c: Codec, acts: seq<Action>): Run {
    if acts == [] then START else Apply(c, Exec(c, acts[..|acts| - 1]), acts[|acts| - 1])
  }

  // ---------- The log's own invariant ----------

  ghost predicate WindowInv(s: Run) {
    && WellNumbered(s.history)
    && s.dropped <= |s.history| && (s.history == [] || s.dropped < |s.history|)
  }

  ghost predicate PhaseInv(c: Codec, s: Run)
    requires WindowInv(s)
  {
    var live := s.history[s.dropped..];
    match s.phase
    case Idle => s.file == Render(c, live) && s.events == live && s.nextSequence == Numbered(|s.history|)
    case Pushed => s.file == Render(c, live) && s.events == live && s.nextSequence == Numbered(|s.history|)
    case Writing(e, k) =>
      && k <= |Line(c, e)|
      && if k < |Line(c, e)| then
           && s.file == Render(c, live) + Line(c, e)[..k]
           && s.events == live
           && e.sequence == Numbered(|s.history|) && s.nextSequence == Numbered(|s.history| + 1)
         else
           && s.file == Render(c, live)
           && live == s.events + [e]
           && s.nextSequence == Numbered(|s.history|)
    case Compacting(retained, k) =>
      && s.file == Render(c, live)
      && live == s.events + retained && s.events != [] && retained != []
      && k <= |Render(c, retained)|
      && s.temp == Some(Render(c, retained)[..k])
      && s.nextSequence == Numbered(|s.history|)
    case Renamed(kept) =>
      && s.file == Render(c, live) && kept == live && kept != [] && s.nextSequence == Numbered(|s.history|)
      && s.events != [] && |s.events| <= s.dropped
      && s.events == s.history[s.dropped - |s.events|..s.dropped]
  }

  ghost predicate LogInv(c: Codec, s: Run) { WindowInv(s) && PhaseInv(c, s) }

  lemma NextOfWindow(history: seq<Entry>, dropped: nat)
    requires WellNumbered(history)
    requires dropped <= |history| && (history == [] || dropped < |history|)
    ensures NextSequence(history[dropped..]) == Numbered(|history|)
  {
    if history != [] {
      var live := history[dropped..];
      assert live[|live| - 1] == history[|history| - 1];
    }
  }

  lemma WriteByteKeeps(c: Codec, s: Run)
    requires LogInv(c, s) && s.phase.Writing? && s.phase.written < |Line(c, s.phase.entry)|
    ensures LogInv(c, Apply(c, s, WriteByte))
  {
    var s' := Apply(c, s, WriteByte);
    var Writing(e, k) := s.phase;
    var line := Line(c, e);
    var live := s.history[s.dropped..];
    assert line[..k] + [line[k]] == line[..k + 1];
    assert s'.file == Render(c, live) + line[..k + 1];
    if k + 1 == |line| {
      assert line[..k + 1] == line;
      RenderPush(c, live, e);
      assert s'.history[s.dropped..] == live + [e];
    }
  }

  lemma DecideKeeps(c: Codec, s: Run, nowMs: nat)
    requires LogInv(c, s) && s.phase.Pushed?
    ensures LogInv(c, Apply(c, s, Decide(nowMs)))
  {
    RetainFromIsLongest(s.events, nowMs);
    var s' := Apply(c, s, Decide(nowMs));
    if s'.phase.Compacting? {
      assert s.events == s'.events + s'.phase.retained;
      assert Render(c, s'.phase.retained)[..0] == [];
    }
  }

  lemma TempByteKeeps(c: Codec, s: Run)
    requires LogInv(c, s) && s.phase.Compacting?
    ensures LogInv(c, Apply(c, s, WriteTempByte))
  {
    var bytes, k := Render(c, s.phase.retained), s.phase.written;
    if k < |bytes| {
      assert bytes[..k] + [bytes[k]] == bytes[..k + 1];
    }
  }

  lemma CutWindow(history: seq<Entry>, dropped: nat, prefix: seq<Entry>, kept: seq<Entry>)
    requires dropped <= |history| && history[dropped..] == prefix + kept
    ensures history[dropped + |prefix|..] == kept && history[dropped..dropped + |prefix|] == prefix
  {
    assert history[dropped..][|prefix|..] == kept && history[dropped..][..|prefix|] == prefix;
  }

  lemma RenameKeeps(c: Codec, s: Run)
    requires LogInv(c, s) && s.phase.Compacting?
    ensures LogInv(c, Apply(c, s, Rename))
  {
    var bytes := Render(c, s.phase.retained);
    assert bytes[..|bytes|] == bytes;
    CutWindow(s.history, s.dropped, s.events, s.phase.retained);
  }

  /** The entries before or after the operation in progress, in terms of memory alone. */
  function Surviving(c: Codec, s: Run): seq<Entry> {
    match s.phase
    case Writing(entry, k) => if k < |Line(c, entry)| then s.events else s.events + [entry]
    case Compacting(retained, _) => s.events + retained
    case Renamed(kept) => kept
    case _ => s.events
  }

  /** What a crash leaves: reopening gives exactly the entries before or after the
      interrupted operation, and compaction cannot change the next number. */
  lemma CrashOutcome(c: Codec, s: Run)
    requires Faithful(c) && LogInv(c, s)
    ensures var live := s.history[s.dropped..];
            Reopen(c, s.file) == Some((live, Numbered(|s.history|)))
    ensures RecoverTail(s.file) == Render(c, s.history[s.dropped..])
    ensures s.history[s.dropped..] == Surviving(c, s)
    ensures !s.phase.Writing? ==> s.nextSequence == Numbered(|s.history|)
  {
    var live := s.history[s.dropped..];
    NextOfWindow(s.history, s.dropped);
    if s.phase.Writing? && s.phase.written < |Line(c, s.phase.entry)| {
      ReopenTorn(c, live, s.phase.entry, s.phase.written);
      TornAppend(c, live, s.phase.entry, s.phase.written);
    } else {
      WholeFile(c, s);
      ReopenRender(c, live);
      RenderIsWhole(c, live);
    }
  }

  lemma RenderIsWhole(c: Codec, es: seq<Entry>)
    ensures RecoverTail(Render(c, es)) == Render(c, es)
  {
    if es != [] { RenderEndsInNewline(c, es); }
  }

  lemma WholeFile(c: Codec, s: Run)
    requires LogInv(c, s)
    requires !(s.phase.Writing? && s.phase.written < |Line(c, s.phase.entry)|)
    ensures s.file == Render(c, s.history[s.dropped..])
  {
  }

  lemma AppendKeeps(c: Codec, s: Run, a: Action)
    requires Faithful(c) && LogInv(c, s) && (a.BeginAppend? || a.WriteByte? || a.Push?)
    ensures LogInv(c, Apply(c, s, a))
  {
    match a
    case BeginAppend(event, tsMs) =>
      if s.phase.Idle? {
        var line := Line(c, Entry(s.nextSequence, tsMs, event));
        assert s.file + line[..0] == s.file;
      }
    case WriteByte =>
      if s.phase.Writing? && s.phase.written < |Line(c, s.phase.entry)| { WriteByteKeeps(c, s); }
    case Push =>
  }

  lemma CrashKeeps(c: Codec, s: Run)
    requires Faithful(c) && LogInv(c, s)
    ensures LogInv(c, Apply(c, s, Crash))
  {
    CrashOutcome(c, s);
    CrashStep(c, s, s.history[s.dropped..], Numbered(|s.history|));
  }

  lemma ApplyKeepsLog(c: Codec, s: Run, a: Action)
    requires Faithful(c) && LogInv(c, s)
    ensures LogInv(c, Apply(c, s, a))
  {
    match a
    case BeginAppend(_, _) => AppendKeeps(c, s, a);
    case WriteByte => AppendKeeps(c, s, a);
    case Push => AppendKeeps(c, s, a);
    case Decide(nowMs) =>
      if s.phase.Pushed? { DecideKeeps(c, s, nowMs); }
    case WriteTempByte =>
      if s.phase.Compacting? { TempByteKeeps(c, s); }
    case Rename =>
      if s.phase.Compacting? { RenameKeeps(c, s); }
    case Crash => CrashKeeps(c, s);
    case _ =>
  }

  lemma HistoryGrows(c: Codec, s: Run, a: Action)
    ensures s.history <= Apply(c, s, a).history
  {
  }

  lemma {:induction false} ExecKeepsLog(c: Codec, acts: seq<Action>)
    requires Faithful(c)
    ensures LogInv(c, Exec(c, acts))
  {
    if acts != [] {
      ExecKeepsLog(c, acts[..|acts| - 1]);
      ApplyKeepsLog(c, Exec(c, acts[..|acts| - 1]), acts[|acts| - 1]);
    }
  }

  // ---------- Delivery ----------

  /** One reply moves the cursor from `a`: a page carries exactly the history between
      the two cursors, an expiry jumps strictly forward. */
  ghost predicate Advances(history: seq<Entry>, a: nat, r: Reply) {
    && a <= ReplyCursor(r) <= |history|
    && match r
       case Page(events, b) => events == EventsOf(history[a..b])
       case CursorExpired(oldest) => a < oldest
  }

  /** The reply at position `k` advances from the cursor the watcher had then. */
  ghost predicate AdvancesAt(history: seq<Entry>, start: Option<nat>, replies: seq<Reply>, k: nat) {
    k < |replies| ==> Advances(history, CursorAt(start, replies, k), replies[k])
  }

  ghost predicate RepliesInv(history: seq<Entry>, start: Option<nat>, replies: seq<Reply>) {
    && CursorOf(start) <= |history|
    && forall k: nat :: AdvancesAt(history, start, replies, k)
  }

  ghost predicate WatchInv(s: Run) {
    && (forall n :: n in s.issued ==> n <= |s.history|)
    && RepliesInv(s.history, s.start, s.replies)
    && (s.pending.Some? ==>
          && Advances(s.history, CursorOf(Since(s)), s.pending.value)
          && ReplyCursor(s.pending.value) in s.issued)
  }

  lemma AdvancesGrow(history: seq<Entry>, more: seq<Entry>, a: nat, r: Reply)
    requires history <= more && Advances(history, a, r)
    ensures Advances(more, a, r)
  {
    if r.Page? {
      assert more[a..r.cursor] == history[a..r.cursor];
    }
  }

  lemma RepliesGrow(history: seq<Entry>, more: seq<Entry>, start: Option<nat>, replies: seq<Reply>)
    requires history <= more && RepliesInv(history, start, replies)
    ensures RepliesInv(more, start, replies)
  {
    forall k: nat
      ensures AdvancesAt(more, start, replies, k)
    {
      assert AdvancesAt(history, start, replies, k);
      if k < |replies| { AdvancesGrow(history, more, CursorAt(start, replies, k), replies[k]); }
    }
  }

  lemma RepliesPush(history: seq<Entry>, start: Option<nat>, replies: seq<Reply>, r: Reply)
    requires RepliesInv(history, start, replies)
    requires Advances(history, CursorAt(start, replies, |replies|), r)
    ensures RepliesInv(history, start, replies + [r])
  {
    forall k: nat
      ensures AdvancesAt(history, start, replies + [r], k)
    {
      assert AdvancesAt(history, start, replies, k);
      if k <= |replies| { assert CursorAt(start, replies + [r], k) == CursorAt(start, replies, k); }
    }
  }

  lemma CursorInHistory(history: seq<Entry>, start: Option<nat>, replies: seq<Reply>, k: nat)
    requires RepliesInv(history, start, replies) && k <= |replies|
    ensures CursorAt(start, replies, k) <= |history|
  {
    if k > 0 { assert AdvancesAt(history, start, replies, k - 1); }
  }

  lemma PollAdvances(c: Codec, s: Run)
    requires LogInv(c, s) && s.phase.Idle? && |s.history| <= U64_MAX
    requires CursorOf(Since(s)) <= |s.history|
    ensures Advances(s.history, CursorOf(Since(s)), PageSince(s.events, Since(s)))
  {
    PageOfWindow(s.history, s.dropped, Since(s));
    var a := CursorOf(Since(s));
    assert s.history[a..|s.history|] == s.history[a..];
  }

  lemma WriterKeepsWatch(c: Codec, s: Run, a: Action)
    requires WatchInv(s) && s.history <= Apply(c, s, a).history
    requires !(a.Poll? || a.Deliver? || a.Lose? || a.Rebuild?)
    ensures WatchInv(Apply(c, s, a))
  {
    var s' := Apply(c, s, a);
    RepliesGrow(s.history, s'.history, s.start, s.replies);
    if s.pending.Some? { AdvancesGrow(s.history, s'.history, CursorOf(Since(s)), s.pending.value); }
  }

  lemma ApplyKeepsWatch(c: Codec, s: Run, a: Action)
    requires LogInv(c, s) && WatchInv(s) && s.history <= Apply(c, s, a).history
    requires |s.history| <= U64_MAX
    ensures WatchInv(Apply(c, s, a))
  {
    CursorInHistory(s.history, s.start, s.replies, |s.replies|);
    assert CursorOf(Since(s)) == CursorAt(s.start, s.replies, |s.replies|);
    match a
    case Poll => if s.phase.Idle? { PollAdvances(c, s); }
    case Deliver => if s.pending.Some? { RepliesPush(s.history, s.start, s.replies, s.pending.value); }
    case Lose =>
    case Rebuild(since) =>
    case _ => WriterKeepsWatch(c, s, a);
  }

  lemma {:induction false} ExecKeepsWatch(c: Codec, acts: seq<Action>)
    requires Faithful(c) && |Exec(c, acts).history| <= U64_MAX
    ensures WatchInv(Exec(c, acts))
  {
    if acts != [] {
      var front := acts[..|acts| - 1];
      ExecKeepsLog(c, front);
      HistoryGrows(c, Exec(c, front), acts[|acts| - 1]);
      ExecKeepsWatch(c, front);
      ApplyKeepsWatch(c, Exec(c, front), acts[|acts| - 1]);
    }
  }

  function Flatten(replies: seq<Reply>): seq<RuntimeEvent> {
    if replies == [] then []
    else
      var last := replies[|replies| - 1];
      Flatten(replies[..|replies| - 1]) + (if last.Page? then last.events else [])
  }

  lemma FlattenPush(replies: seq<Reply>, r: Reply)
    ensures Flatten(replies + [r]) == Flatten(replies) + (if r.Page? then r.events else [])
  {
    assert (replies + [r])[..|replies|] == replies;
  }

  lemma EventsOfSplit(history: seq<Entry>, a: nat, m: nat, b: nat)
    requires a <= m <= b <= |history|
    ensures EventsOf(history[a..m]) + EventsOf(history[m..b]) == EventsOf(history[a..b])
  {
  }

  lemma {:induction false} StretchIsSlice(
    history: seq<Entry>, start: Option<nat>, replies: seq<Reply>, i: nat, j: nat)
    requires RepliesInv(history, start, replies) && i <= j <= |replies|
    requires forall k :: i <= k < j ==> replies[k].Page?
    ensures CursorAt(start, replies, i) <= CursorAt(start, replies, j) <= |history|
    ensures Flatten(replies[i..j])
         == EventsOf(history[CursorAt(start, replies, i)..CursorAt(start, replies, j)])
    decreases j - i
  {
    CursorInHistory(history, start, replies, i);
    if i < j {
      StretchIsSlice(history, start, replies, i, j - 1);
      assert AdvancesAt(history, start, replies, j - 1);
      assert replies[i..j] == replies[i..j - 1] + [replies[j - 1]];
      FlattenPush(replies[i..j - 1], replies[j - 1]);
      EventsOfSplit(history, CursorAt(start, replies, i), CursorAt(start, replies, j - 1), CursorAt(start, replies, j));
    }
  }

  lemma {:induction false} CursorClimbs(
    history: seq<Entry>, start: Option<nat>, replies: seq<Reply>, i: nat, j: nat)
    requires RepliesInv(history, start, replies) && i <= j <= |replies|
    ensures CursorAt(start, replies, i) <= CursorAt(start, replies, j)
    decreases j - i
  {
    if i < j {
      assert AdvancesAt(history, start, replies, i);
      CursorClimbs(history, start, replies, i + 1, j);
    }
  }

  /** DELIVERY. In every run, over any stretch of replies without an expiry, the events
      the watcher received are the slice of the append history between its cursors at the
      two ends: in order, without gaps, without duplicates. */
  lemma DeliveredSlices(c: Codec, acts: seq<Action>, i: nat, j: nat)
    requires Faithful(c)
    requires |Exec(c, acts).history| <= U64_MAX
    requires i <= j <= |Exec(c, acts).replies|
    requires forall k :: i <= k < j ==> Exec(c, acts).replies[k].Page?
    ensures var s := Exec(c, acts);
            var a, b := CursorAt(s.start, s.replies, i), CursorAt(s.start, s.replies, j);
            && a <= b <= |s.history|
            && Flatten(s.replies[i..j]) == EventsOf(s.history[a..b])
            && forall k :: a <= k < b ==> s.history[k].sequence == k + 1
  {
    ExecKeepsLog(c, acts);
    ExecKeepsWatch(c, acts);
    var s := Exec(c, acts);
    StretchIsSlice(s.history, s.start, s.replies, i, j);
  }

  lemma PolledAndDelivered(c: Codec, s: Run)
    requires s.phase.Idle?
    ensures var r := Apply(c, Apply(c, s, Poll), Deliver);
            && r.history == s.history && r.start == s.start
            && r.replies == s.replies + [PageSince(s.events, Since(s))]
  {
  }

  /** What a log at rest answers to the watcher. */
  lemma RestingAnswer(c: Codec, s: Run)
    requires LogInv(c, s) && s.phase.Idle? && |s.history| <= U64_MAX && RepliesInv(s.history, s.start, s.replies)
    ensures var cursor := CursorAt(s.start, s.replies, |s.replies|);
            && cursor <= |s.history|
            && PageSince(s.events, Since(s)) == if cursor < s.dropped then CursorExpired(s.dropped)
                                                else Page(EventsOf(s.history[cursor..]), |s.history|)
  {
    CursorInHistory(s.history, s.start, s.replies, |s.replies|);
    PageOfWindow(s.history, s.dropped, Since(s));
    assert CursorOf(Since(s)) == CursorAt(s.start, s.replies, |s.replies|);
  }

  /** A poll of a log at rest, delivered, adds one reply: everything beyond the cursor, or
      where the log now starts when the cursor lies before that. */
  lemma PollDelivers(c: Codec, acts: seq<Action>)
    requires Faithful(c) && Exec(c, acts).phase.Idle? && |Exec(c, acts).history| <= U64_MAX
    ensures var s := Exec(c, acts);
            var cursor := CursorAt(s.start, s.replies, |s.replies|);
            var r := Exec(c, acts + [Poll] + [Deliver]);
            && cursor <= |s.history| && r.history == s.history && r.start == s.start
            && r.replies == s.replies
               + [if cursor < s.dropped then CursorExpired(s.dropped)
                  else Page(EventsOf(s.history[cursor..]), |s.history|)]
  {
    ExecKeepsLog(c, acts);
    ExecKeepsWatch(c, acts);
    RestingAnswer(c, Exec(c, acts));
    PolledAndDelivered(c, Exec(c, acts));
    ExecPush(c, acts, Poll);
    ExecPush(c, acts + [Poll], Deliver);
  }

  lemma PolledAndLost(c: Codec, s: Run)
    requires s.phase.Idle?
    ensures Apply(c, Apply(c, s, Poll), Lose)
         == s.(pending := None, issued := s.issued + {ReplyCursor(PageSince(s.events, Since(s)))})
  {
  }

  lemma LostReplyKeeps(c: Codec, acts: seq<Action>)
    requires Exec(c, acts).phase.Idle?
    ensures var s, lost := Exec(c, acts), Exec(c, acts + [Poll] + [Lose]);
            && lost.pending == None && lost.replies == s.replies && lost.start == s.start
            && lost.phase == s.phase && lost.history == s.history && lost.dropped == s.dropped
  {
    ExecPush(c, acts, Poll);
    ExecPush(c, acts + [Poll], Lose);
    PolledAndLost(c, Exec(c, acts));
  }

  /** A reply that never arrives leaves the watcher where it was: nothing is delivered in
      its place, and the next poll is answered as if the lost one had not been made. */
  lemma LostReplyIsReread(c: Codec, acts: seq<Action>)
    requires Faithful(c) && Exec(c, acts).phase.Idle? && |Exec(c, acts).history| <= U64_MAX
    ensures var s := Exec(c, acts);
            var lost := acts + [Poll] + [Lose];
            && Exec(c, lost + [Deliver]).replies == s.replies
            && Exec(c, lost + [Poll] + [Deliver]).replies == Exec(c, acts + [Poll] + [Deliver]).replies
  {
    var lost := acts + [Poll] + [Lose];
    LostReplyKeeps(c, acts);
    ExecPush(c, lost, Deliver);
    PollDelivers(c, acts);
    PollDelivers(c, lost);
  }

  /** A watcher rebuilt from a cursor the log once returned, in whatever life, or from none:
      its first delivered poll holds everything after that cursor, or says where to restart. */
  lemma RebuiltFromSaved(c: Codec, acts: seq<Action>, since: Option<nat>)
    requires Faithful(c) && Exec(c, acts).phase.Idle? && |Exec(c, acts).history| <= U64_MAX
    requires since.Some? ==> since.value in Exec(c, acts).issued
    ensures var s := Exec(c, acts);
            var cursor := CursorOf(since);
            && cursor <= |s.history|
            && Exec(c, acts + [Rebuild(since)] + [Poll] + [Deliver]).replies
               == [if cursor < s.dropped then CursorExpired(s.dropped)
                   else Page(EventsOf(s.history[cursor..]), |s.history|)]
  {
    ExecPush(c, acts, Rebuild(since));
    PollDelivers(c, acts + [Rebuild(since)]);
  }

  lemma ExecPush(c: Codec, acts: seq<Action>, a: Action)
    ensures Exec(c, acts + [a]) == Apply(c, Exec(c, acts), a)
  {
    assert (acts + [a])[..|acts|] == acts;
  }

  /** The cursor never decreases over a whole run, and an expiry moves it strictly
      forward to where the next slice starts. */
  lemma CursorNeverDecreases(c: Codec, acts: seq<Action>, i: nat, j: nat)
    requires Faithful(c)
    requires |Exec(c, acts).history| <= U64_MAX
    requires i <= j <= |Exec(c, acts).replies|
    ensures var s := Exec(c, acts);
            && CursorAt(s.start, s.replies, i) <= CursorAt(s.start, s.replies, j)
            && (i < j && s.replies[i].CursorExpired? ==>
                  CursorAt(s.start, s.replies, i) < s.replies[i].oldest == CursorAt(s.start, s.replies, i + 1))
  {
    ExecKeepsWatch(c, acts);
    var s := Exec(c, acts);
    assert AdvancesAt(s.history, s.start, s.replies, i);
    CursorClimbs(s.history, s.start, s.replies, i, j);
  }

  // ---------- Crashes ----------

  /** The state a crash leads to, stated from the state it interrupts. */
  ghost predicate CrashIsClean(c: Codec, s: Run) {
    var r := Apply(c, s, Crash);
    && Reopen(c, s.file) == Some((r.events, r.nextSequence))
    && r.history == s.history && r.phase == Idle && r.file == Render(c, r.events)
    && r.events == Surviving(c, s)
    && (!s.phase.Writing? ==> r.nextSequence == s.nextSequence)
  }

  /** An entry whose line is still torn has a number above every cursor ever returned. */
  ghost predicate TornIsUnseen(c: Codec, s: Run) {
    s.phase.Writing? && s.phase.written < |Line(c, s.phase.entry)| ==>
      forall n :: n in s.issued ==> n < s.phase.entry.sequence
  }

  lemma CrashFrom(c: Codec, s: Run)
    requires Faithful(c) && LogInv(c, s)
    ensures CrashIsClean(c, s)
  {
    CrashOutcome(c, s);
    CrashStep(c, s, s.history[s.dropped..], Numbered(|s.history|));
  }

  lemma CrashStep(c: Codec, s: Run, events: seq<Entry>, next: nat)
    requires Reopen(c, s.file) == Some((events, next))
    ensures Apply(c, s, Crash)
         == s.(file := RecoverTail(s.file), events := events, nextSequence := next, phase := Idle)
  {
  }

  lemma TornFrom(c: Codec, s: Run)
    requires LogInv(c, s) && WatchInv(s) && |s.history| < U64_MAX
    ensures TornIsUnseen(c, s)
  {
  }

  /** CRASH. Killing the process at any point of any run and reopening the file gives the
      entries before or after the interrupted operation, continues the numbering, and
      drops only an entry no reader has seen. */
  lemma CrashAnywhere(c: Codec, acts: seq<Action>)
    requires Faithful(c)
    ensures CrashIsClean(c, Exec(c, acts))
    ensures |Exec(c, acts).history| < U64_MAX ==> TornIsUnseen(c, Exec(c, acts))
  {
    var s := Exec(c, acts);
    ExecKeepsLog(c, acts);
    CrashFrom(c, s);
    if |s.history| < U64_MAX {
      ExecKeepsWatch(c, acts);
      TornFrom(c, s);
    }
  }

  lemma WindowTail(history: seq<Entry>, dropped: nat)
    requires WellNumbered(history) && dropped < |history|
    ensures var kept := history[dropped..];
            && kept[|kept| - 1] == history[|history| - 1] && NextSequence(kept) == Numbered(|history|)
            && (|history| <= U64_MAX ==> forall i :: 0 <= i < |kept| ==> kept[i].sequence == kept[0].sequence + i)
  {
    var kept := history[dropped..];
    NextOfWindow(history, dropped);
    forall i | 0 <= i < |kept| && |history| <= U64_MAX
      ensures kept[i].sequence == dropped + i + 1
    {
      assert kept[i] == history[dropped + i];
    }
  }

  /** The log a finished compaction leaves ends as before and is contiguous. */
  ghost predicate TailKept(s: Run, kept: seq<Entry>) {
    && kept != [] && s.history != [] && kept[|kept| - 1] == s.history[|s.history| - 1]
    && s.nextSequence == NextSequence(kept)
    && (|s.history| <= U64_MAX ==> forall i :: 0 <= i < |kept| ==> kept[i].sequence == kept[0].sequence + i)
  }

  lemma RenamedTail(c: Codec, s: Run)
    requires LogInv(c, s) && s.phase.Renamed?
    ensures TailKept(s, s.phase.kept)
  {
    WindowTail(s.history, s.dropped);
  }

  /** Compaction, over every run, never empties the log or moves its last number, and
      what stays is contiguous. */
  lemma CompactionKeepsTail(c: Codec, acts: seq<Action>)
    requires Faithful(c) && Exec(c, acts).phase.Renamed?
    ensures TailKept(Exec(c, acts), Apply(c, Exec(c, acts), Swap).events)
  {
    ExecKeepsLog(c, acts);
    RenamedTail(c, Exec(c, acts));
  }

  // ---------- What an abandoned compaction leaves ----------

  /** The part of the log a compaction under way keeps. */
  function Kept(s: Run): seq<Entry>
    requires s.phase.Compacting? || s.phase.Renamed?
  {
    if s.phase.Compacting? then s.phase.retained else s.phase.kept
  }

  lemma PrefixInMemory(c: Codec, s: Run)
    requires LogInv(c, s) && (s.phase.Compacting? || s.phase.Renamed?)
    ensures var top := |s.history| - |Kept(s)|;
            && 0 < |s.events| <= top < |s.history|
            && s.events == s.history[top - |s.events|..top]
  {
    if s.phase.Compacting? {
      CutWindow(s.history, s.dropped, s.events, s.phase.retained);
    }
  }

  /** ABANDONED. Between `split_off` and the last assignment memory holds only the dropped
      prefix. Were the compaction abandoned there by an I/O error, a page would move a
      reader back exactly when its cursor lies beyond that prefix, whatever it is. */
  lemma AbandonedMovesBackIff(c: Codec, acts: seq<Action>, cursor: nat)
    requires Faithful(c) && |Exec(c, acts).history| <= U64_MAX
    requires Exec(c, acts).phase.Compacting? || Exec(c, acts).phase.Renamed?
    ensures var s := Exec(c, acts);
            var r := PageSince(s.events, Some(cursor));
            (r.Page? && r.cursor < cursor) <==> cursor > |s.history| - |Kept(s)|
  {
    ExecKeepsLog(c, acts);
    var s := Exec(c, acts);
    var top := |s.history| - |Kept(s)|;
    PrefixInMemory(c, s);
    var seen := s.history[..top];
    assert seen[top - |s.events|..] == s.events;
    PageCursorMovesBackIff(seen, top - |s.events|, Some(cursor));
  }

  /** The append after an abandoned compaction: its number and memory hide that the kept
      entries are missing. A page from inside the history is then complete exactly for the
      reader that had already seen everything, and every reader's cursor passes them by. */
  lemma AppendAfterAbandoned(c: Codec, acts: seq<Action>, event: RuntimeEvent, tsMs: nat, cursor: nat)
    requires Faithful(c) && |Exec(c, acts).history| < U64_MAX
    requires Exec(c, acts).phase.Compacting? || Exec(c, acts).phase.Renamed?
    requires cursor <= |Exec(c, acts).history|
    ensures var s := Exec(c, acts);
            var e := Entry(s.nextSequence, tsMs, event);
            var r := PageSince(s.events + [e], Some(cursor));
            r.Page? ==>
              && (r.events == EventsOf((s.history + [e])[cursor..]) <==> cursor == |s.history|)
              && r.cursor == |s.history| + 1
  {
    ExecKeepsLog(c, acts);
    var s := Exec(c, acts);
    PrefixInMemory(c, s);
    PageOverGap(s.history, s.events, |s.history| - |Kept(s)|, Entry(s.nextSequence, tsMs, event), cursor);
  }

  /** A page over a window that ends at `top`, below the end of the history, plus one entry. */
  lemma PageOverGap(history: seq<Entry>, events: seq<Entry>, top: nat, e: Entry, cursor: nat)
    requires WellNumbered(history) && |history| < U64_MAX && cursor <= |history|
    requires 0 < |events| <= top < |history| && events == history[top - |events|..top]
    requires e.sequence == |history| + 1
    ensures var r := PageSince(events + [e], Some(cursor));
            r.Page? ==>
              && (r.events == EventsOf((history + [e])[cursor..]) <==> cursor == |history|)
              && r.cursor == |history| + 1
  {
    var window := history[..top];
    assert window[top - |events|..] == events;
    assert events[0] == history[top - |events|];
    AfterWindow(window, top - |events|, cursor);
    AfterOneMore(events, e, cursor);
    var seen := After(events, cursor) + [e];
    assert |EventsOf(seen)| == |After(events, cursor)| + 1;
    assert |EventsOf((history + [e])[cursor..])| == |history| - cursor + 1;
    if cursor == |history| {
      assert (history + [e])[cursor..] == [e] == seen;
    }
  }

  lemma AfterCons(x: Entry, es: seq<Entry>, cursor: nat)
    ensures After([x] + es, cursor) == (if x.sequence > cursor then [x] else []) + After(es, cursor)
  {
    assert ([x] + es)[1..] == es;
  }

  lemma {:induction false} AfterOneMore(es: seq<Entry>, e: Entry, cursor: nat)
    requires e.sequence > cursor
    ensures After(es + [e], cursor) == After(es, cursor) + [e]
  {
    if es == [] {
      AfterCons(e, [], cursor);
      assert [] + [e] == [e] == [e] + [];
    } else {
      var x, rest := es[0], es[1..];
      AfterOneMore(rest, e, cursor);
      AfterCons(x, rest, cursor);
      AfterCons(x, rest + [e], cursor);
      assert es == [x] + rest && es + [e] == [x] + (rest + [e]);
    }
  }

  /** The steps between which memory and file hold the same entries. */
  predicate AtRest(c: Codec, phase: Phase) {
    match phase
    case Writing(entry, k) => k < |Line(c, entry)|
    case Compacting(_, _) => false
    case Renamed(_) => false
    case _ => true
  }

  lemma KeptIsNotDropped(c: Codec, s: Run)
    requires LogInv(c, s) && |s.history| <= U64_MAX && s.phase.Renamed?
    ensures s.events != s.phase.kept
  {
    PrefixInMemory(c, s);
    assert s.phase.kept[0] == s.history[s.dropped];
    assert s.events[0] == s.history[s.dropped - |s.events|];
  }

  /** In every run reopening the file would give what memory holds exactly outside a
      compaction's steps and the moment between a written line and its push. */
  lemma MemoryIsFileIff(c: Codec, acts: seq<Action>)
    requires Faithful(c) && |Exec(c, acts).history| <= U64_MAX
    ensures var s := Exec(c, acts);
            && Reopen(c, s.file).Some?
            && (Reopen(c, s.file).value.0 == s.events <==> AtRest(c, s.phase))
  {
    ExecKeepsLog(c, acts);
    var s := Exec(c, acts);
    CrashOutcome(c, s);
    if s.phase.Renamed? { KeptIsNotDropped(c, s); }
    if s.phase.Compacting? { assert |s.events + s.phase.retained| > |s.events|; }
  }

  // ---------- Whole appends ----------

  /** The state after further actions. */
  function Steps(c: Codec, s: Run, more: seq<Action>): Run {
    if more == [] then s else Apply(c, Steps(c, s, more[..|more| - 1]), more[|more| - 1])
  }

  lemma StepsPush(c: Codec, s: Run, more: seq<Action>, a: Action)
    ensures Steps(c, s, more + [a]) == Apply(c, Steps(c, s, more), a)
  {
    assert (more + [a])[..|more|] == more;
  }

  lemma {:induction false} StepsThen(c: Codec, s: Run, first: seq<Action>, second: seq<Action>)
    ensures Steps(c, s, first + second) == Steps(c, Steps(c, s, first), second)
  {
    if second == [] {
      assert first + second == first;
    } else {
      var front, a := second[..|second| - 1], second[|second| - 1];
      StepsThen(c, s, first, front);
      assert second == front + [a];
      assert first + second == first + front + [a];
      StepsPush(c, s, first + front, a);
      StepsPush(c, Steps(c, s, first), front, a);
    }
  }

  lemma {:induction false} ExecThen(c: Codec, acts: seq<Action>, more: seq<Action>)
    ensures Exec(c, acts + more) == Steps(c, Exec(c, acts), more)
  {
    if more == [] {
      assert acts + more == acts;
    } else {
      var front, a := more[..|more| - 1], more[|more| - 1];
      ExecThen(c, acts, front);
      assert (acts + more)[..|acts + more| - 1] == acts + front;
    }
  }

  function Repeat(a: Action, n: nat): seq<Action> {
    if n == 0 then [] else Repeat(a, n - 1) + [a]
  }

  lemma RepeatStep(c: Codec, s: Run, a: Action, n: nat)
    requires n > 0
    ensures Steps(c, s, Repeat(a, n)) == Apply(c, Steps(c, s, Repeat(a, n - 1)), a)
  {
    StepsPush(c, s, Repeat(a, n - 1), a);
  }

  lemma OneByteMore(file: seq<Byte>, bytes: seq<Byte>, n: nat)
    requires n < |bytes|
    ensures file + bytes[..n] + [bytes[n]] == file + bytes[..n + 1]
    ensures bytes[..n] + [bytes[n]] == bytes[..n + 1]
  {
  }

  /** The state with the first `n` bytes of the entry's line down. */
  function LineDown(c: Codec, s: Run, entry: Entry, n: nat): Run
    requires n <= |Line(c, entry)|
  {
    s.(file := s.file + Line(c, entry)[..n], phase := Writing(entry, n),
       history := if n == |Line(c, entry)| then s.history + [entry] else s.history)
  }

  lemma LineStart(c: Codec, s: Run, entry: Entry)
    requires s.phase == Writing(entry, 0)
    ensures LineDown(c, s, entry, 0) == s
  {
    assert s.file + Line(c, entry)[..0] == s.file;
  }

  lemma LineStep(c: Codec, s: Run, entry: Entry, n: nat)
    requires n < |Line(c, entry)|
    ensures Apply(c, LineDown(c, s, entry, n), WriteByte) == LineDown(c, s, entry, n + 1)
  {
    OneByteMore(s.file, Line(c, entry), n);
  }

  /** Repeating an action walks along any family of states it steps through. */
  lemma {:induction false} Repeated(c: Codec, a: Action, states: seq<Run>, n: nat)
    requires n < |states|
    requires forall k :: 0 <= k < n ==> Apply(c, states[k], a) == states[k + 1]
    ensures Steps(c, states[0], Repeat(a, n)) == states[n]
  {
    if n > 0 {
      Repeated(c, a, states, n - 1);
      RepeatStep(c, states[0], a, n);
    }
  }

  lemma LineWritten(c: Codec, s: Run, entry: Entry, n: nat)
    requires s.phase == Writing(entry, 0) && n <= |Line(c, entry)|
    ensures Steps(c, s, Repeat(WriteByte, n)) == LineDown(c, s, entry, n)
  {
    var states := seq(n + 1, k requires 0 <= k <= n => LineDown(c, s, entry, k));
    forall k | 0 <= k < n
      ensures Apply(c, states[k], WriteByte) == states[k + 1]
    {
      LineStep(c, s, entry, k);
    }
    LineStart(c, s, entry);
    Repeated(c, WriteByte, states, n);
  }

  function TempDown(c: Codec, s: Run, kept: seq<Entry>, n: nat): Run
    requires n <= |Render(c, kept)|
  {
    s.(temp := Some(Render(c, kept)[..n]), phase := Compacting(kept, n))
  }

  lemma TempStep(c: Codec, s: Run, kept: seq<Entry>, n: nat)
    requires n < |Render(c, kept)|
    ensures Apply(c, TempDown(c, s, kept, n), WriteTempByte) == TempDown(c, s, kept, n + 1)
  {
    OneByteMore([], Render(c, kept), n);
  }

  lemma TempWritten(c: Codec, s: Run, kept: seq<Entry>, n: nat)
    requires s.phase == Compacting(kept, 0) && s.temp == Some([]) && n <= |Render(c, kept)|
    ensures Steps(c, s, Repeat(WriteTempByte, n)) == TempDown(c, s, kept, n)
  {
    var states := seq(n + 1, k requires 0 <= k <= n => TempDown(c, s, kept, k));
    forall k | 0 <= k < n
      ensures Apply(c, states[k], WriteTempByte) == states[k + 1]
    {
      TempStep(c, s, kept, k);
    }
    Repeated(c, WriteTempByte, states, n);
  }

  /** The state once the whole temporary file has replaced the log. */
  function Replaced(c: Codec, s: Run, kept: seq<Entry>): Run {
    s.(file := Render(c, kept), temp := None, phase := Renamed(kept), dropped := s.dropped + |s.events|)
  }

  lemma FillAndRename(c: Codec, s: Run, kept: seq<Entry>)
    requires s.phase == Compacting(kept, 0) && s.temp == Some([])
    ensures Steps(c, s, Repeat(WriteTempByte, |Render(c, kept)|) + [Rename]) == Replaced(c, s, kept)
  {
    TempWritten(c, s, kept, |Render(c, kept)|);
    StepsPush(c, s, Repeat(WriteTempByte, |Render(c, kept)|), Rename);
    RenameDone(c, s, kept);
  }

  lemma RenameDone(c: Codec, s: Run, kept: seq<Entry>)
    ensures Apply(c, TempDown(c, s, kept, |Render(c, kept)|), Rename) == Replaced(c, s, kept)
  {
    var bytes := Render(c, kept);
    assert bytes[..|bytes|] == bytes;
  }

  /** The steps of one append up to its push, in the order `append` takes them. */
  function PushActs(c: Codec, entry: Entry): seq<Action> {
    [BeginAppend(entry.event, entry.tsMs)] + Repeat(WriteByte, |Line(c, entry)|) + [Push]
  }

  /** The steps of `compact_if_due` over the pushed entries. */
  function CompactActs(c: Codec, pushed: seq<Entry>, nowMs: nat): seq<Action> {
    match RetainFrom(pushed, nowMs)
    case None => [Decide(nowMs)]
    case Some(k) => [Decide(nowMs)] + (Repeat(WriteTempByte, |Render(c, pushed[k..])|) + [Rename]) + [Swap]
  }

  function NextEntry(s: Run, event: RuntimeEvent, tsMs: nat): Entry { Entry(s.nextSequence, tsMs, event) }

  function AppendActs(c: Codec, s: Run, event: RuntimeEvent, tsMs: nat, nowMs: nat): seq<Action> {
    var entry := NextEntry(s, event, tsMs);
    PushActs(c, entry) + CompactActs(c, s.events + [entry], nowMs)
  }

  lemma PushRuns(c: Codec, s: Run, entry: Entry)
    requires s.phase.Idle? && entry.sequence == s.nextSequence
    ensures Steps(c, s, PushActs(c, entry))
         == s.(file := s.file + Line(c, entry), history := s.history + [entry], events := s.events + [entry],
               nextSequence := SatAdd(s.nextSequence, 1), phase := Pushed)
  {
    var line, begin := Line(c, entry), [BeginAppend(entry.event, entry.tsMs)];
    var s1 := s.(phase := Writing(entry, 0), nextSequence := SatAdd(s.nextSequence, 1));
    assert begin[..0] == [];
    assert Steps(c, s, begin) == s1;
    StepsThen(c, s, begin, Repeat(WriteByte, |line|));
    LineWritten(c, s1, entry, |line|);
    assert line[..|line|] == line;
    StepsPush(c, s, begin + Repeat(WriteByte, |line|), Push);
  }

  lemma DecideRuns(c: Codec, s: Run, nowMs: nat)
    ensures Steps(c, s, [Decide(nowMs)]) == Apply(c, s, Decide(nowMs))
  {
    assert [Decide(nowMs)][..0] == [];
  }

  lemma DecideStarts(c: Codec, s: Run, nowMs: nat, k: nat)
    requires s.phase.Pushed? && RetainFrom(s.events, nowMs) == Some(k)
    ensures Apply(c, s, Decide(nowMs))
         == s.(temp := Some([]), phase := Compacting(s.events[k..], 0), events := s.events[..k])
  {
  }

  /** The state once compaction, if any, is over. */
  function Compacted(c: Codec, s: Run, nowMs: nat): Run {
    match RetainFrom(s.events, nowMs)
    case None => s.(phase := Idle)
    case Some(k) =>
      s.(file := Render(c, s.events[k..]), temp := None, events := s.events[k..],
         dropped := s.dropped + k, phase := Idle)
  }

  lemma CompactRuns(c: Codec, s: Run, nowMs: nat)
    requires s.phase.Pushed?
    ensures Steps(c, s, CompactActs(c, s.events, nowMs)) == Compacted(c, s, nowMs)
  {
    DecideRuns(c, s, nowMs);
    var retain := RetainFrom(s.events, nowMs);
    if retain.Some? {
      CompactionRuns(c, s, nowMs, retain.value);
    }
  }

  lemma CompactionRuns(c: Codec, s: Run, nowMs: nat, k: nat)
    requires s.phase.Pushed? && RetainFrom(s.events, nowMs) == Some(k)
    ensures Steps(c, s, CompactActs(c, s.events, nowMs)) == Compacted(c, s, nowMs)
  {
    var kept := s.events[k..];
    var s1 := s.(temp := Some([]), phase := Compacting(kept, 0), events := s.events[..k]);
    var fill := Repeat(WriteTempByte, |Render(c, kept)|) + [Rename];
    DecideRuns(c, s, nowMs);
    DecideStarts(c, s, nowMs, k);
    StepsThen(c, s, [Decide(nowMs)], fill);
    FillAndRename(c, s1, kept);
    StepsPush(c, s, [Decide(nowMs)] + fill, Swap);
  }

  function ViewOf(s: Run): LogView { LogView(s.history, s.dropped, s.events, s.file, s.nextSequence) }

  lemma CompactedView(c: Codec, s: Run, nowMs: nat)
    ensures ViewOf(Compacted(c, s, nowMs)) == AfterCompact(c, ViewOf(s), nowMs)
    ensures Compacted(c, s, nowMs).phase.Idle?
  {
  }

  /** ATOMIC. Taken to their end, the steps of one append do to history, memory, file and
      numbering what the append of the log object does, and leave the watcher alone. */
  lemma AppendRunIsAppend(c: Codec, acts: seq<Action>, event: RuntimeEvent, tsMs: nat, nowMs: nat)
    requires Exec(c, acts).phase.Idle?
    ensures var s := Exec(c, acts);
            var r := Exec(c, acts + AppendActs(c, s, event, tsMs, nowMs));
            && r.phase.Idle? && ViewOf(r) == AfterAppend(c, ViewOf(s), event, tsMs, nowMs)
            && r.start == s.start && r.replies == s.replies && r.pending == s.pending
  {
    var s := Exec(c, acts);
    var entry, all := NextEntry(s, event, tsMs), AppendActs(c, s, event, tsMs, nowMs);
    ExecThen(c, acts, all);
    StepsThen(c, s, PushActs(c, entry), CompactActs(c, s.events + [entry], nowMs));
    PushRuns(c, s, entry);
    var p := Steps(c, s, PushActs(c, entry));
    CompactRuns(c, p, nowMs);
    CompactedView(c, p, nowMs);
  }

  // ---------- Compaction is reached ----------

  predicate AllAtZero(es: seq<Entry>) { forall i :: 0 <= i < |es| ==> es[i].tsMs == 0 }

  lemma {:induction false} PrefixAllOld(es: seq<Entry>)
    requires AllAtZero(es)
    ensures OldPrefix(es, RETENTION_MIN_AGE_MS + 1) == |es| && OldPrefix(es, 0) == 0
  {
    if es != [] { PrefixAllOld(es[1..]); }
  }

  /** `n` appends at time zero. */
  lemma {:induction false} AppendsReached(c: Codec, event: RuntimeEvent, n: nat) returns (acts: seq<Action>)
    requires Faithful(c)
    ensures var s := Exec(c, acts);
            s.phase.Idle? && |s.events| == |s.history| == n && AllAtZero(s.events)
  {
    acts := [];
    if n > 0 {
      var front := AppendsReached(c, event, n - 1);
      var s := Exec(c, front);
      PrefixAllOld(s.events + [NextEntry(s, event, 0)]);
      AppendRunIsAppend(c, front, event, 0, 0);
      acts := front + AppendActs(c, s, event, 0, 0);
    }
  }

  lemma OldestDropped(es: seq<Entry>)
    requires AllAtZero(es) && |es| == RETENTION_MIN_EVENTS + 1
    ensures RetainFrom(es, RETENTION_MIN_AGE_MS + 1) == Some(1)
  {
    PrefixAllOld(es);
  }

  lemma CompactionStarts(c: Codec, s: Run, event: RuntimeEvent)
    requires s.phase.Idle? && |s.events| == RETENTION_MIN_EVENTS && AllAtZero(s.events)
    ensures var entry := NextEntry(s, event, 0);
            var r := Steps(c, s, PushActs(c, entry) + [Decide(RETENTION_MIN_AGE_MS + 1)]);
            && r.phase == Compacting((s.events + [entry])[1..], 0) && r.temp == Some([])
            && r.history == s.history + [entry]
  {
    var entry := NextEntry(s, event, 0);
    OldestDropped(s.events + [entry]);
    PushRuns(c, s, entry);
    StepsPush(c, s, PushActs(c, entry), Decide(RETENTION_MIN_AGE_MS + 1));
    DecideStarts(c, Steps(c, s, PushActs(c, entry)), RETENTION_MIN_AGE_MS + 1, 1);
  }

  /** One append more, a retention age later, compacts: both phases in which memory is
      behind the file occur, with every entry but the oldest kept. */
  lemma CompactionReached(c: Codec, event: RuntimeEvent) returns (compacting: seq<Action>, renamed: seq<Action>)
    requires Faithful(c)
    ensures Exec(c, compacting).phase.Compacting? && |Exec(c, compacting).history| == RETENTION_MIN_EVENTS + 1
    ensures Exec(c, renamed).phase.Renamed? && |Exec(c, renamed).history| == RETENTION_MIN_EVENTS + 1
    ensures |Kept(Exec(c, compacting))| == |Kept(Exec(c, renamed))| == RETENTION_MIN_EVENTS
  {
    var front := AppendsReached(c, event, RETENTION_MIN_EVENTS);
    var s := Exec(c, front);
    var more := PushActs(c, NextEntry(s, event, 0)) + [Decide(RETENTION_MIN_AGE_MS + 1)];
    CompactionStarts(c, s, event);
    compacting := front + more;
    ExecThen(c, front, more);
    var s1 := Exec(c, compacting);
    var fill := Repeat(WriteTempByte, |Render(c, s1.phase.retained)|) + [Rename];
    renamed := compacting + fill;
    ExecThen(c, compacting, fill);
    FillAndRename(c, s1, s1.phase.retained);
  }
}
