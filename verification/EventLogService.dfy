/** The log object the daemon holds and the watcher object its clients hold. */
module EventLogService {
  import opened Strings
  import opened Lifecycles
  import opened EventLogs

  const SYNC_BATCH: nat := 32

  lemma CutKeepsWindow(history: seq<Entry>, dropped: nat, events: seq<Entry>, nowMs: nat)
    requires dropped <= |history| && events == history[dropped..]
    ensures match RetainFrom(events, nowMs)
            case None => true
            case Some(k) => 0 < k < |events| && history[dropped + k..] == events[k..]
  {
    RetainFromIsLongest(events, nowMs);
  }

  lemma WindowPush(history: seq<Entry>, dropped: nat, entry: Entry)
    requires WellNumbered(history) && dropped <= |history| && entry.sequence == Numbered(|history|)
    ensures WellNumbered(history + [entry])
    ensures (history + [entry])[dropped..] == history[dropped..] + [entry]
  {
  }

  lemma CutView(codec: Codec, v: LogView, nowMs: nat, k: nat)
    requires RetainFrom(v.events, nowMs) == Some(k)
    ensures AfterCompact(codec, v, nowMs)
         == LogView(v.history, v.dropped + k, v.events[k..], Render(codec, v.events[k..]), v.nextSequence)
  {
  }

  class EventLog {
    const codec: Codec
    var file: seq<Byte>
    var events: seq<Entry>
    var nextSequence: nat
    var eventsSinceSync: nat
    ghost var history: seq<Entry>  // every entry ever appended, across restarts
    ghost var dropped: nat         // how many of them compaction has removed
    ghost var synced: nat          // how many there were at the last sync, or when this life opened

    ghost predicate Valid()
      reads this
    {
      && Faithful(codec)
      && WellNumbered(history)
      && dropped <= |history| && (history == [] || dropped < |history|)
      && events == history[dropped..]
      && file == Render(codec, events)
      && nextSequence == Numbered(|history|)
      && synced <= |history| && eventsSinceSync == |history| - synced
    }

    ghost function View(): LogView
      reads this
    {
      LogView(history, dropped, events, file, nextSequence)
    }

    constructor (codec: Codec, file: seq<Byte>, events: seq<Entry>, ghost history: seq<Entry>, ghost dropped: nat)
      ensures this.codec == codec && this.file == file && this.events == events
      ensures this.nextSequence == NextSequence(events) && this.eventsSinceSync == 0
      ensures this.history == history && this.dropped == dropped && this.synced == |history|
    {
      this.codec := codec;
      this.file := file;
      this.events := events;
      this.nextSequence := NextSequence(events);
      this.eventsSinceSync := 0;
      this.history := history;
      this.dropped := dropped;
      this.synced := |history|;
    }

    /** One successful append: the entry joins the history under the next number, only a
        prefix the retention policy allows may leave memory and file, and fewer than a
        batch of this life's entries are left unsynced. */
    method Append(event: RuntimeEvent, tsMs: nat, nowMs: nat, syncDue: bool)
      requires Valid()
      modifies this
      ensures Valid()
      ensures history == old(history) + [Entry(old(nextSequence), tsMs, event)]
      ensures old(synced) <= synced && |history| - synced < SYNC_BATCH && (syncDue ==> synced == |history|)
      ensures View() == AfterAppend(codec, old(View()), event, tsMs, nowMs)
    {
      var entry := Entry(nextSequence, tsMs, event);
      nextSequence := SatAdd(nextSequence, 1);
      WriteAndPush(entry);
      SyncIfDue(syncDue);
      CompactIfDue(nowMs);
    }

    method WriteAndPush(entry: Entry)
      requires Faithful(codec) && WellNumbered(history)
      requires dropped <= |history| && (history == [] || dropped < |history|)
      requires events == history[dropped..] && file == Render(codec, events)
      requires entry.sequence == Numbered(|history|) && nextSequence == Numbered(|history| + 1)
      requires synced <= |history| && eventsSinceSync == |history| - synced
      modifies this`file, this`events, this`history, this`eventsSinceSync
      ensures Valid()
      ensures View() == AfterPush(codec, old(View()), entry)
    {
      RenderPush(codec, events, entry);
      WindowPush(history, dropped, entry);
      assert file + Line(codec, entry) == file + codec.encode(entry) + [NEWLINE];
      file := file + codec.encode(entry);
      file := file + [NEWLINE];
      events := events + [entry];
      eventsSinceSync := eventsSinceSync + 1;
      history := history + [entry];
    }

    /** Syncing in batches: afterwards fewer than a batch of entries is unsynced, and none
        once the interval is over; entries already synced stay so. */
    method SyncIfDue(syncDue: bool)
      requires Valid()
      modifies this`eventsSinceSync, this`synced
      ensures Valid() && View() == old(View())
      ensures |history| - synced < SYNC_BATCH
      ensures synced == old(synced) || synced == |history|
      ensures synced == |history| <==> syncDue || old(|history| - synced) >= SYNC_BATCH || old(synced) == |history|
    {
      if eventsSinceSync < SYNC_BATCH && !syncDue {
        return;
      }
      synced := |history|;
      eventsSinceSync := 0;
    }

    method CompactIfDue(nowMs: nat)
      requires Valid()
      modifies this
      ensures Valid() && View() == AfterCompact(codec, old(View()), nowMs)
      ensures synced == old(synced) || synced == |history|
    {
      CutKeepsWindow(history, dropped, events, nowMs);
      var retainFrom := RetainFrom(events, nowMs);
      if retainFrom.Some? {
        CutView(codec, View(), nowMs, retainFrom.value);
        Compact(retainFrom.value);
      }
    }

    /** The rewrite of file and memory once it is decided. */
    method Compact(retainFrom: nat)
      requires Valid() && 0 < retainFrom < |events| && history[dropped + retainFrom..] == events[retainFrom..]
      modifies this
      ensures Valid() && synced == |history|
      ensures history == old(history) && dropped == old(dropped) + retainFrom && nextSequence == old(nextSequence)
      ensures events == old(events)[retainFrom..] && file == Render(codec, events)
    {
      var retained := events[retainFrom..];
      var temp := WriteTemp(codec, retained);
      file := temp;
      events := retained;
      dropped := dropped + retainFrom;
      synced := |history|;
      eventsSinceSync := 0;
    }

    method EventsSince(since: Option<nat>) returns (r: Reply)
      requires Valid()
      ensures r == PageSince(events, since)
    {
      var cursor := if since.Some? then since.value else 0;
      if events != [] {
        var first := events[0].sequence;
        var oldest := if first >= 1 then first - 1 else 0;
        if cursor < oldest {
          return CursorExpired(oldest);
        }
        return Page(EventsOf(After(events, cursor)), events[|events| - 1].sequence);
      }
      return Page([], cursor);
    }
  }

  /** The temporary file compaction fills line by line before the rename. */
  method WriteTemp(codec: Codec, retained: seq<Entry>) returns (temp: seq<Byte>)
    ensures temp == Render(codec, retained)
  {
    temp := [];
    for i := 0 to |retained|
      invariant temp == Render(codec, retained[..i])
    {
      RenderPush(codec, retained[..i], retained[i]);
      assert retained[..i + 1] == retained[..i] + [retained[i]];
      temp := temp + codec.encode(retained[i]);
      temp := temp + [NEWLINE];
    }
    assert retained[..|retained|] == retained;
  }

  lemma OpensWindow(codec: Codec, history: seq<Entry>, dropped: nat)
    requires Faithful(codec) && WellNumbered(history)
    requires dropped <= |history| && (history == [] || dropped < |history|)
    ensures ReadEntries(codec, Render(codec, history[dropped..])) == Some(history[dropped..])
    ensures NextSequence(history[dropped..]) == Numbered(|history|)
  {
    ReadRender(codec, history[dropped..]);
    if history != [] {
      assert history[dropped..][|history| - dropped - 1] == history[|history| - 1];
    }
  }

  /** Opens whatever file is there. A file that does not decode is refused; a file an
      earlier life left behind, torn anywhere in its last line, opens into a valid log. */
  method Open(codec: Codec, bytes: seq<Byte>, ghost history: seq<Entry>, ghost dropped: nat)
    returns (log: EventLog?)
    ensures log == null <==> Reopen(codec, bytes).None?
    ensures log != null ==> fresh(log) && Reopen(codec, bytes) == Some((log.events, log.nextSequence))
    ensures Faithful(codec) && WellNumbered(history)
            && dropped <= |history| && (history == [] || dropped < |history|)
            && RecoverTail(bytes) == Render(codec, history[dropped..])
            ==> log != null && log.Valid() && log.history == history
  {
    var kept := RecoverTail(bytes);
    var read := ReadEntries(codec, kept);
    if Faithful(codec) && WellNumbered(history)
       && dropped <= |history| && (history == [] || dropped < |history|)
       && kept == Render(codec, history[dropped..]) {
      OpensWindow(codec, history, dropped);
    }
    if read.None? {
      return null;
    }
    log := new EventLog(codec, kept, read.value, history, dropped);
  }

  /** The client's long-poll consumer. */
  class EventWatcher {
    var cursor: Option<nat>

    constructor (cursor: Option<nat>)
      ensures this.cursor == cursor
    {
      this.cursor := cursor;
    }

    method Seek(cursor: nat)
      modifies this
      ensures this.cursor == Some(cursor)
    {
      this.cursor := Some(cursor);
    }

    /** One poll answered without waiting. For a cursor inside the history it returns
        exactly the entries between the old and the new cursor, or jumps forward to the
        oldest cursor the log can still serve. */
    method Next(log: EventLog) returns (batch: Reply)
      requires log.Valid() && |log.history| <= U64_MAX
      modifies this
      ensures batch == PageSince(log.events, old(cursor))
      ensures cursor == Some(if batch.Page? then batch.cursor else batch.oldest)
      ensures CursorOf(old(cursor)) <= |log.history| ==>
                && CursorOf(old(cursor)) <= CursorOf(cursor) <= |log.history|
                && match batch
                   case Page(events, _) => events == EventsOf(log.history[CursorOf(old(cursor))..CursorOf(cursor)])
                   case CursorExpired(oldest) => CursorOf(old(cursor)) < oldest == log.dropped
    {
      batch := log.EventsSince(cursor);
      PageOfWindow(log.history, log.dropped, cursor);
      match batch {
        case Page(_, next) => cursor := Some(next);
        case CursorExpired(oldest) => cursor := Some(oldest);
      }
    }
  }
}
