/** The durable event log: JSONL bytes on disk beside the entries in memory. */
module EventLogs {
  import opened Strings
  import opened Lifecycles

  type Byte = b: int | 0 <= b < 256

  const NEWLINE: Byte := 10
  const CARRIAGE_RETURN: Byte := 13
  const U64_MAX: nat := 0xFFFF_FFFF_FFFF_FFFF
  const RETENTION_MIN_EVENTS: nat := 10_000
  const RETENTION_MIN_AGE_MS: nat := 7 * 24 * 60 * 60 * 1_000

  datatype Entry = Entry(sequence: nat, tsMs: nat, event: RuntimeEvent)

  /** JSON encoding of a record, supplied from outside the model. */
  datatype Codec = Codec(encode: Entry -> seq<Byte>, decode: seq<Byte> -> Option<Entry>)

  /** What is assumed of JSON: decoding inverts encoding, and an encoded object
      holds no raw newline and ends in a brace rather than a carriage return. */
  ghost predicate Faithful(c: Codec) {
    forall e: Entry ::
      var bytes := c.encode(e);
      && c.decode(bytes) == Some(e)
      && NEWLINE !in bytes
      && (bytes == [] || bytes[|bytes| - 1] != CARRIAGE_RETURN)
  }

  // ---------- File contents ----------

  function Line(c: Codec, e: Entry): seq<Byte> { c.encode(e) + [NEWLINE] }

  function Render(c: Codec, es: seq<Entry>): seq<Byte> {
    if es == [] then [] else Line(c, es[0]) + Render(c, es[1..])
  }

  lemma {:induction false} RenderAppend(c: Codec, es: seq<Entry>, more: seq<Entry>)
    ensures Render(c, es + more) == Render(c, es) + Render(c, more)
  {
    if es == [] {
      assert es + more == more;
    } else {
      RenderAppend(c, es[1..], more);
      assert (es + more)[1..] == es[1..] + more && (es + more)[0] == es[0];
      var head, tail := Line(c, es[0]), Render(c, es[1..]);
      assert head + (tail + Render(c, more)) == (head + tail) + Render(c, more);
    }
  }

  lemma RenderPush(c: Codec, es: seq<Entry>, e: Entry)
    ensures Render(c, es + [e]) == Render(c, es) + Line(c, e)
  {
    RenderAppend(c, es, [e]);
    assert Render(c, [e]) == Line(c, e) + Render(c, []);
  }

  lemma RenderEndsInNewline(c: Codec, es: seq<Entry>)
    requires es != []
    ensures Render(c, es) != [] && Render(c, es)[|Render(c, es)| - 1] == NEWLINE
  {
    RenderPush(c, es[..|es| - 1], es[|es| - 1]);
    assert es == es[..|es| - 1] + [es[|es| - 1]];
  }

  /** `recover_partial_tail`: cut everything after the last newline. */
  function RecoverTail(bytes: seq<Byte>): (kept: seq<Byte>)
    ensures kept <= bytes
    ensures kept == [] || kept[|kept| - 1] == NEWLINE
    ensures NEWLINE !in bytes[|kept|..]
  {
    if bytes == [] || bytes[|bytes| - 1] == NEWLINE then bytes
    else match LastIndex(bytes, NEWLINE)
      case None => []
      case Some(i) => bytes[..i + 1]
  }

  /** `BufRead::lines`: a terminated line also loses one carriage return. */
  function Lines(bytes: seq<Byte>): seq<seq<Byte>> {
    var parts := Split(bytes, NEWLINE);
    var terminated := parts[..|parts| - 1];
    var last := parts[|parts| - 1];
    StripReturns(terminated) + (if last == [] then [] else [last])
  }

  function StripReturns(lines: seq<seq<Byte>>): seq<seq<Byte>> {
    if lines == [] then [] else [StripReturn(lines[0])] + StripReturns(lines[1..])
  }

  function StripReturn(line: seq<Byte>): seq<Byte> {
    if line != [] && line[|line| - 1] == CARRIAGE_RETURN then line[..|line| - 1] else line
  }

  function DecodeLines(c: Codec, lines: seq<seq<Byte>>): Option<seq<Entry>> {
    if lines == [] then Some([])
    else match c.decode(lines[0])
      case None => None
      case Some(e) =>
        match DecodeLines(c, lines[1..])
        case None => None
        case Some(rest) => Some([e] + rest)
  }

  function ReadEntries(c: Codec, bytes: seq<Byte>): Option<seq<Entry>> {
    DecodeLines(c, Lines(bytes))
  }

  /** A terminated line is read without its newline and without one carriage return. */
  lemma LinesHead(line: seq<Byte>, rest: seq<Byte>)
    requires NEWLINE !in line
    ensures Lines(line + [NEWLINE] + rest)
         == [if line != [] && line[|line| - 1] == 13 then line[..|line| - 1] else line] + Lines(rest)
  {
    SplitHead(line, NEWLINE, rest);
    var more := Split(rest, NEWLINE);
    var parts := [line] + more;
    assert parts[..|parts| - 1] == [line] + more[..|more| - 1];
    assert ([line] + more[..|more| - 1])[1..] == more[..|more| - 1];
  }

  /** An unterminated last line is read as it is. */
  lemma LinesLast(line: seq<Byte>)
    requires NEWLINE !in line
    ensures Lines(line) == if line == [] then [] else [line]
  {
    SplitWhole(line, NEWLINE);
    assert [line][..0] == [];
  }

  /** One line that does not decode refuses the file; otherwise every line gives its entry. */
  lemma {:induction false} DecodesIff(c: Codec, lines: seq<seq<Byte>>)
    ensures DecodeLines(c, lines).Some? <==> forall i :: 0 <= i < |lines| ==> c.decode(lines[i]).Some?
    ensures DecodeLines(c, lines).Some? ==>
              && |DecodeLines(c, lines).value| == |lines|
              && forall i :: 0 <= i < |lines| ==> c.decode(lines[i]) == Some(DecodeLines(c, lines).value[i])
  {
    if lines != [] {
      DecodesIff(c, lines[1..]);
      assert forall i :: 0 < i < |lines| ==> lines[i] == lines[1..][i - 1];
      assert forall i :: 0 <= i < |lines[1..]| ==> lines[1..][i] == lines[i + 1];
    }
  }

  function Encodings(c: Codec, es: seq<Entry>): (r: seq<seq<Byte>>)
    ensures |r| == |es|
  {
    if es == [] then [] else [c.encode(es[0])] + Encodings(c, es[1..])
  }

  lemma {:induction false} SplitRender(c: Codec, es: seq<Entry>)
    requires Faithful(c)
    ensures Split(Render(c, es), NEWLINE) == Encodings(c, es) + [[]]
  {
    if es != [] {
      SplitRender(c, es[1..]);
      SplitHead(c.encode(es[0]), NEWLINE, Render(c, es[1..]));
    }
  }

  lemma {:induction false} DecodeEncodings(c: Codec, es: seq<Entry>)
    requires Faithful(c)
    ensures DecodeLines(c, StripReturns(Encodings(c, es))) == Some(es)
  {
    if es != [] {
      DecodeEncodings(c, es[1..]);
      assert c.decode(c.encode(es[0])) == Some(es[0]);
      var lines := StripReturns(Encodings(c, es));
      assert lines[0] == c.encode(es[0]);
      assert lines[1..] == StripReturns(Encodings(c, es[1..]));
      assert [es[0]] + es[1..] == es;
    }
  }

  /** Reading a written file returns the entries that were written. */
  lemma ReadRender(c: Codec, es: seq<Entry>)
    requires Faithful(c)
    ensures ReadEntries(c, Render(c, es)) == Some(es)
  {
    SplitRender(c, es);
    DecodeEncodings(c, es);
    var parts := Encodings(c, es) + [[]];
    assert parts[..|parts| - 1] == Encodings(c, es);
    assert Lines(Render(c, es)) == StripReturns(Encodings(c, es));
  }

  lemma RecoverTorn(front: seq<Byte>, torn: seq<Byte>)
    requires front == [] || front[|front| - 1] == NEWLINE
    requires NEWLINE !in torn
    ensures RecoverTail(front + torn) == front
  {
    var whole := front + torn;
    if torn == [] {
      assert whole == front;
    } else {
      assert whole[|whole| - 1] == torn[|torn| - 1] && torn[|torn| - 1] in torn;
      if front == [] {
        assert whole == torn;
      } else {
        var before := front[..|front| - 1];
        assert whole == before + [NEWLINE] + torn;
        LastIndexAt(before, NEWLINE, torn);
        assert whole[..|before| + 1] == front;
      }
    }
  }

  /** After any number of bytes of one appended line, tail recovery leaves the file
      before the append, or after it once the newline is down. */
  lemma TornAppend(c: Codec, es: seq<Entry>, e: Entry, k: nat)
    requires Faithful(c) && k <= |Line(c, e)|
    ensures RecoverTail(Render(c, es) + Line(c, e)[..k])
         == Render(c, if k < |Line(c, e)| then es else es + [e])
  {
    if k == |Line(c, e)| {
      assert Line(c, e)[..k] == Line(c, e);
      RenderPush(c, es, e);
    } else {
      assert c.decode(c.encode(e)) == Some(e);
      assert Line(c, e)[..k] == c.encode(e)[..k];
      if es != [] { RenderEndsInNewline(c, es); }
      RecoverTorn(Render(c, es), Line(c, e)[..k]);
    }
  }

  // ---------- Sequence numbers ----------

  function SatAdd(a: nat, b: nat): nat { if a + b <= U64_MAX then a + b else U64_MAX }

  /** The number of the entry at position `i` of the whole append history. */
  function Numbered(i: nat): nat { if i + 1 <= U64_MAX then i + 1 else U64_MAX }

  ghost predicate WellNumbered(history: seq<Entry>) {
    forall i :: 0 <= i < |history| ==> history[i].sequence == Numbered(i)
  }

  function NextSequence(events: seq<Entry>): nat {
    if events == [] then 1 else SatAdd(events[|events| - 1].sequence, 1)
  }

  /** Saturation is exactly where numbers stop identifying entries. */
  lemma NumbersIdentifyEntries(history: seq<Entry>)
    requires WellNumbered(history)
    ensures (forall i, j :: 0 <= i < j < |history| ==> history[i].sequence != history[j].sequence)
       <==> |history| <= U64_MAX
  {
    if |history| > U64_MAX {
      assert history[U64_MAX - 1].sequence == history[U64_MAX].sequence == U64_MAX;
    }
  }

  /** Opening the log: recover the tail, read the entries, number the next one. */
  function Reopen(c: Codec, file: seq<Byte>): Option<(seq<Entry>, nat)> {
    match ReadEntries(c, RecoverTail(file))
    case None => None
    case Some(events) => Some((events, NextSequence(events)))
  }

  lemma ReopenTorn(c: Codec, es: seq<Entry>, e: Entry, k: nat)
    requires Faithful(c) && k <= |Line(c, e)|
    ensures var after := if k < |Line(c, e)| then es else es + [e];
            Reopen(c, Render(c, es) + Line(c, e)[..k]) == Some((after, NextSequence(after)))
  {
    TornAppend(c, es, e, k);
    ReadRender(c, if k < |Line(c, e)| then es else es + [e]);
  }

  lemma ReopenRender(c: Codec, es: seq<Entry>)
    requires Faithful(c)
    ensures Reopen(c, Render(c, es)) == Some((es, NextSequence(es)))
  {
    ReadRender(c, es);
    if es != [] { RenderEndsInNewline(c, es); }
  }

  // ---------- Reading by cursor ----------

  datatype Reply = Page(events: seq<RuntimeEvent>, cursor: nat) | CursorExpired(oldest: nat)

  /** The cursor a client holds after a reply. */
  function ReplyCursor(r: Reply): nat { if r.Page? then r.cursor else r.oldest }

  function EventsOf(es: seq<Entry>): (r: seq<RuntimeEvent>)
    ensures |r| == |es| && forall i :: 0 <= i < |es| ==> r[i] == es[i].event
  {
    seq(|es|, i requires 0 <= i < |es| => es[i].event)
  }

  function After(es: seq<Entry>, cursor: nat): seq<Entry> {
    if es == [] then []
    else (if es[0].sequence > cursor then [es[0]] else []) + After(es[1..], cursor)
  }

  /** A request without a cursor starts at 0. */
  function CursorOf(since: Option<nat>): nat { if since.Some? then since.value else 0 }

  /** `events_since` under the lock. */
  function PageSince(es: seq<Entry>, since: Option<nat>): Reply {
    var cursor := CursorOf(since);
    if es != [] && cursor < es[0].sequence && cursor < es[0].sequence - 1
    then CursorExpired(es[0].sequence - 1)
    else Page(EventsOf(After(es, cursor)), if es == [] then cursor else es[|es| - 1].sequence)
  }

  lemma {:induction false} AfterSlice(es: seq<Entry>, first: nat, cursor: nat)
    requires forall i :: 0 <= i < |es| ==> es[i].sequence == first + i + 1
    ensures After(es, cursor)
         == if cursor <= first then es else if cursor <= first + |es| then es[cursor - first..] else []
  {
    if es != [] {
      AfterSlice(es[1..], first + 1, cursor);
      if cursor <= first {
        assert [es[0]] + es[1..] == es;
      }
    }
  }

  lemma AfterWindow(history: seq<Entry>, dropped: nat, cursor: nat)
    requires WellNumbered(history) && |history| <= U64_MAX && dropped <= |history|
    ensures dropped <= cursor ==>
              After(history[dropped..], cursor) == if cursor <= |history| then history[cursor..] else []
  {
    var es := history[dropped..];
    forall i | 0 <= i < |es|
      ensures es[i].sequence == dropped + i + 1
    {
      assert es[i] == history[dropped + i];
    }
    AfterSlice(es, dropped, cursor);
    if dropped <= cursor <= |history| {
      assert es[cursor - dropped..] == history[cursor..];
    }
  }

  /** A read of a contiguous window of the history, with the window's bounds as the
      only two things that decide the answer. */
  lemma PageOfWindow(history: seq<Entry>, dropped: nat, since: Option<nat>)
    requires WellNumbered(history) && |history| <= U64_MAX
    requires dropped <= |history| && (history == [] || dropped < |history|)
    ensures PageSince(history[dropped..], since)
         == if history == [] then Page([], CursorOf(since))
            else if CursorOf(since) < dropped then CursorExpired(dropped)
            else if CursorOf(since) <= |history| then Page(EventsOf(history[CursorOf(since)..]), |history|)
            else Page([], |history|)
  {
    var es := history[dropped..];
    AfterWindow(history, dropped, CursorOf(since));
    if history != [] {
      assert es[0] == history[dropped] && es[|es| - 1] == history[|history| - 1];
      assert history[dropped].sequence == dropped + 1 && history[|history| - 1].sequence == |history|;
    }
  }

  /** A returned page moves the cursor back exactly when the reader was ahead of a
      log that holds entries. */
  lemma PageCursorMovesBackIff(history: seq<Entry>, dropped: nat, since: Option<nat>)
    requires WellNumbered(history) && |history| <= U64_MAX
    requires dropped <= |history| && (history == [] || dropped < |history|)
    ensures var r := PageSince(history[dropped..], since);
            (r.Page? && r.cursor < CursorOf(since)) <==> (history != [] && CursorOf(since) > |history|)
  {
    PageOfWindow(history, dropped, since);
  }

  // ---------- Retention ----------

  predicate Old(e: Entry, nowMs: nat) {
    (if nowMs >= e.tsMs then nowMs - e.tsMs else 0) > RETENTION_MIN_AGE_MS
  }

  /** `take_while(..).count()`. */
  function OldPrefix(es: seq<Entry>, nowMs: nat): (k: nat)
    ensures k <= |es|
    ensures forall i :: 0 <= i < k ==> Old(es[i], nowMs)
    ensures k < |es| ==> !Old(es[k], nowMs)
  {
    if es == [] || !Old(es[0], nowMs) then 0 else 1 + OldPrefix(es[1..], nowMs)
  }

  function RetainFrom(es: seq<Entry>, nowMs: nat): (r: Option<nat>)
    ensures r.Some? ==> 0 < r.value <= |es|
  {
    if |es| < RETENTION_MIN_EVENTS then None
    else
      var extra := |es| - RETENTION_MIN_EVENTS;
      var aged := OldPrefix(es, nowMs);
      var count := if extra < aged then extra else aged;
      if count > 0 then Some(count) else None
  }

  /** A prefix the retention policy allows to drop. */
  predicate Droppable(es: seq<Entry>, nowMs: nat, k: nat) {
    && k + RETENTION_MIN_EVENTS <= |es|
    && forall i :: 0 <= i < k ==> Old(es[i], nowMs)
  }

  /** Compaction drops the longest droppable prefix, whatever the timestamps' order;
      so it keeps the newest entry and at least the minimum count. */
  lemma RetainFromIsLongest(es: seq<Entry>, nowMs: nat)
    ensures match RetainFrom(es, nowMs)
            case None => forall k: nat :: Droppable(es, nowMs, k) ==> k == 0
            case Some(count) =>
              && 0 < count < |es|
              && Droppable(es, nowMs, count)
              && es[count..] != [] && es[count..][|es| - count - 1] == es[|es| - 1]
              && forall k: nat :: Droppable(es, nowMs, k) ==> k <= count
  {
    forall k: nat | Droppable(es, nowMs, k)
      ensures k <= OldPrefix(es, nowMs)
    {
      var aged := OldPrefix(es, nowMs);
      assert aged < |es| ==> !Old(es[aged], nowMs);
    }
  }

  /** AGE. Exactly the oldest entries above the minimum of ten thousand go, one after the
      other while each is more than seven days old; nothing younger goes with them. */
  lemma DroppedByAge(es: seq<Entry>, nowMs: nat)
    ensures match RetainFrom(es, nowMs)
            case None => |es| <= 10_000 || es[0].tsMs + 604_800_000 >= nowMs
            case Some(k) =>
              && 0 < k && k + 10_000 <= |es|
              && (forall i :: 0 <= i < k ==> es[i].tsMs + 604_800_000 < nowMs)
              && (|es| - k > 10_000 ==> es[k].tsMs + 604_800_000 >= nowMs)
  {
    var aged := OldPrefix(es, nowMs);
    assert forall i :: 0 <= i < aged ==> Old(es[i], nowMs);
    assert aged < |es| ==> !Old(es[aged], nowMs);
  }

  // ---------- One whole append ----------

  /** What an append works on: every entry ever appended, how many compaction dropped,
      memory, file and the next number. */
  datatype LogView = LogView(
    history: seq<Entry>, dropped: nat, events: seq<Entry>, file: seq<Byte>, nextSequence: nat)

  /** Record and newline written, entry pushed. */
  function AfterPush(c: Codec, v: LogView, entry: Entry): LogView {
    v.(history := v.history + [entry], events := v.events + [entry], file := v.file + Line(c, entry))
  }

  /** The retained entries in memory and, rendered, in the file. */
  function AfterCompact(c: Codec, v: LogView, nowMs: nat): LogView {
    match RetainFrom(v.events, nowMs)
    case None => v
    case Some(k) =>
      v.(dropped := v.dropped + k, events := v.events[k..], file := Render(c, v.events[k..]))
  }

  /** The log after one successful append, compaction included. */
  function AfterAppend(c: Codec, v: LogView, event: RuntimeEvent, tsMs: nat, nowMs: nat): LogView {
    var entry := Entry(v.nextSequence, tsMs, event);
    AfterCompact(c, AfterPush(c, v.(nextSequence := SatAdd(v.nextSequence, 1)), entry), nowMs)
  }

  /** An append never removes an event younger than seven days, nor any below ten thousand,
      whatever the order of timestamps; and what it keeps is a suffix with the new entry. */
  lemma AppendKeepsYoung(c: Codec, v: LogView, event: RuntimeEvent, tsMs: nat, nowMs: nat)
    ensures var pushed := v.events + [Entry(v.nextSequence, tsMs, event)];
            var r := AfterAppend(c, v, event, tsMs, nowMs);
            var k := |pushed| - |r.events|;
            && 0 <= k && r.events == pushed[k..] && r.dropped == v.dropped + k
            && (k > 0 ==> |r.events| >= 10_000)
            && (forall i :: 0 <= i < k ==> pushed[i].tsMs + 604_800_000 < nowMs)
            && (|r.events| > 10_000 ==> r.events[0].tsMs + 604_800_000 >= nowMs)
  {
    DroppedByAge(v.events + [Entry(v.nextSequence, tsMs, event)], nowMs);
  }
}
