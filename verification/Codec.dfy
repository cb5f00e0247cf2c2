/** Printers, parsers and the row encoding of the lifecycle table. */
module Codec {
  import opened Strings
  import opened Lifecycles
  import Handlers

  const U32_MAX: nat := 0xFFFF_FFFF
  const I32_MIN: int := -0x8000_0000
  const I32_MAX: int := 0x7FFF_FFFF

  // ---------- Tmux addresses ----------

  function ShowTmux(a: TmuxAddress): string {
    a.session + [':'] + (ShowNat(a.window) + ['.'] + ShowNat(a.pane))
  }

  /** Splits at the last colon, then the remainder at its first dot. */
  function ParseTmux(value: string): Option<TmuxAddress> {
    match LastIndex(value, ':')
    case None => None
    case Some(i) =>
      var session, target := value[..i], value[i + 1..];
      match FirstIndex(target, '.')
      case None => None
      case Some(j) =>
        var window, pane := ParseNat(target[..j], U32_MAX), ParseNat(target[j + 1..], U32_MAX);
        if session == "" || window.None? || pane.None? then None
        else Some(TmuxAddress(session, window.value, pane.value))
  }

  predicate TmuxTyped(a: TmuxAddress) { a.window <= U32_MAX && a.pane <= U32_MAX }

  lemma ShowNatFree(n: nat)
    ensures ':' !in ShowNat(n) && '.' !in ShowNat(n)
  {
    assert !IsDigit(':') && !IsDigit('.');
  }

  lemma CutAt(before: string, x: char, after: string)
    ensures (before + [x] + after)[..|before|] == before
    ensures (before + [x] + after)[|before| + 1..] == after
  {
  }

  lemma TargetCuts(window: string, pane: string)
    requires '.' !in window
    ensures var target := window + ['.'] + pane;
            && FirstIndex(target, '.') == Some(|window|)
            && target[..|window|] == window && target[|window| + 1..] == pane
  {
    FirstIndexAt(window, '.', pane);
    CutAt(window, '.', pane);
  }

  lemma ColonCuts(session: string, target: string)
    requires ':' !in target
    ensures var value := session + [':'] + target;
            && LastIndex(value, ':') == Some(|session|)
            && value[..|session|] == session && value[|session| + 1..] == target
  {
    LastIndexAt(session, ':', target);
    CutAt(session, ':', target);
  }

  /** The text is a session, a last colon, a window number, a dot and a pane number. */
  predicate AddressText(value: string, a: TmuxAddress, window: string, pane: string) {
    && value == a.session + [':'] + (window + ['.'] + pane) && a.session != ""
    && ':' !in window && ':' !in pane && '.' !in window
    && ParseNat(window, U32_MAX) == Some(a.window) && ParseNat(pane, U32_MAX) == Some(a.pane)
  }

  lemma AddressTextParses(value: string, a: TmuxAddress, window: string, pane: string)
    requires AddressText(value, a, window, pane)
    ensures ParseTmux(value) == Some(a)
  {
    var target := window + ['.'] + pane;
    ColonCuts(a.session, target);
    TargetCuts(window, pane);
  }

  /** An address survives printing exactly when its session name is not empty, whatever
      colons or dots the name holds. */
  lemma TmuxRoundTripIff(a: TmuxAddress)
    requires TmuxTyped(a)
    ensures ParseTmux(ShowTmux(a)) == (if a.session == "" then None else Some(a))
  {
    var window, pane := ShowNat(a.window), ShowNat(a.pane);
    ShowNatFree(a.window);
    ShowNatFree(a.pane);
    if a.session == "" {
      ColonCuts("", window + ['.'] + pane);
    } else {
      ParseShow(a.window, U32_MAX);
      ParseShow(a.pane, U32_MAX);
      AddressTextParses(ShowTmux(a), a, window, pane);
    }
  }

  lemma CutBack(s: string, x: char, i: nat)
    requires i < |s| && s[i] == x
    ensures s == s[..i] + [x] + s[i + 1..]
  {
  }

  lemma ParsedIsAddressText(value: string) returns (window: string, pane: string)
    requires ParseTmux(value).Some?
    ensures AddressText(value, ParseTmux(value).value, window, pane)
  {
    var i := LastIndex(value, ':').value;
    var target := value[i + 1..];
    var j := FirstIndex(target, '.').value;
    window, pane := target[..j], target[j + 1..];
    CutBack(value, ':', i);
    CutBack(target, '.', j);
  }

  /** Exactly such texts are accepted. */
  lemma ParseTmuxIff(value: string, a: TmuxAddress)
    ensures ParseTmux(value) == Some(a) <==> exists window: string, pane: string :: AddressText(value, a, window, pane)
  {
    if ParseTmux(value) == Some(a) {
      var window, pane := ParsedIsAddressText(value);
    }
    if window: string, pane: string :| AddressText(value, a, window, pane) {
      AddressTextParses(value, a, window, pane);
    }
  }

  datatype SpawnTarget = HeadlessTarget | TmuxTarget(address: TmuxAddress)

  const TMUX_PREFIX := "tmux:"

  function ParseTarget(value: string): Option<SpawnTarget> {
    if value == "headless" then Some(HeadlessTarget)
    else if TMUX_PREFIX <= value then
      match ParseTmux(value[|TMUX_PREFIX|..])
      case None => None
      case Some(a) => Some(TmuxTarget(a))
    else None
  }

  lemma DropHead(head: string, rest: string)
    ensures head <= head + rest && (head + rest)[|head|..] == rest
  {
  }

  /** The documented target syntax names every address with a session. */
  lemma TargetSyntax(a: TmuxAddress)
    requires TmuxTyped(a)
    ensures ParseTarget("tmux:" + ShowTmux(a)) == if a.session == "" then None else Some(TmuxTarget(a))
  {
    TmuxRoundTripIff(a);
    DropHead(TMUX_PREFIX, ShowTmux(a));
    assert (TMUX_PREFIX + ShowTmux(a))[0] == 't' && "headless"[0] == 'h';
  }

  /** The other targets are exactly the word headless. */
  lemma TargetForms(value: string)
    ensures ParseTarget(value) == Some(HeadlessTarget) <==> value == "headless"
    ensures ParseTarget(value).Some? ==> value == "headless" || "tmux:" <= value
  {
  }

  // ---------- Isolation and runtime ----------

  function ShowIsolation(p: IsolationPolicy): string {
    match p
    case Host => "host"
    case Docker(None) => "docker"
    case Docker(Some(name)) => "docker:" + name
  }

  function ParseIsolation(value: string): Option<IsolationPolicy> {
    if value == "host" then Some(Host)
    else if value == "docker" then Some(Docker(None))
    else if "docker:" <= value && value != "docker:" then Some(Docker(Some(value[|"docker:"|..])))
    else None
  }

  lemma IsolationRoundTripIff(p: IsolationPolicy)
    ensures ParseIsolation(ShowIsolation(p)) == (if p == Docker(Some("")) then None else Some(p))
  {
    match p
    case Host =>
    case Docker(None) =>
    case Docker(Some(name)) =>
      var value := "docker:" + name;
      assert value[0] == 'd' && |value| >= 7;
      assert value[|"docker:"|..] == name;
      if name != "" { assert |value| > 7; } else { assert value == "docker:"; }
  }

  function ShowRuntime(r: RuntimeKind): string {
    match r
    case Claude => "claude"
    case Codex => "codex"
    case Other(name) => name
  }

  function ParseRuntime(value: string): Option<RuntimeKind> {
    if value == "" then None
    else if value == "claude" then Some(Claude)
    else if value == "codex" then Some(Codex)
    else Some(Other(value))
  }

  predicate RuntimeStorable(r: RuntimeKind) {
    r.Other? ==> r.name != "" && r.name != "claude" && r.name != "codex"
  }

  /** Nothing is accepted but what is printed for the result. */
  lemma ParsedIsPrinted(value: string)
    ensures ParseIsolation(value).Some? ==> ShowIsolation(ParseIsolation(value).value) == value
    ensures ParseRuntime(value).Some? ==> ShowRuntime(ParseRuntime(value).value) == value
    ensures ParseRuntime(value).None? <==> value == ""
  {
  }

  lemma RuntimeRoundTripIff(r: RuntimeKind)
    ensures ParseRuntime(ShowRuntime(r)) == Some(r) <==> RuntimeStorable(r)
  {
    assert "claude" != "codex" && "claude" != "" && "codex" != "";
  }

  // ---------- Rows ----------

  /** Text encodings supplied from outside: session ids, RFC 3339 times, JSON strings. */
  datatype TextCodec = TextCodec(
    showId: SessionId -> string, parseId: string -> Option<SessionId>,
    showTime: DateTime -> string, parseTime: string -> Option<DateTime>,
    quote: string -> string, unquote: string -> Option<string>)

  ghost predicate Faithful(c: TextCodec) {
    && (forall id: SessionId :: c.parseId(c.showId(id)) == Some(id))
    && (forall t :: c.parseTime(c.showTime(t)) == Some(t))
    && (forall s :: c.unquote(c.quote(s)) == Some(s))
    && (forall s :: c.quote(s) != "" && c.quote(s)[|c.quote(s)| - 1] == '"')
  }

  datatype LifecycleRow = LifecycleRow(
    sessionId: string, runtime: string, isolation: string, state: string,
    shimPid: Option<int>, runtimePid: Option<int>, startTime: Option<string>, tmuxPane: Option<string>,
    exitCode: Option<int>, exitSignal: Option<int>, lostEvidence: Option<string>)

  function ShowLost(e: LostEvidence): string {
    match e
    case ShimDiedBeforeReport => "ShimDiedBeforeReport"
    case PidNotAlive => "PidNotAlive"
    case PidReuseDetected => "PidReuseDetected"
  }

  function ParseLost(value: Option<string>): Option<LostEvidence> {
    match value
    case None => None
    case Some(text) =>
      if text == "ShimDiedBeforeReport" then Some(ShimDiedBeforeReport)
      else if text == "PidNotAlive" then Some(PidNotAlive)
      else if text == "PidReuseDetected" then Some(PidReuseDetected)
      else None
  }

  function ShowState(s: LifecycleState): string {
    match s
    case Forking => "Forking"
    case Running => "Running"
    case Exited(_) => "Exited"
    case Lost(_) => "Lost"
  }

  function Encode(c: TextCodec, l: Lifecycle): LifecycleRow {
    LifecycleRow(
      c.showId(l.sessionId), ShowRuntime(l.runtime), ShowIsolation(l.isolation), ShowState(l.state),
      l.shimPid, l.runtimePid,
      (if l.startTime.Some? then Some(c.showTime(l.startTime.value)) else None),
      (if l.tmuxPane.Some? then Some(c.quote(ShowTmux(l.tmuxPane.value))) else None),
      (if l.state.Exited? then l.state.exit.code else None),
      (if l.state.Exited? then l.state.exit.signal else None),
      (if l.state.Lost? then Some(ShowLost(l.state.evidence)) else None))
  }

  /** A present column is decoded or refuses the row; an absent one stays absent. */
  function Decoded<T, U>(value: Option<T>, decode: T -> Option<U>): Option<Option<U>> {
    match value
    case None => Some(None)
    case Some(v) =>
      match decode(v)
      case None => None
      case Some(u) => Some(Some(u))
  }

  function NarrowU32(v: int): Option<nat> { if 0 <= v <= U32_MAX then Some(v) else None }

  function NarrowI32(v: int): Option<int> { if I32_MIN <= v <= I32_MAX then Some(v) else None }

  /** Panes are stored as JSON strings; a plain printed address is still understood. */
  function DecodeTmux(c: TextCodec, text: string): Option<TmuxAddress> {
    match c.unquote(text)
    case None => ParseTmux(text)
    case Some(inner) => if ParseTmux(inner).Some? then ParseTmux(inner) else ParseTmux(text)
  }

  function DecodePane(c: TextCodec, value: Option<string>): Option<Option<TmuxAddress>> {
    Decoded(value, text => DecodeTmux(c, text))
  }

  function DecodeState(row: LifecycleRow): Option<LifecycleState> {
    if row.state == "Forking" then Some(Forking)
    else if row.state == "Running" then Some(Running)
    else if row.state == "Exited" then
      var code, signal := Decoded(row.exitCode, NarrowI32), Decoded(row.exitSignal, NarrowI32);
      if code.None? || signal.None? then None else Some(Exited(RuntimeExit(code.value, signal.value)))
    else if row.state == "Lost" then
      match ParseLost(row.lostEvidence)
      case None => None
      case Some(e) => Some(Lost(e))
    else None
  }

  function Decode(c: TextCodec, row: LifecycleRow): Option<Lifecycle> {
    var id, runtime, isolation := c.parseId(row.sessionId), ParseRuntime(row.runtime), ParseIsolation(row.isolation);
    var state := DecodeState(row);
    var shim, pid := Decoded(row.shimPid, NarrowU32), Decoded(row.runtimePid, NarrowU32);
    var start := Decoded(row.startTime, c.parseTime);
    var pane := DecodePane(c, row.tmuxPane);
    if id.None? || runtime.None? || isolation.None? || state.None?
       || shim.None? || pid.None? || start.None? || pane.None?
    then None
    else Some(Lifecycle(id.value, runtime.value, isolation.value, state.value, shim.value, pid.value,
                        start.value, pane.value, None))
  }

  /** The integer widths of the Rust fields. */
  predicate Typed(l: Lifecycle) {
    && (l.shimPid.Some? ==> l.shimPid.value <= U32_MAX)
    && (l.runtimePid.Some? ==> l.runtimePid.value <= U32_MAX)
    && (l.tmuxPane.Some? ==> TmuxTyped(l.tmuxPane.value))
    && (l.state.Exited? ==> ExitTyped(l.state.exit))
  }

  predicate ExitTyped(e: RuntimeExit) {
    && (e.code.Some? ==> I32_MIN <= e.code.value <= I32_MAX)
    && (e.signal.Some? ==> I32_MIN <= e.signal.value <= I32_MAX)
  }

  lemma StateRoundTrip(c: TextCodec, l: Lifecycle)
    requires Typed(l)
    ensures DecodeState(Encode(c, l)) == Some(l.state)
  {
    assert "Forking"[0] == 'F' && "Running"[0] == 'R' && "Exited"[0] == 'E' && "Lost"[0] == 'L';
    if l.state.Lost? {
      assert |"ShimDiedBeforeReport"| == 20 && |"PidNotAlive"| == 11 && |"PidReuseDetected"| == 16;
    }
  }

  /** A text that ends in a quote is no printed address. */
  lemma QuotedIsNoAddress(text: string)
    requires text != "" && text[|text| - 1] == '"'
    ensures ParseTmux(text) == None
  {
    var i := LastIndex(text, ':');
    if i.Some? {
      var target := text[i.value + 1..];
      var j := FirstIndex(target, '.');
      if j.Some? {
        var pane := target[j.value + 1..];
        assert pane != "" && pane[|pane| - 1] == '"';
        var digits := if pane[0] == '+' then pane[1..] else pane;
        assert digits != "" ==> digits[|digits| - 1] == '"' && digits[|digits| - 1] in digits;
        assert !IsDigit('"');
        assert ParseNat(pane, U32_MAX).None?;
      }
    }
  }

  lemma Quoted(c: TextCodec, s: string)
    requires Faithful(c)
    ensures c.unquote(c.quote(s)) == Some(s)
    ensures c.quote(s) != "" && c.quote(s)[|c.quote(s)| - 1] == '"'
  {
  }

  lemma TmuxColumnRoundTripIff(c: TextCodec, a: TmuxAddress)
    requires Faithful(c) && TmuxTyped(a)
    ensures DecodeTmux(c, c.quote(ShowTmux(a))) == if a.session == "" then None else Some(a)
  {
    TmuxRoundTripIff(a);
    Quoted(c, ShowTmux(a));
    QuotedIsNoAddress(c.quote(ShowTmux(a)));
  }

  /** A raw address from before the JSON encoding still decodes. */
  lemma PlainTmuxColumnDecodes(c: TextCodec, a: TmuxAddress)
    requires TmuxTyped(a) && a.session != "" && c.unquote(ShowTmux(a)).None?
    ensures DecodeTmux(c, ShowTmux(a)) == Some(a)
  {
    TmuxRoundTripIff(a);
  }

  predicate Storable(l: Lifecycle) {
    && RuntimeStorable(l.runtime)
    && l.isolation != Docker(Some(""))
    && (l.tmuxPane.Some? ==> l.tmuxPane.value.session != "")
  }

  lemma PaneRoundTripIff(c: TextCodec, l: Lifecycle)
    requires Faithful(c) && Typed(l)
    ensures DecodePane(c, Encode(c, l).tmuxPane) == Some(l.tmuxPane)
       <==> (l.tmuxPane.Some? ==> l.tmuxPane.value.session != "")
    ensures DecodePane(c, Encode(c, l).tmuxPane).None? <==> l.tmuxPane.Some? && l.tmuxPane.value.session == ""
  {
    if l.tmuxPane.Some? { TmuxColumnRoundTripIff(c, l.tmuxPane.value); }
  }

  lemma PlainColumnsRoundTrip(c: TextCodec, l: Lifecycle)
    requires Faithful(c) && Typed(l)
    ensures var row := Encode(c, l);
            && c.parseId(row.sessionId) == Some(l.sessionId)
            && Decoded(row.shimPid, NarrowU32) == Some(l.shimPid)
            && Decoded(row.runtimePid, NarrowU32) == Some(l.runtimePid)
            && Decoded(row.startTime, c.parseTime) == Some(l.startTime)
  {
  }

  /** ROUND TRIP. A row decodes to the lifecycle it was written from, less its log
      availability, exactly when runtime, isolation and pane are storable. */
  lemma RowRoundTripIff(c: TextCodec, l: Lifecycle)
    requires Faithful(c) && Typed(l)
    ensures Decode(c, Encode(c, l)) == Some(Handlers.Stored(l)) <==> Storable(l)
  {
    PlainColumnsRoundTrip(c, l);
    RuntimeRoundTripIff(l.runtime);
    IsolationRoundTripIff(l.isolation);
    StateRoundTrip(c, l);
    PaneRoundTripIff(c, l);
  }

  /** A row with a pid, exit code or signal outside its type, an unknown state, or a lost
      state without known evidence is refused. */
  lemma DecodeRefuses(c: TextCodec, row: LifecycleRow)
    requires || (row.shimPid.Some? && !(0 <= row.shimPid.value <= 0xFFFF_FFFF))
             || (row.runtimePid.Some? && !(0 <= row.runtimePid.value <= 0xFFFF_FFFF))
             || (row.state == "Exited" && row.exitCode.Some?
                 && !(-0x8000_0000 <= row.exitCode.value <= 0x7FFF_FFFF))
             || (row.state == "Exited" && row.exitSignal.Some?
                 && !(-0x8000_0000 <= row.exitSignal.value <= 0x7FFF_FFFF))
             || (row.state !in ["Forking", "Running", "Exited", "Lost"])
             || (row.state == "Lost"
                 && row.lostEvidence !in [Some("ShimDiedBeforeReport"), Some("PidNotAlive"), Some("PidReuseDetected")])
    ensures Decode(c, row) == None
  {
    assert "Forking"[0] == 'F' && "Running"[0] == 'R' && "Exited"[0] == 'E' && "Lost"[0] == 'L';
  }

  // ---------- Every row the daemon stores ----------

  /** The profiles preflight accepts; launchers exist for two runtimes only. */
  predicate AcceptedIsolation(p: IsolationPolicy) {
    match p
    case Host => true
    case Docker(None) => true
    case Docker(Some(name)) =>
      name == "default" || name == "own-init" || name == "allow-root" || name == "arm64-manifest-escape"
  }

  predicate PaneOk(pane: Option<TmuxAddress>) { pane.Some? ==> TmuxTyped(pane.value) && pane.value.session != "" }

  predicate ReadyOk(r: ShimReady) { r.shimPid <= U32_MAX && r.runtimePid <= U32_MAX && PaneOk(r.tmuxPane) }

  /** What requests and shim reports can carry once they have been parsed and preflighted. */
  predicate ActionOk(a: Handlers.Action) {
    match a
    case Begin(req, _, _) => (req.runtime.Claude? || req.runtime.Codex?) && AcceptedIsolation(req.isolation)
    case ShimReadyRpc(ready, _) => ReadyOk(ready)
    case Running(req, ready, _) => ReadyOk(ready) && PaneOk(req.tmux)
    case Exited(_, exit, _, _) => ExitTyped(exit)
    case _ => true
  }

  predicate RowOk(l: Lifecycle) {
    && Typed(l) && l.logAvailability.None?
    && (l.runtime.Claude? || l.runtime.Codex?) && AcceptedIsolation(l.isolation) && PaneOk(l.tmuxPane)
  }

  ghost predicate RowsOk(rows: map<SessionId, Lifecycle>) { forall id :: id in rows ==> RowOk(rows[id]) }

  lemma PublishKeepsRowsOk(d: Handlers.Daemon, l: Lifecycle, stop: Handlers.Stop)
    requires RowsOk(d.rows) && RowOk(l)
    ensures RowsOk(Handlers.PublishRunning(d, l, stop).0.rows)
  {
  }

  lemma FinishKeepsRowsOk(d: Handlers.Daemon, l: Lifecycle, e: TerminationEvidence, stop: Handlers.Stop)
    requires RowsOk(d.rows) && RowOk(l)
    ensures RowsOk(Handlers.FinishTerminal(d, l, e, stop).0.rows)
  {
  }

  lemma ReadyKeepsRowsOk(d: Handlers.Daemon, a: Handlers.Action)
    requires RowsOk(d.rows) && ActionOk(a) && (a.ShimReadyRpc? || a.Running?)
    ensures RowsOk(Handlers.ApplyTo(d, a).rows)
  {
    match a
    case ShimReadyRpc(ready, stop) =>
      if ready.sessionId in d.rows {
        PublishKeepsRowsOk(d, AfterReady(d.rows[ready.sessionId], ready).0, stop);
      }
    case Running(req, ready, stop) =>
      if req.sessionId in d.rows {
        PublishKeepsRowsOk(d, AfterReady(d.rows[req.sessionId], ready).0.(tmuxPane := req.tmux), stop);
      }
  }

  lemma EndKeepsRowsOk(d: Handlers.Daemon, a: Handlers.Action)
    requires RowsOk(d.rows) && ActionOk(a) && (a.Exited? || a.Lost?)
    ensures RowsOk(Handlers.ApplyTo(d, a).rows)
  {
    match a
    case Exited(id, exit, evidence, stop) =>
      if id in d.rows { FinishKeepsRowsOk(d, AfterExit(d.rows[id], exit).0, evidence, stop); }
    case Lost(id, lost, stop) =>
      if id in d.rows { FinishKeepsRowsOk(d, AfterLoss(d.rows[id], lost).0, LostBy(lost), stop); }
  }

  lemma ApplyKeepsRowsOk(d: Handlers.Daemon, a: Handlers.Action)
    requires RowsOk(d.rows) && ActionOk(a)
    ensures RowsOk(Handlers.ApplyTo(d, a).rows)
  {
    match a
    case ShimReadyRpc(_, _) => ReadyKeepsRowsOk(d, a);
    case Running(_, _, _) => ReadyKeepsRowsOk(d, a);
    case Exited(_, _, _, _) => EndKeepsRowsOk(d, a);
    case Lost(_, _, _) => EndKeepsRowsOk(d, a);
    case WatcherFired(_, _, _) =>
      Handlers.WatcherIsRecorder(d, a);
      EndKeepsRowsOk(d, Handlers.WatcherRecorder(a));
    case _ =>
  }

  lemma {:induction false} ExecKeepsRowsOk(acts: seq<Handlers.Action>)
    requires forall i :: 0 <= i < |acts| ==> ActionOk(acts[i])
    ensures RowsOk(Handlers.Exec(acts).d.rows)
  {
    if acts != [] {
      ExecKeepsRowsOk(acts[..|acts| - 1]);
      ApplyKeepsRowsOk(Handlers.Exec(acts[..|acts| - 1]).d, acts[|acts| - 1]);
    }
  }

  /** Every row any run of the handlers stores is read back as itself. */
  lemma StoredRowsReadBack(c: TextCodec, acts: seq<Handlers.Action>, id: SessionId)
    requires Faithful(c) && forall i :: 0 <= i < |acts| ==> ActionOk(acts[i])
    requires id in Handlers.Exec(acts).d.rows
    ensures Decode(c, Encode(c, Handlers.Exec(acts).d.rows[id])) == Some(Handlers.Exec(acts).d.rows[id])
  {
    ExecKeepsRowsOk(acts);
    RowRoundTripIff(c, Handlers.Exec(acts).d.rows[id]);
  }
}
