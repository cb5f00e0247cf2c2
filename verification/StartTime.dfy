/** Process start times from `/proc`: locating the tick field and converting ticks. */
module StartTime {
  import opened Strings
  import opened Lifecycles

  const NANOS: nat := 1_000_000_000
  const I64_MAX: int := 0x7FFF_FFFF_FFFF_FFFF
  const I64_MIN: int := -0x8000_0000_0000_0000
  const U64_MAX: nat := 0xFFFF_FFFF_FFFF_FFFF

  // ---------- Tick arithmetic ----------

  /** Known time, no answer on this platform, or an error. */
  datatype Conversion = Converted(time: DateTime) | NoAnswer | Overflow

  function Nanos(ticks: nat, hz: nat): nat
    requires hz > 0
  {
    ((ticks % hz) * NANOS) / hz
  }

  /** `start_time_from_ticks`; `valid` is the calendar's range of seconds. */
  function FromTicks(boot: int, ticks: nat, hz: int, valid: int -> bool): Conversion {
    if hz <= 0 then NoAnswer
    else
      var sinceBoot := ticks / hz;
      if sinceBoot > I64_MAX then Overflow
      else
        var seconds := boot + sinceBoot;
        if seconds > I64_MAX || seconds < I64_MIN then NoAnswer
        else if !valid(seconds) then Overflow
        else Converted(DateTime(seconds, Nanos(ticks, hz)))
  }

  predicate Earlier(a: DateTime, b: DateTime) {
    a.seconds < b.seconds || (a.seconds == b.seconds && a.nanos < b.nanos)
  }

  lemma LessFromMul(a: nat, b: nat, d: nat)
    requires a * d < b * d
    ensures a < b
  {
    assert (b - a) * d == b * d - a * d;
  }

  lemma DivBelow(x: nat, d: nat, n: nat)
    requires d > 0 && x < n * d
    ensures x / d < n
  {
    assert x == (x / d) * d + x % d;
    LessFromMul(x / d, n, d);
  }

  /** Nanoseconds never reach a whole second, for any tick rate. */
  lemma NanosBelowSecond(ticks: nat, hz: nat)
    requires hz > 0
    ensures Nanos(ticks, hz) < NANOS
  {
    var r := ticks % hz;
    assert r * NANOS < NANOS * hz;
    DivBelow(r * NANOS, hz, NANOS);
  }

  lemma DivGrows(x: nat, y: nat, d: nat)
    requires d > 0 && y >= x + d
    ensures y / d > x / d
  {
    assert x == (x / d) * d + x % d;
    DivAtLeast(y, d, x / d + 1);
  }

  lemma DivAtLeast(y: nat, d: nat, q: nat)
    requires d > 0 && y >= q * d
    ensures y / d >= q
  {
    assert y == (y / d) * d + y % d;
    assert (y / d + 1) * d == (y / d) * d + d;
    LessFromMul(q, y / d + 1, d);
  }

  lemma NanosGrow(r1: nat, r2: nat, hz: nat)
    requires 0 < hz <= NANOS && r1 < r2 < hz
    ensures (r1 * NANOS) / hz < (r2 * NANOS) / hz
  {
    assert r2 * NANOS >= (r1 + 1) * NANOS == r1 * NANOS + NANOS;
    DivGrows(r1 * NANOS, r2 * NANOS, hz);
  }

  lemma QuotientOrder(a: nat, b: nat, d: nat)
    requires d > 0 && a < b
    ensures a / d < b / d || (a / d == b / d && a % d < b % d)
  {
    assert a == (a / d) * d + a % d && b == (b / d) * d + b % d;
    assert (b / d + 1) * d == (b / d) * d + d;
    LessFromMul(a / d, b / d + 1, d);
  }

  lemma ConversionIncreases(boot: int, t1: nat, t2: nat, hz: int, valid: int -> bool)
    requires 0 < hz <= NANOS && t1 < t2
    requires FromTicks(boot, t1, hz, valid).Converted? && FromTicks(boot, t2, hz, valid).Converted?
    ensures Earlier(FromTicks(boot, t1, hz, valid).time, FromTicks(boot, t2, hz, valid).time)
  {
    QuotientOrder(t1, t2, hz);
    if t1 / hz == t2 / hz {
      NanosGrow(t1 % hz, t2 % hz, hz);
    }
  }

  lemma DivBounds(x: nat, d: nat)
    requires d > 0
    ensures (x / d) * d <= x < (x / d + 1) * d
  {
    assert x == (x / d) * d + x % d;
    assert (x / d + 1) * d == (x / d) * d + d;
  }

  lemma SplitTicks(ticks: nat, hz: nat, n: nat, m: nat)
    requires hz > 0 && m * hz <= (ticks % hz) * n < (m + 1) * hz
    ensures ((ticks / hz) * n + m) * hz <= ticks * n < ((ticks / hz) * n + m + 1) * hz
  {
    var q, r := ticks / hz, ticks % hz;
    assert ticks == q * hz + r;
    assert ticks * n == (q * hz) * n + r * n;
    assert (q * hz) * n == (q * n) * hz;
    assert (q * n + m) * hz == (q * n) * hz + m * hz;
    assert (q * n + m + 1) * hz == (q * n) * hz + (m + 1) * hz;
  }

  /** SIZE. The converted time is the boot time plus the ticks, rounded down to a nanosecond;
      an answer is given exactly for a positive rate and a date in range, and an error instead
      of no answer exactly when the ticks or the date, but not their sum, are out of range. */
  lemma ConversionIsFloor(boot: int, ticks: nat, hz: int, valid: int -> bool)
    ensures FromTicks(boot, ticks, hz, valid).Converted?
       <==> && hz > 0 && ticks / hz <= 0x7FFF_FFFF_FFFF_FFFF
            && -0x8000_0000_0000_0000 <= boot + ticks / hz <= 0x7FFF_FFFF_FFFF_FFFF && valid(boot + ticks / hz)
    ensures FromTicks(boot, ticks, hz, valid).Overflow?
       <==> && hz > 0
            && (|| ticks / hz > 0x7FFF_FFFF_FFFF_FFFF
                || (&& -0x8000_0000_0000_0000 <= boot + ticks / hz <= 0x7FFF_FFFF_FFFF_FFFF
                    && !valid(boot + ticks / hz)))
    ensures FromTicks(boot, ticks, hz, valid).Converted? ==>
              var t := FromTicks(boot, ticks, hz, valid).time;
              var sinceBoot := (t.seconds - boot) * 1_000_000_000 + t.nanos;
              sinceBoot * hz <= ticks * 1_000_000_000 < (sinceBoot + 1) * hz
  {
    if hz > 0 {
      DivBounds((ticks % hz) * NANOS, hz);
      SplitTicks(ticks, hz, NANOS, Nanos(ticks, hz));
    }
  }

  /** Later ticks give later times on all accepted inputs. */
  ghost predicate StrictlyIncreasing(boot: int, hz: int, valid: int -> bool) {
    forall t1: nat, t2: nat ::
      t1 < t2 && FromTicks(boot, t1, hz, valid).Converted? && FromTicks(boot, t2, hz, valid).Converted? ==>
        Earlier(FromTicks(boot, t1, hz, valid).time, FromTicks(boot, t2, hz, valid).time)
  }

  lemma FastClockCollides(boot: int, hz: int, valid: int -> bool)
    requires hz > NANOS && I64_MIN <= boot <= I64_MAX && valid(boot)
    ensures FromTicks(boot, 0, hz, valid) == FromTicks(boot, 1, hz, valid) == Converted(DateTime(boot, 0))
  {
    assert 0 / hz == 0 && 1 / hz == 0 && 0 % hz == 0 && 1 % hz == 1;
    assert NANOS / hz == 0;
  }

  /** Conversion tells ticks apart exactly up to a nanosecond clock. */
  lemma IncreasingIffRateAtMostNano(boot: int, hz: int, valid: int -> bool)
    requires hz > 0 && I64_MIN <= boot <= I64_MAX && valid(boot)
    ensures StrictlyIncreasing(boot, hz, valid) <==> hz <= NANOS
  {
    if hz <= NANOS {
      forall t1: nat, t2: nat |
        t1 < t2 && FromTicks(boot, t1, hz, valid).Converted? && FromTicks(boot, t2, hz, valid).Converted?
        ensures Earlier(FromTicks(boot, t1, hz, valid).time, FromTicks(boot, t2, hz, valid).time)
      {
        ConversionIncreases(boot, t1, t2, hz, valid);
      }
    } else {
      FastClockCollides(boot, hz, valid);
    }
  }

  /** Equal times mean equal ticks. */
  lemma ConversionInjective(boot: int, t1: nat, t2: nat, hz: int, valid: int -> bool)
    requires 0 < hz <= NANOS
    requires FromTicks(boot, t1, hz, valid).Converted? && FromTicks(boot, t2, hz, valid).Converted?
    ensures FromTicks(boot, t1, hz, valid).time == FromTicks(boot, t2, hz, valid).time <==> t1 == t2
    ensures FromTicks(boot, t1, hz, valid).time.nanos < NANOS
  {
    NanosBelowSecond(t1, hz);
    if t1 < t2 { ConversionIncreases(boot, t1, t2, hz, valid); }
    if t2 < t1 { ConversionIncreases(boot, t2, t1, hz, valid); }
  }

  // ---------- The stat line ----------

  /** Unicode white space. */
  predicate IsSpace(c: char) {
    var n := c as int;
    || 0x9 <= n <= 0xD || n == 0x20 || n == 0x85 || n == 0xA0 || n == 0x1680 || 0x2000 <= n <= 0x200A
    || n == 0x2028 || n == 0x2029 || n == 0x202F || n == 0x205F || n == 0x3000
  }

  function WordLength(s: string): (n: nat)
    ensures n <= |s|
    ensures s != "" && !IsSpace(s[0]) ==> n > 0
  {
    if s == "" || IsSpace(s[0]) then 0 else 1 + WordLength(s[1..])
  }

  /** `split_whitespace`. */
  function Words(s: string): seq<string>
    decreases |s|
  {
    if s == "" then []
    else if IsSpace(s[0]) then Words(s[1..])
    else [s[..WordLength(s)]] + Words(s[WordLength(s)..])
  }

  function TwentiethField(rest: string): Option<nat> {
    var fields := Words(rest);
    if |fields| <= 19 then None else ParseNat(fields[19], U64_MAX)
  }

  /** The twentieth word after the last closing parenthesis and one more character. */
  function ProcStatStartTicks(stat: string): Option<nat> {
    match LastIndex(stat, ')')
    case None => None
    case Some(close) =>
      if close + 2 > |stat| then None else TwentiethField(stat[close + 2..])
  }

  predicate IsWord(w: string) { w != "" && forall i :: 0 <= i < |w| ==> !IsSpace(w[i]) }

  predicate AllWords(words: seq<string>) { forall i :: 0 <= i < |words| ==> IsWord(words[i]) }

  lemma AllWordsSplit(words: seq<string>)
    requires AllWords(words) && words != []
    ensures IsWord(words[0]) && AllWords(words[1..])
  {
  }

  lemma {:induction false} WordLengthOf(w: string, rest: string)
    requires forall i :: 0 <= i < |w| ==> !IsSpace(w[i])
    requires rest == "" || IsSpace(rest[0])
    ensures WordLength(w + rest) == |w|
  {
    if w == "" {
      assert w + rest == rest;
    } else {
      WordLengthOf(w[1..], rest);
      assert (w + rest)[1..] == w[1..] + rest;
    }
  }

  lemma WordsOne(w: string, rest: string)
    requires IsWord(w) && (rest == "" || IsSpace(rest[0]))
    ensures Words(w + rest) == [w] + Words(rest)
  {
    WordLengthOf(w, rest);
    assert (w + rest)[..|w|] == w && (w + rest)[|w|..] == rest;
  }

  lemma NoWords(end: string)
    requires end == "" || end == "\n"
    ensures Words(end) == []
  {
    if end == "\n" { assert end[1..] == ""; }
  }

  lemma WordThen(w: string, tail: string)
    requires IsWord(w)
    ensures Words(w + [' '] + tail) == [w] + Words(tail)
  {
    WordsOne(w, [' '] + tail);
    assert w + ([' '] + tail) == w + [' '] + tail;
    assert ([' '] + tail)[1..] == tail;
  }

  lemma {:induction false} WordsOfJoin(words: seq<string>, end: string)
    requires AllWords(words)
    requires words != [] && (end == "" || end == "\n")
    ensures Words(Join(words, ' ') + end) == words
  {
    AllWordsSplit(words);
    if |words| == 1 {
      WordsOne(words[0], end);
      NoWords(end);
      assert words == [words[0]];
    } else {
      var rest := words[1..];
      WordsOfJoin(rest, end);
      WordThen(words[0], Join(rest, ' ') + end);
      assert words[0] + [' '] + (Join(rest, ' ') + end) == Join(words, ' ') + end;
      assert words == [words[0]] + rest;
    }
  }

  function StatLine(pid: string, comm: string, gap: char, fields: seq<string>, end: string): string {
    (pid + " (" + comm) + [')'] + ([gap] + (Join(fields, ' ') + end))
  }

  lemma {:induction false} JoinKeepsOut(words: seq<string>, x: char)
    requires x != ' ' && Free(words, x)
    ensures x !in Join(words, ' ')
  {
    if |words| > 1 {
      JoinKeepsOut(words[1..], x);
      assert words[0] in words;
    } else if |words| == 1 {
      assert words[0] in words;
    }
  }

  lemma TailAfter(before: string, x: char, y: char, rest: string)
    ensures |before + [x] + ([y] + rest)| >= |before| + 2
    ensures (before + [x] + ([y] + rest))[|before| + 2..] == rest
  {
  }

  lemma FieldIsTicks(rest: string, ticks: nat)
    requires |Words(rest)| >= 20 && ticks <= U64_MAX && Words(rest)[19] == ShowNat(ticks)
    ensures TwentiethField(rest) == Some(ticks)
  {
    ParseShow(ticks, U64_MAX);
  }

  lemma CloseFound(before: string, gap: char, tail: string)
    requires gap != ')' && ')' !in tail
    ensures ProcStatStartTicks(before + [')'] + ([gap] + tail)) == TwentiethField(tail)
  {
    LastIndexAt(before, ')', [gap] + tail);
    TailAfter(before, ')', gap, tail);
  }

  /** The tick field is found for every process name, spaces and parentheses included,
      whatever the one character that is skipped after it. */
  lemma TicksFoundForAnyName(
    pid: string, comm: string, gap: char, fields: seq<string>, end: string, ticks: nat)
    requires |fields| >= 20 && (end == "" || end == "\n") && gap != ')'
    requires AllWords(fields)
    requires Free(fields, ')')
    requires ticks <= U64_MAX && fields[19] == ShowNat(ticks)
    ensures ProcStatStartTicks(StatLine(pid, comm, gap, fields, end)) == Some(ticks)
  {
    JoinKeepsOut(fields, ')');
    WordsOfJoin(fields, end);
    FieldIsTicks(Join(fields, ' ') + end, ticks);
    CloseFound(pid + " (" + comm, gap, Join(fields, ' ') + end);
  }

  /** Without a closing parenthesis, with nothing after the last one, or with fewer than
      twenty words from the second character after it, there is no start time. */
  lemma TicksRefused(stat: string)
    ensures ')' !in stat ==> ProcStatStartTicks(stat) == None
    ensures stat != "" && stat[|stat| - 1] == ')' ==> ProcStatStartTicks(stat) == None
    ensures forall before: string, gap: char, tail: string ::
              gap != ')' && ')' !in tail && stat == before + [')'] + ([gap] + tail) && |Words(tail)| < 20 ==>
                ProcStatStartTicks(stat) == None
  {
    if stat != "" && stat[|stat| - 1] == ')' {
      assert stat == stat[..|stat| - 1] + [')'] + [];
      LastIndexAt(stat[..|stat| - 1], ')', []);
    }
    forall before: string, gap: char, tail: string |
      gap != ')' && ')' !in tail && stat == before + [')'] + ([gap] + tail) && |Words(tail)| < 20
      ensures ProcStatStartTicks(stat) == None
    {
      CloseFound(before, gap, tail);
    }
  }
}
