/** Splitting, joining and decimal printing, as the Rust standard library does them.
    Every function works on any element type, so the same lemmas serve log bytes
    and path strings. */
module Strings {

  datatype Option<+T> = None | Some(value: T)

  datatype Result<+T, +E> = Ok(value: T) | Err(error: E)

  /** `str::split`: n separators give n + 1 parts, possibly empty. */
  function Split<T(==)>(s: seq<T>, sep: T): (parts: seq<seq<T>>)
    ensures |parts| >= 1
    ensures forall p :: p in parts ==> sep !in p
  {
    if s == [] then [[]]
    else
      var rest := Split(s[1..], sep);
      if s[0] == sep then [[]] + rest
      else [[s[0]] + rest[0]] + rest[1..]
  }

  /** `[T]::join`. */
  function Join<T>(parts: seq<seq<T>>, sep: T): seq<T> {
    if |parts| == 0 then []
    else if |parts| == 1 then parts[0]
    else parts[0] + [sep] + Join(parts[1..], sep)
  }

  predicate Free<T(==)>(parts: seq<seq<T>>, sep: T) {
    forall p :: p in parts ==> sep !in p
  }

  /** Splitting a separator-free head followed by one separator. */
  lemma {:induction false} SplitHead<T>(head: seq<T>, sep: T, tail: seq<T>)
    requires sep !in head
    ensures Split(head + [sep] + tail, sep) == [head] + Split(tail, sep)
  {
    var s := head + [sep] + tail;
    if head == [] {
      assert s[1..] == tail;
    } else {
      SplitHead(head[1..], sep, tail);
      assert s[1..] == head[1..] + [sep] + tail;
      var rest := Split(s[1..], sep);
      assert rest[1..] == Split(tail, sep);
      assert [head[0]] + head[1..] == head;
    }
  }

  lemma {:induction false} SplitWhole<T>(s: seq<T>, sep: T)
    requires sep !in s
    ensures Split(s, sep) == [s]
  {
    if s != [] {
      SplitWhole(s[1..], sep);
      assert [s[0]] + s[1..] == s;
    }
  }

  lemma {:induction false} SplitJoin<T>(parts: seq<seq<T>>, sep: T)
    requires parts != [] && Free(parts, sep)
    ensures Split(Join(parts, sep), sep) == parts
  {
    if |parts| == 1 {
      SplitWhole(parts[0], sep);
    } else {
      SplitJoin(parts[1..], sep);
      SplitHead(parts[0], sep, Join(parts[1..], sep));
      assert [parts[0]] + parts[1..] == parts;
    }
  }

  /** Nothing of the text is lost in its parts. */
  lemma {:induction false} JoinSplit<T>(s: seq<T>, sep: T)
    ensures Join(Split(s, sep), sep) == s && Free(Split(s, sep), sep)
  {
    if s != [] {
      var rest := Split(s[1..], sep);
      JoinSplit(s[1..], sep);
      if s[0] == sep {
        assert ([[]] + rest)[1..] == rest;
        assert [] + [sep] + Join(rest, sep) == [s[0]] + s[1..];
      } else {
        JoinHead([s[0]], rest, sep);
      }
      assert [s[0]] + s[1..] == s;
    }
  }

  lemma JoinHead<T>(x: seq<T>, parts: seq<seq<T>>, sep: T)
    requires parts != []
    ensures Join([x + parts[0]] + parts[1..], sep) == x + Join(parts, sep)
  {
    var all := [x + parts[0]] + parts[1..];
    assert all[1..] == parts[1..];
    if |parts| > 1 {
      var tail := [sep] + Join(parts[1..], sep);
      assert x + parts[0] + [sep] + Join(parts[1..], sep) == x + (parts[0] + [sep] + Join(parts[1..], sep));
    }
  }

  /** The last position of `x`, as `rposition`, `rfind` and `rsplit_once` use it. */
  function LastIndex<T(==)>(s: seq<T>, x: T): (r: Option<nat>)
    ensures r.None? <==> x !in s
    ensures r.Some? ==> r.value < |s| && s[r.value] == x && x !in s[r.value + 1..]
  {
    if s == [] then None
    else if s[|s| - 1] == x then Some(|s| - 1)
    else
      var r := LastIndex(s[..|s| - 1], x);
      assert s == s[..|s| - 1] + [s[|s| - 1]];
      assert r.Some? ==> s[r.value + 1..] == s[..|s| - 1][r.value + 1..] + [s[|s| - 1]];
      r
  }

  /** The first position of `x`, as `split_once` uses it. */
  function FirstIndex<T(==)>(s: seq<T>, x: T): (r: Option<nat>)
    ensures r.None? <==> x !in s
    ensures r.Some? ==> r.value < |s| && s[r.value] == x && x !in s[..r.value]
  {
    if s == [] then None
    else if s[0] == x then Some(0)
    else
      var r := FirstIndex(s[1..], x);
      assert s == [s[0]] + s[1..];
      match r
      case None => None
      case Some(i) => assert s[..i + 1] == [s[0]] + s[1..][..i]; Some(i + 1)
  }

  lemma {:induction false} LastIndexAt<T>(before: seq<T>, x: T, after: seq<T>)
    requires x !in after
    ensures LastIndex(before + [x] + after, x) == Some(|before|)
  {
    var s := before + [x] + after;
    if after != [] {
      LastIndexAt(before, x, after[..|after| - 1]);
      assert s[..|s| - 1] == before + [x] + after[..|after| - 1];
      assert s[|s| - 1] in after;
    }
  }

  lemma {:induction false} FirstIndexAt<T>(before: seq<T>, x: T, after: seq<T>)
    requires x !in before
    ensures FirstIndex(before + [x] + after, x) == Some(|before|)
  {
    if before != [] {
      FirstIndexAt(before[1..], x, after);
      assert (before + [x] + after)[1..] == before[1..] + [x] + after;
    }
  }

  // ---------- Decimal numbers ----------

  predicate IsDigit(c: char) { '0' <= c <= '9' }

  function DigitValue(c: char): nat
    requires IsDigit(c)
  {
    c as int - '0' as int
  }

  /** `Display` of an unsigned integer. */
  function ShowNat(n: nat): (s: string)
    ensures s != [] && forall c :: c in s ==> IsDigit(c)
  {
    var digit := ['0' as int as char + (n % 10) as char];
    if n < 10 then digit else ShowNat(n / 10) + digit
  }

  /** Value of a digit string read left to right. */
  function DigitsValue(s: string): nat
    requires forall c :: c in s ==> IsDigit(c)
  {
    if s == [] then 0
    else 10 * DigitsValue(s[..|s| - 1]) + DigitValue(s[|s| - 1])
  }

  /** `str::parse` for an unsigned integer type with the given maximum: one leading
      plus sign is accepted, an empty digit string and overflow are not. */
  function ParseNat(s: string, max: nat): (r: Option<nat>)
    ensures r.Some? ==> r.value <= max
  {
    var digits := if s != [] && s[0] == '+' then s[1..] else s;
    if digits == [] || exists c :: c in digits && !IsDigit(c) then None
    else if DigitsValue(digits) > max then None
    else Some(DigitsValue(digits))
  }

  lemma {:induction false} DigitsValueShow(n: nat)
    ensures DigitsValue(ShowNat(n)) == n
  {
    if n >= 10 {
      DigitsValueShow(n / 10);
      assert ShowNat(n)[..|ShowNat(n)| - 1] == ShowNat(n / 10);
    }
  }

  /** Printing then parsing returns the number exactly when it fits the type. */
  lemma ParseShow(n: nat, max: nat)
    ensures ParseNat(ShowNat(n), max) == if n <= max then Some(n) else None
  {
    DigitsValueShow(n);
    assert !IsDigit('+');
    assert ShowNat(n)[0] in ShowNat(n);
  }

  /** What is accepted: digits with at most one plus sign before them, within the type. */
  lemma ParseNatIff(s: string, max: nat, n: nat)
    ensures ParseNat(s, max) == Some(n)
       <==> exists digits: string ::
              && (s == digits || s == ['+'] + digits) && digits != "" && (forall c :: c in digits ==> IsDigit(c))
              && n == DigitsValue(digits) && n <= max
  {
    var digits := if s != [] && s[0] == '+' then s[1..] else s;
    assert s == digits || s == ['+'] + digits;
    assert !IsDigit('+');
    if other: string :| (s == other || s == ['+'] + other) && other != "" && (forall c :: c in other ==> IsDigit(c)) {
      assert other[0] in other;
      assert other == digits;
    }
  }
}
