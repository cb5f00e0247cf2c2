/** Container paths as strings and as component lists, and host paths as the standard
    library's component iterator sees them. */
module Paths {
  import opened Strings

  const SLASH: char := '/'

  /** A component that survives normalisation. */
  predicate CleanPart(p: string) { p != "" && p != "." && p != ".." && SLASH !in p }

  predicate Clean(parts: seq<string>) { forall i :: 0 <= i < |parts| ==> CleanPart(parts[i]) }

  // ---------- Normalisation ----------

  /** One component applied to the stack. */
  function Step(stack: seq<string>, part: string): seq<string> {
    if part == "" || part == "." then stack
    else if part == ".." then (if stack == [] then [] else stack[..|stack| - 1])
    else stack + [part]
  }

  /** A fold of components over the stack. */
  function Walk(stack: seq<string>, parts: seq<string>): seq<string>
    decreases parts
  {
    if parts == [] then stack else Walk(Step(stack, parts[0]), parts[1..])
  }

  /** The component list a string denotes. */
  function PartsOf(value: string): seq<string> { Walk([], Split(value, SLASH)) }

  function RenderPath(parts: seq<string>): string {
    if parts == [] then "/" else "/" + Join(parts, SLASH)
  }

  function Normalize(value: string): Option<string> {
    if value == "" || value[0] != SLASH then None else Some(RenderPath(PartsOf(value)))
  }

  /** `normalize_container_path`, with its push/pop stack. */
  method NormalizeContainerPath(value: string) returns (r: Option<string>)
    ensures r == Normalize(value)
  {
    if value == "" || value[0] != SLASH {
      return None;
    }
    var split := Split(value, SLASH);
    var parts: seq<string> := [];
    for i := 0 to |split|
      invariant Walk(parts, split[i..]) == PartsOf(value)
    {
      var part := split[i];
      if part == "" || part == "." {
      } else if part == ".." {
        if parts != [] {
          parts := parts[..|parts| - 1];
        }
      } else {
        parts := parts + [part];
      }
      assert split[i..][1..] == split[i + 1..];
    }
    return Some(if parts == [] then "/" else "/" + Join(parts, SLASH));
  }

  lemma {:induction false} WalkClean(stack: seq<string>, parts: seq<string>)
    requires Clean(stack) && Free(parts, SLASH)
    ensures Clean(Walk(stack, parts))
    decreases parts
  {
    if parts != [] {
      assert parts[0] in parts;
      WalkClean(Step(stack, parts[0]), parts[1..]);
    }
  }

  lemma {:induction false} WalkAppendsClean(stack: seq<string>, parts: seq<string>)
    requires Clean(parts)
    ensures Walk(stack, parts) == stack + parts
    decreases parts
  {
    if parts != [] {
      WalkAppendsClean(stack + [parts[0]], parts[1..]);
      assert stack + [parts[0]] + parts[1..] == stack + parts;
    }
  }

  lemma {:induction false} WalkConcat(stack: seq<string>, first: seq<string>, second: seq<string>)
    ensures Walk(stack, first + second) == Walk(Walk(stack, first), second)
    decreases first
  {
    if first == [] {
      assert first + second == second;
    } else {
      WalkConcat(Step(stack, first[0]), first[1..], second);
      assert (first + second)[1..] == first[1..] + second;
    }
  }

  lemma PartsOfClean(value: string)
    ensures Clean(PartsOf(value))
  {
    WalkClean([], Split(value, SLASH));
  }

  lemma SplitSlash()
    ensures Split("/", SLASH) == ["", ""]
    ensures ["", ""][1..] == [""] && [""][1..] == []
  {
    SplitHead("", SLASH, "");
    assert "" + [SLASH] + "" == "/";
  }

  /** Reading a rendered component list back. */
  lemma PartsOfRender(parts: seq<string>)
    requires Clean(parts)
    ensures PartsOf(RenderPath(parts)) == parts
  {
    if parts == [] {
      SplitSlash();
    } else {
      SplitJoin(parts, SLASH);
      SplitHead("", SLASH, Join(parts, SLASH));
      assert "" + [SLASH] + Join(parts, SLASH) == RenderPath(parts);
      assert ([""] + parts)[1..] == parts;
      WalkAppendsClean([], parts);
      assert [] + parts == parts;
    }
  }

  /** Normalisation is idempotent, yields only clean components, and is determined by
      the components it denotes. */
  lemma NormalizeIdempotent(value: string)
    requires Normalize(value).Some?
    ensures var n := Normalize(value).value;
            && Normalize(n) == Some(n)
            && PartsOf(n) == PartsOf(value) && Clean(PartsOf(n))
            && forall p :: p in Split(n, SLASH)[1..] && n != "/" ==> CleanPart(p)
  {
    var parts := PartsOf(value);
    PartsOfClean(value);
    PartsOfRender(parts);
    if parts != [] {
      SplitJoin(parts, SLASH);
      SplitHead("", SLASH, Join(parts, SLASH));
      assert "" + [SLASH] + Join(parts, SLASH) == RenderPath(parts);
      assert Split(RenderPath(parts), SLASH)[1..] == parts;
    }
  }

  lemma GrowHead(c: char, rest: seq<string>, more: seq<string>)
    requires rest != []
    ensures [[c] + (rest + more)[0]] + (rest + more)[1..] == ([[c] + rest[0]] + rest[1..]) + more
  {
    assert (rest + more)[0] == rest[0];
    assert (rest + more)[1..] == rest[1..] + more;
  }

  lemma {:induction false} SplitConcat(a: string, b: string)
    ensures Split(a + [SLASH] + b, SLASH) == Split(a, SLASH) + Split(b, SLASH)
  {
    if a == [] {
      SplitHead("", SLASH, b);
    } else {
      var whole := a + [SLASH] + b;
      assert whole[1..] == a[1..] + [SLASH] + b && whole[0] == a[0];
      SplitConcat(a[1..], b);
      var rest, more := Split(a[1..], SLASH), Split(b, SLASH);
      assert Split(whole[1..], SLASH) == rest + more;
      if a[0] == SLASH {
        assert Split(whole, SLASH) == [[]] + (rest + more);
        assert [[]] + (rest + more) == ([[]] + rest) + more;
      } else {
        GrowHead(a[0], rest, more);
        assert Split(whole, SLASH) == [[a[0]] + (rest + more)[0]] + (rest + more)[1..];
      }
    }
  }

  /** Joining two paths resolves the second from where the first leads, `..` included. */
  lemma NormalizeResolves(a: string, b: string)
    requires a != "" && a[0] == SLASH
    ensures Normalize(a + [SLASH] + b) == Some(RenderPath(Walk(PartsOf(a), Split(b, SLASH))))
    ensures Normalize(a + [SLASH] + "..")
         == Some(RenderPath(if PartsOf(a) == [] then [] else PartsOf(a)[..|PartsOf(a)| - 1]))
    ensures Normalize(a + [SLASH] + ".") == Normalize(a) && Normalize(a + [SLASH] + "") == Normalize(a)
    ensures CleanPart(b) ==> Normalize(a + [SLASH] + b) == Some(RenderPath(PartsOf(a) + [b]))
  {
    SplitConcat(a, b);
    WalkConcat([], Split(a, SLASH), Split(b, SLASH));
    OnePart(a, "..");
    OnePart(a, ".");
    OnePart(a, "");
    if CleanPart(b) { OnePart(a, b); }
  }

  lemma OnePart(a: string, part: string)
    requires SLASH !in part
    ensures PartsOf(a + [SLASH] + part) == Step(PartsOf(a), part)
  {
    SplitConcat(a, part);
    SplitWhole(part, SLASH);
    WalkConcat([], Split(a, SLASH), [part]);
    assert [part][1..] == [];
  }

  // ---------- The string cover test ----------

  /** `container_path_covers`. */
  predicate ContainerCovers(root: string, value: string) {
    || root == "/"
    || value == root
    || (root <= value && |root| < |value| && value[|root|] == SLASH)
  }

  /** Components each preceded by a slash. */
  function Text(parts: seq<string>): string {
    if parts == [] then "" else [SLASH] + parts[0] + Text(parts[1..])
  }

  lemma {:induction false} RenderIsText(parts: seq<string>)
    requires parts != []
    ensures RenderPath(parts) == Text(parts)
  {
    if |parts| > 1 {
      RenderIsText(parts[1..]);
      assert [SLASH] + Join(parts, SLASH) == [SLASH] + parts[0] + ([SLASH] + Join(parts[1..], SLASH));
    }
  }

  lemma {:induction false} TextConcat(a: seq<string>, b: seq<string>)
    ensures Text(a + b) == Text(a) + Text(b)
  {
    if a == [] {
      assert a + b == b;
    } else {
      TextConcat(a[1..], b);
      assert (a + b)[1..] == a[1..] + b;
    }
  }

  /** Two slash-free heads followed by a slash or the end are equal. */
  lemma {:induction false} HeadsAgree(x: string, u: string, y: string, v: string)
    requires SLASH !in x && SLASH !in y
    requires x + u == y + v
    requires (u == "" || u[0] == SLASH) && (v == "" || v[0] == SLASH)
    ensures x == y && u == v
  {
    assert x != "" ==> x[0] in x && (x + u)[0] == x[0];
    assert y != "" ==> y[0] in y && (y + v)[0] == y[0];
    assert x == "" ==> x + u == u;
    assert y == "" ==> y + v == v;
    if x != "" {
      assert y != "";
      assert (x + u)[1..] == x[1..] + u;
      assert (y + v)[1..] == y[1..] + v;
      HeadsAgree(x[1..], u, y[1..], v);
      assert x == [x[0]] + x[1..] && y == [y[0]] + y[1..];
    }
  }

  lemma TextStart(parts: seq<string>)
    ensures Text(parts) == "" || Text(parts)[0] == SLASH
  {
  }

  lemma TextOne(parts: seq<string>, tail: string)
    requires parts != []
    ensures Text(parts) + tail == [SLASH] + (parts[0] + (Text(parts[1..]) + tail))
  {
  }

  /** A text that continues another one after a slash extends its component list. */
  lemma {:induction false} TextPrefix(a: seq<string>, b: seq<string>, tail: string)
    requires Clean(a) && Clean(b)
    requires Text(b) == Text(a) + tail && (tail == "" || tail[0] == SLASH)
    ensures a <= b
  {
    if a != [] {
      assert b != [];
      TextStart(a[1..]);
      TextStart(b[1..]);
      TextOne(a, tail);
      TextOne(b, "");
      var u, v := Text(a[1..]) + tail, Text(b[1..]) + "";
      assert ([SLASH] + (a[0] + u))[1..] == a[0] + u;
      assert ([SLASH] + (b[0] + v))[1..] == b[0] + v;
      assert Text(b) + "" == Text(b);
      assert CleanPart(a[0]) && CleanPart(b[0]);
      HeadsAgree(a[0], u, b[0], v);
      assert v == Text(b[1..]);
      TextPrefix(a[1..], b[1..], tail);
      assert a == [a[0]] + a[1..] && b == [b[0]] + b[1..];
    }
  }

  lemma CoversOfPrefix(a: seq<string>, b: seq<string>)
    requires a <= b
    ensures ContainerCovers(RenderPath(a), RenderPath(b))
  {
    if a != [] && a != b {
      var rest := b[|a|..];
      assert b == a + rest;
      TextConcat(a, rest);
      RenderIsText(a);
      RenderIsText(b);
      assert Text(rest)[0] == SLASH;
    }
  }

  lemma PrefixOfCovers(a: seq<string>, b: seq<string>)
    requires Clean(a) && Clean(b) && a != []
    requires ContainerCovers(RenderPath(a), RenderPath(b))
    ensures a <= b
  {
    RenderIsText(a);
    assert CleanPart(a[0]);
    assert |Text(a)| >= 2;
    assert b != [];
    RenderIsText(b);
    TextPrefix(a, b, Text(b)[|Text(a)|..]);
  }

  /** On normalised paths the string test is exactly the prefix test on components:
      `/` covers everything and `/a` does not cover `/ab`. */
  lemma CoversIffPrefix(a: seq<string>, b: seq<string>)
    requires Clean(a) && Clean(b)
    ensures ContainerCovers(RenderPath(a), RenderPath(b)) <==> a <= b
  {
    if a <= b {
      CoversOfPrefix(a, b);
    } else if ContainerCovers(RenderPath(a), RenderPath(b)) {
      PrefixOfCovers(a, b);
    }
  }

  // ---------- Host paths ----------

  datatype Component = RootDir | CurDir | ParentDir | Normal(name: string)

  function Normals(names: seq<string>): (r: seq<Component>)
    ensures |r| == |names| && forall i :: 0 <= i < |names| ==> r[i] == Normal(names[i])
  {
    seq(|names|, i requires 0 <= i < |names| => Normal(names[i]))
  }

  /** Components after the first: empty parts and `.` vanish. */
  function InnerComponents(parts: seq<string>): seq<Component> {
    if parts == [] then []
    else if parts[0] == "" || parts[0] == "." then InnerComponents(parts[1..])
    else [if parts[0] == ".." then ParentDir else Normal(parts[0])] + InnerComponents(parts[1..])
  }

  /** `Path::components`, on which path equality and prefix tests are defined. */
  function HostComponents(raw: string): seq<Component> {
    HostOfParts(raw != "" && raw[0] == SLASH, Split(raw, SLASH))
  }

  function HostOfParts(absolute: bool, parts: seq<string>): seq<Component>
    requires parts != []
  {
    if absolute then [RootDir] + InnerComponents(parts)
    else if parts[0] == "." then [CurDir] + InnerComponents(parts[1..])
    else InnerComponents(parts)
  }

  lemma {:induction false} InnerConcat(a: seq<string>, b: seq<string>)
    ensures InnerComponents(a + b) == InnerComponents(a) + InnerComponents(b)
  {
    if a == [] {
      assert a + b == b;
    } else {
      InnerConcat(a[1..], b);
      assert (a + b)[1..] == a[1..] + b && (a + b)[0] == a[0];
    }
  }

  /** Joining paths appends the second one's components. */
  lemma HostJoin(a: string, b: string)
    requires a != ""
    ensures HostComponents(a + [SLASH] + b) == HostComponents(a) + InnerComponents(Split(b, SLASH))
  {
    SplitConcat(a, b);
    assert (a + [SLASH] + b)[0] == a[0];
    HostOfPartsConcat(a[0] == SLASH, Split(a, SLASH), Split(b, SLASH));
  }

  lemma ConsConcat(c: Component, x: seq<Component>, y: seq<Component>)
    ensures [c] + (x + y) == ([c] + x) + y
  {
  }

  lemma TailConcat(first: seq<string>, second: seq<string>)
    requires first != []
    ensures (first + second)[1..] == first[1..] + second && (first + second)[0] == first[0]
  {
  }

  lemma HostOfPartsConcat(absolute: bool, first: seq<string>, second: seq<string>)
    requires first != []
    ensures HostOfParts(absolute, first + second) == HostOfParts(absolute, first) + InnerComponents(second)
  {
    TailConcat(first, second);
    if absolute {
      InnerConcat(first, second);
      ConsConcat(RootDir, InnerComponents(first), InnerComponents(second));
    } else if first[0] == "." {
      InnerConcat(first[1..], second);
      ConsConcat(CurDir, InnerComponents(first[1..]), InnerComponents(second));
    } else {
      InnerConcat(first, second);
    }
  }

  lemma InnerOfOne(part: string)
    requires SLASH !in part
    ensures InnerComponents(Split(part, SLASH))
         == if part == "" || part == "." then [] else if part == ".." then [ParentDir] else [Normal(part)]
  {
    SplitWhole(part, SLASH);
    assert [part][1..] == [];
  }

  /** Components as the standard library documents them: a trailing slash or `.` vanishes,
      `..` stays, a name is appended, and only a leading `.` is kept. */
  lemma HostComponentsOf(a: string, name: string)
    requires a != "" && CleanPart(name)
    ensures HostComponents(a + [SLASH] + "") == HostComponents(a)
    ensures HostComponents(a + [SLASH] + ".") == HostComponents(a)
    ensures HostComponents(a + [SLASH] + "..") == HostComponents(a) + [ParentDir]
    ensures HostComponents(a + [SLASH] + name) == HostComponents(a) + [Normal(name)]
    ensures HostComponents(name) == [Normal(name)] && HostComponents([SLASH] + name) == [RootDir, Normal(name)]
    ensures HostComponents("") == [] && HostComponents(".") == [CurDir] && HostComponents("..") == [ParentDir]
  {
    HostJoin(a, "");
    HostJoin(a, ".");
    HostJoin(a, "..");
    HostJoin(a, name);
    InnerOfOne("");
    InnerOfOne(".");
    InnerOfOne("..");
    InnerOfOne(name);
    SplitWhole(name, SLASH);
    assert name[0] in name;
    SplitWhole(".", SLASH);
    SplitWhole("..", SLASH);
    SplitHead("", SLASH, name);
    assert "" + [SLASH] + name == [SLASH] + name;
    assert ["", name][1..] == [name] && [name][1..] == [];
    assert HostComponents([SLASH] + name) == [RootDir] + InnerComponents(["", name]);
  }

  /** `host_path_covers`: equal, or `starts_with` on components. */
  predicate HostCovers(root: string, value: string) { HostComponents(root) <= HostComponents(value) }

  /** What `canonicalize` returns: absolute, without empty, `.` or `..` components. */
  predicate Canonical(raw: string) { Normalize(raw) == Some(raw) }

  lemma {:induction false} InnerOfClean(parts: seq<string>)
    requires Clean(parts)
    ensures InnerComponents(parts) == Normals(parts)
  {
    if parts != [] {
      InnerOfClean(parts[1..]);
      assert CleanPart(parts[0]);
    }
  }

  lemma HostOfCanonical(raw: string)
    requires Canonical(raw)
    ensures HostComponents(raw) == [RootDir] + Normals(PartsOf(raw))
  {
    var parts := PartsOf(raw);
    PartsOfClean(raw);
    if parts == [] {
      SplitSlash();
    } else {
      SplitJoin(parts, SLASH);
      SplitHead("", SLASH, Join(parts, SLASH));
      assert "" + [SLASH] + Join(parts, SLASH) == raw;
      assert ([""] + parts)[1..] == parts;
      InnerOfClean(parts);
    }
  }
}
