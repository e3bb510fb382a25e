/** The string operations the volume identifiers are made with. */
module Strings {

  function Split(s: string, c: char): (r: seq<string>)
    ensures |r| >= 1
  {
    if s == "" then [""]
    else
      var rest := Split(s[1..], c);
      if s[0] == c then [""] + rest else [[s[0]] + rest[0]] + rest[1..]
  }

  function Join(parts: seq<string>, c: char): string
    requires |parts| >= 1
  {
    if |parts| == 1 then parts[0] else parts[0] + [c] + Join(parts[1..], c)
  }

  predicate AllFree(parts: seq<string>, c: char) {
    forall i | 0 <= i < |parts| :: c !in parts[i]
  }

  lemma {:induction false} SegmentsAreFree(s: string, c: char)
    ensures AllFree(Split(s, c), c)
  {
    if s != "" {
      SegmentsAreFree(s[1..], c);
    }
  }

  lemma {:induction false} SplitFree(s: string, c: char)
    requires c !in s
    ensures Split(s, c) == [s]
  {
    if s != "" {
      SplitFree(s[1..], c);
      assert s == [s[0]] + s[1..];
    }
  }

  /** A string with n separators has n + 1 segments. */
  lemma {:induction false} SplitCounts(s: string, c: char)
    ensures |Split(s, c)| == multiset(s)[c] + 1
  {
    if s != "" {
      SplitCounts(s[1..], c);
      assert s == [s[0]] + s[1..];
      assert multiset(s) == multiset{s[0]} + multiset(s[1..]);
    }
  }

  lemma {:induction false} JoinSplit(s: string, c: char)
    ensures Join(Split(s, c), c) == s
  {
    if s != "" {
      var rest := Split(s[1..], c);
      JoinSplit(s[1..], c);
      assert s == [s[0]] + s[1..];
      if s[0] == c {
        assert ([""] + rest)[1..] == rest;
      } else {
        assert ([[s[0]] + rest[0]] + rest[1..])[1..] == rest[1..];
      }
    }
  }

  /** A separator splits the segments of its two sides. */
  lemma {:induction false} SplitAt(a: string, b: string, c: char)
    ensures Split(a + [c] + b, c) == Split(a, c) + Split(b, c)
  {
    if a == "" {
      assert (a + [c] + b)[1..] == b;
    } else {
      var s := a + [c] + b;
      assert s[0] == a[0] && s[1..] == a[1..] + [c] + b;
      SplitAt(a[1..], b, c);
      ExtendFirst(a[0], Split(a[1..], c), Split(b, c));
    }
  }

  lemma {:induction false} ExtendFirst(x: char, p: seq<string>, q: seq<string>)
    requires p != []
    ensures [[x] + (p + q)[0]] + (p + q)[1..] == ([[x] + p[0]] + p[1..]) + q
    ensures [""] + (p + q) == ([""] + p) + q
  {
  }

  /** Splitting undoes joining exactly when no part contains the separator. */
  lemma {:induction false} SplitJoin(parts: seq<string>, c: char)
    requires |parts| >= 1
    ensures AllFree(parts, c) <==> Split(Join(parts, c), c) == parts
  {
    SegmentsAreFree(Join(parts, c), c);
    if AllFree(parts, c) {
      SplitFree(parts[0], c);
      if |parts| > 1 {
        SplitAt(parts[0], Join(parts[1..], c), c);
        SplitJoin(parts[1..], c);
        assert AllFree(parts[1..], c);
        assert parts == [parts[0]] + parts[1..];
      }
    }
  }

  lemma {:induction false} AtLeastTheParts(parts: seq<string>, c: char)
    requires |parts| >= 1
    ensures |Split(Join(parts, c), c)| >= |parts|
  {
    if |parts| > 1 {
      SplitAt(parts[0], Join(parts[1..], c), c);
      AtLeastTheParts(parts[1..], c);
    }
  }

  /** The first and the last part of three or more. */
  lemma {:induction false} JoinEnds(a: string, mid: seq<string>, b: string, c: char)
    requires |mid| >= 1
    ensures Join([a] + mid + [b], c) == a + [c] + Join(mid, c) + [c] + b
  {
    assert ([a] + mid + [b])[1..] == mid + [b];
    JoinLast(mid, b, c);
  }

  lemma {:induction false} JoinLast(mid: seq<string>, b: string, c: char)
    requires |mid| >= 1
    ensures Join(mid + [b], c) == Join(mid, c) + [c] + b
  {
    if |mid| == 1 {
      assert (mid + [b])[1..] == [b];
    } else {
      assert (mid + [b])[1..] == mid[1..] + [b];
      JoinLast(mid[1..], b, c);
    }
  }

  lemma {:induction false} JoinInjective(a: seq<string>, b: seq<string>, c: char)
    requires |a| >= 1 && |b| >= 1 && AllFree(a, c) && AllFree(b, c)
    ensures Join(a, c) == Join(b, c) <==> a == b
  {
    SplitJoin(a, c);
    SplitJoin(b, c);
  }

  // ----- trimming

  function TrimLeft(s: string, c: char): string {
    if s != "" && s[0] == c then TrimLeft(s[1..], c) else s
  }

  function TrimRight(s: string, c: char): string {
    if s != "" && s[|s| - 1] == c then TrimRight(s[..|s| - 1], c) else s
  }

  function Trim(s: string, c: char): string {
    TrimRight(TrimLeft(s, c), c)
  }

  predicate Bare(s: string, c: char) {
    s == "" || (s[0] != c && s[|s| - 1] != c)
  }

  /** Nothing but the character. */
  predicate Only(s: string, c: char) {
    forall x | x in s :: x == c
  }

  lemma {:induction false} TrimLeftIs(s: string, c: char) returns (before: string)
    ensures TrimLeft(s, c) == "" || TrimLeft(s, c)[0] != c
    ensures s == before + TrimLeft(s, c) && Only(before, c)
  {
    before := "";
    if s != "" && s[0] == c {
      before := TrimLeftIs(s[1..], c);
      before := [c] + before;
      assert s == [s[0]] + s[1..];
    }
  }

  lemma {:induction false} TrimRightIs(s: string, c: char) returns (after: string)
    ensures TrimRight(s, c) == "" || TrimRight(s, c)[|TrimRight(s, c)| - 1] != c
    ensures TrimRight(s, c) <= s && s == TrimRight(s, c) + after && Only(after, c)
  {
    after := "";
    if s != "" && s[|s| - 1] == c {
      after := TrimRightIs(s[..|s| - 1], c);
      after := after + [c];
      assert s == s[..|s| - 1] + [s[|s| - 1]];
    }
  }

  /** Trimming leaves nothing to trim, and what it took off the two ends is nothing but the character. */
  lemma {:induction false} TrimIsBare(s: string, c: char)
    ensures Bare(Trim(s, c), c)
    ensures exists before, after :: s == before + Trim(s, c) + after && Only(before, c) && Only(after, c)
    ensures forall x | x in Trim(s, c) :: x in s
  {
    var before := TrimLeftIs(s, c);
    var after := TrimRightIs(TrimLeft(s, c), c);
    assert s == before + Trim(s, c) + after;
  }

  lemma {:induction false} TrimBare(s: string, c: char)
    requires Bare(s, c)
    ensures Trim(s, c) == s
  {
  }

  /** Only the trimmed character is dropped: a string free of it is left alone, and any other
      character is kept. */
  lemma {:induction false} TrimKeeps(s: string, c: char, x: char)
    requires x != c
    ensures x in Trim(s, c) <==> x in s
  {
    TrimLeftKeeps(s, c, x);
    TrimRightKeeps(TrimLeft(s, c), c, x);
  }

  lemma {:induction false} TrimLeftKeeps(s: string, c: char, x: char)
    requires x != c
    ensures x in TrimLeft(s, c) <==> x in s
  {
    if s != "" && s[0] == c {
      TrimLeftKeeps(s[1..], c, x);
      assert s == [s[0]] + s[1..];
    }
  }

  lemma {:induction false} TrimRightKeeps(s: string, c: char, x: char)
    requires x != c
    ensures x in TrimRight(s, c) <==> x in s
  {
    if s != "" && s[|s| - 1] == c {
      TrimRightKeeps(s[..|s| - 1], c, x);
      assert s == s[..|s| - 1] + [s[|s| - 1]];
    }
  }

  // ----- letter case, for ASCII letters

  function LowerChar(x: char): char {
    if 'A' <= x <= 'Z' then x - 'A' + 'a' else x
  }

  function Lower(s: string): (r: string)
    ensures |r| == |s|
    ensures forall i | 0 <= i < |s| :: r[i] == LowerChar(s[i])
  {
    if s == "" then "" else [LowerChar(s[0])] + Lower(s[1..])
  }

  predicate EqualFold(a: string, b: string) {
    Lower(a) == Lower(b)
  }

  predicate IsCapitalOf(x: char, y: char) {
    'A' <= x <= 'Z' && y as int == x as int + 32
  }

  /** Strings are equal without regard to case exactly when they agree letter by letter up to capitals. */
  lemma {:induction false} EqualFoldIs(a: string, b: string)
    ensures EqualFold(a, b) <==>
            |a| == |b| && forall i | 0 <= i < |a| :: a[i] == b[i] || IsCapitalOf(a[i], b[i]) || IsCapitalOf(b[i], a[i])
  {
    forall x: char, y: char ensures LowerChar(x) == LowerChar(y) <==> x == y || IsCapitalOf(x, y) || IsCapitalOf(y, x) {
      SameLetter(x, y);
    }
  }

  lemma {:induction false} SameLetter(x: char, y: char)
    ensures LowerChar(x) == LowerChar(y) <==> x == y || IsCapitalOf(x, y) || IsCapitalOf(y, x)
  {
  }
}

/** Path cleaning and joining as in Go's filepath package on Unix, by components. */
module Paths {
  import opened Strings

  /** One component of a path on top of those kept so far: empty and "." components vanish, ".."
      takes back the last kept one, is dropped at the root, and is kept at the start of a relative path. */
  function Push(kept: seq<string>, comp: string, rooted: bool): seq<string> {
    if comp == "" || comp == "." then kept
    else if comp == ".." then
      if kept != [] && kept[|kept| - 1] != ".." then kept[..|kept| - 1]
      else if rooted then kept
      else kept + [".."]
    else kept + [comp]
  }

  function Walk(kept: seq<string>, comps: seq<string>, rooted: bool): seq<string>
    decreases |comps|
  {
    if comps == [] then kept else Walk(Push(kept, comps[0], rooted), comps[1..], rooted)
  }

  function Rooted(path: string): bool {
    path != "" && path[0] == '/'
  }

  function Render(kept: seq<string>, rooted: bool): (r: string) {
    if kept == [] then if rooted then "/" else "."
    else (if rooted then "/" else "") + Join(kept, '/')
  }

  function Clean(path: string): string {
    Render(Walk([], Split(path, '/'), Rooted(path)), Rooted(path))
  }

  /** Leading empty elements are dropped; the rest is joined and cleaned. */
  function JoinPath(a: string, b: string): string {
    if a != "" then Clean(a + "/" + b) else if b != "" then Clean(b) else ""
  }

  lemma {:induction false} WalkOn(kept: seq<string>, a: seq<string>, b: seq<string>, rooted: bool)
    ensures Walk(kept, a + b, rooted) == Walk(Walk(kept, a, rooted), b, rooted)
    decreases |a|
  {
    if a == [] {
      assert a + b == b;
    } else {
      assert (a + b)[1..] == a[1..] + b;
      WalkOn(Push(kept, a[0], rooted), a[1..], b, rooted);
    }
  }

  // ----- what cleaning yields

  /** A component that leads one level down. */
  predicate Name(comp: string) {
    comp != "" && comp != "." && comp != ".." && '/' !in comp
  }

  /** Names only, except that a relative path may start by going up. */
  predicate Canonical(kept: seq<string>, rooted: bool) {
    && (forall i | 0 <= i < |kept| :: Name(kept[i]) || (kept[i] == ".." && !rooted))
    && (forall i | 0 < i < |kept| && kept[i] == ".." :: kept[i - 1] == "..")
  }

  lemma {:induction false} PushIsCanonical(kept: seq<string>, comp: string, rooted: bool)
    requires Canonical(kept, rooted) && '/' !in comp
    ensures Canonical(Push(kept, comp, rooted), rooted)
  {
  }

  lemma {:induction false} WalkIsCanonical(kept: seq<string>, comps: seq<string>, rooted: bool)
    requires Canonical(kept, rooted) && AllFree(comps, '/')
    ensures Canonical(Walk(kept, comps, rooted), rooted)
    decreases |comps|
  {
    if comps != [] {
      PushIsCanonical(kept, comps[0], rooted);
      assert AllFree(comps[1..], '/');
      WalkIsCanonical(Push(kept, comps[0], rooted), comps[1..], rooted);
    }
  }

  /** Canonical components are all kept. */
  lemma {:induction false} WalkKeeps(kept: seq<string>, comps: seq<string>, rooted: bool)
    requires Canonical(kept + comps, rooted)
    ensures Walk(kept, comps, rooted) == kept + comps
    decreases |comps|
  {
    if comps == [] {
      assert kept + comps == kept;
    } else {
      var comp := comps[0];
      assert (kept + comps)[|kept|] == comp;
      if comp == ".." && kept != [] { assert (kept + comps)[|kept| - 1] == kept[|kept| - 1]; }
      assert kept + comps == (kept + [comp]) + comps[1..];
      WalkKeeps(kept + [comp], comps[1..], rooted);
    }
  }

  /** The components that the walk over a rendered path sees. */
  lemma {:induction false} WalkRendered(kept: seq<string>, rooted: bool)
    requires Canonical(kept, rooted)
    ensures Rooted(Render(kept, rooted)) == rooted
    ensures Walk([], Split(Render(kept, rooted), '/'), rooted) == kept
  {
    if kept == [] {
      assert Split("", '/') == [""];
      assert Split("/", '/') == [""] + Split("/"[1..], '/');
      SplitFree(".", '/');
    } else {
      assert AllFree(kept, '/');
      SplitJoin(kept, '/');
      assert [] + kept == kept;
      WalkKeeps([], kept, rooted);
      JoinHead(kept);
      if rooted {
        var j := Join(kept, '/');
        assert Render(kept, rooted) == "/" + j && ("/" + j)[1..] == j;
        assert Split("/" + j, '/') == [""] + kept;
        assert ([""] + kept)[1..] == kept;
      } else {
        assert Render(kept, rooted) == Join(kept, '/');
      }
    }
  }

  lemma {:induction false} JoinHead(kept: seq<string>)
    requires kept != [] && kept[0] != "" && '/' !in kept[0]
    ensures Join(kept, '/') != "" && Join(kept, '/')[0] != '/'
  {
    assert Join(kept, '/')[0] == kept[0][0];
  }

  /** Cleaning again changes nothing. */
  lemma {:induction false} CleanTwice(path: string)
    ensures Clean(Clean(path)) == Clean(path)
  {
    SegmentsAreFree(path, '/');
    WalkIsCanonical([], Split(path, '/'), Rooted(path));
    WalkRendered(Walk([], Split(path, '/'), Rooted(path)), Rooted(path));
  }

  /** A path that leads down, without detours. */
  predicate Below(path: string) {
    forall i | 0 <= i < |Split(path, '/')| :: Name(Split(path, '/')[i])
  }

  /** The place that a path leading down reaches from a directory. */
  function Child(dir: string, path: string): string {
    if dir == "/" then "/" + path else if dir == "." then path else dir + "/" + path
  }

  lemma {:induction false} JoinMore(a: seq<string>, b: seq<string>, c: char)
    requires a != [] && b != []
    ensures Join(a + b, c) == Join(a, c) + [c] + Join(b, c)
    decreases |a|
  {
    if |a| == 1 {
      assert (a + b)[1..] == b;
    } else {
      assert (a + b)[1..] == a[1..] + b;
      JoinMore(a[1..], b, c);
    }
  }

  lemma {:induction false} RenderMore(kept: seq<string>, comps: seq<string>, rooted: bool)
    requires Canonical(kept, rooted) && comps != []
    ensures Render(kept + comps, rooted) == Child(Render(kept, rooted), Join(comps, '/'))
  {
    if kept == [] {
      assert kept + comps == comps;
    } else {
      JoinMore(kept, comps, '/');
      RenderIsNamed(kept, rooted);
    }
  }

  lemma {:induction false} RenderIsNamed(kept: seq<string>, rooted: bool)
    requires Canonical(kept, rooted) && kept != []
    ensures Render(kept, rooted) != "/" && Render(kept, rooted) != "."
  {
    var j := Join(kept, '/');
    JoinHead(kept);
    if rooted {
      assert |Render(kept, rooted)| == 1 + |j| > 1;
    } else {
      assert Render(kept, rooted) == j && j[0] != '/';
      if |kept| > 1 { assert |j| > |kept[0]| > 0; }
    }
  }

  lemma {:induction false} CanonicalMore(kept: seq<string>, comps: seq<string>, rooted: bool)
    requires Canonical(kept, rooted) && forall i | 0 <= i < |comps| :: Name(comps[i])
    ensures Canonical(kept + comps, rooted)
  {
  }

  /** Joining a path that leads down to a cleaned directory puts it below, and that is clean again. */
  lemma {:induction false} JoinBelow(dir: string, path: string)
    requires Clean(dir) == dir && Below(path)
    ensures JoinPath(dir, path) == Child(dir, path) && Clean(Child(dir, path)) == Child(dir, path)
    ensures Child(dir, path) != "/" && Child(dir, path) != "."
  {
    var rooted, comps := Rooted(dir), Split(path, '/');
    var kept := Walk([], Split(dir, '/'), rooted);
    CleanIsRooted(dir);
    SegmentsAreFree(dir, '/');
    WalkIsCanonical([], Split(dir, '/'), rooted);
    CanonicalMore(kept, comps, rooted);
    assert dir + "/" + path == dir + ['/'] + path;
    SplitAt(dir, path, '/');
    WalkOn([], Split(dir, '/'), comps, rooted);
    WalkKeeps(kept, comps, rooted);
    JoinSplit(path, '/');
    RenderMore(kept, comps, rooted);
    RenderIsNamed(kept + comps, rooted);
    CleanTwice(dir + "/" + path);
  }

  /** And going up once from there leads back. */
  lemma {:induction false} JoinParent(dir: string, name: string)
    requires Clean(dir) == dir && Name(name)
    ensures JoinPath(JoinPath(dir, name), "..") == dir
  {
    var rooted := Rooted(dir);
    var kept := Walk([], Split(dir, '/'), rooted);
    SplitFree(name, '/');
    JoinBelow(dir, name);
    SegmentsAreFree(dir, '/');
    WalkIsCanonical([], Split(dir, '/'), rooted);
    CanonicalMore(kept, [name], rooted);
    RenderMore(kept, [name], rooted);
    UpFrom(kept, name, rooted);
  }

  lemma {:induction false} UpFrom(kept: seq<string>, name: string, rooted: bool)
    requires Canonical(kept + [name], rooted) && Name(name)
    ensures JoinPath(Render(kept + [name], rooted), "..") == Render(kept, rooted)
  {
    var down := Render(kept + [name], rooted);
    WalkRendered(kept + [name], rooted);
    RenderIsNamed(kept + [name], rooted);
    JoinHead(kept + [name]);
    assert down + "/" + ".." == down + ['/'] + "..";
    SplitAt(down, "..", '/');
    SplitFree("..", '/');
    WalkOn([], Split(down, '/'), [".."], rooted);
    assert [".."][1..] == [];
    assert (kept + [name])[..|kept|] == kept;
  }

  // ----- cleaning and trimming

  /** Slashes before a path's components do not change where they lead, nor do slashes after them. */
  lemma {:induction false} WalkTrimLeft(kept: seq<string>, s: string, rooted: bool)
    ensures Walk(kept, Split(s, '/'), rooted) == Walk(kept, Split(TrimLeft(s, '/'), '/'), rooted)
    decreases |s|
  {
    if s != "" && s[0] == '/' {
      WalkTrimLeft(kept, s[1..], rooted);
      assert Split(s, '/') == [""] + Split(s[1..], '/');
      assert Split(s, '/')[1..] == Split(s[1..], '/');
    }
  }

  lemma {:induction false} WalkTrimRight(kept: seq<string>, s: string, rooted: bool)
    ensures Walk(kept, Split(s, '/'), rooted) == Walk(kept, Split(TrimRight(s, '/'), '/'), rooted)
    decreases |s|
  {
    if s != "" && s[|s| - 1] == '/' {
      var t := s[..|s| - 1];
      WalkTrimRight(kept, t, rooted);
      assert s == t + ['/'] + "";
      SplitAt(t, "", '/');
      WalkOn(kept, Split(t, '/'), [""], rooted);
      assert [""][1..] == [];
    }
  }

  lemma {:induction false} WalkTrim(kept: seq<string>, s: string, rooted: bool)
    ensures Walk(kept, Split(s, '/'), rooted) == Walk(kept, Split(Trim(s, '/'), '/'), rooted)
  {
    WalkTrimLeft(kept, s, rooted);
    WalkTrimRight(kept, TrimLeft(s, '/'), rooted);
  }

  /** Under a non-empty directory a path and its trimmed form are the same place. */
  lemma {:induction false} JoinTrimmed(dir: string, s: string)
    requires dir != ""
    ensures JoinPath(dir, s) == JoinPath(dir, Trim(s, '/'))
  {
    var t := Trim(s, '/');
    assert dir + "/" + s == dir + ['/'] + s && dir + "/" + t == dir + ['/'] + t;
    SplitAt(dir, s, '/');
    SplitAt(dir, t, '/');
    var rooted := Rooted(dir);
    WalkOn([], Split(dir, '/'), Split(s, '/'), rooted);
    WalkOn([], Split(dir, '/'), Split(t, '/'), rooted);
    WalkTrim(Walk([], Split(dir, '/'), rooted), s, rooted);
    assert Rooted(dir + "/" + s) == rooted && Rooted(dir + "/" + t) == rooted;
  }

  /** A cleaned path is never empty and starts with a slash exactly when the path did. */
  lemma {:induction false} CleanIsRooted(path: string)
    ensures Clean(path) != "" && (Rooted(Clean(path)) <==> Rooted(path))
  {
    var kept := Walk([], Split(path, '/'), Rooted(path));
    if kept != [] {
      SegmentsAreFree(path, '/');
      WalkIsNamed([], Split(path, '/'), Rooted(path));
      assert kept[0] != "" && '/' !in kept[0];
      assert Join(kept, '/')[0] == kept[0][0];
    }
  }

  lemma {:induction false} WalkIsNamed(kept: seq<string>, comps: seq<string>, rooted: bool)
    requires Named(kept) && AllFree(comps, '/')
    ensures Named(Walk(kept, comps, rooted))
    decreases |comps|
  {
    if comps != [] {
      assert AllFree(comps[1..], '/');
      WalkIsNamed(Push(kept, comps[0], rooted), comps[1..], rooted);
    }
  }

  predicate Named(kept: seq<string>) {
    forall i | 0 <= i < |kept| :: kept[i] != "" && '/' !in kept[i]
  }

  /** Without a directory in front, trimming goes unnoticed exactly when there is no leading slash. */
  lemma {:induction false} CleanTrimmed(s: string)
    ensures JoinPath("", s) == JoinPath("", Trim(s, '/')) <==> !Rooted(s)
  {
    var t := Trim(s, '/');
    TrimIsBare(s, '/');
    CleanIsRooted(s);
    CleanIsRooted(t);
    if !Rooted(s) {
      WalkTrim([], s, false);
      if s != "" { TrimRightKeepsHead(s); }
    }
  }

  lemma {:induction false} TrimRightKeepsHead(s: string)
    requires s != "" && s[0] != '/'
    ensures TrimRight(s, '/') != "" && TrimLeft(s, '/') == s
    decreases |s|
  {
    if s[|s| - 1] == '/' {
      TrimRightKeepsHead(s[..|s| - 1]);
    }
  }
}
