/**
 * POSIX paths as `pathlib` treats them lexically: a path is a flag saying whether it
 * starts at the root and the list of its components.  `Parse` is the `Path(str)`
 * constructor, `Join` is the `/` operator, `AsPosix` is `as_posix()` and `Resolve` is
 * `resolve()` for a file system without symbolic links.
 */
module Paths {
  import opened Outcomes
  import opened Text

  datatype Path = Path(absolute: bool, parts: seq<string>)

  /** A component that `pathlib` keeps: not empty, not ".", no separator. */
  predicate ValidPart(p: string) {
    p != "" && p != "." && '/' !in p
  }

  predicate WellFormed(p: Path) {
    forall i :: 0 <= i < |p.parts| ==> ValidPart(p.parts[i])
  }

  /** `s.split("/")`. */
  function Segments(s: string): (r: seq<string>)
    ensures |r| >= 1
    ensures forall i :: 0 <= i < |r| ==> '/' !in r[i]
    decreases |s|
  {
    match FirstIndex(s, '/')
    case None => [s]
    case Some(i) => [s[..i]] + Segments(s[i + 1..])
  }

  /** The components `pathlib` keeps: empty ones (from "//" or a trailing "/") and "." go. */
  function KeepParts(segs: seq<string>): (r: seq<string>)
    requires forall i :: 0 <= i < |segs| ==> '/' !in segs[i]
    ensures forall i :: 0 <= i < |r| ==> ValidPart(r[i])
  {
    if segs == [] then []
    else (if segs[0] == "" || segs[0] == "." then [] else [segs[0]]) + KeepParts(segs[1..])
  }

  /** `PurePosixPath(s)`. */
  function Parse(s: string): (p: Path)
    ensures WellFormed(p)
    ensures p.absolute <==> StartsWith(s, "/")
  {
    Path(|s| > 0 && s[0] == '/', KeepParts(Segments(s)))
  }

  /** `"/".join(parts)`. */
  function JoinParts(parts: seq<string>): string {
    if parts == [] then ""
    else if |parts| == 1 then parts[0]
    else parts[0] + "/" + JoinParts(parts[1..])
  }

  /** `p.as_posix()`. */
  function AsPosix(p: Path): string {
    if p.absolute then "/" + JoinParts(p.parts)
    else if p.parts == [] then "."
    else JoinParts(p.parts)
  }

  /** `a / b`: an absolute right operand replaces the left one. */
  function Join(a: Path, b: Path): (r: Path)
    ensures WellFormed(a) && WellFormed(b) ==> WellFormed(r)
    ensures r.absolute <==> a.absolute || b.absolute
  {
    if b.absolute then b else Path(a.absolute, a.parts + b.parts)
  }

  /** `a / "name"`. */
  function JoinStr(a: Path, name: string): Path {
    Join(a, Parse(name))
  }

  /** `a / name` for a name that is a single component. */
  function Child(a: Path, name: string): Path {
    Path(a.absolute, a.parts + [name])
  }

  /** Lexical ".." processing: each ".." removes the component before it; at the root it is dropped. */
  function Collapse(parts: seq<string>): (r: seq<string>)
    ensures ".." !in r
    ensures (forall i :: 0 <= i < |parts| ==> ValidPart(parts[i])) ==>
              forall i :: 0 <= i < |r| ==> ValidPart(r[i])
  {
    if parts == [] then []
    else
      var prefix := Collapse(parts[..|parts| - 1]);
      var last := parts[|parts| - 1];
      if last == ".." then (if prefix == [] then [] else prefix[..|prefix| - 1])
      else prefix + [last]
  }

  /** `p.resolve()` in a process whose working directory is the absolute path `cwd`. */
  function Resolve(p: Path, cwd: Path): (r: Path)
    requires cwd.absolute
    ensures r.absolute && ".." !in r.parts
    ensures WellFormed(p) && WellFormed(cwd) ==> WellFormed(r)
  {
    var q := if p.absolute then p else Join(cwd, p);
    Path(true, Collapse(q.parts))
  }

  /** `p.parent`: the last component goes; the root and "." are their own parents. */
  function Parent(p: Path): (r: Path)
    ensures r.absolute == p.absolute
    ensures p.parts != [] ==> p.parts == r.parts + [p.parts[|p.parts| - 1]]
    ensures p.parts == [] ==> r == p
  {
    if p.parts == [] then p else Path(p.absolute, p.parts[..|p.parts| - 1])
  }

  /** `p.absolute()`: a relative path is put under the working directory, nothing is normalised. */
  function Absolute(p: Path, cwd: Path): (r: Path)
    requires cwd.absolute
    ensures r.absolute
    ensures p.absolute ==> r == p
  {
    if p.absolute then p else Join(cwd, p)
  }

  predicate IsNormalAbsolute(p: Path) {
    p.absolute && WellFormed(p) && ".." !in p.parts
  }

  /** Components without ".." are left as they are. */
  lemma {:induction false} CollapseAppend(a: seq<string>, b: seq<string>)
    requires ".." !in b
    ensures Collapse(a + b) == Collapse(a) + b
    decreases |b|
  {
    if b == [] {
      assert a + b == a;
    } else {
      var b' := b[..|b| - 1];
      assert (a + b)[..|a + b| - 1] == a + b';
      CollapseAppend(a, b');
    }
  }

  lemma {:induction false} CollapseNoDotDot(parts: seq<string>)
    requires ".." !in parts
    ensures Collapse(parts) == parts
  {
    CollapseAppend([], parts);
    assert [] + parts == parts;
  }

  /** Resolving an already resolved path changes nothing. */
  lemma {:induction false} ResolveIdempotent(p: Path, cwd: Path)
    requires cwd.absolute
    ensures Resolve(Resolve(p, cwd), cwd) == Resolve(p, cwd)
  {
    CollapseNoDotDot(Resolve(p, cwd).parts);
  }

  /** Joining a path without ".." onto a resolved directory keeps that directory as a prefix. */
  lemma {:induction false} ResolveJoin(dir: Path, p: Path, cwd: Path)
    requires cwd.absolute && !p.absolute && ".." !in p.parts
    ensures Resolve(Join(dir, p), cwd) == Path(true, Resolve(dir, cwd).parts + p.parts)
  {
    var q := if dir.absolute then dir else Join(cwd, dir);
    assert (if Join(dir, p).absolute then Join(dir, p) else Join(cwd, Join(dir, p))).parts == q.parts + p.parts;
    CollapseAppend(q.parts, p.parts);
  }

  lemma {:induction false} FirstSlashAfter(x: string, y: string)
    requires '/' !in x
    ensures FirstIndex(x + "/" + y, '/') == Some(|x|)
  {
    var s := x + "/" + y;
    assert s[|x|] == '/';
    assert s[..|x|] == x;
  }

  lemma {:induction false} SegmentsOfJoin(parts: seq<string>)
    requires parts != []
    requires forall i :: 0 <= i < |parts| ==> '/' !in parts[i]
    ensures Segments(JoinParts(parts)) == parts
  {
    if |parts| == 1 {
      assert FirstIndex(parts[0], '/') == None;
    } else {
      var x, y := parts[0], JoinParts(parts[1..]);
      FirstSlashAfter(x, y);
      var s := x + "/" + y;
      assert s[..|x|] == x && s[|x| + 1..] == y;
      SegmentsOfJoin(parts[1..]);
    }
  }

  lemma {:induction false} KeepValidParts(parts: seq<string>)
    requires forall i :: 0 <= i < |parts| ==> '/' !in parts[i]
    requires forall i :: 0 <= i < |parts| ==> ValidPart(parts[i])
    ensures KeepParts(parts) == parts
  {
    if parts != [] {
      KeepValidParts(parts[1..]);
    }
  }

  /** `Path(p.as_posix()) == p` for every path `pathlib` can produce. */
  lemma {:induction false} ParseAsPosix(p: Path)
    requires WellFormed(p)
    ensures Parse(AsPosix(p)) == p
  {
    if p.absolute {
      ParseAbsolute(p.parts);
    } else if p.parts == [] {
      assert FirstIndex(".", '/') == None;
    } else {
      ParseRelative(p.parts);
    }
  }

  lemma {:induction false} ParseAbsolute(parts: seq<string>)
    requires forall i :: 0 <= i < |parts| ==> ValidPart(parts[i])
    ensures Parse("/" + JoinParts(parts)) == Path(true, parts)
  {
    var j := JoinParts(parts);
    var s := "/" + j;
    assert s[0] == '/' && s[..0] == "";
    assert FirstIndex(s, '/') == Some(0);
    assert s[1..] == j;
    var segs := Segments(s);
    assert segs == [""] + Segments(j);
    if parts == [] {
      assert FirstIndex(j, '/') == None;
      assert Segments(j) == [""];
      assert KeepParts([""]) == [];
    } else {
      SegmentsOfJoin(parts);
      KeepValidParts(parts);
    }
    assert segs[1..] == Segments(j);
    assert KeepParts(segs) == KeepParts(Segments(j));
  }

  lemma {:induction false} ParseRelative(parts: seq<string>)
    requires parts != []
    requires forall i :: 0 <= i < |parts| ==> ValidPart(parts[i])
    ensures Parse(JoinParts(parts)) == Path(false, parts)
  {
    var j := JoinParts(parts);
    JoinPartsHead(parts);
    assert ValidPart(parts[0]);
    assert j[0] != '/';
    SegmentsOfJoin(parts);
    KeepValidParts(parts);
    assert KeepParts(Segments(j)) == parts;
  }

  lemma {:induction false} JoinPartsHead(parts: seq<string>)
    requires parts != [] && parts[0] != ""
    ensures JoinParts(parts) != "" && JoinParts(parts)[0] == parts[0][0]
  {
    if |parts| > 1 {
      assert JoinParts(parts) == parts[0] + ("/" + JoinParts(parts[1..]));
    }
  }

  /** `a / name` is `Child(a, name)` whenever `name` is one component. */
  lemma {:induction false} JoinStrChild(a: Path, name: string)
    requires ValidPart(name)
    ensures JoinStr(a, name) == Child(a, name)
  {
    ParseRelative([name]);
    assert JoinParts([name]) == name;
  }

  /** A leading "./" is dropped: `Path("./" + "/".join(parts))` is the relative path `parts`. */
  lemma {:induction false} ParseDotRelative(parts: seq<string>)
    requires parts != []
    requires forall i :: 0 <= i < |parts| ==> ValidPart(parts[i])
    ensures Parse("./" + JoinParts(parts)) == Path(false, parts)
  {
    var j := JoinParts(parts);
    var s := "./" + j;
    assert s == "." + "/" + j;
    FirstSlashAfter(".", j);
    assert s[..1] == "." && s[2..] == j;
    SegmentsOfJoin(parts);
    KeepValidParts(parts);
    assert Segments(s) == ["."] + parts;
    assert KeepParts(Segments(s)) == KeepParts(parts);
  }

  /** A leading "../" stays as a ".." component. */
  lemma {:induction false} ParseUpRelative(parts: seq<string>)
    requires parts != []
    requires forall i :: 0 <= i < |parts| ==> ValidPart(parts[i])
    ensures Parse("../" + JoinParts(parts)) == Path(false, [".."] + parts)
  {
    var q := [".."] + parts;
    assert q[1..] == parts;
    assert JoinParts(q) == ".." + "/" + JoinParts(parts);
    assert ".." + "/" + JoinParts(parts) == "../" + JoinParts(parts);
    ParseRelative(q);
  }

  lemma JoinPartsPair(x: string, y: string)
    ensures JoinParts([x, y]) == x + "/" + y
  {
    assert [x, y][1..] == [y];
  }
}
