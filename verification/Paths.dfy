/**
  Cleaned paths, and what the trailing-slash prefix test says about them.
 */
module Paths {

  /** A path without redundant parts: its components, from the root or from the working directory. */
  datatype CleanPath = CleanPath(rooted: bool, components: seq<string>)

  predicate IsComponent(c: string) {
    c != "" && c != "." && '/' !in c
  }

  predicate AllComponents(cs: seq<string>) {
    forall c <- cs :: IsComponent(c)
  }

  /** The parts of a path between slashes; there may be empty ones. */
  function Split(s: string): (parts: seq<string>)
    ensures parts != []
    ensures forall p <- parts :: '/' !in p
  {
    if s == "" then [""]
    else
      var rest := Split(s[1..]);
      if s[0] == '/' then [""] + rest else [[s[0]] + rest[0]] + rest[1..]
  }

  /** Drops empty and "." parts; ".." takes back the part before it, and nothing at the root. */
  function Normalize(rooted: bool, done: seq<string>, parts: seq<string>): seq<string>
    decreases |parts|
  {
    if parts == [] then done
    else
      var p, rest := parts[0], parts[1..];
      if p == "" || p == "." then Normalize(rooted, done, rest)
      else if p == ".." then
        if done != [] && done[|done| - 1] != ".." then Normalize(rooted, done[..|done| - 1], rest)
        else if rooted then Normalize(rooted, done, rest)
        else Normalize(rooted, done + [".."], rest)
      else Normalize(rooted, done + [p], rest)
  }

  function Parse(s: string): CleanPath {
    var rooted := s != "" && s[0] == '/';
    CleanPath(rooted, Normalize(rooted, [], Split(s)))
  }

  function Join(cs: seq<string>): string {
    if cs == [] then "" else if |cs| == 1 then cs[0] else cs[0] + "/" + Join(cs[1..])
  }

  function Render(p: CleanPath): string {
    if p.rooted then "/" + Join(p.components) else if p.components == [] then "." else Join(p.components)
  }

  /** The shortest equivalent path, as the standard library documents it. */
  function Clean(s: string): string {
    Render(Parse(s))
  }

  /** The components, each with a slash after it. */
  function Terminated(cs: seq<string>): string {
    if cs == [] then "" else cs[0] + "/" + Terminated(cs[1..])
  }

  /** The webhook's test: does the first path, with a slash, begin the second, with a slash? */
  predicate SlashPrefix(outer: string, inner: string) {
    outer + "/" <= inner + "/"
  }

  lemma {:induction false} NormalizeGivesComponents(rooted: bool, done: seq<string>, parts: seq<string>)
    requires AllComponents(done) && forall p <- parts :: '/' !in p
    ensures AllComponents(Normalize(rooted, done, parts))
    decreases |parts|
  {
    if parts != [] {
      var p, rest := parts[0], parts[1..];
      if p == "" || p == "." {
        NormalizeGivesComponents(rooted, done, rest);
      } else if p == ".." {
        if done != [] && done[|done| - 1] != ".." {
          NormalizeGivesComponents(rooted, done[..|done| - 1], rest);
        } else if rooted {
          NormalizeGivesComponents(rooted, done, rest);
        } else {
          NormalizeGivesComponents(rooted, done + [".."], rest);
        }
      } else {
        NormalizeGivesComponents(rooted, done + [p], rest);
      }
    }
  }

  lemma {:induction false} JoinWithSlash(cs: seq<string>)
    requires cs != []
    ensures Join(cs) + "/" == Terminated(cs)
  {
    if |cs| == 1 {
      assert Terminated(cs[1..]) == "";
      assert cs[0] + "/" + "" == cs[0] + "/";
    } else {
      JoinWithSlash(cs[1..]);
      assert Join(cs) + "/" == cs[0] + "/" + (Join(cs[1..]) + "/");
    }
  }

  /** Two slash-free parts with a slash after them: one text begins the other only if the parts are equal. */
  lemma PartsAgree(a: string, x: string, b: string, y: string)
    requires '/' !in a && '/' !in b
    ensures a + "/" + x <= b + "/" + y <==> a == b && x <= y
  {
    var s, t := a + "/" + x, b + "/" + y;
    assert s[|a|] == '/' && t[|b|] == '/';
    assert forall i :: 0 <= i < |a| ==> s[i] == a[i];
    assert forall i :: 0 <= i < |b| ==> t[i] == b[i];
    if s <= t {
      assert forall i :: 0 <= i < |s| ==> s[i] == t[i];
      assert |a| == |b|;
      assert a == s[..|a|] && b == t[..|b|];
      assert x == s[|a| + 1..] && y == t[|b| + 1..];
      assert forall i :: 0 <= i < |x| ==> x[i] == s[|a| + 1 + i];
    }
    if a == b && x <= y {
      assert forall i :: 0 <= i < |s| ==> s[i] == t[i];
    }
  }

  lemma {:induction false} TerminatedPrefix(a: seq<string>, b: seq<string>)
    requires AllComponents(a) && AllComponents(b)
    ensures Terminated(a) <= Terminated(b) <==> a <= b
  {
    if a != [] && b != [] {
      TerminatedPrefix(a[1..], b[1..]);
      assert IsComponent(a[0]) && IsComponent(b[0]);
      PartsAgree(a[0], Terminated(a[1..]), b[0], Terminated(b[1..]));
      assert a == [a[0]] + a[1..] && b == [b[0]] + b[1..];
    }
  }

  predicate Proper(p: CleanPath) {
    AllComponents(p.components)
  }

  lemma ParseIsProper(s: string)
    ensures Proper(Parse(s))
  {
    NormalizeGivesComponents(Parse(s).rooted, [], Split(s));
  }

  lemma RenderedWithSlash(p: CleanPath)
    requires Proper(p) && p.components != []
    ensures Render(p) + "/" == (if p.rooted then "/" else "") + Terminated(p.components)
    ensures (Render(p) + "/")[0] == '/' <==> p.rooted
  {
    JoinWithSlash(p.components);
    var c := p.components[0];
    assert IsComponent(c);
    assert Terminated(p.components)[0] == c[0];
    assert c[0] in c;
  }

  /** The test on two cleaned paths with components decides whether one component list begins the other. */
  lemma TestOnComponents(p: CleanPath, q: CleanPath)
    requires Proper(p) && Proper(q) && p.components != [] && q.components != []
    ensures SlashPrefix(Render(p), Render(q)) <==> p.rooted == q.rooted && p.components <= q.components
  {
    RenderedWithSlash(p);
    RenderedWithSlash(q);
    TerminatedPrefix(p.components, q.components);
    var s, t := Render(p) + "/", Render(q) + "/";
    if p.rooted && q.rooted {
      assert s == "/" + Terminated(p.components) && t == "/" + Terminated(q.components);
      assert s[1..] == Terminated(p.components) && t[1..] == Terminated(q.components);
      assert s <= t <==> s[1..] <= t[1..];
    } else if !p.rooted && !q.rooted {
      assert s == Terminated(p.components) && t == Terminated(q.components);
    } else {
      assert s[0] != t[0];
    }
  }

  lemma EmptyWithSlash(p: CleanPath)
    requires p.components == []
    ensures Render(p) + "/" == if p.rooted then "//" else "./"
  {
    assert Render(p) == if p.rooted then "/" else ".";
  }

  /** The root and the working directory begin nothing but themselves, and nothing else begins them. */
  lemma TestOnEmpty(p: CleanPath, q: CleanPath)
    requires Proper(p) && Proper(q) && (p.components == [] || q.components == [])
    ensures SlashPrefix(Render(p), Render(q)) <==> p == q
  {
    if p.components == [] && q.components == [] {
      EmptyWithSlash(p);
      EmptyWithSlash(q);
      assert "//"[0] != "./"[0];
    } else if p.components == [] {
      EmptyWithSlash(p);
      ProperIsNotShort(q);
    } else {
      EmptyWithSlash(q);
      ProperIsNotShort(p);
    }
  }

  lemma ProperIsNotShort(p: CleanPath)
    requires Proper(p) && p.components != []
    ensures var t := Render(p) + "/";
            !("//" <= t) && !("./" <= t) && !(t <= "//") && !(t <= "./")
  {
    RenderedWithSlash(p);
    var t := Render(p) + "/";
    var c := p.components[0];
    assert IsComponent(c) && c[0] in c;
    var text := Terminated(p.components);
    assert text[..|c|] == c && text[|c|] == '/';
    assert |c| >= 2 ==> c[1] in c && text[1] == c[1];
    assert |c| == 1 ==> c == [c[0]];
    assert text[0] == c[0];
    if p.rooted {
      assert t == "/" + text && t[1] == c[0];
    } else {
      assert t == text;
    }
  }

  /**
    The test decided, for all paths: cleaned paths pass it exactly when both
    start at the same place and one component list begins the other, except
    that the root and the working directory are not taken to hold anything.
   */
  lemma PrefixTestIsExact(outer: string, inner: string)
    ensures
      var p, q := Parse(outer), Parse(inner);
      SlashPrefix(Clean(outer), Clean(inner))
      <==> p == q || (p.rooted == q.rooted && p.components <= q.components && p.components != [])
  {
    var p, q := Parse(outer), Parse(inner);
    ParseIsProper(outer);
    ParseIsProper(inner);
    if p.components == [] || q.components == [] {
      TestOnEmpty(p, q);
    } else {
      TestOnComponents(p, q);
    }
  }

  /** Cleaned paths are equal exactly when they are the same path. */
  lemma CleanIsFaithful(s: string, t: string)
    ensures Clean(s) == Clean(t) <==> Parse(s) == Parse(t)
  {
    PrefixTestIsExact(s, t);
    PrefixTestIsExact(t, s);
  }

  // ---------------------------------------------------------------- cleaning twice

  /** What cleaning leaves: ".." only at the start of a path that has no root. */
  ghost predicate Canonical(rooted: bool, cs: seq<string>) {
    && AllComponents(cs)
    && forall i :: 0 <= i < |cs| && cs[i] == ".." ==> !rooted && forall j :: 0 <= j < i ==> cs[j] == ".."
  }

  lemma {:induction false} NormalizeIsCanonical(rooted: bool, done: seq<string>, parts: seq<string>)
    requires Canonical(rooted, done) && forall p <- parts :: '/' !in p
    ensures Canonical(rooted, Normalize(rooted, done, parts))
    decreases |parts|
  {
    if parts != [] {
      var p, rest := parts[0], parts[1..];
      if p == "" || p == "." {
        NormalizeIsCanonical(rooted, done, rest);
      } else if p == ".." {
        if done != [] && done[|done| - 1] != ".." {
          NormalizeIsCanonical(rooted, done[..|done| - 1], rest);
        } else if rooted {
          NormalizeIsCanonical(rooted, done, rest);
        } else {
          NormalizeIsCanonical(rooted, done + [".."], rest);
        }
      } else {
        NormalizeIsCanonical(rooted, done + [p], rest);
      }
    }
  }

  lemma {:induction false} NormalizeKeepsCanonical(rooted: bool, done: seq<string>, parts: seq<string>)
    requires Canonical(rooted, done + parts)
    ensures Normalize(rooted, done, parts) == done + parts
    decreases |parts|
  {
    if parts != [] {
      var p := parts[0];
      assert (done + parts)[|done|] == p && IsComponent(p);
      assert done + parts == done + [p] + parts[1..];
      assert p == ".." && done != [] ==> (done + parts)[|done| - 1] == "..";
      NormalizeKeepsCanonical(rooted, done + [p], parts[1..]);
    } else {
      assert done + parts == done;
    }
  }

  lemma {:induction false} SplitFirst(c: string, rest: string)
    requires '/' !in c
    ensures Split(c + "/" + rest) == [c] + Split(rest)
  {
    var s := c + "/" + rest;
    if c == "" {
      assert s == "/" + rest && s[1..] == rest;
    } else {
      assert s[1..] == c[1..] + "/" + rest;
      SplitFirst(c[1..], rest);
      assert c == [c[0]] + c[1..];
    }
  }

  lemma {:induction false} SplitOne(c: string)
    requires '/' !in c
    ensures Split(c) == [c]
  {
    if c != "" {
      SplitOne(c[1..]);
      assert c == [c[0]] + c[1..];
    }
  }

  lemma {:induction false} SplitJoin(cs: seq<string>)
    requires cs != [] && AllComponents(cs)
    ensures Split(Join(cs)) == cs
  {
    assert IsComponent(cs[0]);
    if |cs| == 1 {
      SplitOne(cs[0]);
    } else {
      SplitFirst(cs[0], Join(cs[1..]));
      SplitJoin(cs[1..]);
    }
  }

  /** Reading a cleaned path gives back its components; so cleaning twice is cleaning once. */
  lemma CleanIsIdempotent(s: string)
    ensures Parse(Clean(s)) == Parse(s)
    ensures Clean(Clean(s)) == Clean(s)
  {
    var p := Parse(s);
    var cs, text := p.components, Join(p.components);
    NormalizeIsCanonical(p.rooted, [], Split(s));
    assert [] + cs == cs;
    NormalizeKeepsCanonical(p.rooted, [], cs);
    if cs == [] {
      assert Split("/") == [""] + Split("") && Split(".") == ["."] by {
        SplitOne(".");
        assert "/"[1..] == "";
      }
      assert Normalize(true, [], ["", ""]) == Normalize(true, [], [""]) == [];
      assert Normalize(false, [], ["."]) == [];
      assert "/" + "" == "/";
    } else {
      SplitJoin(cs);
      assert IsComponent(cs[0]) && text[0] == cs[0][0] && cs[0][0] in cs[0];
      if p.rooted {
        SplitFirst("", text);
        assert "" + "/" + text == "/" + text;
        assert ([""] + cs)[1..] == cs;
        assert Normalize(true, [], [""] + cs) == Normalize(true, [], cs);
      }
    }
  }

  // ---------------------------------------------------------------- where a path leads

  /** One step of a walk through directories: up, nowhere, or down. */
  function Step(at: seq<string>, part: string): seq<string> {
    if part == "" || part == "." then at
    else if part == ".." then (if at == [] then [] else at[..|at| - 1])
    else at + [part]
  }

  function Walk(at: seq<string>, parts: seq<string>): seq<string>
    decreases |parts|
  {
    if parts == [] then at else Walk(Step(at, parts[0]), parts[1..])
  }

  /** The directory that a path leads to from the working directory. */
  function LeadsTo(s: string, workingDirectory: seq<string>): seq<string> {
    Walk(if s != "" && s[0] == '/' then [] else workingDirectory, Split(s))
  }

  lemma {:induction false} WalkOn(at: seq<string>, parts: seq<string>, part: string)
    ensures Walk(at, parts + [part]) == Step(Walk(at, parts), part)
    decreases |parts|
  {
    if parts == [] {
      assert [part][1..] == [];
    } else {
      assert (parts + [part])[1..] == parts[1..] + [part];
      WalkOn(Step(at, parts[0]), parts[1..], part);
    }
  }

  lemma {:induction false} NormalizeWalks(rooted: bool, done: seq<string>, parts: seq<string>, at: seq<string>)
    requires Canonical(rooted, done) && (forall p <- parts :: '/' !in p) && (rooted ==> at == [])
    ensures Walk(at, Normalize(rooted, done, parts)) == Walk(Walk(at, done), parts)
    decreases |parts|
  {
    if parts != [] {
      var p, rest := parts[0], parts[1..];
      if p == "" || p == "." {
        NormalizeWalks(rooted, done, rest, at);
      } else if p == ".." && done != [] && done[|done| - 1] != ".." {
        var n := |done| - 1;
        assert IsComponent(done[n]) && done == done[..n] + [done[n]];
        WalkOn(at, done[..n], done[n]);
        NormalizeWalks(rooted, done[..n], rest, at);
      } else if p == ".." && rooted {
        assert done == [];
        NormalizeWalks(rooted, done, rest, at);
      } else {
        WalkOn(at, done, p);
        NormalizeWalks(rooted, done + [p], rest, at);
      }
    }
  }

  lemma {:induction false} WalkDown(at: seq<string>, cs: seq<string>)
    requires AllComponents(cs) && ".." !in cs
    ensures Walk(at, cs) == at + cs
    decreases |cs|
  {
    if cs != [] {
      assert IsComponent(cs[0]);
      WalkDown(at + [cs[0]], cs[1..]);
    }
  }

  /**
    What reading a path means: it leads where its components lead, from every
    working directory, and from the root they are the directory itself.
   */
  lemma ComponentsLeadThere(s: string, workingDirectory: seq<string>)
    ensures
      var p := Parse(s);
      && LeadsTo(s, workingDirectory) == Walk(if p.rooted then [] else workingDirectory, p.components)
      && (p.rooted ==> LeadsTo(s, workingDirectory) == p.components)
  {
    var p := Parse(s);
    NormalizeIsCanonical(p.rooted, [], Split(s));
    NormalizeWalks(p.rooted, [], Split(s), if p.rooted then [] else workingDirectory);
    if p.rooted {
      WalkDown([], p.components);
    }
  }

  /** The parts are what stands between the slashes. */
  lemma {:induction false} PartsMakeThePath(s: string)
    ensures Join(Split(s)) == s
  {
    if s != "" {
      PartsMakeThePath(s[1..]);
      var rest := Split(s[1..]);
      if s[0] != '/' {
        var parts := [[s[0]] + rest[0]] + rest[1..];
        assert parts[1..] == rest[1..];
      }
    }
  }
}
