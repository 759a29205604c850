/** The parts of Node's POSIX `path` module that the loader calls: `join` (with
    the normalisation it applies) and `basename` with a suffix to strip. They
    are written here from their documented behaviour, on segments, rather than
    as Node's character loops. */
module NodePath {
  import opened JsString

  /** `s.split("/")`: the pieces between separators, empty ones included. */
  function Split(s: string): (r: seq<string>)
    ensures |r| >= 1
    ensures forall i :: 0 <= i < |r| ==> '/' !in r[i]
  {
    if |s| == 0 then [""]
    else
      var rest := Split(s[1..]);
      if s[0] == '/' then [""] + rest
      else [[s[0]] + rest[0]] + rest[1..]
  }

  /** `parts.join("/")`. */
  function JoinWith(parts: seq<string>): string
  {
    if |parts| == 0 then ""
    else if |parts| == 1 then parts[0]
    else parts[0] + "/" + JoinWith(parts[1..])
  }

  /** A segment that normalisation keeps as it is. */
  predicate Plain(segment: string)
  {
    segment != "" && segment != "." && segment != ".."
  }

  /** One step of normalisation: empty and "." segments vanish, ".." removes
      the previous segment, or is kept (relative path) or dropped (at the root
      of an absolute path) when there is none to remove. */
  function Step(stack: seq<string>, segment: string, absolute: bool): seq<string>
  {
    if segment == "" || segment == "." then stack
    else if segment == ".." then
      if |stack| > 0 && stack[|stack| - 1] != ".." then stack[..|stack| - 1]
      else if absolute then stack
      else stack + [".."]
    else stack + [segment]
  }

  function Resolve(stack: seq<string>, segments: seq<string>, absolute: bool): seq<string>
    decreases |segments|
  {
    if segments == [] then stack
    else Resolve(Step(stack, segments[0], absolute), segments[1..], absolute)
  }

  /** `path.normalize(p)`: never empty, and an absolute path stays absolute. */
  function Normalize(p: string): (r: string)
    ensures r != ""
    ensures p != "" && p[0] == '/' ==> r[0] == '/'
  {
    if p == "" then "."
    else
      var absolute := p[0] == '/';
      var trailing := p[|p| - 1] == '/';
      var body := JoinWith(Resolve([], Split(p), absolute));
      if body == "" then (if absolute then "/" else if trailing then "./" else ".")
      else (if absolute then "/" else "") + body + (if trailing then "/" else "")
  }

  function NonEmpty(parts: seq<string>): (r: seq<string>)
    ensures forall i :: 0 <= i < |r| ==> r[i] != ""
  {
    if parts == [] then []
    else if parts[0] == "" then NonEmpty(parts[1..])
    else [parts[0]] + NonEmpty(parts[1..])
  }

  /** Dropping empty parts keeps the others, in their order: the result is the
      non-empty parts of the first `|parts| - 1` parts, followed by the last
      one when it is non-empty. */
  lemma {:induction false} NonEmptyKeepsOrder(parts: seq<string>, x: string)
    ensures NonEmpty(parts + [x]) == NonEmpty(parts) + (if x == "" then [] else [x])
    decreases |parts|
  {
    if parts == [] {
      assert [x][1..] == [];
    } else {
      assert (parts + [x])[0] == parts[0];
      assert (parts + [x])[1..] == parts[1..] + [x];
      NonEmptyKeepsOrder(parts[1..], x);
    }
  }

  /** A part survives exactly when it is non-empty. */
  lemma {:induction false} NonEmptyMembers(parts: seq<string>)
    ensures forall x :: x in NonEmpty(parts) <==> x in parts && x != ""
    decreases |parts|
  {
    if parts != [] {
      NonEmptyMembers(parts[1..]);
      assert forall x :: x in parts <==> x == parts[0] || x in parts[1..];
    }
  }

  lemma {:induction false} NonEmptyKeepsAll(parts: seq<string>)
    requires forall i :: 0 <= i < |parts| ==> parts[i] != ""
    ensures NonEmpty(parts) == parts
    decreases |parts|
  {
    if parts != [] {
      NonEmptyKeepsAll(parts[1..]);
      assert parts == [parts[0]] + parts[1..];
    }
  }

  /** `path.join(...parts)`: the non-empty parts joined by "/", then normalised;
      never empty. */
  function Join(parts: seq<string>): (r: string)
    ensures r != ""
  {
    var kept := NonEmpty(parts);
    if kept == [] then "." else Normalize(JoinWith(kept))
  }

  /** An absolute, normalised path without a trailing separator, such as a
      module's `__dirname`. */
  predicate Canonical(dir: string)
  {
    && |dir| > 0
    && dir[0] == '/'
    && (|dir| == 1 || forall i :: 0 <= i < |Split(dir[1..])| ==> Plain(Split(dir[1..])[i]))
  }

  /** The segments of a canonical path, root first. */
  function Segments(dir: string): seq<string>
    requires Canonical(dir)
  {
    if |dir| == 1 then [] else Split(dir[1..])
  }

  /** The last component of a path that does not end in "/": the characters
      after its last "/", collected scanning back from the end as `basename`
      does. */
  function LastComponent(p: string): (r: string)
    ensures '/' !in r
    decreases |p|
  {
    if |p| == 0 || p[|p| - 1] == '/' then "" else LastComponent(p[..|p| - 1]) + [p[|p| - 1]]
  }

  /** The scan stops at the last "/": the last component is what follows
      `p.lastIndexOf("/")`. */
  lemma {:induction false} LastComponentAfterLastSlash(p: string)
    ensures LastComponent(p) == p[LastIndexOf(p, '/') + 1..]
    decreases |p|
  {
    if |p| > 0 && p[|p| - 1] != '/' {
      var q := p[..|p| - 1];
      LastComponentAfterLastSlash(q);
      var k := LastIndexOf(q, '/');
      assert LastIndexOf(p, '/') == k;
      assert p[k + 1..] == q[k + 1..] + [p[|p| - 1]];
    }
  }

  /** The last component ends the path. */
  lemma {:induction false} LastComponentSuffix(p: string)
    ensures var r := LastComponent(p);
      |r| <= |p| && p[|p| - |r|..] == r
    decreases |p|
  {
    if |p| > 0 && p[|p| - 1] != '/' {
      var q := p[..|p| - 1];
      LastComponentSuffix(q);
      var r := LastComponent(q);
      assert p[|q| - |r|..] == q[|q| - |r|..] + [p[|p| - 1]];
    }
  }

  /** A path without a separator is its own last component. */
  lemma {:induction false} LastComponentWhole(p: string)
    requires '/' !in p
    ensures LastComponent(p) == p
    decreases |p|
  {
    if |p| > 0 {
      var q := p[..|p| - 1];
      assert '/' !in q by {
        assert forall x :: x in q ==> x in p;
      }
      LastComponentWhole(q);
      assert p == q + [p[|p| - 1]];
    }
  }

  predicate EndsWith(s: string, suffix: string)
  {
    |suffix| <= |s| && s[|s| - |suffix|..] == suffix
  }

  /** A path that names a file, so does not end in "/". */
  predicate NamesFile(p: string)
  {
    |p| == 0 || p[|p| - 1] != '/'
  }

  /** `path.basename(p, ext)` for a path that does not end in "/": the last
      component, with `ext` removed when the component ends in it and is longer
      than it; "" when the whole path is `ext`. */
  function Basename(p: string, ext: string): (r: string)
    requires NamesFile(p)
    ensures '/' !in r
  {
    var base := LastComponent(p);
    if p == ext then ""
    else if |ext| < |base| && EndsWith(base, ext) then
      StripSuffix(base, ext);
      base[..|base| - |ext|]
    else base
  }

  /** The cases of `basename`: "" for the suffix itself, the last component
      without the suffix when it ends in the suffix and is longer, and the
      whole last component otherwise. */
  lemma BasenameCases(p: string, ext: string)
    requires NamesFile(p)
    ensures p == ext ==> Basename(p, ext) == ""
    ensures p != ext && |ext| < |LastComponent(p)| && EndsWith(LastComponent(p), ext) ==>
              Basename(p, ext) + ext == LastComponent(p)
    ensures p != ext && !(|ext| < |LastComponent(p)| && EndsWith(LastComponent(p), ext)) ==>
              Basename(p, ext) == LastComponent(p)
  {
    var base := LastComponent(p);
    if p != ext && |ext| < |base| && EndsWith(base, ext) {
      StripSuffix(base, ext);
    }
  }

  /** Removing a suffix from a string without separators leaves a string
      without separators that the suffix completes. */
  lemma StripSuffix(base: string, ext: string)
    requires '/' !in base && EndsWith(base, ext)
    ensures var stem := base[..|base| - |ext|];
      '/' !in stem && stem + ext == base
  {
    var stem := base[..|base| - |ext|];
    assert base == stem + ext;
    assert forall i :: 0 <= i < |stem| ==> stem[i] == base[i];
  }

  /** Appending a suffix without separators to a string without separators. */
  lemma AppendSuffix(s: string, suffix: string)
    requires '/' !in s && '/' !in suffix
    ensures '/' !in s + suffix && EndsWith(s + suffix, suffix)
  {
    assert (s + suffix)[|s|..] == suffix;
  }

  // ----- splitting and joining are inverse -----

  lemma {:induction false} JoinWithCons(x: string, tail: seq<string>)
    requires |tail| >= 1
    ensures JoinWith([x] + tail) == x + "/" + JoinWith(tail)
  {
    assert ([x] + tail)[1..] == tail;
  }

  /** Joining the pieces of a split gives back the string. */
  lemma {:induction false} SplitThenJoin(s: string)
    ensures JoinWith(Split(s)) == s
    decreases |s|
  {
    if |s| > 0 {
      var rest := Split(s[1..]);
      SplitThenJoin(s[1..]);
      if s[0] == '/' {
        JoinWithCons("", rest);
      } else {
        var parts := [[s[0]] + rest[0]] + rest[1..];
        if |rest| == 1 {
          assert JoinWith(parts) == [s[0]] + rest[0];
        } else {
          JoinWithCons([s[0]] + rest[0], rest[1..]);
          JoinWithCons(rest[0], rest[1..]);
          assert rest == [rest[0]] + rest[1..];
        }
        assert s == [s[0]] + s[1..];
      }
    }
  }

  /** Splitting a string that begins with a piece free of separators. */
  lemma {:induction false} SplitPrefix(x: string, t: string)
    requires '/' !in x
    ensures Split(x + t) == [x + Split(t)[0]] + Split(t)[1..]
    decreases |x|
  {
    if |x| > 0 {
      SplitPrefix(x[1..], t);
      assert (x + t)[1..] == x[1..] + t;
      assert (x + t)[0] == x[0];
      assert [x[0]] + (x[1..] + Split(t)[0]) == x + Split(t)[0];
    } else {
      assert x + t == t;
      assert x + Split(t)[0] == Split(t)[0];
      assert Split(t) == [Split(t)[0]] + Split(t)[1..];
    }
  }

  /** Splitting a join of separator-free pieces gives back the pieces. */
  lemma {:induction false} JoinThenSplit(parts: seq<string>)
    requires |parts| >= 1
    requires forall i :: 0 <= i < |parts| ==> '/' !in parts[i]
    ensures Split(JoinWith(parts)) == parts
    decreases |parts|
  {
    if |parts| == 1 {
      SplitPrefix(parts[0], "");
      assert parts[0] + "" == parts[0];
    } else {
      var rest := JoinWith(parts[1..]);
      JoinThenSplit(parts[1..]);
      assert JoinWith(parts) == parts[0] + ("/" + rest);
      SplitPrefix(parts[0], "/" + rest);
      assert ("/" + rest)[1..] == rest;
      assert Split("/" + rest) == [""] + parts[1..];
      assert parts[0] + "" == parts[0];
      assert parts == [parts[0]] + parts[1..];
    }
  }

  lemma {:induction false} JoinWithAppend(xs: seq<string>, ys: seq<string>)
    requires |xs| >= 1 && |ys| >= 1
    ensures JoinWith(xs + ys) == JoinWith(xs) + "/" + JoinWith(ys)
    decreases |xs|
  {
    if |xs| == 1 {
      JoinWithCons(xs[0], ys);
    } else {
      assert (xs + ys)[1..] == xs[1..] + ys;
      JoinWithAppend(xs[1..], ys);
      JoinWithCons(xs[0], xs[1..] + ys);
      JoinWithCons(xs[0], xs[1..]);
      assert xs + ys == [xs[0]] + (xs[1..] + ys);
      assert xs == [xs[0]] + xs[1..];
    }
  }

  /** Splitting at an inserted separator splits each side on its own. */
  lemma SplitAround(a: string, b: string)
    ensures Split(a + "/" + b) == Split(a) + Split(b)
  {
    SplitThenJoin(a);
    SplitThenJoin(b);
    JoinWithAppend(Split(a), Split(b));
    var both := Split(a) + Split(b);
    forall i | 0 <= i < |both| ensures '/' !in both[i] {
      if i < |Split(a)| { assert both[i] == Split(a)[i]; }
      else { assert both[i] == Split(b)[i - |Split(a)|]; }
    }
    JoinThenSplit(both);
  }

  // ----- normalisation -----

  lemma {:induction false} ResolveAppend(stack: seq<string>, xs: seq<string>, ys: seq<string>, absolute: bool)
    ensures Resolve(stack, xs + ys, absolute) == Resolve(Resolve(stack, xs, absolute), ys, absolute)
    decreases |xs|
  {
    if xs != [] {
      assert (xs + ys)[0] == xs[0];
      assert (xs + ys)[1..] == xs[1..] + ys;
      ResolveAppend(Step(stack, xs[0], absolute), xs[1..], ys, absolute);
    } else {
      assert xs + ys == ys;
    }
  }

  /** Plain segments are pushed unchanged. */
  lemma {:induction false} ResolvePlain(stack: seq<string>, xs: seq<string>, absolute: bool)
    requires forall i :: 0 <= i < |xs| ==> Plain(xs[i])
    ensures Resolve(stack, xs, absolute) == stack + xs
    decreases |xs|
  {
    if xs != [] {
      ResolvePlain(stack + [xs[0]], xs[1..], absolute);
      assert stack + [xs[0]] + xs[1..] == stack + xs;
    }
  }

  /** A canonical path is "/" followed by its segments joined, and it has
      none exactly when it is the root. */
  lemma CanonicalSegments(dir: string)
    requires Canonical(dir)
    ensures dir == "/" + JoinWith(Segments(dir))
    ensures Segments(dir) == [] <==> |dir| == 1
    ensures forall i :: 0 <= i < |Segments(dir)| ==> Plain(Segments(dir)[i])
  {
    if |dir| == 1 {
      assert dir == "/";
    } else {
      SplitThenJoin(dir[1..]);
      assert dir == [dir[0]] + dir[1..];
    }
  }

  /** A canonical path is its own normal form: its split resolves to its
      segments. */
  lemma CanonicalResolves(dir: string)
    requires Canonical(dir)
    ensures Split(dir) == [""] + Split(dir[1..])
    ensures Resolve([], Split(dir), true) == Segments(dir)
  {
    assert Split(dir) == [""] + Split(dir[1..]);
    assert Resolve([], Split(dir), true) == Resolve([], Split(dir[1..]), true);
    if |dir| == 1 {
      assert dir[1..] == "";
    } else {
      ResolvePlain([], Split(dir[1..]), true);
    }
  }

  /** Joining a canonical directory with a relative path resolves the relative
      path's segments on top of the directory's. */
  lemma JoinBelow(dir: string, rel: string)
    requires Canonical(dir)
    requires rel != "" && rel[|rel| - 1] != '/'
    ensures Normalize(dir + "/" + rel) ==
            var body := JoinWith(Resolve(Segments(dir), Split(rel), true));
            if body == "" then "/" else "/" + body
  {
    var p := dir + "/" + rel;
    CanonicalResolves(dir);
    SplitAround(dir, rel);
    assert p[0] == '/';
    assert p[|p| - 1] == rel[|rel| - 1];
    ResolveAppend([], Split(dir), Split(rel), true);
  }

  /** `join` of two non-empty parts normalises them joined by "/". */
  lemma JoinTwo(x: string, y: string)
    requires x != "" && y != ""
    ensures Join([x, y]) == Normalize(x + "/" + y)
  {
    NonEmptyKeepsAll([x, y]);
    JoinWithCons(x, [y]);
  }

  /** `join` of a non-empty first part and a run of non-empty parts. */
  lemma JoinFirst(x: string, rest: seq<string>)
    requires x != "" && |rest| >= 1
    requires forall i :: 0 <= i < |rest| ==> rest[i] != ""
    ensures Join([x] + rest) == Normalize(x + "/" + JoinWith(rest))
  {
    var parts := [x] + rest;
    forall i | 0 <= i < |parts| ensures parts[i] != "" {
      if i > 0 {
        assert parts[i] == rest[i - 1];
      }
    }
    NonEmptyKeepsAll(parts);
    JoinWithCons(x, rest);
  }

  /** Normalising a canonical directory followed by a relative path whose
      segments resolve, on top of the directory's, to a non-empty result. */
  lemma NormalizeBelow(dir: string, rel: string, resolved: seq<string>)
    requires Canonical(dir)
    requires rel != "" && rel[|rel| - 1] != '/'
    requires Resolve(Segments(dir), Split(rel), true) == resolved && resolved != []
    requires forall i :: 0 <= i < |resolved| ==> resolved[i] != ""
    ensures Normalize(dir + "/" + rel) == "/" + JoinWith(resolved)
  {
    JoinBelow(dir, rel);
    JoinWithNonEmpty(resolved);
  }

  lemma {:induction false} JoinWithNonEmpty(parts: seq<string>)
    requires parts != [] && parts[0] != ""
    ensures JoinWith(parts) != ""
    decreases |parts|
  {
    if |parts| > 1 {
      JoinWithCons(parts[0], parts[1..]);
      assert |JoinWith(parts)| >= |parts[0]|;
    }
  }

  /** Joining a run of segments after some others; none is the root. */
  lemma JoinSegments(segs: seq<string>, tail: seq<string>)
    requires |tail| >= 1
    ensures JoinWith(segs + tail) == (if segs == [] then "" else JoinWith(segs) + "/") + JoinWith(tail)
  {
    if segs == [] {
      assert segs + tail == tail;
    } else {
      JoinWithAppend(segs, tail);
    }
  }

  /** A canonical directory's segments with one more segment, joined under the
      root. */
  lemma CanonicalChild(dir: string, name: string)
    requires Canonical(dir)
    ensures "/" + JoinWith(Segments(dir) + [name]) == (if |dir| == 1 then "" else dir) + "/" + name
  {
    var segs := Segments(dir);
    CanonicalSegments(dir);
    if |dir| == 1 {
      assert segs + [name] == [name];
    } else {
      JoinWithAppend(segs, [name]);
      assert "/" + (JoinWith(segs) + "/" + name) == ("/" + JoinWith(segs)) + "/" + name;
    }
  }

  /** The relative path "./name", as the loader writes it. */
  lemma DotChild(name: string)
    requires Plain(name) && '/' !in name
    ensures JoinWith([".", name]) == "./" + name
    ensures Split("./" + name) == [".", name]
  {
    JoinWithCons(".", [name]);
    JoinThenSplit([".", name]);
  }

  /** "./name" resolves to `name` on top of any stack. */
  lemma ResolveDotChild(stack: seq<string>, name: string)
    requires Plain(name) && '/' !in name
    ensures Resolve(stack, Split("./" + name), true) == stack + [name]
  {
    DotChild(name);
    assert [".", name][1..] == [name];
    assert Resolve(stack, [".", name], true) == Resolve(stack, [name], true);
    ResolvePlain(stack, [name], true);
  }

  /** `join(dir, "./" + name)` names `name` inside a canonical `dir`. */
  lemma JoinChild(dir: string, name: string)
    requires Canonical(dir)
    requires Plain(name) && '/' !in name
    ensures Join([dir, "./" + name]) == (if |dir| == 1 then "" else dir) + "/" + name
  {
    var rel := "./" + name;
    var resolved := Segments(dir) + [name];
    ResolveDotChild(Segments(dir), name);
    CanonicalSegments(dir);
    assert forall i :: 0 <= i < |resolved| ==> resolved[i] != "" by {
      assert forall i :: 0 <= i < |resolved| - 1 ==> resolved[i] == Segments(dir)[i];
    }
    JoinTwo(dir, rel);
    NormalizeBelow(dir, rel, resolved);
    CanonicalChild(dir, name);
  }

  /** The relative path "../a/b" split into its segments. */
  lemma UpTwo(a: string, b: string)
    requires Plain(a) && '/' !in a && Plain(b) && '/' !in b
    ensures JoinWith(["..", a, b]) == "../" + a + "/" + b
    ensures Split("../" + a + "/" + b) == ["..", a, b]
  {
    JoinWithCons(a, [b]);
    JoinWithCons("..", [a, b]);
    JoinThenSplit(["..", a, b]);
  }

  /** The parent of a canonical directory, as segments; the root is its own
      parent. */
  function ParentOf(segs: seq<string>): seq<string>
  {
    if |segs| == 0 then [] else segs[..|segs| - 1]
  }

  /** "../a/b" resolves to `a/b` on top of the parent of a stack of plain
      segments. */
  lemma ResolveUpTwo(segs: seq<string>, a: string, b: string)
    requires forall i :: 0 <= i < |segs| ==> Plain(segs[i])
    requires Plain(a) && '/' !in a && Plain(b) && '/' !in b
    ensures Resolve(segs, Split("../" + a + "/" + b), true) == ParentOf(segs) + [a, b]
  {
    UpTwo(a, b);
    assert Step(segs, "..", true) == ParentOf(segs);
    assert ["..", a, b][1..] == [a, b];
    assert Resolve(segs, ["..", a, b], true) == Resolve(ParentOf(segs), [a, b], true);
    ResolvePlain(ParentOf(segs), [a, b], true);
  }

  /** "../a/b" below a canonical directory resolves to `a/b` below its
      parent, and every resolved segment is non-empty. */
  lemma SiblingResolves(dir: string, a: string, b: string)
    requires Canonical(dir)
    requires Plain(a) && '/' !in a && Plain(b) && '/' !in b
    ensures var rel := "../" + a + "/" + b;
            var resolved := ParentOf(Segments(dir)) + [a, b];
      && rel != "" && rel[|rel| - 1] != '/'
      && Resolve(Segments(dir), Split(rel), true) == resolved
      && forall i :: 0 <= i < |resolved| ==> resolved[i] != ""
  {
    var rel := "../" + a + "/" + b;
    var segs := Segments(dir);
    var resolved := ParentOf(segs) + [a, b];
    CanonicalSegments(dir);
    ResolveUpTwo(segs, a, b);
    forall i | 0 <= i < |resolved| ensures resolved[i] != "" {
      if i < |resolved| - 2 {
        assert resolved[i] == segs[i];
      }
    }
    assert rel[|rel| - 1] == b[|b| - 1];
  }

  /** `join(dir, "..", a, b)` normalises `dir/../a/b`. */
  lemma JoinUpTwo(dir: string, a: string, b: string)
    requires dir != ""
    requires Plain(a) && '/' !in a && Plain(b) && '/' !in b
    ensures Join([dir, "..", a, b]) == Normalize(dir + "/" + ("../" + a + "/" + b))
  {
    UpTwo(a, b);
    JoinFirst(dir, ["..", a, b]);
  }

  /** `join(dir, "..", a, b)` names `a/b` inside the parent of a canonical
      `dir`, given as the segments of that parent (the root is its own parent). */
  lemma JoinSibling(dir: string, a: string, b: string)
    requires Canonical(dir)
    requires Plain(a) && '/' !in a && Plain(b) && '/' !in b
    ensures Join([dir, "..", a, b]) == "/" + JoinWith(ParentOf(Segments(dir)) + [a, b])
  {
    SiblingResolves(dir, a, b);
    JoinUpTwo(dir, a, b);
    NormalizeBelow(dir, "../" + a + "/" + b, ParentOf(Segments(dir)) + [a, b]);
  }
}
