/** Slash-separated paths: joining components and cleaning a path back into components. */
module Paths {
  import opened Seqs

  type Path = seq<string>

  /** A name a file or folder can have. */
  predicate ValidName(name: string) {
    name != "" && name != "." && '/' !in name
  }

  predicate ValidPath(p: Path) {
    p != [] && forall name :: name in p ==> ValidName(name)
  }

  function Join(p: Path): string
    requires p != []
  {
    if |p| == 1 then p[0] else p[0] + "/" + Join(p[1..])
  }

  function Split(s: string): (r: seq<string>)
    ensures r != []
  {
    if s == "" then [""]
    else
      var rest := Split(s[1..]);
      if s[0] == '/' then [""] + rest else [[s[0]] + rest[0]] + rest[1..]
  }

  predicate Real(name: string) { name != "" && name != "." }

  /** What joining a directory with `s` appends to it, when `s` holds no "..". */
  function Clean(s: string): Path {
    Filter(Split(s), Real)
  }

  predicate HasDotDot(s: string) {
    exists i :: 0 <= i < |s| - 1 && s[i] == '.' && s[i + 1] == '.'
  }

  lemma {:induction false} SplitName(name: string, rest: string)
    requires '/' !in name
    ensures Split(name) == [name]
    ensures Split(name + "/" + rest) == [name] + Split(rest)
  {
    var s := name + "/" + rest;
    if name == "" {
      assert s[1..] == rest;
    } else {
      SplitName(name[1..], rest);
      assert s[1..] == name[1..] + "/" + rest;
      assert name == [name[0]] + name[1..];
      assert s[0] == name[0];
    }
  }

  lemma {:induction false} SplitJoin(p: Path)
    requires ValidPath(p)
    ensures Split(Join(p)) == p
  {
    assert ValidName(p[0]);
    if |p| == 1 {
      SplitName(p[0], "");
    } else {
      SplitJoin(p[1..]);
      SplitName(p[0], Join(p[1..]));
      assert p == [p[0]] + p[1..];
    }
  }

  /** Cleaning a joined path gives its components back. */
  lemma CleanJoin(p: Path)
    requires ValidPath(p)
    ensures Clean(Join(p)) == p && Join(p) != ""
  {
    SplitJoin(p);
    FilterAll(p, Real);
    assert ValidName(p[0]);
  }

  /** The separator is no dot, so two dots in a row are inside one component. */
  lemma {:induction false} DotDotIsInAName(p: Path)
    requires p != []
    ensures HasDotDot(Join(p)) <==> exists name :: name in p && HasDotDot(name)
  {
    if |p| == 1 {
    } else {
      var tail := p[1..];
      DotDotIsInAName(tail);
      DotDotInEither(p[0], Join(tail));
      assert p == [p[0]] + tail;
    }
  }

  lemma DotDotInEither(a: string, b: string)
    ensures HasDotDot(a + "/" + b) <==> HasDotDot(a) || HasDotDot(b)
  {
    var s := a + "/" + b;
    if HasDotDot(s) {
      var i :| 0 <= i < |s| - 1 && s[i] == '.' && s[i + 1] == '.';
      if i < |a| {
        assert s[i] == a[i] && s[i + 1] == if i + 1 < |a| then a[i + 1] else '/';
      } else {
        var j := i - |a| - 1;
        assert s[i + 1] == b[j + 1] && s[i] == if j < 0 then '/' else b[j];
      }
    }
    if HasDotDot(a) {
      var i :| 0 <= i < |a| - 1 && a[i] == '.' && a[i + 1] == '.';
      assert s[i] == a[i] && s[i + 1] == a[i + 1];
    }
    if HasDotDot(b) {
      var i :| 0 <= i < |b| - 1 && b[i] == '.' && b[i + 1] == '.';
      assert s[|a| + 1 + i] == b[i] && s[|a| + 1 + i + 1] == b[i + 1];
    }
  }

  function Prefix(c: char, parts: seq<string>): seq<string>
    requires parts != []
  {
    if c == '/' then [""] + parts else [[c] + parts[0]] + parts[1..]
  }

  lemma Prefixed(c: char, p: seq<string>, q: seq<string>)
    requires p != []
    ensures Prefix(c, p + q) == Prefix(c, p) + q
  {
  }

  lemma SplitFrom(c: char, s: string)
    ensures Split([c] + s) == Prefix(c, Split(s))
  {
    assert ([c] + s)[1..] == s;
  }

  lemma {:induction false} SplitParts(a: string, b: string)
    ensures Split(a + "/" + b) == Split(a) + Split(b)
    decreases |a|
  {
    if a == "" {
      SplitFrom('/', b);
      assert a + "/" + b == ['/'] + b;
    } else {
      var c, rest := a[0], a[1..];
      SplitParts(rest, b);
      SplitFrom(c, rest);
      SplitFrom(c, rest + "/" + b);
      assert a == [c] + rest && a + "/" + b == [c] + (rest + "/" + b);
      Prefixed(c, Split(rest), Split(b));
    }
  }

  lemma {:induction false} FilterParts(a: seq<string>, b: seq<string>)
    ensures Filter(a + b, Real) == Filter(a, Real) + Filter(b, Real)
  {
    if b == [] {
      assert a + b == a;
    } else {
      assert (a + b)[..|a + b| - 1] == a + b[..|b| - 1];
      FilterParts(a, b[..|b| - 1]);
    }
  }

  lemma CleanParts(a: string, b: string)
    ensures Clean(a + "/" + b) == Clean(a) + Clean(b)
  {
    SplitParts(a, b);
    FilterParts(Split(a), Split(b));
  }

  lemma CleanSkips(a: string, skipped: string, b: string)
    requires skipped == "" || skipped == "."
    ensures Clean(a + "/" + skipped + "/" + b) == Clean(a + "/" + b)
  {
    CleanParts(a, skipped + "/" + b);
    assert a + "/" + skipped + "/" + b == a + "/" + (skipped + "/" + b);
    CleanParts(skipped, b);
    SplitName(skipped, "");
    assert Split(skipped) == [skipped] && [skipped][..0] == [];
    assert Filter([skipped], Real) == [];
    CleanParts(a, b);
  }
}
