/** Lexical path cleaning, as filepath.Clean and filepath.Join do it on a slash-separated system. */
module Paths {
  import opened Strings

  predicate Ordinary(part: string) {
    part != "" && part != "." && part != ".." && '/' !in part
  }

  /** A cleaned component list: leading ".." entries, then ordinary names. */
  predicate Normal(parts: seq<string>) {
    && (forall i | 0 <= i < |parts| :: Ordinary(parts[i]) || parts[i] == "..")
    && (forall i | 0 < i < |parts| :: parts[i] == ".." ==> parts[i - 1] == "..")
  }

  /** Walks the components left to right; `out` holds the ones kept so far. */
  function Reduce(parts: seq<string>, out: seq<string>, rooted: bool): seq<string> {
    if parts == [] then out
    else
      var part := parts[0];
      var next :=
        if part == "" || part == "." then out
        else if part != ".." then out + [part]
        else if out != [] && out[|out| - 1] != ".." then out[..|out| - 1]
        else if rooted then out
        else out + [".."];
      Reduce(parts[1..], next, rooted)
  }

  function Clean(path: string): string {
    if path != "" && path[0] == '/' then
      "/" + Join(Reduce(Split(path, '/'), [], true), '/')
    else
      var parts := Reduce(Split(path, '/'), [], false);
      if parts == [] then "." else Join(parts, '/')
  }

  function JoinPath(dir: string, name: string): string {
    Clean(dir + "/" + name)
  }

  /** The cleaned form of a relative path that names something strictly below its directory. */
  predicate Below(path: string) {
    path != "." && path != ".." && !HasPrefix(path, "/") && !HasPrefix(path, "../")
  }

  lemma {:induction false} ReduceNormal(parts: seq<string>, out: seq<string>, rooted: bool)
    requires Free(parts, '/') && Normal(out)
    requires rooted ==> forall i | 0 <= i < |out| :: Ordinary(out[i])
    ensures Normal(Reduce(parts, out, rooted))
    ensures rooted ==> forall i | 0 <= i < |Reduce(parts, out, rooted)| :: Ordinary(Reduce(parts, out, rooted)[i])
  {
    if parts != [] {
      var part := parts[0];
      var next :=
        if part == "" || part == "." then out
        else if part != ".." then out + [part]
        else if out != [] && out[|out| - 1] != ".." then out[..|out| - 1]
        else if rooted then out
        else out + [".."];
      assert Normal(next);
      ReduceNormal(parts[1..], next, rooted);
    }
  }

  lemma {:induction false} ReduceAppend(a: seq<string>, b: seq<string>, out: seq<string>, rooted: bool)
    ensures Reduce(a + b, out, rooted) == Reduce(b, Reduce(a, out, rooted), rooted)
  {
    if a == [] {
      assert a + b == b;
    } else {
      assert (a + b)[1..] == a[1..] + b;
      var part := a[0];
      var next :=
        if part == "" || part == "." then out
        else if part != ".." then out + [part]
        else if out != [] && out[|out| - 1] != ".." then out[..|out| - 1]
        else if rooted then out
        else out + [".."];
      ReduceAppend(a[1..], b, next, rooted);
    }
  }

  /** Ordinary names are kept as they are. */
  lemma {:induction false} ReduceOrdinary(parts: seq<string>, out: seq<string>, rooted: bool)
    requires forall i | 0 <= i < |parts| :: Ordinary(parts[i])
    ensures Reduce(parts, out, rooted) == out + parts
  {
    if parts != [] {
      ReduceOrdinary(parts[1..], out + [parts[0]], rooted);
      assert out + [parts[0]] + parts[1..] == out + parts;
    }
  }

  lemma {:induction false} ReduceKeepsNormal(parts: seq<string>, out: seq<string>)
    requires Normal(out + parts)
    ensures Reduce(parts, out, false) == out + parts
  {
    if parts == [] {
      assert out + parts == out;
    } else {
      assert (out + parts)[|out|] == parts[0];
      assert out != [] ==> (out + parts)[|out| - 1] == out[|out| - 1];
      assert out + parts == (out + [parts[0]]) + parts[1..];
      ReduceKeepsNormal(parts[1..], out + [parts[0]]);
    }
  }

  lemma JoinHead(parts: seq<string>)
    requires parts != [] && Normal(parts)
    ensures Join(parts, '/') != "" && Join(parts, '/')[0] == parts[0][0] != '/'
    ensures Join(parts, '/') != "."
  {
    assert Ordinary(parts[0]) || parts[0] == "..";
    if |parts| == 1 {
    } else {
      assert '/' in Join(parts, '/') by {
        assert Join(parts, '/')[|parts[0]|] == '/';
      }
    }
  }

  /** What Clean returns for a relative path: a normal component list, joined. */
  lemma CleanRelative(path: string) returns (parts: seq<string>)
    requires !HasPrefix(path, "/")
    ensures Normal(parts)
    ensures parts == Reduce(Split(path, '/'), [], false)
    ensures Clean(path) == (if parts == [] then "." else Join(parts, '/'))
    ensures !HasPrefix(Clean(path), "/")
  {
    assert path != "" ==> path[..1] == [path[0]];
    SplitIsFree(path, '/');
    parts := Reduce(Split(path, '/'), [], false);
    ReduceNormal(Split(path, '/'), [], false);
    if parts != [] {
      JoinHead(parts);
    }
    NoSlashAhead(Clean(path));
  }

  lemma NoSlashAhead(s: string)
    requires s != "" && s[0] != '/'
    ensures !HasPrefix(s, "/")
  {
    assert s[0] != "/"[0];
  }

  /** A relative normal list survives joining, splitting and reducing again. */
  lemma CleanOfNormal(parts: seq<string>)
    requires Normal(parts) && parts != []
    ensures Clean(Join(parts, '/')) == Join(parts, '/')
    ensures Split(Join(parts, '/'), '/') == parts
  {
    JoinHead(parts);
    SplitOfJoin(parts, '/');
    assert [] + parts == parts;
    ReduceKeepsNormal(parts, []);
  }

  /** Cleaning a relative path twice is cleaning it once. */
  lemma CleanIdempotent(path: string)
    requires !HasPrefix(path, "/")
    ensures Clean(Clean(path)) == Clean(path)
  {
    var parts := CleanRelative(path);
    if parts == [] {
      assert Split(".", '/') == ["."] by { SplitOne(".", '/'); }
    } else {
      CleanOfNormal(parts);
    }
  }

  lemma JoinFromParent(parts: seq<string>)
    requires parts != [] && parts[0] == ".."
    ensures !Below(Join(parts, '/'))
  {
    if |parts| > 1 {
      assert Join(parts, '/') == ".." + ['/'] + Join(parts[1..], '/');
      assert "../" <= Join(parts, '/');
    }
  }

  /** A cleaned path that is Below has only ordinary components: no way up out of its directory. */
  lemma {:induction false} BelowHasNoParent(path: string) returns (parts: seq<string>)
    requires !HasPrefix(path, "/") && Below(Clean(path))
    ensures parts != [] && Clean(path) == Join(parts, '/') && Split(Clean(path), '/') == parts
    ensures forall i | 0 <= i < |parts| :: Ordinary(parts[i])
  {
    parts := CleanRelative(path);
    CleanOfNormal(parts);
    if parts[0] == ".." {
      JoinFromParent(parts);
      assert false;
    }
    var i := 0;
    while i < |parts|
      invariant 0 <= i <= |parts|
      invariant forall j | 0 <= j < i :: Ordinary(parts[j])
    {
      assert i > 0 ==> Ordinary(parts[i - 1]) && parts[i - 1] != "..";
      i := i + 1;
    }
  }

  lemma {:induction false} SplitConcat(a: string, b: string, sep: char)
    ensures Split(a + [sep] + b, sep) == Split(a, sep) + Split(b, sep)
  {
    hide Split;
    var s := a + [sep] + b;
    if a == "" {
      SplitPrefix("", b, sep);
      SplitNothing(sep);
    } else {
      assert s[0] == a[0] && s[1..] == a[1..] + [sep] + b;
      SplitConcat(a[1..], b, sep);
      SplitStep(s, sep);
      SplitStep(a, sep);
      PrependDistributes(Split(a[1..], sep), Split(b, sep), a[0], sep);
    }
  }

  lemma SplitNothing(sep: char)
    ensures Split("", sep) == [""]
  {
  }

  lemma PrependDistributes(x: seq<string>, y: seq<string>, c: char, sep: char)
    requires x != []
    ensures [""] + (x + y) == ([""] + x) + y
    ensures [[c] + (x + y)[0]] + (x + y)[1..] == ([[c] + x[0]] + x[1..]) + y
  {
  }

  lemma SplitStep(s: string, sep: char)
    requires s != ""
    ensures var rest := Split(s[1..], sep);
      Split(s, sep) == if s[0] == sep then [""] + rest else [[s[0]] + rest[0]] + rest[1..]
  {
  }

  lemma {:induction false} JoinConcat(a: seq<string>, b: seq<string>, sep: char)
    requires a != [] && b != []
    ensures Join(a + b, sep) == Join(a, sep) + [sep] + Join(b, sep)
  {
    if |a| == 1 {
      assert (a + b)[1..] == b;
    } else {
      assert (a + b)[1..] == a[1..] + b;
      JoinConcat(a[1..], b, sep);
    }
  }

  /** Joining a path that is Below onto an absolute directory other than the root stays inside it
      and spells the path out unchanged. */
  lemma JoinBelow(dir: string, path: string)
    requires HasPrefix(dir, "/") && Clean(dir) != "/"
    requires !HasPrefix(path, "/") && Below(Clean(path))
    ensures JoinPath(dir, Clean(path)) == Clean(dir) + "/" + Clean(path)
  {
    var name := Clean(path);
    var parts := BelowHasNoParent(path);
    var full := dir + "/" + name;
    assert full == dir + ['/'] + name;
    assert full[0] == dir[0] == '/';
    SplitConcat(dir, name, '/');
    var base := Reduce(Split(dir, '/'), [], true);
    ReduceAppend(Split(dir, '/'), parts, [], true);
    ReduceOrdinary(parts, base, true);
    assert Reduce(Split(full, '/'), [], true) == base + parts;
    assert base == [] ==> Clean(dir) == "/";
    JoinConcat(base, parts, '/');
    assert "/" + (Join(base, '/') + "/" + name) == ("/" + Join(base, '/')) + "/" + name;
  }
}
