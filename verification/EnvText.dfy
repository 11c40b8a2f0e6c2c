/** The env editor's text form: formatEnv of internal/web/handlers_apps.go prints an env map as KEY=VALUE lines,
    ParseKVLines of internal/store/secrets.go reads such a block back. */
module EnvText {
  import opened Common
  import opened Strings

  /** Env var keys: [A-Za-z_][A-Za-z0-9_]* */
  predicate ValidEnvKey(k: string) {
    k != "" && KeyStart(k[0]) && forall i | 0 < i < |k| :: KeyStart(k[i]) || '0' <= k[i] <= '9'
  }

  predicate KeyStart(c: char) {
    'A' <= c <= 'Z' || 'a' <= c <= 'z' || c == '_'
  }

  /** A value the text form can carry: one line, and nothing at its end that trimming would take away. */
  predicate PlainValue(v: string) {
    '\n' !in v && (v != "" ==> !IsSpace(v[|v| - 1]))
  }

  predicate Printable(env: map<string, string>) {
    forall k | k in env :: ValidEnvKey(k) && PlainValue(env[k])
  }

  // ---------------------------------------------------------------- printing

  function LineOf(env: map<string, string>, k: string): string
    requires k in env
  {
    k + "=" + env[k]
  }

  function Lines(env: map<string, string>, keys: seq<string>): (lines: seq<string>)
    requires forall k | k in keys :: k in env
    ensures |lines| == |keys|
    ensures forall i | 0 <= i < |keys| :: lines[i] == LineOf(env, keys[i])
  {
    if keys == [] then [] else Lines(env, keys[..|keys| - 1]) + [LineOf(env, keys[|keys| - 1])]
  }

  function Print(env: map<string, string>, keys: seq<string>): string
    requires forall k | k in keys :: k in env
  {
    Join(Lines(env, keys), '\n')
  }

  /** The keys of the map, each once, in increasing order. */
  ghost predicate SortedKeys(keys: seq<string>, env: map<string, string>) {
    && (forall k :: k in keys <==> k in env)
    && forall i, j | 0 <= i < j < |keys| :: Before(keys[i], keys[j])
  }

  /** Collects the keys in whatever order the map yields them, sorts them and prints a line for each. */
  method FormatEnv(env: map<string, string>) returns (text: string)
    ensures exists keys :: SortedKeys(keys, env) && text == Print(env, keys)
  {
    var collected: seq<string> := [];
    var left := env.Keys;
    while left != {}
      invariant left <= env.Keys
      invariant forall k :: k in collected <==> k in env && k !in left
      invariant forall i, j | 0 <= i < j < |collected| :: collected[i] != collected[j]
      decreases |left|
    {
      var k :| k in left;
      left := left - {k};
      collected := collected + [k];
    }
    var sorted := SortStrings(collected);
    SortKeepsDistinct(collected);
    SortKeepsElements(collected);
    text := PrintLines(env, sorted);
    assert SortedKeys(sorted, env);
  }

  method PrintLines(env: map<string, string>, keys: seq<string>) returns (text: string)
    requires forall k | k in keys :: k in env
    ensures text == Print(env, keys)
  {
    var lines: seq<string> := [];
    for i := 0 to |keys|
      invariant |lines| == i && lines == Lines(env, keys[..i])
    {
      lines := lines + [LineOf(env, keys[i])];
      assert keys[..i + 1][..i] == keys[..i];
    }
    assert keys[..|keys|] == keys;
    text := Join(lines, '\n');
  }

  /** The printed text depends on the map alone, not on the order in which it yields its keys. */
  lemma {:induction false} SortedKeysAreUnique(a: seq<string>, b: seq<string>, env: map<string, string>)
    requires SortedKeys(a, env) && SortedKeys(b, env)
    ensures a == b
  {
    SameSorted(a, b);
  }

  lemma HasElement(s: seq<string>)
    requires s != []
    ensures exists k :: k in s
  {
    assert s[0] in s;
  }

  lemma {:induction false} SameSorted(a: seq<string>, b: seq<string>)
    requires forall k :: k in a <==> k in b
    requires forall i, j | 0 <= i < j < |a| :: Before(a[i], a[j])
    requires forall i, j | 0 <= i < j < |b| :: Before(b[i], b[j])
    ensures a == b
  {
    if a != [] {
      assert a[0] in b;
      var i :| 0 <= i < |b| && b[i] == a[0];
      assert b[0] in a;
      var j :| 0 <= j < |a| && a[j] == b[0];
      BeforeIsTotal(a[0], b[0]);
      assert a[0] == b[0];
      forall k ensures k in a[1..] <==> k in b[1..] {
        BeforeIsTotal(a[0], a[0]);
        assert k in a <==> k in b;
        assert a == [a[0]] + a[1..] && b == [b[0]] + b[1..];
      }
      SameSorted(a[1..], b[1..]);
      assert a == [a[0]] + a[1..] && b == [b[0]] + b[1..];
    } else if b != [] {
      HasElement(b);
      assert false;
    }
  }

  // ---------------------------------------------------------------- parsing

  datatype Reading = Skip | Bad(line: string) | Pair(key: string, value: string)

  function Cut(s: string, sep: char): (r: Option<(string, string)>)
    ensures r == None <==> sep !in s
    ensures r.Some? ==> sep !in r.value.0 && s == r.value.0 + [sep] + r.value.1
  {
    if s == "" then None
    else if s[0] == sep then Some(("", s[1..]))
    else match Cut(s[1..], sep)
      case None => None
      case Some(p) => Some(([s[0]] + p.0, p.1))
  }

  function TrimCR(line: string): string {
    if line != "" && line[|line| - 1] == '\r' then line[..|line| - 1] else line
  }

  function Read(raw: string): Reading {
    var line := TrimSpace(TrimCR(raw));
    if line == "" then Skip
    else match Cut(line, '=')
      case None => Bad(line)
      case Some(p) =>
        var k := TrimSpace(p.0);
        if ValidEnvKey(k) then Pair(k, p.1) else Bad(line)
  }

  datatype Parsed = Parsed(env: map<string, string>, bad: seq<string>)

  function Add(p: Parsed, r: Reading): Parsed {
    match r
    case Skip => p
    case Bad(line) => p.(bad := p.bad + [line])
    case Pair(k, v) => p.(env := p.env[k := v])
  }

  function ReadAll(lines: seq<string>): Parsed {
    if lines == [] then Parsed(map[], [])
    else Add(ReadAll(lines[..|lines| - 1]), Read(lines[|lines| - 1]))
  }

  function Parse(block: string): Parsed {
    ReadAll(Split(block, '\n'))
  }

  method ParseKVLines(block: string) returns (env: map<string, string>, bad: seq<string>)
    ensures Parsed(env, bad) == Parse(block)
  {
    env, bad := map[], [];
    var lines := Split(block, '\n');
    for i := 0 to |lines|
      invariant Parsed(env, bad) == ReadAll(lines[..i])
    {
      assert lines[..i + 1][..i] == lines[..i];
      var line := TrimSpace(TrimCR(lines[i]));
      if line == "" {
        continue;
      }
      var cut := Cut(line, '=');
      if cut.None? {
        bad := bad + [line];
        continue;
      }
      var k := TrimSpace(cut.value.0);
      if !ValidEnvKey(k) {
        bad := bad + [line];
        continue;
      }
      env := env[k := cut.value.1];
    }
    assert lines[..|lines|] == lines;
  }

  /** The last line that gives a key decides its value; a key no line gives is absent. */
  ghost predicate Decides(lines: seq<string>, i: nat, k: string, v: string) {
    i < |lines| && Read(lines[i]) == Pair(k, v)
    && forall j | i < j < |lines| :: !(Read(lines[j]).Pair? && Read(lines[j]).key == k)
  }

  lemma {:induction false} LastLineWins(lines: seq<string>, k: string, v: string)
    ensures (k in ReadAll(lines).env && ReadAll(lines).env[k] == v) <==> exists i: nat :: Decides(lines, i, k, v)
  {
    hide Read;
    if lines != [] {
      var n := |lines| - 1;
      var before := lines[..n];
      LastLineWins(before, k, v);
      if Read(lines[n]).Pair? && Read(lines[n]).key == k {
        hide ReadAll;
        assert (k in ReadAll(lines).env && ReadAll(lines).env[k] == v) <==> Read(lines[n]).value == v
          by { LastReading(lines); }
        assert Read(lines[n]).value == v ==> Decides(lines, n, k, v);
      } else {
        LastReading(lines);
        hide ReadAll;
        forall i: nat ensures Decides(lines, i, k, v) <==> Decides(before, i, k, v) {
          DecidesBefore(lines, i, k, v);
        }
      }
    }
  }

  lemma LastReading(lines: seq<string>)
    requires lines != []
    ensures ReadAll(lines) == Add(ReadAll(lines[..|lines| - 1]), Read(lines[|lines| - 1]))
  {
  }

  lemma {:induction false} DecidesBefore(lines: seq<string>, i: nat, k: string, v: string)
    requires lines != []
    requires !(Read(lines[|lines| - 1]).Pair? && Read(lines[|lines| - 1]).key == k)
    ensures Decides(lines, i, k, v) <==> Decides(lines[..|lines| - 1], i, k, v)
  {
    hide Read;
    var n, before := |lines| - 1, lines[..|lines| - 1];
    if Decides(lines, i, k, v) {
      assert i < n;
      assert forall j | i < j < n :: before[j] == lines[j];
    }
    if Decides(before, i, k, v) {
      assert forall j | i < j < n :: lines[j] == before[j];
    }
  }

  // ---------------------------------------------------------------- the round trip

  lemma KeyHasNoSpace(k: string)
    requires ValidEnvKey(k)
    ensures forall c | c in k :: !IsSpace(c) && c != '=' && c != '\n'
  {
  }

  lemma {:induction false} CutAtFirst(k: string, v: string)
    requires '=' !in k
    ensures Cut(k + "=" + v, '=') == Some((k, v))
  {
    var s := k + "=" + v;
    if k == "" {
      assert s[1..] == v;
    } else {
      assert s[1..] == k[1..] + "=" + v;
      assert forall c | c in k[1..] :: c in k;
      CutAtFirst(k[1..], v);
      assert s[0] == k[0] && k == [k[0]] + k[1..];
    }
  }

  lemma {:induction false} ReadUndoesPrint(k: string, v: string)
    requires ValidEnvKey(k) && PlainValue(v)
    ensures Read(k + "=" + v) == Pair(k, v) && '\n' !in k + "=" + v
  {
    var line := k + "=" + v;
    KeyHasNoSpace(k);
    assert line[0] == k[0] && k[0] in k && k[|k| - 1] in k;
    assert line[|line| - 1] == if v == "" then '=' else v[|v| - 1];
    TrimSpaceKeeps(line);
    TrimSpaceKeeps(k);
    CutAtFirst(k, v);
  }

  /** Whatever text was read, every key is valid and every value plain. */
  lemma {:induction false} ReadAllIsPrintable(lines: seq<string>)
    requires Free(lines, '\n')
    ensures Printable(ReadAll(lines).env)
  {
    if lines != [] {
      var n := |lines| - 1;
      ReadAllIsPrintable(lines[..n]);
      ReadIsPrintable(lines[n]);
    }
  }

  lemma ReadIsPrintable(raw: string)
    requires '\n' !in raw
    ensures Read(raw).Pair? ==> ValidEnvKey(Read(raw).key) && PlainValue(Read(raw).value)
  {
    hide TrimLeft, TrimRight, IsSpace;
    if Read(raw).Pair? {
      var s := TrimCR(raw);
      var line := TrimSpace(s);
      var v := Read(raw).value;
      TrimSpaceIsTrimmed(s);
      TrimLeftIsSuffix(s);
      TrimRightIsPrefix(TrimLeft(s));
      assert forall c | c in v :: c in line;
      assert forall c | c in line :: c in TrimLeft(s);
      assert forall c | c in TrimLeft(s) :: c in s;
      assert v != "" ==> v[|v| - 1] == line[|line| - 1];
    }
  }

  lemma {:induction false} ReadAllUndoesLines(env: map<string, string>, keys: seq<string>)
    requires forall k | k in keys :: k in env
    requires Printable(env)
    ensures ReadAll(Lines(env, keys)) == Parsed(map k | k in keys :: env[k], [])
  {
    hide Read, ReadAll, Lines, ValidEnvKey, PlainValue;
    if keys == [] {
      assert Lines(env, keys) == [] && ReadAll([]) == Parsed(map[], []) by { NothingRead(env); }
    } else {
      var n := |keys| - 1;
      var before, k := keys[..n], keys[n];
      ReadAllUndoesLines(env, before);
      LastLine(env, keys);
      ReadUndoesPrint(k, env[k]);
      assert keys == before + [k];
      assert (map x | x in keys :: env[x]) == (map x | x in before :: env[x])[k := env[k]];
    }
  }

  lemma NothingRead(env: map<string, string>)
    ensures Lines(env, []) == [] && ReadAll([]) == Parsed(map[], [])
  {
  }

  lemma LastLine(env: map<string, string>, keys: seq<string>)
    requires keys != [] && forall k | k in keys :: k in env
    ensures var n := |keys| - 1;
      ReadAll(Lines(env, keys)) == Add(ReadAll(Lines(env, keys[..n])), Read(LineOf(env, keys[n])))
  {
    hide Read, Add;
    var lines := Lines(env, keys);
    assert lines[..|keys| - 1] == Lines(env, keys[..|keys| - 1]);
    LastReading(lines);
  }

  /** Parsing gives back a printed map, and reports no bad line, exactly when every key is valid and every value is a
      single line without white space at its end. */
  lemma {:induction false} RoundTrip(env: map<string, string>, keys: seq<string>)
    requires SortedKeys(keys, env)
    ensures Parse(Print(env, keys)) == Parsed(env, []) <==> Printable(env)
  {
    hide SortedKeys, Read, ReadAll, Split, Join, Printable, Lines;
    EnumeratesKeys(keys, env);
    var lines := Lines(env, keys);
    var text := Join(lines, '\n');
    SplitIsFree(text, '\n');
    ReadAllIsPrintable(Split(text, '\n'));
    if Printable(env) {
      PrintedIsRead(env, keys);
    }
  }

  lemma {:induction false} PrintedIsRead(env: map<string, string>, keys: seq<string>)
    requires Printable(env)
    requires forall k :: k in keys <==> k in env
    ensures Parse(Print(env, keys)) == Parsed(env, [])
  {
    hide Read, ReadAll, ValidEnvKey, PlainValue;
    var lines := Lines(env, keys);
    ReadAllUndoesLines(env, keys);
    if keys == [] {
      assert lines == [] && Split(Join([], '\n'), '\n') == [""];
      BlankIsSkipped();
      assert env == map[];
    } else {
      hide Lines, Split, Join;
      forall i | 0 <= i < |lines| ensures '\n' !in lines[i] {
        ReadUndoesPrint(keys[i], env[keys[i]]);
      }
      SplitOfJoin(lines, '\n');
      assert (map k | k in keys :: env[k]) == env;
    }
  }

  lemma EnumeratesKeys(keys: seq<string>, env: map<string, string>)
    requires SortedKeys(keys, env)
    ensures forall k :: k in keys <==> k in env
  {
  }

  lemma BlankIsSkipped()
    ensures ReadAll([""]) == Parsed(map[], [])
  {
    assert Read("") == Skip;
    assert [""][..0] == [];
  }

  /** Saving what the editor shows after any save changes nothing more. */
  lemma {:induction false} ReadTextIsStable(block: string, keys: seq<string>)
    requires SortedKeys(keys, Parse(block).env)
    ensures var env := Parse(block).env;
      Parse(Print(env, keys)) == Parsed(env, [])
  {
    SplitIsFree(block, '\n');
    ReadAllIsPrintable(Split(block, '\n'));
    RoundTrip(Parse(block).env, keys);
  }

  /** What the round trip loses: white space at the end of a value. */
  lemma TrailingSpaceIsLost()
    ensures SortedKeys(["A"], map["A" := "x "])
    ensures Parse(Print(map["A" := "x "], ["A"])) == Parsed(map["A" := "x"], [])
  {
    hide Parse, Print;
    assert Print(map["A" := "x "], ["A"]) == "A=x " by { PrintsOne(); }
    assert Parse("A=x ") == Parsed(map["A" := "x"], []) by { ParsesTrimmed(); }
  }

  lemma PrintsOne()
    ensures Print(map["A" := "x "], ["A"]) == "A=x "
  {
    assert LineOf(map["A" := "x "], "A") == "A=x ";
  }

  lemma ParsesTrimmed()
    ensures Parse("A=x ") == Parsed(map["A" := "x"], [])
  {
    hide Read, ReadAll, Split;
    ReadsTrimmed();
    SplitOne("A=x ", '\n');
    NothingRead(map[]);
    LastReading(["A=x "]);
    assert ["A=x "][..0] == [];
  }

  lemma ReadsTrimmed()
    ensures Read("A=x ") == Pair("A", "x")
  {
    assert TrimSpace("A=x ") == "A=x" by {
      assert TrimLeft("A=x ") == "A=x ";
      assert "A=x "[..3] == "A=x";
      assert TrimRight("A=x") == "A=x";
    }
    CutAtFirst("A", "x");
    assert "A" + "=" + "x" == "A=x";
    TrimSpaceKeeps("A");
    hide TrimSpace, Cut, Split;
    assert TrimCR("A=x ") == "A=x ";
  }
}
