/** The few string operations of the standard library that the model needs:
    splitting, joining, trimming and substring search. A character is a Unicode code point. */
module Strings {

  predicate HasPrefix(s: string, prefix: string) {
    prefix <= s
  }

  predicate Contains(s: string, part: string) {
    exists i | 0 <= i <= |s| :: part <= s[i..]
  }

  /** White space in the sense of unicode.IsSpace. */
  predicate IsSpace(c: char) {
    c in {'\t', '\n', '\U{0B}', '\U{0C}', '\r', ' ', '\U{85}', '\U{A0}', '\U{1680}', '\U{2028}', '\U{2029}',
          '\U{202F}', '\U{205F}', '\U{3000}'} || '\U{2000}' <= c <= '\U{200A}'
  }

  function TrimLeft(s: string): string {
    if s != "" && IsSpace(s[0]) then TrimLeft(s[1..]) else s
  }

  function TrimRight(s: string): string {
    if s != "" && IsSpace(s[|s| - 1]) then TrimRight(s[..|s| - 1]) else s
  }

  function TrimSpace(s: string): string {
    TrimRight(TrimLeft(s))
  }

  predicate Trimmed(s: string) {
    s != "" ==> !IsSpace(s[0]) && !IsSpace(s[|s| - 1])
  }

  lemma TrimLeftIsSuffix(s: string)
    ensures |TrimLeft(s)| <= |s| && TrimLeft(s) == s[|s| - |TrimLeft(s)|..]
    ensures TrimLeft(s) != "" ==> !IsSpace(TrimLeft(s)[0])
  {
  }

  lemma TrimRightIsPrefix(s: string)
    ensures TrimRight(s) <= s
    ensures TrimRight(s) != "" ==> !IsSpace(TrimRight(s)[|TrimRight(s)| - 1])
  {
  }

  lemma TrimSpaceIsTrimmed(s: string)
    ensures Trimmed(TrimSpace(s))
  {
    TrimLeftIsSuffix(s);
    TrimRightIsPrefix(TrimLeft(s));
  }

  lemma TrimSpaceKeeps(s: string)
    requires Trimmed(s)
    ensures TrimSpace(s) == s
  {
  }

  lemma SliceContains(s: string, lo: nat, hi: nat, part: string)
    requires lo <= hi <= |s| && Contains(s[lo..hi], part)
    ensures Contains(s, part)
  {
    var i :| 0 <= i <= hi - lo && part <= s[lo..hi][i..];
    assert part <= s[lo + i..];
  }

  lemma TrimmedContains(s: string, part: string)
    requires Contains(TrimSpace(s), part)
    ensures Contains(s, part)
  {
    hide Contains, TrimLeft, TrimRight;
    TrimLeftIsSuffix(s);
    TrimRightIsPrefix(TrimLeft(s));
    var left, t := TrimLeft(s), TrimSpace(s);
    assert left[0..|t|] == t && s[|s| - |left|..|s|] == left;
    SliceContains(left, 0, |t|, part);
    SliceContains(s, |s| - |left|, |s|, part);
  }

  function Split(s: string, sep: char): (r: seq<string>)
    ensures |r| >= 1
  {
    if s == "" then [""]
    else
      var rest := Split(s[1..], sep);
      if s[0] == sep then [""] + rest else [[s[0]] + rest[0]] + rest[1..]
  }

  function Join(parts: seq<string>, sep: char): string {
    if |parts| == 0 then ""
    else if |parts| == 1 then parts[0]
    else parts[0] + [sep] + Join(parts[1..], sep)
  }

  predicate Free(parts: seq<string>, sep: char) {
    forall i | 0 <= i < |parts| :: sep !in parts[i]
  }

  lemma {:induction false} SplitIsFree(s: string, sep: char)
    ensures Free(Split(s, sep), sep)
  {
    if s != "" {
      SplitIsFree(s[1..], sep);
    }
  }

  lemma {:induction false} SplitOne(s: string, sep: char)
    requires sep !in s
    ensures Split(s, sep) == [s]
  {
    if s != "" {
      assert forall c | c in s[1..] :: c in s;
      SplitOne(s[1..], sep);
      assert [s[0]] + s[1..] == s;
    }
  }

  lemma {:induction false} SplitPrefix(head: string, tail: string, sep: char)
    requires sep !in head
    ensures Split(head + [sep] + tail, sep) == [head] + Split(tail, sep)
  {
    var s := head + [sep] + tail;
    if head == "" {
      assert s[1..] == tail;
    } else {
      assert s[1..] == head[1..] + [sep] + tail;
      assert forall c | c in head[1..] :: c in head;
      SplitPrefix(head[1..], tail, sep);
      assert [head[0]] + head[1..] == head;
    }
  }

  /** What stands before the first separator, and what stands behind it. */
  lemma {:induction false} SameAround(a: string, x: string, b: string, y: string, sep: char)
    requires sep !in a && sep !in b && a + [sep] + x == b + [sep] + y
    ensures a == b && x == y
  {
    hide Split;
    SplitPrefix(a, x, sep);
    SplitPrefix(b, y, sep);
    assert ([a] + Split(x, sep))[0] == a && ([b] + Split(y, sep))[0] == b;
    assert (a + [sep] + x)[|a| + 1..] == x && (b + [sep] + y)[|b| + 1..] == y;
  }

  /** Splitting undoes joining when no part holds the separator. */
  lemma {:induction false} SplitOfJoin(parts: seq<string>, sep: char)
    requires parts != [] && Free(parts, sep)
    ensures Split(Join(parts, sep), sep) == parts
  {
    if |parts| == 1 {
      SplitOne(parts[0], sep);
      assert parts == [parts[0]];
    } else {
      SplitPrefix(parts[0], Join(parts[1..], sep), sep);
      SplitOfJoin(parts[1..], sep);
      assert parts == [parts[0]] + parts[1..];
    }
  }

  // ---------------------------------------------------------------- sorting

  /** The strict order of strings; by code points it is the one by UTF-8 bytes. */
  predicate Before(a: string, b: string) {
    b != "" && (a == "" || a[0] < b[0] || (a[0] == b[0] && Before(a[1..], b[1..])))
  }

  lemma {:induction false} BeforeIsTotal(a: string, b: string)
    ensures Before(a, b) || a == b || Before(b, a)
    ensures !(Before(a, b) && Before(b, a)) && !Before(a, a)
    decreases a
  {
    if a != "" {
      if b != "" {
        BeforeIsTotal(a[1..], b[1..]);
        BeforeIsTotal(a[1..], a[1..]);
        if a[0] == b[0] && a[1..] == b[1..] {
          assert a == [a[0]] + a[1..] && b == [b[0]] + b[1..];
        }
      } else {
        BeforeIsTotal(a[1..], a[1..]);
      }
    }
  }

  lemma {:induction false} BeforeIsTransitive(a: string, b: string, c: string)
    requires Before(a, b) && Before(b, c)
    ensures Before(a, c)
    decreases a
  {
    if a != "" && a[0] == b[0] == c[0] {
      BeforeIsTransitive(a[1..], b[1..], c[1..]);
    }
  }

  predicate Sorted(s: seq<string>) {
    forall i, j | 0 <= i < j < |s| :: s[i] == s[j] || Before(s[i], s[j])
  }

  function Insert(s: seq<string>, x: string): (r: seq<string>)
    ensures multiset(r) == multiset(s) + multiset{x}
  {
    if s == [] || x == s[0] || Before(x, s[0]) then [x] + s
    else
      assert s == [s[0]] + s[1..];
      [s[0]] + Insert(s[1..], x)
  }

  /** The sorted copy that sort.Strings makes in place. */
  function SortStrings(s: seq<string>): (r: seq<string>)
    ensures multiset(r) == multiset(s)
  {
    if s == [] then []
    else
      assert s == [s[0]] + s[1..];
      Insert(SortStrings(s[1..]), s[0])
  }

  lemma {:induction false} InsertKeepsSorted(s: seq<string>, x: string)
    requires Sorted(s)
    ensures Sorted(Insert(s, x))
  {
    if s != [] {
      BeforeIsTotal(x, s[0]);
      if x == s[0] || Before(x, s[0]) {
        forall j | 0 <= j < |s| ensures x == s[j] || Before(x, s[j]) {
          if x != s[0] && s[0] != s[j] {
            BeforeIsTransitive(x, s[0], s[j]);
          }
        }
      } else {
        InsertKeepsSorted(s[1..], x);
        var rest := Insert(s[1..], x);
        forall j | 0 <= j < |rest| ensures s[0] == rest[j] || Before(s[0], rest[j]) {
          assert rest[j] in multiset(rest);
          assert rest[j] == x || rest[j] in s[1..];
        }
      }
    }
  }

  lemma {:induction false} SortedByInsertion(s: seq<string>)
    ensures Sorted(SortStrings(s))
  {
    if s != [] {
      SortedByInsertion(s[1..]);
      InsertKeepsSorted(SortStrings(s[1..]), s[0]);
    }
  }

  lemma SortKeepsElements(s: seq<string>)
    ensures |SortStrings(s)| == |s|
    ensures forall x :: x in SortStrings(s) <==> x in s
  {
    assert |SortStrings(s)| == |multiset(SortStrings(s))|;
    forall x ensures x in SortStrings(s) <==> x in s {
      assert x in SortStrings(s) <==> x in multiset(SortStrings(s));
    }
  }

  lemma SortKeepsDistinct(s: seq<string>)
    requires forall i, j | 0 <= i < j < |s| :: s[i] != s[j]
    ensures forall i, j | 0 <= i < j < |SortStrings(s)| :: Before(SortStrings(s)[i], SortStrings(s)[j])
  {
    hide SortStrings;
    SortedByInsertion(s);
    var r := SortStrings(s);
    forall i, j | 0 <= i < j < |r| ensures Before(r[i], r[j]) {
      DistinctCount(s, r[i]);
      if r[i] == r[j] {
        RepeatCounts(r, i, j);
      }
    }
  }

  lemma RepeatCounts(s: seq<string>, i: nat, j: nat)
    requires i < j < |s| && s[i] == s[j]
    ensures multiset(s)[s[i]] >= 2
  {
    assert s == (s[..i] + [s[i]] + s[i + 1..j]) + ([s[j]] + s[j + 1..]);
  }

  lemma {:induction false} DistinctCount(s: seq<string>, x: string)
    requires forall i, j | 0 <= i < j < |s| :: s[i] != s[j]
    ensures multiset(s)[x] <= 1
  {
    if s != [] {
      DistinctCount(s[1..], x);
      assert s == [s[0]] + s[1..];
      assert x in s[1..] <==> x in multiset(s[1..]);
    }
  }
}
