/** Redaction of secret values from an error text (internal/deployer/update.go), and what it can do to the words by
    which a failed rollback is recognised. */
module Redaction {
  import opened Strings

  const ROLLBACK_FAILED := "rollback failed"
  const COVER := "[redacted]"

  /** strings.ReplaceAll */
  function ReplaceAll(text: string, value: string, cover: string): string
    requires value != ""
  {
    if text == "" then ""
    else if HasPrefix(text, value) then cover + ReplaceAll(text[|value|..], value, cover)
    else [text[0]] + ReplaceAll(text[1..], value, cover)
  }

  /** redactErrorValue */
  function Redacted(text: string, value: string): string {
    if value == "" then text else ReplaceAll(text, value, COVER)
  }

  /** Some end of `a` is a beginning of `b`. */
  predicate EndsInto(a: string, b: string) {
    exists k | 0 < k <= |a| && k <= |b| :: a[|a| - k..] == b[..k]
  }

  /** The value cannot cut into the phrase: neither holds the other, and no end of one is a beginning of the other. */
  predicate Apart(value: string, phrase: string) {
    !Contains(phrase, value) && !Contains(value, phrase) && !EndsInto(value, phrase) && !EndsInto(phrase, value)
  }

  /** A secret that redaction may look for without harm. */
  predicate Harmless(value: string) {
    value == "" || Apart(value, ROLLBACK_FAILED)
  }

  /** The part stands in the text at position i. */
  predicate At(text: string, part: string, i: int) {
    0 <= i && i + |part| <= |text| && text[i..i + |part|] == part
  }

  lemma HoldsAt(text: string, part: string, i: int)
    requires At(text, part, i)
    ensures Contains(text, part)
  {
    assert part <= text[i..];
  }

  lemma HeldAt(text: string, part: string) returns (i: nat)
    requires Contains(text, part)
    ensures At(text, part, i)
  {
    i :| 0 <= i <= |text| && part <= text[i..];
    assert text[i..][..|part|] == text[i..i + |part|];
  }

  lemma FirstHeldAt(text: string, part: string) returns (i: nat)
    requires Contains(text, part)
    ensures At(text, part, i) && forall j | 0 <= j < i :: !At(text, part, j)
  {
    hide At;
    var n := HeldAt(text, part);
    i := 0;
    while !At(text, part, i)
      invariant i <= n && forall j | 0 <= j < i :: !At(text, part, j)
      decreases n - i
    {
      i := i + 1;
    }
  }

  /** What stands in the rest of a text stands in the text. */
  lemma AtFurther(head: string, tail: string, part: string, i: int)
    ensures At(tail, part, i) <==> i >= 0 && At(head + tail, part, |head| + i)
  {
    if i >= 0 && i + |part| <= |tail| {
      assert (head + tail)[|head| + i..|head| + i + |part|] == tail[i..i + |part|];
    }
  }

  lemma ContainsMore(head: string, tail: string, part: string)
    requires Contains(tail, part)
    ensures Contains(head + tail, part)
  {
    hide Contains;
    var i := HeldAt(tail, part);
    AtFurther(head, tail, part, i);
    HoldsAt(head + tail, part, |head| + i);
  }

  // ---------------------------------------------------------------- what keeps the phrase

  /** One turn of the replacement. */
  lemma Turn(text: string, value: string)
    requires value != ""
    ensures ReplaceAll("", value, COVER) == ""
    ensures At(text, value, 0) <==> HasPrefix(text, value)
    ensures At(text, value, 0) ==> ReplaceAll(text, value, COVER) == COVER + ReplaceAll(text[|value|..], value, COVER)
    ensures text != "" && !At(text, value, 0) ==>
      ReplaceAll(text, value, COVER) == [text[0]] + ReplaceAll(text[1..], value, COVER)
  {
  }

  /** What stands before the first match is copied. */
  lemma {:induction false} HeadIsCopied(text: string, value: string, n: nat)
    requires value != "" && n <= |text| && forall j | 0 <= j < n :: !At(text, value, j)
    ensures ReplaceAll(text, value, COVER) == text[..n] + ReplaceAll(text[n..], value, COVER)
    decreases n
  {
    if n == 0 {
      assert text[0..] == text;
    } else {
      hide At, ReplaceAll;
      Turn(text, value);
      SliceStep(text, n);
      forall j | 0 <= j < n - 1 ensures !At(text[1..], value, j) {
        AtFurther([text[0]], text[1..], value, j);
      }
      HeadIsCopied(text[1..], value, n - 1);
    }
  }

  lemma SliceStep(text: string, n: nat)
    requires 0 < n <= |text|
    ensures text == [text[0]] + text[1..] && text[..n] == [text[0]] + text[1..][..n - 1]
    ensures text[1..][n - 1..] == text[n..]
  {
  }

  /** A phrase that no occurrence of the value overlaps stays in the text. */
  lemma {:induction false} PhraseIsKept(text: string, value: string, phrase: string, i: nat)
    requires value != "" && phrase != "" && At(text, phrase, i)
    requires forall j | At(text, value, j) :: j + |value| <= i || i + |phrase| <= j
    ensures Contains(ReplaceAll(text, value, COVER), phrase)
    decreases |text|
  {
    hide Contains;
    var out := ReplaceAll(text, value, COVER);
    if HasPrefix(text, value) {
      assert At(text, value, 0);
      var rest := text[|value|..];
      assert text == text[..|value|] + rest;
      Behind(text[..|value|], rest, value, phrase, i);
      PhraseIsKept(rest, value, phrase, i - |value|);
      ContainsMore(COVER, ReplaceAll(rest, value, COVER), phrase);
    } else if i > 0 {
      assert text == [text[0]] + text[1..];
      Behind([text[0]], text[1..], value, phrase, i);
      PhraseIsKept(text[1..], value, phrase, i - 1);
      ContainsMore([text[0]], ReplaceAll(text[1..], value, COVER), phrase);
    } else {
      HeadIsCopied(text, value, |phrase|);
      HoldsAt(out, phrase, 0);
    }
  }

  /** In the rest of the text, too, nothing overlaps the phrase. */
  lemma Behind(head: string, rest: string, value: string, phrase: string, i: nat)
    requires At(head + rest, phrase, i) && i >= |head|
    requires forall j | At(head + rest, value, j) :: j + |value| <= i || i + |phrase| <= j
    ensures At(rest, phrase, i - |head|)
    ensures forall j | At(rest, value, j) :: j + |value| <= i - |head| || i - |head| + |phrase| <= j
  {
    hide At;
    AtFurther(head, rest, phrase, i - |head|);
    forall j | At(rest, value, j) ensures j + |value| <= i - |head| || i - |head| + |phrase| <= j {
      AtFurther(head, rest, value, j);
    }
  }

  /** A value at j and a phrase at i that share a character are not apart. */
  lemma {:induction false} OverlapCuts(text: string, value: string, phrase: string, i: nat, j: nat)
    requires At(text, phrase, i) && At(text, value, j)
    requires j < i + |phrase| && i < j + |value|
    ensures !Apart(value, phrase)
  {
    hide Contains, EndsInto;
    if j <= i {
      if i + |phrase| <= j + |value| {
        PartOfPart(text, j, |value|, i - j, |phrase|);
        HoldsAt(value, phrase, i - j);
      } else {
        EndMeets(text, value, phrase, j, i);
      }
    } else if j + |value| <= i + |phrase| {
      PartOfPart(text, i, |phrase|, j - i, |value|);
      HoldsAt(phrase, value, j - i);
    } else {
      EndMeets(text, phrase, value, i, j);
    }
  }

  lemma EndMeets(text: string, a: string, b: string, i: nat, j: nat)
    requires At(text, a, i) && At(text, b, j) && i <= j < i + |a| < j + |b|
    ensures EndsInto(a, b)
  {
    var k := i + |a| - j;
    PartOfPart(text, i, |a|, |a| - k, k);
    PartOfPart(text, j, |b|, 0, k);
    assert a[|a| - k..] == a[|a| - k..|a| - k + k] && b[..k] == b[0..0 + k];
  }

  lemma PartOfPart(text: string, j: nat, n: nat, a: nat, m: nat)
    requires j + n <= |text| && a + m <= n
    ensures text[j..j + n][a..a + m] == text[j + a..j + a + m]
  {
    var x, y := text[j..j + n][a..a + m], text[j + a..j + a + m];
    assert forall t | 0 <= t < m :: x[t] == text[j + a + t] && y[t] == text[j + a + t];
  }

  // ---------------------------------------------------------------- what redaction leaves and adds

  /** A place that overlaps no cover is before it or behind it. */
  lemma OutsideCover(head: string, tail: string, phrase: string, n: int)
    requires At(head + COVER + tail, phrase, n) && Apart(phrase, COVER)
    ensures n + |phrase| <= |head| || |head| + |COVER| <= n
  {
    var whole := head + COVER + tail;
    assert whole[|head|..|head| + |COVER|] == COVER;
    if |head| < n + |phrase| && n < |head| + |COVER| {
      OverlapCuts(whole, phrase, COVER, |head|, n);
    }
  }

  /** What the redacted text begins with, up to a cover, was there before, and no match begins in it. */
  lemma {:induction false} BeginningIsOld(text: string, value: string, word: string)
    requires value != "" && word <= ReplaceAll(text, value, COVER)
    requires forall j: nat | At(ReplaceAll(text, value, COVER), COVER, j) :: |word| <= j
    ensures word <= text && forall j | 0 <= j < |word| :: !At(text, value, j)
    decreases |word|
  {
    if word != "" {
      var out := ReplaceAll(text, value, COVER);
      assert !HasPrefix(text, value) by {
        if HasPrefix(text, value) {
          assert At(out, COVER, 0);
          assert false;
        }
      }
      var rest := ReplaceAll(text[1..], value, COVER);
      assert out == [text[0]] + rest && word == [word[0]] + word[1..] && word[1..] <= rest;
      forall j: nat | At(rest, COVER, j) ensures |word[1..]| <= j {
        AtFurther([text[0]], rest, COVER, j);
      }
      BeginningIsOld(text[1..], value, word[1..]);
      assert text == [text[0]] + text[1..];
      forall j | 0 <= j < |word| ensures !At(text, value, j) {
        AtFurther([text[0]], text[1..], value, j - 1);
      }
    }
  }

  /** Redaction adds nothing but covers: where a phrase that is apart from the cover stands afterwards it stood before,
      and no match begins in it. */
  lemma {:induction false} WordsAreOld(text: string, value: string, phrase: string) returns (i: nat)
    requires value != "" && phrase != "" && Apart(phrase, COVER)
    requires Contains(ReplaceAll(text, value, COVER), phrase)
    ensures At(text, phrase, i) && forall j | i <= j < i + |phrase| :: !At(text, value, j)
    decreases |text|
  {
    hide Contains, Apart, ReplaceAll;
    Turn(text, value);
    var out := ReplaceAll(text, value, COVER);
    var n := HeldAt(out, phrase);
    if At(text, value, 0) {
      var rest := text[|value|..];
      assert "" + COVER + ReplaceAll(rest, value, COVER) == out;
      OutsideCover("", ReplaceAll(rest, value, COVER), phrase, n);
      AtFurther(COVER, ReplaceAll(rest, value, COVER), phrase, n - |COVER|);
      HoldsAt(ReplaceAll(rest, value, COVER), phrase, n - |COVER|);
      i := WordsAreOld(rest, value, phrase);
      i := MovedBack(text[..|value|], rest, value, phrase, i);
      assert text == text[..|value|] + rest;
    } else if n > 0 {
      var rest := text[1..];
      AtFurther([text[0]], ReplaceAll(rest, value, COVER), phrase, n - 1);
      HoldsAt(ReplaceAll(rest, value, COVER), phrase, n - 1);
      i := WordsAreOld(rest, value, phrase);
      i := MovedBack([text[0]], rest, value, phrase, i);
      assert text == [text[0]] + rest;
    } else {
      assert phrase <= out;
      forall j: nat | At(out, COVER, j) ensures |phrase| <= j {
        if j < |phrase| {
          OverlapCuts(out, phrase, COVER, j, 0);
        }
      }
      BeginningIsOld(text, value, phrase);
      i := 0;
    }
  }

  lemma MovedBack(head: string, tail: string, value: string, phrase: string, i: nat) returns (j: nat)
    requires At(tail, phrase, i)
    requires forall k | i <= k < i + |phrase| :: !At(tail, value, k)
    ensures At(head + tail, phrase, j)
    ensures forall k | j <= k < j + |phrase| :: !At(head + tail, value, k)
  {
    j := |head| + i;
    hide At;
    AtFurther(head, tail, phrase, i);
    forall k | j <= k < j + |phrase| ensures !At(head + tail, value, k) {
      AtFurther(head, tail, value, k - |head|);
    }
  }

  predicate Bracket(c: char) {
    c == '[' || c == ']'
  }

  /** What is longer than the cover and has none of its brackets is apart from it. */
  lemma PlainIsApart(phrase: string)
    requires |phrase| >= |COVER| && forall c | c in phrase :: !Bracket(c)
    ensures Apart(phrase, COVER)
  {
    assert !EndsInto(phrase, COVER) by {
      forall k | 0 < k <= |phrase| && k <= |COVER| ensures phrase[|phrase| - k..] != COVER[..k] {
        assert phrase[|phrase| - k] in phrase && phrase[|phrase| - k..][0] == phrase[|phrase| - k];
        assert COVER[..k][0] == '[';
      }
    }
    assert !EndsInto(COVER, phrase) by {
      forall k | 0 < k <= |COVER| && k <= |phrase| ensures COVER[|COVER| - k..] != phrase[..k] {
        assert phrase[k - 1] in phrase && phrase[..k][k - 1] == phrase[k - 1];
        assert COVER[|COVER| - k..][k - 1] == ']';
      }
    }
    hide EndsInto;
    assert Bracket(COVER[0]) && phrase[0] in phrase;
    forall i | 0 <= i <= |phrase| ensures !(COVER <= phrase[i..]) {
      if i < |phrase| {
        assert phrase[i] in phrase && phrase[i..][0] == phrase[i];
      }
    }
    forall i | 0 <= i <= |COVER| ensures !(phrase <= COVER[i..]) {
      if i < |COVER| {
        assert |COVER[i..]| == |COVER| - i && COVER[i..][0] == COVER[i];
      }
    }
  }

  lemma WordsAreApart()
    ensures Apart(ROLLBACK_FAILED, COVER)
  {
    assert forall i | 0 <= i < |ROLLBACK_FAILED| :: !Bracket(ROLLBACK_FAILED[i]);
    PlainIsApart(ROLLBACK_FAILED);
  }

  lemma JoinedLacks(head: string, tail: string)
    requires !Contains(head, ROLLBACK_FAILED) && !Contains(tail, ROLLBACK_FAILED)
    ensures !Contains(head + (COVER + tail), ROLLBACK_FAILED)
  {
    hide Contains, Apart;
    WordsAreApart();
    if Contains(head + (COVER + tail), ROLLBACK_FAILED) {
      assert head + (COVER + tail) == head + COVER + tail;
      var n := HeldAt(head + COVER + tail, ROLLBACK_FAILED);
      OutsideCover(head, tail, ROLLBACK_FAILED, n);
      if n + |ROLLBACK_FAILED| <= |head| {
        assert (head + COVER + tail)[n..n + |ROLLBACK_FAILED|] == head[n..n + |ROLLBACK_FAILED|];
        HoldsAt(head, ROLLBACK_FAILED, n);
      } else {
        AtFurther(head + COVER, tail, ROLLBACK_FAILED, n - |head + COVER|);
        HoldsAt(tail, ROLLBACK_FAILED, n - |head + COVER|);
      }
    }
  }

  /** A first match that leaves no words before it and none behind it takes them away. */
  lemma MatchTakesWords(text: string, value: string, i: nat)
    requires value != "" && At(text, value, i) && forall j | 0 <= j < i :: !At(text, value, j)
    requires !Contains(text[..i], ROLLBACK_FAILED) && !Contains(text[i + |value|..], ROLLBACK_FAILED)
    ensures !Contains(ReplaceAll(text, value, COVER), ROLLBACK_FAILED)
  {
    hide Contains, Apart;
    WordsAreApart();
    var rest := text[i + |value|..];
    FirstMatch(text, value, i);
    if Contains(ReplaceAll(rest, value, COVER), ROLLBACK_FAILED) {
      var n := WordsAreOld(rest, value, ROLLBACK_FAILED);
      HoldsAt(rest, ROLLBACK_FAILED, n);
    }
    JoinedLacks(text[..i], ReplaceAll(rest, value, COVER));
  }

  /** The first match is covered, and the search goes on behind it. */
  lemma FirstMatch(text: string, value: string, i: nat)
    requires value != "" && At(text, value, i) && forall j | 0 <= j < i :: !At(text, value, j)
    ensures ReplaceAll(text, value, COVER) == text[..i] + (COVER + ReplaceAll(text[i + |value|..], value, COVER))
  {
    HeadIsCopied(text, value, i);
    assert text[i..][..|value|] == value && text[i..][|value|..] == text[i + |value|..];
  }

  // ---------------------------------------------------------------- what no longer shows

  /** A value that is apart from the cover does not show once it is redacted, nor after any other redaction. */
  lemma {:induction false} RedactedIsGone(text: string, value: string)
    requires value != "" && Apart(value, COVER)
    ensures !Contains(Redacted(text, value), value)
  {
    hide Contains, Apart;
    if Contains(Redacted(text, value), value) {
      var i := WordsAreOld(text, value, value);
      assert false;
    }
  }

  lemma {:induction false} GoneStaysGone(text: string, value: string, other: string)
    requires value != "" && Apart(value, COVER) && !Contains(text, value)
    ensures !Contains(Redacted(text, other), value)
  {
    hide Contains, Apart;
    if other != "" && Contains(Redacted(text, other), value) {
      var i := WordsAreOld(text, other, value);
      HoldsAt(text, value, i);
    }
  }

  /** From position q on, the value and a cover put there agree. */
  predicate MeetsCover(value: string, q: nat) {
    q < |value| && forall i | 0 <= i < |COVER| && q + i < |value| :: value[q + i] == COVER[i]
  }

  /** The value can show after it has been redacted: it is part of the cover or begins with an end of it; or it ends
      with a cover or with the beginning of one, such that its own beginning is copied when it stands before a match. */
  predicate Shows(value: string) {
    || Contains(COVER, value) || EndsInto(COVER, value)
    || exists q | 0 < q < |value| :: MeetsCover(value, q) && CopiedBefore(value, q)
  }

  predicate CopiedBefore(value: string, q: nat)
    requires q < |value|
  {
    forall j | 0 <= j < q :: !At(value[..q] + value, value, j)
  }

  /** A text in which such a value shows once it is redacted. */
  lemma {:induction false} ShowingText(value: string) returns (text: string)
    requires value != "" && Shows(value)
    ensures Contains(Redacted(text, value), value)
  {
    hide Contains;
    if Contains(COVER, value) {
      text := value;
      CoveredWhole(value);
    } else if EndsInto(COVER, value) {
      var k :| 0 < k <= |COVER| && k <= |value| && COVER[|COVER| - k..] == value[..k];
      text := value + value[k..];
      ShowsBehind(value, k);
    } else {
      var q :| 0 < q < |value| && MeetsCover(value, q) && CopiedBefore(value, q);
      text := value[..q] + value + Overhang(value, q);
      ShowsBefore(value, q);
    }
  }

  function Overhang(value: string, q: nat): string
    requires q < |value|
  {
    if q + |COVER| < |value| then value[q + |COVER|..] else ""
  }

  lemma ShortIsCopied(text: string, value: string)
    requires |text| < |value|
    ensures ReplaceAll(text, value, COVER) == text
  {
    HeadIsCopied(text, value, |text|);
    assert text[|text|..] == "" && text[..|text|] == text;
  }

  lemma CoveredWhole(value: string)
    requires value != "" && Contains(COVER, value)
    ensures Contains(Redacted(value, value), value)
  {
    hide Contains;
    assert value[|value|..] == "";
    assert ReplaceAll(value, value, COVER) == COVER + "" == COVER;
  }

  lemma ShowsBehind(value: string, k: nat)
    requires 0 < k <= |COVER| && k <= |value| && COVER[|COVER| - k..] == value[..k]
    ensures Contains(Redacted(value + value[k..], value), value)
  {
    hide Contains, ReplaceAll;
    var text, tail := value + value[k..], value[k..];
    assert text[|value|..] == tail && text[0..0 + |value|] == value;
    ShortIsCopied(tail, value);
    Turn(text, value);
    var out := ReplaceAll(text, value, COVER);
    assert out == COVER + tail;
    BehindCover(value, k);
    HoldsAt(out, value, |COVER| - k);
  }

  lemma BehindCover(value: string, k: nat)
    requires 0 < k <= |COVER| && k <= |value| && COVER[|COVER| - k..] == value[..k]
    ensures At(COVER + value[k..], value, |COVER| - k)
  {
    var out, tail := COVER + value[k..], value[k..];
    var at := |COVER| - k;
    forall m | 0 <= m < |value| ensures out[at + m] == value[m] {
      if m < k {
        assert out[at + m] == COVER[at..][m];
      } else {
        assert out[at + m] == tail[m - k];
      }
    }
    assert out[at..at + |value|] == value;
  }

  lemma ShowsBefore(value: string, q: nat)
    requires 0 < q < |value| && MeetsCover(value, q) && CopiedBefore(value, q)
    ensures Contains(Redacted(value[..q] + value + Overhang(value, q), value), value)
  {
    hide Contains, At, MeetsCover, CopiedBefore, Overhang;
    var hang := Overhang(value, q);
    FirstIsAt(value, q, hang);
    var text := value[..q] + value + hang;
    FirstMatch(text, value, q);
    assert text[..q] == value[..q] && text[q + |value|..] == hang;
    OverhangIsShort(value, q);
    ShortIsCopied(hang, value);
    StandsAtStart(value, q);
    HoldsAt(value[..q] + (COVER + hang), value, 0);
  }

  lemma OverhangIsShort(value: string, q: nat)
    requires q < |value|
    ensures |Overhang(value, q)| < |value|
  {
  }

  lemma FirstIsAt(value: string, q: nat, hang: string)
    requires q < |value| && CopiedBefore(value, q)
    ensures At(value[..q] + value + hang, value, q)
    ensures forall j | 0 <= j < q :: !At(value[..q] + value + hang, value, j)
  {
    var text := value[..q] + value + hang;
    assert text[q..q + |value|] == value;
    forall j | 0 <= j < q ensures !At(text, value, j) {
      assert !At(value[..q] + value, value, j);
      assert j + |value| <= |value[..q] + value| && text[j..j + |value|] == (value[..q] + value)[j..j + |value|];
    }
  }

  lemma StandsAtStart(value: string, q: nat)
    requires q < |value| && MeetsCover(value, q)
    ensures At(value[..q] + (COVER + Overhang(value, q)), value, 0)
  {
    var hang := Overhang(value, q);
    var out := value[..q] + (COVER + hang);
    forall i | 0 <= i < |value| ensures out[i] == value[i] {
      if q <= i < q + |COVER| {
        assert out[i] == COVER[i - q] && value[q + (i - q)] == COVER[i - q];
      }
    }
    assert out[0..0 + |value|] == value;
  }

  /** For one secret: it never shows once it is redacted, whatever the text, exactly when it cannot show. */
  lemma {:induction false} GoneIffItCannotShow(value: string)
    requires value != ""
    ensures !Shows(value) <==> forall text :: !Contains(Redacted(text, value), value)
  {
    hide Contains, Shows, Redacted;
    if Shows(value) {
      var text := ShowingText(value);
    } else {
      forall text ensures !Contains(Redacted(text, value), value) {
        if Contains(Redacted(text, value), value) {
          ShownMeansShows(text, value);
        }
      }
    }
  }

  lemma {:induction false} ShownMeansShows(text: string, value: string)
    requires value != "" && Contains(Redacted(text, value), value)
    ensures Shows(value)
    decreases |text|
  {
    hide Contains, Shows;
    var out := ReplaceAll(text, value, COVER);
    var n := HeldAt(out, value);
    if HasPrefix(text, value) {
      var rest := ReplaceAll(text[|value|..], value, COVER);
      if n < |COVER| {
        InsideCover(value, rest, n);
      } else {
        AtFurther(COVER, rest, value, n - |COVER|);
        HoldsAt(rest, value, n - |COVER|);
        ShownMeansShows(text[|value|..], value);
      }
    } else if n > 0 {
      var rest := ReplaceAll(text[1..], value, COVER);
      AtFurther([text[0]], rest, value, n - 1);
      HoldsAt(rest, value, n - 1);
      ShownMeansShows(text[1..], value);
    } else {
      assert !At(text, value, 0);
      ShownAtStart(text, value);
    }
  }

  lemma InsideCover(value: string, rest: string, n: nat)
    requires value != "" && n < |COVER| && At(COVER + rest, value, n)
    ensures Shows(value)
  {
    hide Contains;
    var out := COVER + rest;
    if n + |value| <= |COVER| {
      assert COVER[n..n + |value|] == out[n..n + |value|];
      HoldsAt(COVER, value, n);
    } else {
      var k := |COVER| - n;
      forall i | 0 <= i < k ensures COVER[|COVER| - k..][i] == value[..k][i] {
        assert value[i] == out[n..n + |value|][i] == out[n + i] == COVER[n + i];
      }
      assert COVER[|COVER| - k..] == value[..k];
    }
  }

  lemma ShownAtStart(text: string, value: string)
    requires value != "" && At(ReplaceAll(text, value, COVER), value, 0) && !At(text, value, 0)
    ensures Shows(value)
  {
    hide Contains;
    var out := ReplaceAll(text, value, COVER);
    if !Contains(text, value) {
      NoMatchIsCopied(text, value);
      assert false;
    }
    var q := FirstHeldAt(text, value);
    FirstMatch(text, value, q);
    AgreesBefore(text, value, q, ReplaceAll(text[q + |value|..], value, COVER));
  }

  /** The value stands at the start of what a first match at q leaves. */
  lemma AgreesBefore(text: string, value: string, q: nat, rest: string)
    requires value != "" && At(text, value, q) && forall j | 0 <= j < q :: !At(text, value, j)
    requires !At(text, value, 0) && At(text[..q] + (COVER + rest), value, 0)
    ensures Shows(value)
  {
    hide Contains, EndsInto;
    var out := text[..q] + (COVER + rest);
    assert forall i | 0 <= i < |value| :: out[0..|value|][i] == out[i];
    if |value| <= q {
      CopiedWhole(text, value, q, COVER + rest);
      assert false;
    }
    forall i | 0 <= i < |COVER| && q + i < |value| ensures value[q + i] == COVER[i] {
      assert out[q + i] == COVER[i];
    }
    assert value[..q] == text[..q] by {
      assert forall i | 0 <= i < q :: out[i] == text[i];
    }
    assert text[0..0 + (q + |value|)] == value[..q] + value;
    forall j | 0 <= j < q ensures !At(value[..q] + value, value, j) {
      assert !At(text, value, j);
      PartOfPart(text, 0, q + |value|, j, |value|);
    }
    assert MeetsCover(value, q) && CopiedBefore(value, q);
  }

  lemma CopiedWhole(text: string, value: string, q: nat, rest: string)
    requires |value| <= q <= |text| && At(text[..q] + rest, value, 0)
    ensures At(text, value, 0)
  {
    var out := text[..q] + rest;
    assert forall i | 0 <= i < |value| :: out[0..|value|][i] == out[i] == text[i] == text[0..|value|][i];
  }

  lemma NoMatchIsCopied(text: string, value: string)
    requires value != "" && !Contains(text, value)
    ensures ReplaceAll(text, value, COVER) == text
  {
    hide Contains;
    forall j | 0 <= j < |text| ensures !At(text, value, j) {
      if At(text, value, j) {
        HoldsAt(text, value, j);
      }
    }
    HeadIsCopied(text, value, |text|);
    assert text[|text|..] == "";
  }

  /** A value apart from the cover cannot show; a part of it always does. */
  lemma {:induction false} ApartCannotShow(value: string)
    requires value != "" && Apart(value, COVER)
    ensures !Shows(value)
  {
    hide Contains, Shows, Redacted, Apart;
    if Shows(value) {
      var text := ShowingText(value);
      RedactedIsGone(text, value);
    }
  }

  /** In the order in which it comes: what is gone stays gone when another value is redacted, if it is apart from the
      cover. */
  lemma CannotShowIsGone(text: string, value: string)
    requires value != "" && !Shows(value)
    ensures !Contains(Redacted(text, value), value)
  {
    hide Contains, Shows, Redacted;
    if Contains(Redacted(text, value), value) {
      ShownMeansShows(text, value);
    }
  }

  /** The word that stands for a secret is one that cannot be hidden. */
  lemma {:induction false} RedactedShows()
    ensures Shows("redacted")
    ensures Contains(Redacted("redacted", "redacted"), "redacted")
  {
    assert COVER[1..1 + |"redacted"|] == "redacted";
    HoldsAt(COVER, "redacted", 1);
    CoveredWhole("redacted");
  }

  // ---------------------------------------------------------------- what takes the words away

  lemma ShortLacks(s: string)
    requires |s| < |ROLLBACK_FAILED|
    ensures !Contains(s, ROLLBACK_FAILED)
  {
  }

  /** For a value that is not harmless: a text that says the rollback failed, and no longer does once redacted. */
  lemma {:induction false} SpoiltText(value: string) returns (text: string)
    requires !Harmless(value)
    ensures Contains(text, ROLLBACK_FAILED) && !Contains(Redacted(text, value), ROLLBACK_FAILED)
  {
    hide Contains, EndsInto;
    var p := ROLLBACK_FAILED;
    if Contains(p, value) {
      text := p;
      HoldsAt(p, p, 0);
    } else if Contains(value, p) {
      text := value;
      HoldsAt(value, value, 0);
    } else if EndsInto(value, p) {
      text := JoinedAfter(value, p);
    } else {
      text := JoinedAfter(p, value);
    }
    var i := FirstHeldAt(text, value);
    ShortLacks(text[..i]);
    ShortLacks(text[i + |value|..]);
    MatchTakesWords(text, value, i);
  }

  /** A text that begins with a, ends with b, and is shorter than both together. */
  lemma JoinedAfter(a: string, b: string) returns (text: string)
    requires EndsInto(a, b)
    ensures Contains(text, a) && Contains(text, b) && |text| < |a| + |b|
  {
    var k :| 0 < k <= |a| && k <= |b| && a[|a| - k..] == b[..k];
    text := a + b[k..];
    assert text[0..0 + |a|] == a;
    assert text == a[..|a| - k] + b by {
      assert a == a[..|a| - k] + a[|a| - k..] && b == b[..k] + b[k..];
    }
    assert text[|a| - k..|a| - k + |b|] == b;
    hide Contains;
    HoldsAt(text, a, 0);
    HoldsAt(text, b, |a| - k);
  }

  /** Redacting a value keeps the words in every text that has them exactly when the value is harmless. */
  lemma {:induction false} KeepsPhraseIffHarmless(value: string)
    ensures Harmless(value) <==>
      forall text :: Contains(text, ROLLBACK_FAILED) ==> Contains(Redacted(text, value), ROLLBACK_FAILED)
  {
    if Harmless(value) {
      forall text | Contains(text, ROLLBACK_FAILED) ensures Contains(Redacted(text, value), ROLLBACK_FAILED) {
        HarmlessKeeps(text, value);
      }
    } else {
      var text := SpoiltText(value);
    }
  }

  lemma HarmlessKeeps(text: string, value: string)
    requires Harmless(value) && Contains(text, ROLLBACK_FAILED)
    ensures Contains(Redacted(text, value), ROLLBACK_FAILED)
  {
    hide Contains, Apart;
    if value != "" {
      var i := HeldAt(text, ROLLBACK_FAILED);
      forall j | At(text, value, j) ensures j + |value| <= i || i + |ROLLBACK_FAILED| <= j {
        if j < i + |ROLLBACK_FAILED| && i < j + |value| {
          OverlapCuts(text, value, ROLLBACK_FAILED, i, j);
        }
      }
      PhraseIsKept(text, value, ROLLBACK_FAILED, i);
    }
  }

  /** A value without any letter of those words, in upper case for instance, is harmless. */
  lemma {:induction false} ForeignIsHarmless(value: string)
    requires forall c | c in value :: c !in ROLLBACK_FAILED
    ensures Harmless(value)
  {
    if value != "" {
      NotHeld(ROLLBACK_FAILED, value);
      NotHeld(value, ROLLBACK_FAILED);
      NoMeeting(value, ROLLBACK_FAILED);
      NoMeeting(ROLLBACK_FAILED, value);
    }
  }

  lemma NotHeld(whole: string, part: string)
    requires part != "" && forall c | c in whole :: c !in part
    ensures !Contains(whole, part)
  {
    forall i | 0 <= i <= |whole| ensures !(part <= whole[i..]) {
      if i < |whole| {
        assert whole[i] in whole && part[0] in part && whole[i..][0] == whole[i];
      }
    }
  }

  lemma NoMeeting(a: string, b: string)
    requires forall c | c in a :: c !in b
    ensures !EndsInto(a, b)
  {
    forall k | 0 < k <= |a| && k <= |b| ensures a[|a| - k..] != b[..k] {
      assert a[|a| - k] in a && b[0] in b;
      assert a[|a| - k..][0] == a[|a| - k] && b[..k][0] == b[0];
    }
  }

  // ---------------------------------------------------------------- the words where a failed rollback puts them

  /** What a failed rollback puts before the words: what led to it, and that the secrets or the rest failed. */
  const LEADS: set<string> := {"; ", "; secret "}

  function Wording(lead: string): string {
    lead + ROLLBACK_FAILED + ": "
  }

  /** The text by which a failed rollback is reported. */
  function Report(reason: string, lead: string, cause: string): string {
    reason + lead + ROLLBACK_FAILED + ": " + cause
  }

  /** The value, with its beginning k characters behind that of the context, overlaps the words and agrees with the
      context as far as they overlap. */
  predicate Cuts(lead: string, value: string, k: int) {
    && k < |lead| + |ROLLBACK_FAILED| && |lead| < k + |value|
    && forall i | 0 <= i < |value| && 0 <= k + i < |Wording(lead)| :: value[i] == Wording(lead)[k + i]
  }

  /** A secret that redaction may look for without harm in a report. */
  predicate Survives(lead: string, value: string) {
    value == "" || forall k | -|value| < k < |lead| + |ROLLBACK_FAILED| :: !Cuts(lead, value, k)
  }

  lemma ReportStarts(reason: string, lead: string, cause: string)
    ensures reason <= Report(reason, lead, cause)
  {
  }

  ghost predicate IsReport(text: string) {
    exists reason, lead, cause :: lead in LEADS && text == Report(reason, lead, cause)
  }

  lemma ReportParts(reason: string, lead: string, cause: string)
    ensures Report(reason, lead, cause) == reason + Wording(lead) + cause
    ensures At(Report(reason, lead, cause), ROLLBACK_FAILED, |reason| + |lead|)
    ensures Contains(Report(reason, lead, cause), ROLLBACK_FAILED)
  {
    var text := Report(reason, lead, cause);
    assert text == reason + Wording(lead) + cause;
    assert text[|reason| + |lead|..|reason| + |lead| + |ROLLBACK_FAILED|] == ROLLBACK_FAILED;
    HoldsAt(text, ROLLBACK_FAILED, |reason| + |lead|);
  }

  lemma {:induction false} SurvivorKeeps(reason: string, lead: string, cause: string, value: string)
    requires Survives(lead, value)
    ensures Contains(Redacted(Report(reason, lead, cause), value), ROLLBACK_FAILED)
  {
    hide Contains, Report, Wording;
    var text, i := Report(reason, lead, cause), |reason| + |lead|;
    ReportParts(reason, lead, cause);
    if value != "" {
      forall j | At(text, value, j) ensures j + |value| <= i || i + |ROLLBACK_FAILED| <= j {
        if j < i + |ROLLBACK_FAILED| && i < j + |value| {
          OverlapIsCut(reason, lead, cause, value, j);
        }
      }
      hide Survives;
      PhraseIsKept(text, value, ROLLBACK_FAILED, i);
    }
  }

  lemma OverlapIsCut(reason: string, lead: string, cause: string, value: string, j: int)
    requires At(Report(reason, lead, cause), value, j)
    requires j < |reason| + |lead| + |ROLLBACK_FAILED| && |reason| + |lead| < j + |value|
    ensures Cuts(lead, value, j - |reason|)
  {
    ReportParts(reason, lead, cause);
    hide Report, Wording;
    var text, c, k := Report(reason, lead, cause), Wording(lead), j - |reason|;
    forall i | 0 <= i < |value| && 0 <= k + i < |c| ensures value[i] == c[k + i] {
      assert value[i] == text[j..j + |value|][i] == text[j + i];
    }
    assert |c| == |lead| + |ROLLBACK_FAILED| + 2 by { WordingLength(lead); }
  }

  lemma WordingLength(lead: string)
    ensures |Wording(lead)| == |lead| + |ROLLBACK_FAILED| + 2
    ensures At(Wording(lead), ROLLBACK_FAILED, |lead|)
  {
  }

  /** Where in the context two characters stand, counted from its end. */
  function PairPlace(x: char, y: char): int {
    match x
    case ' ' => if y == 's' then 25 else if y == 'r' then 18 else 9
    case 's' => 24
    case 'e' => if y == 'c' then 23 else if y == 't' then 20 else 4
    case 'c' => if y == 'r' then 22 else 11
    case 'r' => if y == 'e' then 21 else 17
    case 't' => 19
    case 'o' => 16
    case 'l' => if y == 'l' then 15 else if y == 'b' then 14 else 5
    case 'b' => 13
    case 'a' => if y == 'c' then 12 else 7
    case 'k' => 10
    case 'f' => 8
    case 'i' => 6
    case 'd' => 3
    case ':' => 2
    case _ => 26
  }

  lemma PairIsPlaced(lead: string, i: nat)
    requires lead in LEADS && i + 1 < |Wording(lead)|
    ensures PairPlace(Wording(lead)[i], Wording(lead)[i + 1]) == if i == 0 then 26 else |Wording(lead)| - i
  {
    if lead == "; " {
      assert Wording(lead) == "; rollback failed: ";
    } else {
      assert Wording(lead) == "; secret rollback failed: ";
    }
  }

  /** No two places of the context start with the same two characters. */
  lemma PairsDiffer(lead: string, a: nat, b: nat)
    requires lead in LEADS && a < b && b + 1 < |Wording(lead)|
    ensures Wording(lead)[a] != Wording(lead)[b] || Wording(lead)[a + 1] != Wording(lead)[b + 1]
  {
    hide Wording, PairPlace;
    PairIsPlaced(lead, a);
    PairIsPlaced(lead, b);
    assert |Wording(lead)| <= 26 by { WordingLength(lead); }
  }

  /** The words stand in the context only once. */
  lemma WordsOnce(lead: string, n: int)
    requires lead in LEADS && At(Wording(lead), ROLLBACK_FAILED, n)
    ensures n == |lead|
  {
    hide Wording;
    WordingLength(lead);
    var c, p := Wording(lead), ROLLBACK_FAILED;
    assert c[n..n + |p|][0] == p[0] == c[|lead|..|lead| + |p|][0];
    assert c[n..n + |p|][1] == p[1] == c[|lead|..|lead| + |p|][1];
    if n < |lead| {
      PairsDiffer(lead, n, |lead|);
    } else if n > |lead| {
      PairsDiffer(lead, |lead|, n);
    }
  }

  /** A part of the context that does not hold all of the words. */
  lemma PartLacks(lead: string, from: nat, to: nat)
    requires lead in LEADS && from <= to <= |Wording(lead)|
    requires |lead| < from || to < |lead| + |ROLLBACK_FAILED|
    ensures !Contains(Wording(lead)[from..to], ROLLBACK_FAILED)
  {
    hide Contains, Wording;
    var c := Wording(lead);
    if Contains(c[from..to], ROLLBACK_FAILED) {
      var n := HeldAt(c[from..to], ROLLBACK_FAILED);
      assert c[from..to][n..n + |ROLLBACK_FAILED|] == c[from + n..from + n + |ROLLBACK_FAILED|];
      WordsOnce(lead, from + n);
    }
  }

  /** For a value that cuts the words in a report: what led to the rollback and what failed it, such that the report
      does not say so once redacted. */
  lemma {:induction false} LostReport(lead: string, value: string, k: int) returns (reason: string, cause: string)
    requires lead in LEADS && value != "" && Cuts(lead, value, k)
    ensures !Contains(Redacted(Report(reason, lead, cause), value), ROLLBACK_FAILED)
  {
    hide Contains, Report, Wording, At;
    WordingLength(lead);
    var c := Wording(lead);
    reason := if k < 0 then value[..-k] else "";
    cause := if |c| < k + |value| then value[|c| - k..] else "";
    ReportParts(reason, lead, cause);
    Placed(reason, c, cause, value, k);
    if |value| == 1 {
      assert Report(reason, lead, cause) == c;
      LostLetter(lead, value, k);
    } else {
      OnlyPlace(reason, lead, cause, value, k);
      hide Cuts;
      NothingElseLeft(reason, lead, cause, value, k);
      MatchTakesWords(reason + c + cause, value, if k < 0 then 0 else k);
    }
  }

  /** Before such a value, and behind it, a report does not hold the words. */
  lemma NothingElseLeft(reason: string, lead: string, cause: string, value: string, k: int)
    requires lead in LEADS && k < |lead| + |ROLLBACK_FAILED| && |lead| < k + |value|
    requires reason == if k < 0 then value[..-k] else ""
    requires cause == if |Wording(lead)| < k + |value| then value[|Wording(lead)| - k..] else ""
    ensures var text, j := reason + Wording(lead) + cause, if k < 0 then 0 else k;
      && j + |value| <= |text|
      && !Contains(text[..j], ROLLBACK_FAILED) && !Contains(text[j + |value|..], ROLLBACK_FAILED)
  {
    WordingLength(lead);
    hide Contains, Wording, At;
    var c := Wording(lead);
    var text, j := reason + c + cause, if k < 0 then 0 else k;
    assert text[..j] == c[0..j];
    PartLacks(lead, 0, j);
    if k + |value| < |c| {
      assert text[j + |value|..] == c[k + |value|..|c|];
      PartLacks(lead, k + |value|, |c|);
    } else {
      ShortLacks(text[j + |value|..]);
    }
  }

  lemma Placed(reason: string, c: string, cause: string, value: string, k: int)
    requires k < |c| && 0 < k + |value| && forall i | 0 <= i < |value| && 0 <= k + i < |c| :: value[i] == c[k + i]
    requires reason == if k < 0 then value[..-k] else ""
    requires cause == if |c| < k + |value| then value[|c| - k..] else ""
    ensures At(reason + c + cause, value, if k < 0 then 0 else k)
  {
    var text, j := reason + c + cause, if k < 0 then 0 else k;
    forall i | 0 <= i < |value| ensures text[j + i] == value[i] {
      if k + i < 0 {
        assert text[j + i] == reason[i];
      } else if k + i < |c| {
        assert text[j + i] == c[k + i];
      } else {
        assert text[j + i] == cause[k + i - |c|];
      }
    }
    assert text[j..j + |value|] == value;
  }

  /** A value of two characters or more that begins inside the context stands nowhere before. */
  lemma OnlyPlace(reason: string, lead: string, cause: string, value: string, k: int)
    requires lead in LEADS && |value| >= 2 && Cuts(lead, value, k) && (k >= 0 ==> reason == "")
    ensures forall j | 0 <= j < k :: !At(Report(reason, lead, cause), value, j)
  {
    hide Wording, Report;
    WordingLength(lead);
    ReportParts(reason, lead, cause);
    var text, c := Report(reason, lead, cause), Wording(lead);
    forall j | 0 <= j < k ensures !At(text, value, j) {
      if At(text, value, j) {
        assert value[0] == text[j..j + |value|][0] == c[j] && value[0 + 0] == c[k + 0];
        assert value[1] == text[j..j + |value|][1] == c[j + 1] && value[1] == c[k + 1];
        PairsDiffer(lead, j, k);
      }
    }
  }

  /** A value of one letter of the words leaves them nowhere. */
  lemma LostLetter(lead: string, value: string, k: int)
    requires lead in LEADS && |value| == 1 && Cuts(lead, value, k)
    ensures !Contains(ReplaceAll(Wording(lead), value, COVER), ROLLBACK_FAILED)
  {
    hide Contains, Wording;
    WordingLength(lead);
    var c := Wording(lead);
    assert value[0] == c[k + 0];
    assert c[k..k + |value|] == value && At(c, value, k);
    if Contains(ReplaceAll(c, value, COVER), ROLLBACK_FAILED) {
      WordsAreApart();
      var n := WordsAreOld(c, value, ROLLBACK_FAILED);
      WordsOnce(lead, n);
    }
  }

  /** For one secret: every report of a failed rollback still says so once the secret is redacted, exactly when no
      placement of it cuts the words where a report has them. */
  lemma {:induction false} ReportsAreRecognisedIff(lead: string, value: string)
    requires lead in LEADS
    ensures Survives(lead, value) <==>
      forall reason, cause :: Contains(Redacted(Report(reason, lead, cause), value), ROLLBACK_FAILED)
  {
    hide Contains, Report, Cuts, Redacted;
    if Survives(lead, value) {
      forall reason, cause ensures Contains(Redacted(Report(reason, lead, cause), value), ROLLBACK_FAILED) {
        SurvivorKeeps(reason, lead, cause, value);
      }
    } else {
      var k :| -|value| < k < |lead| + |ROLLBACK_FAILED| && Cuts(lead, value, k);
      var reason, cause := LostReport(lead, value, k);
    }
  }

  lemma ReportIsNamed(text: string)
    requires IsReport(text)
    ensures Contains(text, ROLLBACK_FAILED)
  {
    hide Contains, Report;
    var reason, lead, cause :| lead in LEADS && text == Report(reason, lead, cause);
    ReportParts(reason, lead, cause);
  }

  lemma ReportIsKept(text: string, value: string)
    requires IsReport(text) && forall lead | lead in LEADS :: Survives(lead, value)
    ensures Contains(Redacted(text, value), ROLLBACK_FAILED)
  {
    hide Contains, Report, Survives, Redacted;
    var reason, lead, cause :| lead in LEADS && text == Report(reason, lead, cause);
    SurvivorKeeps(reason, lead, cause, value);
  }

  /** Harmless values survive in every context. */
  lemma {:induction false} HarmlessSurvives(lead: string, value: string)
    requires lead in LEADS && Harmless(value)
    ensures Survives(lead, value)
  {
    hide Contains, Report, Survives, Harmless, Redacted;
    forall reason, cause ensures Contains(Redacted(Report(reason, lead, cause), value), ROLLBACK_FAILED) {
      ReportParts(reason, lead, cause);
      HarmlessKeeps(Report(reason, lead, cause), value);
    }
    ReportsAreRecognisedIff(lead, value);
  }

  /** But not only they: what stands before and behind the words in a report keeps some other values away. */
  lemma {:induction false} HarmfulMaySurvive()
    ensures !Harmless("hunter") && forall lead | lead in LEADS :: Survives(lead, "hunter")
  {
    var value := "hunter";
    assert value[|value| - 1..] == ROLLBACK_FAILED[..1];
    assert EndsInto(value, ROLLBACK_FAILED);
    forall lead, k | lead in LEADS && -|value| < k < |lead| + |ROLLBACK_FAILED| ensures !Cuts(lead, value, k) {
      HunterIsKeptAway(lead, k);
    }
  }

  lemma WordingLetters(lead: string)
    requires lead in LEADS
    ensures |Wording(lead)| > 0 && Wording(lead)[0] == ';'
    ensures forall m | 0 <= m < |Wording(lead)| :: Wording(lead)[m] != 'h'
  {
    if lead == "; " {
      assert Wording(lead) == "; rollback failed: ";
    } else {
      assert Wording(lead) == "; secret rollback failed: ";
    }
  }

  lemma HunterIsKeptAway(lead: string, k: int)
    requires lead in LEADS
    ensures !Cuts(lead, "hunter", k)
  {
    hide Wording;
    WordingLength(lead);
    WordingLetters(lead);
    var c := Wording(lead);
    if |lead| < k + |"hunter"| && k < |lead| + |ROLLBACK_FAILED| {
      var i := if k >= 0 then 0 else -k;
      assert 0 <= k + i < |c| && "hunter"[i] != c[k + i];
    }
  }
}
