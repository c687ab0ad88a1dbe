/** Caption segmentation of the video tool: a greedy grouping of spoken words into caption cards. */
module Captions {
  import opened Text

  datatype Word = Word(text: string, start: real, end: real)

  type Group = seq<Word>

  // Python's str.isspace.
  predicate Blank(c: char) {
    IsSpace(c) || '\U{1C}' <= c <= '\U{1F}'
  }

  lemma WhatIsBlank(c: char)
    ensures c == ' ' || '\t' <= c <= '\r' || '\U{1C}' <= c <= '\U{1F}' ==> Blank(c)
    ensures '!' <= c <= '~' ==> !Blank(c)
  {
  }

  // str.strip
  function Strip(s: string): string
    decreases |s|
  {
    if s == "" then s
    else if Blank(s[0]) then Strip(s[1..])
    else if Blank(s[|s| - 1]) then Strip(s[..|s| - 1])
    else s
  }

  predicate Blanks(s: string) {
    forall i :: 0 <= i < |s| ==> Blank(s[i])
  }

  // Stripping takes the blanks at both ends away, and nothing else.
  lemma {:induction false} StripIsInside(s: string) returns (left: string, right: string)
    ensures s == left + Strip(s) + right && Blanks(left) && Blanks(right)
    ensures Strip(s) != "" ==> !Blank(Strip(s)[0]) && !Blank(Strip(s)[|Strip(s)| - 1])
    decreases |s|
  {
    hide Blank;
    left, right := "", "";
    if s == "" {
    } else if Blank(s[0]) {
      left, right := StripIsInside(s[1..]);
      assert s == [s[0]] + s[1..];
      left := [s[0]] + left;
    } else if Blank(s[|s| - 1]) {
      left, right := StripIsInside(s[..|s| - 1]);
      assert s == s[..|s| - 1] + [s[|s| - 1]];
      right := right + [s[|s| - 1]];
    }
  }

  const MAX_WORDS := 7
  const MAX_CHARS := 42
  const MAX_PAUSE := 0.42

  function CleanText(w: Word): string {
    Strip(w.text)
  }

  predicate EndsSentence(w: Word) {
    var clean := CleanText(w);
    clean != "" && clean[|clean| - 1] in {'.', '?', '!'}
  }

  // The text ends in one of the three marks, whatever blanks follow it.
  ghost predicate Punctuated(text: string) {
    exists before, mark, after :: text == before + [mark] + after && mark in {'.', '?', '!'} && Blanks(after)
  }

  lemma MarkIsLast(s: string, before: string, mark: char, after: string, left: string, core: string, right: string)
    requires s == before + [mark] + after && mark in {'.', '?', '!'} && Blanks(after)
    requires s == left + core + right && Blanks(left) && Blanks(right) && (core != "" ==> !Blank(core[|core| - 1]))
    ensures core != "" && core[|core| - 1] == mark
  {
    var at, n := |before|, |left + core|;
    assert s[at] == mark && !Blank(mark);
    assert forall i :: 0 <= i < |left| ==> s[i] == left[i];
    assert forall i :: n <= i < |s| ==> s[i] == right[i - n];
    assert forall i :: at < i < |s| ==> s[i] == after[i - at - 1];
    assert |left| <= at < n;
    assert s[n - 1] == core[|core| - 1];
  }

  lemma EndsSentenceIsPunctuated(w: Word)
    ensures EndsSentence(w) <==> Punctuated(w.text)
  {
    var s, core := w.text, CleanText(w);
    var left, right := StripIsInside(s);
    hide Strip, Blank;
    if EndsSentence(w) {
      var n := |core| - 1;
      assert core == core[..n] + [core[n]];
      assert s == (left + core[..n]) + [core[n]] + right;
    }
    if Punctuated(s) {
      var before, mark, after :| s == before + [mark] + after && mark in {'.', '?', '!'} && Blanks(after);
      MarkIsLast(s, before, mark, after, left, core, right);
    }
  }

  function CleanTexts(ws: seq<Word>): (r: seq<string>)
    ensures |r| == |ws|
  {
    seq(|ws|, i requires 0 <= i < |ws| => CleanText(ws[i]))
  }

  function Caption(g: Group): string {
    Join(CleanTexts(g), " ")
  }

  // The word starts a new caption after these words.
  predicate Breaks(current: Group, w: Word) {
    current != [] &&
    (|current| >= MAX_WORDS || |Caption(current + [w])| > MAX_CHARS ||
     w.start - current[|current| - 1].end > MAX_PAUSE || EndsSentence(current[|current| - 1]))
  }

  // The words that are not blank.
  function Spoken(words: seq<Word>): seq<Word> {
    if words == [] then []
    else
      var n := |words| - 1;
      Spoken(words[..n]) + (if CleanText(words[n]) == "" then [] else [words[n]])
  }

  // Exactly the words with a character that is no blank, in order.
  lemma {:induction false} SpokenConcat(a: seq<Word>, b: seq<Word>)
    ensures Spoken(a + b) == Spoken(a) + Spoken(b)
  {
    hide CleanText;
    if b == [] {
      assert a + b == a;
    } else {
      var n := |b| - 1;
      SpokenConcat(a, b[..n]);
      assert (a + b)[..|a| + n] == a + b[..n];
    }
  }

  lemma SpokenOne(w: Word)
    ensures Spoken([w]) == if Blanks(w.text) then [] else [w]
  {
    var left, right := StripIsInside(w.text);
    var core := CleanText(w);
    hide Strip, Blank;
    assert [w][..0] == [];
    if core == "" {
      assert w.text == left + right;
    } else {
      assert w.text[|left|] == core[0];
    }
  }

  function Flatten(groups: seq<Group>): seq<Word> {
    if groups == [] then [] else Flatten(groups[..|groups| - 1]) + groups[|groups| - 1]
  }

  // No caption breaks off inside the group.
  ghost predicate Unbroken(g: Group) {
    g != [] && forall k :: 0 < k < |g| ==> !Breaks(g[..k], g[k])
  }

  // One group breaks off where the next one starts.
  predicate Meets(g: Group, next: Group) {
    next != [] && Breaks(g, next[0])
  }

  ghost predicate Separated(groups: seq<Group>) {
    forall i :: 0 < i < |groups| ==> Meets(groups[i - 1], groups[i])
  }

  ghost predicate AllUnbroken(groups: seq<Group>) {
    forall i :: 0 <= i < |groups| ==> Unbroken(groups[i])
  }

  ghost predicate IsSegmentation(groups: seq<Group>, words: seq<Word>) {
    && Flatten(groups) == Spoken(words)
    && AllUnbroken(groups)
    && Separated(groups)
  }

  function Last(g: Group): Word
    requires g != []
  {
    g[|g| - 1]
  }

  // The closed groups and the open one, which may be empty and never ends a sentence.
  ghost predicate Open(groups: seq<Group>, current: Group) {
    && AllUnbroken(groups)
    && Separated(groups)
    && (current != [] ==> Unbroken(current) && !EndsSentence(Last(current)))
    && (groups != [] && current != [] ==> Meets(groups[|groups| - 1], current))
    && (groups != [] && current == [] ==> groups[|groups| - 1] != [] && EndsSentence(Last(groups[|groups| - 1])))
  }

  lemma FlattenNext(groups: seq<Group>, g: Group)
    ensures Flatten(groups + [g]) == Flatten(groups) + g
  {
    assert (groups + [g])[..|groups|] == groups;
  }

  lemma Closed(groups: seq<Group>, current: Group)
    requires AllUnbroken(groups) && Separated(groups)
    requires Unbroken(current) && (groups != [] ==> Meets(groups[|groups| - 1], current))
    ensures AllUnbroken(groups + [current]) && Separated(groups + [current])
    ensures Flatten(groups + [current]) == Flatten(groups) + current
  {
    hide Meets, Unbroken, Flatten;
    FlattenNext(groups, current);
    var all := groups + [current];
    forall i | 0 < i < |all|
      ensures Meets(all[i - 1], all[i])
    {
    }
  }

  lemma Extended(current: Group, w: Word)
    requires current != [] ==> Unbroken(current) && !Breaks(current, w)
    ensures Unbroken(current + [w])
  {
    hide Breaks;
    var g := current + [w];
    forall k | 0 < k < |g|
      ensures !Breaks(g[..k], g[k])
    {
      if k < |current| {
        assert g[..k] == current[..k] && g[k] == current[k];
      } else {
        assert g[..k] == current;
      }
    }
  }

  // One word read: where the open group is closed, the word starts the next one.
  lemma Opened(groups: seq<Group>, current: Group, w: Word)
    requires Open(groups, current)
    ensures Breaks(current, w) ==> current != [] && Meets(current, [w])
    ensures !Breaks(current, w) ==> Unbroken(current + [w]) && (groups != [] ==> Meets(groups[|groups| - 1], current + [w]))
    ensures Unbroken([w])
  {
    Extended([], w);
    assert [] + [w] == [w];
    if !Breaks(current, w) { Extended(current, w); }
  }

  lemma SpokenNext(words: seq<Word>, i: nat)
    requires i < |words|
    ensures Spoken(words[..i + 1]) == Spoken(words[..i]) + (if CleanText(words[i]) == "" then [] else [words[i]])
  {
    hide CleanText;
    assert words[..i + 1][..i] == words[..i];
  }

  lemma NoGroups()
    ensures Spoken([]) == []
    ensures AllUnbroken([]) && Separated([]) && Flatten([]) == []
  {
  }

  method CaptionGroups(words: seq<Word>) returns (groups: seq<Group>)
    ensures IsSegmentation(groups, words)
  {
    hide Unbroken, Breaks, Meets, AllUnbroken, Separated, EndsSentence, CleanText, Flatten, Spoken;
    groups := [];
    var current: Group := [];
    NoGroups();
    assert words[..0] == [];
    for i := 0 to |words|
      invariant Open(groups, current)
      invariant Flatten(groups) + current == Spoken(words[..i])
    {
      var word := words[i];
      SpokenNext(words, i);
      var clean := CleanText(word);
      if clean == "" {
        continue;
      }
      Opened(groups, current, word);
      if Breaks(current, word) {
        Closed(groups, current);
        groups := groups + [current];
        current := [];
        assert [] + [word] == [word];
      }
      current := current + [word];
      if EndsSentence(word) {
        Closed(groups, current);
        groups := groups + [current];
        current := [];
      }
    }
    assert words[..|words|] == words;
    if current != [] {
      Closed(groups, current);
      groups := groups + [current];
    }
  }

  lemma InsideGroup(g: Group, k: nat)
    requires Unbroken(g) && k + 1 < |g|
    ensures !EndsSentence(g[k]) && g[k + 1].start - g[k].end <= MAX_PAUSE
    ensures k + 1 < MAX_WORDS && |Caption(g[..k + 2])| <= MAX_CHARS
  {
    hide Caption, EndsSentence;
    assert !Breaks(g[..k + 1], g[k + 1]);
    assert g[..k + 1] + [g[k + 1]] == g[..k + 2];
  }

  /** What the rules mean for every caption: one to seven words, at most 42 characters unless it is a single
      word, and inside it no sentence ends and no pause is long. */
  lemma CaptionLimits(groups: seq<Group>, words: seq<Word>, i: nat)
    requires IsSegmentation(groups, words) && i < |groups|
    ensures 1 <= |groups[i]| <= 7
    ensures |groups[i]| == 1 || |Caption(groups[i])| <= 42
    ensures forall k :: 0 <= k < |groups[i]| - 1 ==> !Punctuated(groups[i][k].text)
    ensures forall k :: 0 <= k < |groups[i]| - 1 ==> groups[i][k + 1].start - groups[i][k].end <= 0.42
  {
    var g := groups[i];
    assert Unbroken(g);
    hide Caption, EndsSentence, Breaks, Separated, AllUnbroken, Spoken, Flatten, Punctuated;
    forall k: nat | k < |g| - 1
      ensures !Punctuated(g[k].text) && g[k + 1].start - g[k].end <= 0.42
    {
      InsideGroup(g, k);
      EndsSentenceIsPunctuated(g[k]);
    }
    if |g| > 1 {
      InsideGroup(g, |g| - 2);
      assert g[..|g|] == g;
    }
  }

  lemma {:induction false} JoinNext(parts: seq<string>, part: string, sep: string)
    requires parts != []
    ensures Join(parts + [part], sep) == Join(parts, sep) + sep + part
  {
    if |parts| == 1 {
      assert (parts + [part])[1..] == [part];
    } else {
      assert (parts + [part])[1..] == parts[1..] + [part];
      JoinNext(parts[1..], part, sep);
    }
  }

  lemma CaptionOne(w: Word)
    ensures Caption([w]) == CleanText(w)
  {
    hide CleanText;
  }

  lemma CaptionNext(g: Group, w: Word)
    requires g != []
    ensures Caption(g + [w]) == Caption(g) + " " + CleanText(w)
  {
    hide CleanText, Join;
    assert CleanTexts(g + [w]) == CleanTexts(g) + [CleanText(w)];
    JoinNext(CleanTexts(g), CleanText(w), " ");
  }

  /** And no caption ends without one of four reasons: it has seven words, the next one would make it longer than 42
      characters, a pause of more than 0.42 seconds follows, or its sentence ends. */
  lemma CaptionsBreakForAReason(groups: seq<Group>, words: seq<Word>, i: nat)
    requires IsSegmentation(groups, words) && i + 1 < |groups|
    ensures groups[i] != [] && groups[i + 1] != []
    ensures var g, next := groups[i], groups[i + 1][0];
      || |g| == 7
      || |Caption(g)| + 1 + |CleanText(next)| > 42
      || next.start - Last(g).end > 0.42
      || Punctuated(Last(g).text)
  {
    var g, next := groups[i], groups[i + 1];
    assert Unbroken(g) && Meets(groups[i + 1 - 1], next);
    CaptionLimits(groups, words, i);
    hide Caption, CleanText, EndsSentence, Punctuated, AllUnbroken, Spoken, Flatten, Unbroken;
    CaptionNext(g, next[0]);
    EndsSentenceIsPunctuated(Last(g));
  }

  lemma {:induction false} FlattenHead(groups: seq<Group>)
    requires groups != []
    ensures Flatten(groups) == groups[0] + Flatten(groups[1..])
  {
    var n := |groups| - 1;
    if n > 0 {
      FlattenHead(groups[..n]);
      assert groups[..n][1..] == groups[1..][..n - 1];
    }
  }

  lemma BreakIsNotInside(g: Group, next: Group, h: Group)
    requires g != [] && Meets(g, next) && Unbroken(h)
    ensures !(g < h && h[|g|] == next[0])
  {
    hide Breaks;
    assert g < h ==> h[..|g|] == g;
  }

  lemma NothingFlattened()
    ensures Flatten([]) == []
  {
  }

  // Where a group could go on, it does.
  lemma FirstGroupIsLongest(a: seq<Group>, b: seq<Group>)
    requires AllUnbroken(a) && AllUnbroken(b) && Separated(a) && Flatten(a) == Flatten(b) && a != [] && b != []
    ensures |b[0]| <= |a[0]|
  {
    hide Meets, Flatten;
    assert Unbroken(a[0]) && Unbroken(b[0]);
    FlattenHead(a);
    FlattenHead(b);
    NothingFlattened();
    if |a| > 1 {
      FlattenHead(a[1..]);
      assert Unbroken(a[1]) && Meets(a[0], a[1]);
      BreakIsNotInside(a[0], a[1], b[0]);
      hide Unbroken;
      var k := |a[0]|;
      assert Flatten(a)[..k] == a[0] && Flatten(a)[k] == a[1][0];
      assert Flatten(b)[..|b[0]|] == b[0];
    }
  }

  lemma {:induction false} SameGroups(a: seq<Group>, b: seq<Group>)
    requires AllUnbroken(a) && AllUnbroken(b) && Separated(a) && Separated(b) && Flatten(a) == Flatten(b)
    ensures a == b
    decreases |a|
  {
    hide Breaks, Flatten;
    NothingFlattened();
    if a == [] {
    } else {
      FlattenHead(a); assert Unbroken(a[0]);
    }
    if b == [] {
    } else {
      FlattenHead(b); assert Unbroken(b[0]);
    }
    if a != [] && b != [] {
      FirstGroupIsLongest(a, b);
      FirstGroupIsLongest(b, a);
      assert a[0] == Flatten(a)[..|a[0]|] == b[0];
      assert Flatten(a[1..]) == Flatten(a)[|a[0]|..];
      SameGroups(a[1..], b[1..]);
    }
  }

  /** The rules leave no choice: no other grouping of the words obeys them. */
  lemma SegmentationIsUnique(a: seq<Group>, b: seq<Group>, words: seq<Word>)
    requires IsSegmentation(a, words) && IsSegmentation(b, words)
    ensures a == b
  {
    hide AllUnbroken, Separated;
    SameGroups(a, b);
  }
}
