/** When captions are shown: word times inside a sentence, caption entries, and the cursor of the frame loop.
    Times are exact reals. */
module CaptionTiming {
  import opened Text
  import opened Captions

  const DURATION := 59.475
  const FPS := 15

  datatype Sentence = Sentence(start: real, end: real, text: string)

  // re.findall(r"\S+", s)
  function Tokens(s: string): (r: seq<string>)
    ensures s != "" && !Blank(s[0]) ==> r != []
    ensures forall i :: 0 <= i < |r| ==> r[i] != "" && !Blank(r[i][0]) && !Blank(r[i][|r[i]| - 1])
  {
    if s == "" then []
    else
      var rest := Tokens(s[1..]);
      if Blank(s[0]) then rest
      else if |s| == 1 || Blank(s[1]) then [[s[0]]] + rest
      else [[s[0]] + rest[0]] + rest[1..]
  }

  predicate Solid(token: string) {
    token != "" && forall i :: 0 <= i < |token| ==> !Blank(token[i])
  }

  // The text is the tokens, with these gaps of blanks before, between and after them; only the first and the last gap
  // may be empty.
  predicate Spaced(s: string, tokens: seq<string>, gaps: seq<string>)
    decreases |tokens|
  {
    && |gaps| == |tokens| + 1 && Blanks(gaps[0])
    && if tokens == [] then s == gaps[0]
       else
         && Solid(tokens[0]) && (|tokens| > 1 ==> gaps[1] != "")
         && gaps[0] + tokens[0] <= s
         && Spaced(s[|gaps[0] + tokens[0]|..], tokens[1..], gaps[1..])
  }

  // The first gap or the first token loses its first character.
  lemma SpacedGap(s: string, c: char, tokens: seq<string>, gaps: seq<string>)
    requires Blank(c) && Spaced(s, tokens, gaps)
    ensures Spaced([c] + s, tokens, gaps[0 := [c] + gaps[0]])
  {
    var more := gaps[0 := [c] + gaps[0]];
    assert more[1..] == gaps[1..];
    if tokens != [] {
      assert more[0] + tokens[0] == [c] + (gaps[0] + tokens[0]);
      assert ([c] + s)[|more[0] + tokens[0]|..] == s[|gaps[0] + tokens[0]|..];
    }
  }

  lemma SpacedNewToken(s: string, c: char, tokens: seq<string>, gaps: seq<string>)
    requires !Blank(c) && Spaced(s, tokens, gaps) && (tokens != [] ==> gaps[0] != "")
    ensures Spaced([c] + s, [[c]] + tokens, [""] + gaps)
  {
    assert ([""] + gaps)[1..] == gaps && ([[c]] + tokens)[1..] == tokens;
    assert "" + [c] == [c] && ([c] + s)[1..] == s;
  }

  lemma SpacedLongerToken(s: string, c: char, tokens: seq<string>, gaps: seq<string>)
    requires !Blank(c) && Spaced(s, tokens, gaps) && tokens != [] && gaps[0] == ""
    ensures Spaced([c] + s, [[c] + tokens[0]] + tokens[1..], gaps)
  {
    var longer := [[c] + tokens[0]] + tokens[1..];
    assert longer[1..] == tokens[1..];
    assert gaps[0] + longer[0] == [c] + (gaps[0] + tokens[0]);
    assert ([c] + s)[|gaps[0] + longer[0]|..] == s[|gaps[0] + tokens[0]|..];
  }

  lemma {:induction false} TokensAreSpaced(s: string) returns (gaps: seq<string>)
    ensures Spaced(s, Tokens(s), gaps)
    ensures s != "" ==> (gaps[0] == "" <==> !Blank(s[0]))
  {
    hide Blank, Spaced;
    if s == "" {
      gaps := [""];
      NothingSpaced();
    } else {
      gaps := TokensAreSpaced(s[1..]);
      assert [s[0]] + s[1..] == s;
      var rest := Tokens(s[1..]);
      assert |gaps| == |rest| + 1 by { SpacedSizes(s[1..], rest, gaps); }
      if Blank(s[0]) {
        SpacedGap(s[1..], s[0], rest, gaps);
        gaps := gaps[0 := [s[0]] + gaps[0]];
      } else if |s| == 1 || Blank(s[1]) {
        if |s| == 1 { assert rest == []; }
        SpacedNewToken(s[1..], s[0], rest, gaps);
        gaps := [""] + gaps;
      } else {
        SpacedLongerToken(s[1..], s[0], rest, gaps);
      }
    }
  }

  lemma NothingSpaced()
    ensures Tokens("") == [] && Spaced("", [], [""])
  {
  }

  lemma SpacedSizes(s: string, tokens: seq<string>, gaps: seq<string>)
    requires Spaced(s, tokens, gaps)
    ensures |gaps| == |tokens| + 1 && Blanks(gaps[0]) && |gaps[0]| <= |s|
    ensures tokens != [] ==> Solid(tokens[0])
    ensures s != "" && gaps[0] == "" ==> tokens != [] && tokens[0][0] == s[0]
    ensures gaps[0] != "" ==> gaps[0][0] == s[0]
  {
    if tokens != [] { assert (gaps[0] + tokens[0])[0] == s[0]; }
  }

  lemma ShorterGap(s: string, tokens: seq<string>, gaps: seq<string>)
    requires Spaced(s, tokens, gaps) && gaps[0] != ""
    ensures Spaced(s[1..], tokens, gaps[0 := gaps[0][1..]])
  {
    var less := gaps[0 := gaps[0][1..]];
    assert less[1..] == gaps[1..];
    if tokens != [] {
      assert (gaps[0] + tokens[0])[1..] == less[0] + tokens[0];
      assert s[1..][|less[0] + tokens[0]|..] == s[|gaps[0] + tokens[0]|..];
    }
  }

  lemma WithoutFirst(s: string, tokens: seq<string>, gaps: seq<string>)
    requires Spaced(s, tokens, gaps) && gaps[0] == "" && tokens != []
    ensures s != "" && |tokens[0]| == 1 ==> Spaced(s[1..], tokens[1..], gaps[1..])
    ensures |tokens[0]| > 1 ==> |s| > 1 && s[1] == tokens[0][1] && Spaced(s[1..], [tokens[0][1..]] + tokens[1..], gaps)
  {
    assert gaps[0] + tokens[0] == tokens[0];
    if |tokens[0]| > 1 {
      var less := [tokens[0][1..]] + tokens[1..];
      assert less[1..] == tokens[1..] && gaps[0] + less[0] == tokens[0][1..];
      assert s[1..][|less[0]|..] == s[|tokens[0]|..];
    }
  }

  // The next token, if there is one, comes after a blank.
  lemma BlankAfter(s: string, tokens: seq<string>, gaps: seq<string>)
    requires Spaced(s, tokens, gaps) && gaps[0] == "" && tokens != [] && |tokens[0]| == 1 && |s| > 1
    ensures Blank(s[1])
  {
    WithoutFirst(s, tokens, gaps);
    SpacedSizes(s[1..], tokens[1..], gaps[1..]);
    assert gaps[1..][0] == gaps[1];
  }

  lemma EmptyHasNoToken(tokens: seq<string>, gaps: seq<string>)
    requires Spaced("", tokens, gaps)
    ensures tokens == []
  {
  }

  lemma {:induction false} SpacedAreTokens(s: string, tokens: seq<string>, gaps: seq<string>)
    requires Spaced(s, tokens, gaps)
    ensures tokens == Tokens(s)
    decreases |s|
  {
    hide Blank, Spaced;
    SpacedSizes(s, tokens, gaps);
    if s == "" {
      assert tokens == [] by { EmptyHasNoToken(tokens, gaps); }
    } else if gaps[0] != "" {
      ShorterGap(s, tokens, gaps);
      SpacedAreTokens(s[1..], tokens, gaps[0 := gaps[0][1..]]);
    } else {
      WithoutFirst(s, tokens, gaps);
      assert tokens == [tokens[0]] + tokens[1..] && tokens[0] == [s[0]] + tokens[0][1..];
      if |tokens[0]| == 1 {
        if |s| > 1 { BlankAfter(s, tokens, gaps); }
        SpacedAreTokens(s[1..], tokens[1..], gaps[1..]);
        assert tokens[0] == [s[0]];
      } else {
        var less := [tokens[0][1..]] + tokens[1..];
        SpacedAreTokens(s[1..], less, gaps);
        assert less[1..] == tokens[1..];
      }
    }
  }

  /** The tokens are the maximal runs of characters that are no blanks, all of them and in order: they are the only
      sequence the text can be put together from with gaps of blanks. */
  lemma TokensAreTheRuns(s: string, tokens: seq<string>)
    ensures tokens == Tokens(s) <==> exists gaps :: Spaced(s, tokens, gaps)
  {
    var gaps := TokensAreSpaced(s);
    hide Tokens, Spaced;
    if exists gaps :: Spaced(s, tokens, gaps) {
      var other :| Spaced(s, tokens, other);
      SpacedAreTokens(s, tokens, other);
    }
  }

  function Sum(xs: seq<real>): real {
    if xs == [] then 0.0 else Sum(xs[..|xs| - 1]) + xs[|xs| - 1]
  }

  function Weights(s: Sentence, weight: string -> real): (r: seq<real>)
    ensures |r| == |Tokens(s.text)|
  {
    var tokens := Tokens(s.text);
    seq(|tokens|, i requires 0 <= i < |tokens| => weight(tokens[i]))
  }

  // Every weight is at least one.
  ghost predicate Positive(weight: string -> real) {
    forall token :: weight(token) >= 1.0
  }

  lemma {:induction false} SumIsPositive(xs: seq<real>)
    requires forall i :: 0 <= i < |xs| ==> xs[i] >= 1.0
    ensures Sum(xs) >= 0.0 && (xs != [] ==> Sum(xs) >= 1.0)
  {
    if xs == [] {
    } else {
      SumIsPositive(xs[..|xs| - 1]);
    }
  }

  // The part of a span that belongs to a part of the total weight.
  function Share(span: real, part: real, total: real): real
    requires total != 0.0
  {
    span * part / total
  }

  // Where the k-th word of a sentence starts, and the one before it ends.
  function At(s: Sentence, weights: seq<real>, k: nat): real
    requires k <= |weights|
  {
    if Sum(weights) == 0.0 then s.start else s.start + Share(s.end - s.start, Sum(weights[..k]), Sum(weights))
  }

  function WordsOf(s: Sentence, weight: string -> real): (r: seq<Word>)
    ensures |r| == |Tokens(s.text)|
  {
    var tokens, weights := Tokens(s.text), Weights(s, weight);
    seq(|tokens|, k requires 0 <= k < |tokens| => Word(tokens[k], At(s, weights, k), At(s, weights, k + 1)))
  }

  function AllWords(sentences: seq<Sentence>, weight: string -> real): seq<Word> {
    if sentences == [] then []
    else AllWords(sentences[..|sentences| - 1], weight) + WordsOf(sentences[|sentences| - 1], weight)
  }

  lemma AllWordsNext(sentences: seq<Sentence>, s: Sentence, weight: string -> real)
    ensures AllWords(sentences + [s], weight) == AllWords(sentences, weight) + WordsOf(s, weight)
  {
    hide WordsOf;
    assert (sentences + [s])[..|sentences|] == sentences;
  }

  lemma {:induction false} AllWordsConcat(a: seq<Sentence>, b: seq<Sentence>, weight: string -> real)
    ensures AllWords(a + b, weight) == AllWords(a, weight) + AllWords(b, weight)
  {
    hide WordsOf;
    if b == [] {
      assert a + b == a;
    } else {
      var n := |b| - 1;
      hide AllWords;
      AllWordsConcat(a, b[..n], weight);
      AllWordsNext(a + b[..n], b[n], weight);
      AllWordsNext(b[..n], b[n], weight);
      Associative(a, b[..n], [b[n]]);
      assert b[..n] + [b[n]] == b;
      Associative(AllWords(a, weight), AllWords(b[..n], weight), WordsOf(b[n], weight));
    }
  }

  lemma AllWordsOne(s: Sentence, weight: string -> real)
    ensures AllWords([s], weight) == WordsOf(s, weight)
  {
    hide WordsOf;
    assert [s][..0] == [];
  }

  lemma SharesAdd(span: real, part: real, more: real, total: real)
    requires total != 0.0
    ensures Share(span, part + more, total) == Share(span, part, total) + Share(span, more, total)
  {
    assert span * (part + more) == span * part + span * more;
  }

  lemma WholeShare(span: real, total: real)
    requires total != 0.0
    ensures Share(span, total, total) == span && Share(span, 0.0, total) == 0.0
  {
  }

  lemma SumNext(xs: seq<real>, k: nat)
    requires k < |xs|
    ensures Sum(xs[..k + 1]) == Sum(xs[..k]) + xs[k]
  {
    assert xs[..k + 1][..k] == xs[..k];
  }

  lemma AtNext(s: Sentence, weights: seq<real>, k: nat)
    requires k < |weights| && Sum(weights) != 0.0
    ensures At(s, weights, k + 1) == At(s, weights, k) + Share(s.end - s.start, weights[k], Sum(weights))
  {
    SumNext(weights, k);
    hide Share, Sum;
    SharesAdd(s.end - s.start, Sum(weights[..k]), weights[k], Sum(weights));
  }

  lemma AtEnds(s: Sentence, weights: seq<real>)
    requires Sum(weights) != 0.0
    ensures At(s, weights, 0) == s.start && At(s, weights, |weights|) == s.end
  {
    hide Share;
    assert weights[..|weights|] == weights && weights[..0] == [];
    WholeShare(s.end - s.start, Sum(weights));
  }

  lemma WeightsArePositive(s: Sentence, weight: string -> real)
    requires Positive(weight)
    ensures forall i :: 0 <= i < |Weights(s, weight)| ==> Weights(s, weight)[i] >= 1.0
    ensures Tokens(s.text) != [] ==> Sum(Weights(s, weight)) >= 1.0
  {
    hide Tokens;
    SumIsPositive(Weights(s, weight));
  }

  predicate Lasts(s: Sentence, weight: string -> real, k: nat)
    requires k < |Tokens(s.text)|
  {
    var w := WordsOf(s, weight)[k];
    (w.end - w.start) * Sum(Weights(s, weight)) == (s.end - s.start) * weight(Tokens(s.text)[k])
  }

  lemma Undivided(span: real, part: real, total: real)
    requires total != 0.0
    ensures Share(span, part, total) * total == span * part
  {
  }

  /** The words of a sentence follow one another without gap or overlap from its start to its end, and each
      lasts in proportion to its weight. */
  lemma WordsPartitionSentence(s: Sentence, weight: string -> real)
    requires Positive(weight) && Tokens(s.text) != []
    ensures var words := WordsOf(s, weight); words[0].start == s.start && words[|words| - 1].end == s.end
    ensures forall k :: 0 <= k < |WordsOf(s, weight)| - 1 ==> WordsOf(s, weight)[k].end == WordsOf(s, weight)[k + 1].start
    ensures forall k :: 0 <= k < |WordsOf(s, weight)| ==> Lasts(s, weight, k)
    ensures forall k :: 0 <= k < |WordsOf(s, weight)| ==> WordsOf(s, weight)[k].text == Tokens(s.text)[k]
  {
    hide Tokens, At, Sum, Share;
    WeightsArePositive(s, weight);
    var weights := Weights(s, weight);
    AtEnds(s, weights);
    forall k | 0 <= k < |weights|
      ensures Lasts(s, weight, k)
    {
      AtNext(s, weights, k);
      Undivided(s.end - s.start, weights[k], Sum(weights));
    }
  }

  method TimeSentence(s: Sentence, weight: string -> real) returns (words: seq<Word>)
    requires Positive(weight)
    ensures words == WordsOf(s, weight)
  {
    hide Tokens, At, Sum;
    var tokens, weights := Tokens(s.text), Weights(s, weight);
    WeightsArePositive(s, weight);
    var total := Sum(weights);
    var cursor := s.start;
    words := [];
    if tokens != [] { AtEnds(s, weights); }
    for k := 0 to |tokens|
      invariant tokens != [] ==> cursor == At(s, weights, k)
      invariant words == WordsOf(s, weight)[..k]
    {
      var duration := (s.end - s.start) * weights[k] / total;
      assert duration == Share(s.end - s.start, weights[k], total);
      AtNext(s, weights, k);
      words := words + [Word(tokens[k], cursor, cursor + duration)];
      cursor := cursor + duration;
    }
  }

  method TimedWords(sentences: seq<Sentence>, weight: string -> real) returns (words: seq<Word>)
    requires Positive(weight)
    ensures words == AllWords(sentences, weight)
  {
    hide WordsOf;
    words := [];
    for i := 0 to |sentences|
      invariant words == AllWords(sentences[..i], weight)
    {
      var more := TimeSentence(sentences[i], weight);
      assert sentences[..i + 1][..i] == sentences[..i];
      words := words + more;
    }
    assert sentences[..|sentences|] == sentences;
  }

  // ---- order ----

  predicate Follows(w: Word, next: Word) {
    w.end <= next.start
  }

  ghost predicate InOrder(words: seq<Word>) {
    && (forall i :: 0 <= i < |words| ==> words[i].start < words[i].end <= DURATION)
    && (forall i, j :: 0 <= i < j < |words| ==> Follows(words[i], words[j]))
  }

  // Sentences have a length, do not overlap and end within the video.
  ghost predicate Ordered(sentences: seq<Sentence>) {
    && (forall i :: 0 <= i < |sentences| ==> sentences[i].start < sentences[i].end <= DURATION)
    && (forall i, j :: 0 <= i < j < |sentences| ==> sentences[i].end <= sentences[j].start)
  }

  lemma ShareIsPositive(span: real, part: real, total: real)
    requires span > 0.0 && part > 0.0 && total > 0.0
    ensures Share(span, part, total) > 0.0
  {
    assert span * part > 0.0;
  }

  lemma {:induction false} AtIncreases(s: Sentence, weights: seq<real>, j: nat, k: nat)
    requires j <= k <= |weights| && s.start < s.end
    requires forall i :: 0 <= i < |weights| ==> weights[i] >= 1.0
    ensures At(s, weights, j) <= At(s, weights, k)
    ensures j < k ==> At(s, weights, j) < At(s, weights, k)
  {
    hide At, Sum, Share;
    if j < k {
      AtIncreases(s, weights, j, k - 1);
      SumIsPositive(weights);
      AtNext(s, weights, k - 1);
      ShareIsPositive(s.end - s.start, weights[k - 1], Sum(weights));
    }
  }

  lemma SentenceInOrder(s: Sentence, weight: string -> real)
    requires Positive(weight) && s.start < s.end <= DURATION
    ensures InOrder(WordsOf(s, weight))
    ensures forall w :: w in WordsOf(s, weight) ==> s.start <= w.start && w.end <= s.end
  {
    hide Tokens, At, Sum;
    var weights := Weights(s, weight);
    var words := WordsOf(s, weight);
    WeightsArePositive(s, weight);
    if words != [] { AtEnds(s, weights); }
    forall i | 0 <= i < |words|
      ensures s.start <= words[i].start < words[i].end <= s.end
    {
      AtIncreases(s, weights, 0, i);
      AtIncreases(s, weights, i, i + 1);
      AtIncreases(s, weights, i + 1, |weights|);
    }
    forall i, j | 0 <= i < j < |words|
      ensures Follows(words[i], words[j])
    {
      AtIncreases(s, weights, i + 1, j);
    }
  }

  lemma {:induction false} WordsInOrder(sentences: seq<Sentence>, weight: string -> real)
    requires Positive(weight) && Ordered(sentences)
    ensures InOrder(AllWords(sentences, weight))
    ensures forall w :: w in AllWords(sentences, weight) ==> sentences != [] && w.end <= sentences[|sentences| - 1].end
  {
    hide WordsOf, Positive;
    if sentences == [] {
    } else {
      var n := |sentences| - 1;
      var before, more := AllWords(sentences[..n], weight), WordsOf(sentences[n], weight);
      WordsInOrder(sentences[..n], weight);
      SentenceInOrder(sentences[n], weight);
      forall i, j | 0 <= i < j < |before + more|
        ensures Follows((before + more)[i], (before + more)[j])
      {
        if i < |before| <= j {
          assert before[i] in before && more[j - |before|] in more;
        }
      }
    }
  }

  lemma {:induction false} TokensAreClean(sentences: seq<Sentence>, weight: string -> real)
    ensures forall i :: 0 <= i < |AllWords(sentences, weight)| ==> CleanText(AllWords(sentences, weight)[i]) != ""
  {
    hide At, Weights;
    if sentences == [] {
    } else {
      TokensAreClean(sentences[..|sentences| - 1], weight);
    }
  }

  lemma {:induction false} AllSpoken(words: seq<Word>)
    requires forall i :: 0 <= i < |words| ==> CleanText(words[i]) != ""
    ensures Spoken(words) == words
  {
    hide CleanText;
    if words == [] {
    } else {
      AllSpoken(words[..|words| - 1]);
    }
  }

  lemma {:induction false} TimedWordsAreSpoken(sentences: seq<Sentence>, weight: string -> real)
    ensures forall i :: 0 <= i < |AllWords(sentences, weight)| ==> CleanText(AllWords(sentences, weight)[i]) != ""
    ensures Spoken(AllWords(sentences, weight)) == AllWords(sentences, weight)
  {
    var words := AllWords(sentences, weight);
    TokensAreClean(sentences, weight);
    AllSpoken(words);
  }

  // ---- caption entries ----

  datatype Entry = Entry(start: real, end: real, text: string)

  const LINGER := 0.08
  const GAP := 0.02

  function Min(a: real, b: real): real {
    if a <= b then a else b
  }

  ghost predicate NonEmpty(groups: seq<Group>) {
    forall i :: 0 <= i < |groups| ==> groups[i] != []
  }

  // When the next caption starts, or the video ends.
  ghost function NextStart(groups: seq<Group>, i: nat): real
    requires i < |groups| && NonEmpty(groups)
  {
    if i + 1 < |groups| then groups[i + 1][0].start else DURATION
  }

  ghost function EntryOf(groups: seq<Group>, i: nat): Entry
    requires i < |groups| && NonEmpty(groups)
  {
    var end := Min(DURATION, Min(Last(groups[i]).end + LINGER, NextStart(groups, i) - GAP));
    Entry(groups[i][0].start, end, Caption(groups[i]))
  }

  /** An entry starts with its first word and ends at the first of three moments: 0.08 seconds after its last word, 0.02
      seconds before the next group starts, or before the video's end if there is none, and that end. */
  lemma EntryIsCut(groups: seq<Group>, i: nat)
    requires i < |groups| && NonEmpty(groups)
    ensures var e, last := EntryOf(groups, i), groups[i][|groups[i]| - 1];
      var next := if i + 1 < |groups| then groups[i + 1][0].start else 59.475;
      && e.start == groups[i][0].start && e.text == Caption(groups[i])
      && e.end <= last.end + 0.08 && e.end <= next - 0.02 && e.end <= 59.475
      && (e.end == last.end + 0.08 || e.end == next - 0.02 || e.end == 59.475)
  {
    hide Caption;
  }

  method Entries(groups: seq<Group>) returns (entries: seq<Entry>)
    requires NonEmpty(groups)
    ensures |entries| == |groups| && forall i :: 0 <= i < |groups| ==> entries[i] == EntryOf(groups, i)
  {
    hide Caption;
    entries := [];
    for i := 0 to |groups|
      invariant |entries| == i && forall k :: 0 <= k < i ==> entries[k] == EntryOf(groups, k)
    {
      var group := groups[i];
      var start := group[0].start;
      var nextStart := if i + 1 < |groups| then groups[i + 1][0].start else DURATION;
      var end := Min(DURATION, Min(Last(group).end + LINGER, nextStart - GAP));
      entries := entries + [Entry(start, end, Caption(group))];
    }
  }

  // ---- the frame loop ----

  predicate Covers(e: Entry, time: real) {
    e.start <= time <= e.end
  }

  function FrameTime(frame: nat): real {
    frame as real / FPS as real
  }

  // Where the cursor stands: before the first entry that has not ended.
  function Cursor(entries: seq<Entry>, time: real): (i: nat)
    ensures i <= |entries|
  {
    if entries == [] || time <= entries[0].end then 0 else 1 + Cursor(entries[1..], time)
  }

  // The entry the cursor shows.
  function Shown(entries: seq<Entry>, time: real): Option<nat> {
    var i := Cursor(entries, time);
    if i < |entries| && Covers(entries[i], time) then Some(i) else None
  }

  lemma {:induction false} CursorIsFirst(entries: seq<Entry>, time: real, i: nat)
    requires i <= |entries| && forall k :: 0 <= k < i ==> entries[k].end < time
    requires i < |entries| ==> time <= entries[i].end
    ensures Cursor(entries, time) == i
  {
    if i > 0 {
      assert entries[0].end < time;
      CursorIsFirst(entries[1..], time, i - 1);
    }
  }

  // The cursor only moves forward; nothing is asked of the entries.
  method RenderTrack(entries: seq<Entry>, frames: nat) returns (track: seq<Option<nat>>)
    ensures |track| == frames && forall f :: 0 <= f < frames ==> track[f] == Shown(entries, FrameTime(f))
    ensures forall f :: 0 <= f < frames ==> track[f] == Shown(entries, f as real / 15.0)
  {
    hide Cursor;
    track := [];
    var index := 0;
    for frame := 0 to frames
      invariant index <= |entries| && |track| == frame
      invariant forall k :: 0 <= k < index ==> entries[k].end < FrameTime(frame)
      invariant forall f :: 0 <= f < frame ==> track[f] == Shown(entries, FrameTime(f))
    {
      var time := FrameTime(frame);
      while index < |entries| && time > entries[index].end
        invariant index <= |entries| && forall k :: 0 <= k < index ==> entries[k].end < time
      {
        index := index + 1;
      }
      CursorIsFirst(entries, time, index);
      if index < |entries| && entries[index].start <= time <= entries[index].end {
        track := track + [Some(index)];
      } else {
        track := track + [None];
      }
    }
  }

  // No entry starts before an earlier one has ended, unless it has no time of its own.
  ghost predicate Disjoint(entries: seq<Entry>) {
    forall i, j :: 0 <= i < j < |entries| ==> entries[j].end < entries[j].start || entries[i].end < entries[j].start
  }

  // At any time, the cursor shows just what a search through all entries finds.
  ghost predicate CursorSearches(entries: seq<Entry>) {
    forall time: real, i: nat :: i < |entries| ==> (Shown(entries, time) == Some(i) <==> Covers(entries[i], time))
  }

  lemma DisjointSearches(entries: seq<Entry>, time: real, i: nat)
    requires Disjoint(entries) && i < |entries|
    ensures Shown(entries, time) == Some(i) <==> Covers(entries[i], time)
  {
    hide Cursor;
    if Covers(entries[i], time) {
      CursorIsFirst(entries, time, i);
    }
  }

  lemma {:induction false} CursorStopsAt(entries: seq<Entry>, time: real, i: nat)
    requires i < |entries| && time <= entries[i].end
    ensures Cursor(entries, time) <= i
  {
    if i > 0 && time > entries[0].end { CursorStopsAt(entries[1..], time, i - 1); }
  }

  /** The forward-only cursor replaces the search exactly when the entries are disjoint. */
  lemma CursorSearchesIffDisjoint(entries: seq<Entry>)
    ensures CursorSearches(entries) <==> Disjoint(entries)
  {
    hide Cursor;
    if Disjoint(entries) {
      forall time: real, i: nat | i < |entries|
        ensures Shown(entries, time) == Some(i) <==> Covers(entries[i], time)
      {
        DisjointSearches(entries, time, i);
      }
    }
    if CursorSearches(entries) {
      forall i, j | 0 <= i < j < |entries|
        ensures entries[j].end < entries[j].start || entries[i].end < entries[j].start
      {
        var time := entries[j].start;
        assert Shown(entries, time) == Some(j) <==> Covers(entries[j], time);
        if time <= entries[i].end { CursorStopsAt(entries, time, i); }
      }
    }
  }

  // ---- the captions of a video ----

  lemma {:induction false} WordOfGroup(groups: seq<Group>, i: nat, w: Word)
    requires i < |groups| && w in groups[i]
    ensures w in Flatten(groups)
  {
    var n := |groups| - 1;
    if i < n { WordOfGroup(groups[..n], i, w); }
  }

  lemma PartsInOrder(before: seq<Word>, last: seq<Word>)
    requires InOrder(before + last)
    ensures InOrder(before) && InOrder(last)
    ensures forall v, w :: v in before && w in last ==> Follows(v, w)
  {
    hide Follows;
    var all := before + last;
    assert forall i :: 0 <= i < |before| ==> before[i] == all[i];
    assert forall i :: 0 <= i < |last| ==> last[i] == all[|before| + i];
  }

  lemma {:induction false} GroupsInOrder(groups: seq<Group>)
    requires NonEmpty(groups) && InOrder(Flatten(groups))
    ensures forall i :: 0 <= i < |groups| ==> InOrder(groups[i])
    ensures forall i, j :: 0 <= i < j < |groups| ==> Follows(Last(groups[i]), groups[j][0])
  {
    if groups == [] {
    } else {
      var n := |groups| - 1;
      var before, last := Flatten(groups[..n]), groups[n];
      assert Flatten(groups) == before + last;
      hide Flatten;
      PartsInOrder(before, last);
      GroupsInOrder(groups[..n]);
      forall i | 0 <= i < n
        ensures Follows(Last(groups[i]), last[0])
      {
        WordOfGroup(groups[..n], i, Last(groups[i]));
      }
    }
  }

  lemma GroupSpan(g: Group)
    requires g != [] && InOrder(g)
    ensures g[0].start < Last(g).end <= DURATION
  {
    assert |g| > 1 ==> Follows(g[0], Last(g));
  }

  lemma EntryBounds(groups: seq<Group>, i: nat)
    requires NonEmpty(groups) && InOrder(Flatten(groups)) && i < |groups|
    ensures groups[i][0].start - GAP <= EntryOf(groups, i).end <= NextStart(groups, i) - GAP
    ensures groups[i][0].start <= NextStart(groups, i)
  {
    hide Caption;
    GroupsInOrder(groups);
    GroupSpan(groups[i]);
    if i + 1 < |groups| { assert Follows(Last(groups[i]), groups[i + 1][0]); }
  }

  lemma EntriesInOrder(groups: seq<Group>, i: nat, j: nat)
    requires NonEmpty(groups) && InOrder(Flatten(groups)) && i < j < |groups|
    ensures EntryOf(groups, i).end < EntryOf(groups, j).start
    ensures EntryOf(groups, i).end <= EntryOf(groups, j).end
  {
    hide Caption, Flatten, InOrder;
    GroupsInOrder(groups);
    EntryBounds(groups, i);
    EntryBounds(groups, j);
    if i + 1 < j {
      GroupSpan(groups[i + 1]);
      assert Follows(Last(groups[i + 1]), groups[j][0]);
    }
  }

  ghost predicate EntriesOf(groups: seq<Group>, entries: seq<Entry>) {
    NonEmpty(groups) && |entries| == |groups| && forall i :: 0 <= i < |groups| ==> entries[i] == EntryOf(groups, i)
  }

  lemma SegmentedInOrder(sentences: seq<Sentence>, weight: string -> real, groups: seq<Group>)
    requires Positive(weight) && Ordered(sentences) && IsSegmentation(groups, AllWords(sentences, weight))
    ensures NonEmpty(groups) && Flatten(groups) == AllWords(sentences, weight) && InOrder(Flatten(groups))
  {
    hide AllWords, Spoken, Flatten, InOrder, Breaks;
    TimedWordsAreSpoken(sentences, weight);
    WordsInOrder(sentences, weight);
    forall i | 0 <= i < |groups|
      ensures groups[i] != []
    {
      assert Unbroken(groups[i]);
    }
  }

  /** For sentences in order, however the words are weighed: the captions' ends never decrease, each caption
      ends before the next one starts, and the frame loop shows at every moment just the caption whose time
      it is. */
  lemma CaptionsPlay(sentences: seq<Sentence>, weight: string -> real, groups: seq<Group>, entries: seq<Entry>)
    requires Positive(weight) && Ordered(sentences) && IsSegmentation(groups, AllWords(sentences, weight))
    requires EntriesOf(groups, entries)
    ensures forall i, j :: 0 <= i < j < |entries| ==> entries[i].end < entries[j].start && entries[i].end <= entries[j].end
    ensures CursorSearches(entries)
  {
    hide Ordered, IsSegmentation, AllWords, EntryOf, Flatten, InOrder, Shown;
    SegmentedInOrder(sentences, weight, groups);
    forall i, j | 0 <= i < j < |entries|
      ensures entries[i].end < entries[j].start && entries[i].end <= entries[j].end
    {
      EntriesInOrder(groups, i, j);
    }
    CursorSearchesIffDisjoint(entries);
  }

  lemma EntryCoversWord(groups: seq<Group>, i: nat, w: Word, time: real)
    requires NonEmpty(groups) && i < |groups| && InOrder(groups[i]) && w in groups[i]
    requires w.start <= time <= w.end && time <= NextStart(groups, i) - GAP
    ensures Covers(EntryOf(groups, i), time)
  {
    hide Caption, NextStart;
    var g := groups[i];
    var k :| 0 <= k < |g| && g[k] == w;
    assert k > 0 ==> Follows(g[0], w);
    assert k < |g| - 1 ==> Follows(w, Last(g));
  }

  /** While a word is spoken its caption is on screen, but for the last moment before the next caption. */
  lemma SpokenWordIsShown(sentences: seq<Sentence>, weight: string -> real, groups: seq<Group>, entries: seq<Entry>,
                          i: nat, w: Word, time: real)
    requires Positive(weight) && Ordered(sentences) && IsSegmentation(groups, AllWords(sentences, weight))
    requires EntriesOf(groups, entries) && i < |groups| && w in groups[i]
    requires w.start <= time <= w.end && time <= NextStart(groups, i) - GAP
    ensures Shown(entries, time) == Some(i)
  {
    hide Ordered, IsSegmentation, AllWords, Flatten, EntryOf, NextStart, Shown, Positive, InOrder, Covers;
    SegmentedInOrder(sentences, weight, groups);
    CaptionsPlay(sentences, weight, groups, entries);
    GroupsInOrder(groups);
    EntryCoversWord(groups, i, w, time);
    assert Shown(entries, time) == Some(i) <==> Covers(entries[i], time);
  }

  function Ceiling(x: real): int {
    -((-x).Floor)
  }

  // The tool's run from the sentences to the frames.
  method CaptionTrack(sentences: seq<Sentence>, weight: string -> real)
    returns (groups: seq<Group>, entries: seq<Entry>, track: seq<Option<nat>>)
    requires Positive(weight)
    ensures IsSegmentation(groups, AllWords(sentences, weight)) && EntriesOf(groups, entries)
    ensures |track| == 893
    ensures forall f :: 0 <= f < |track| ==> track[f] == Shown(entries, FrameTime(f))
  {
    hide AllWords, Spoken, Flatten, Breaks, Separated, Shown, FrameTime, EntryOf, Positive;
    var words := TimedWords(sentences, weight);
    groups := CaptionGroups(words);
    assert NonEmpty(groups) by {
      forall i | 0 <= i < |groups|
        ensures groups[i] != []
      {
        assert Unbroken(groups[i]);
      }
    }
    entries := Entries(groups);
    track := RenderTrack(entries, Ceiling(DURATION * FPS as real));
  }

  // The times of the sentences of the video.
  const SENTENCE_TIMES := [(0.275, 4.061), (4.443, 7.933), (8.957, 12.674), (13.037, 17.842), (18.282, 29.251),
                           (30.232, 32.335), (32.659, 36.641), (37.608, 41.452), (41.830, 44.033), (44.936, 50.817),
                           (51.770, 58.742)]

  lemma VideoIsOrdered(sentences: seq<Sentence>)
    requires |sentences| == |SENTENCE_TIMES|
    requires forall i :: 0 <= i < |sentences| ==> (sentences[i].start, sentences[i].end) == SENTENCE_TIMES[i]
    ensures Ordered(sentences)
  {
  }
}
