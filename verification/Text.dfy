/** The string operations the services share: trimming, splitting, joining and lower-casing. */
module Text {

  datatype Option<+T> = None | Some(value: T) {
    function GetOr(default: T): T {
      if Some? then value else default
    }
  }

  // Go's unicode.IsSpace.
  predicate IsSpace(c: char) {
    c == ' ' || '\t' <= c <= '\r' || c == '\U{85}' || c == '\U{A0}' || c == '\U{1680}' ||
    '\U{2000}' <= c <= '\U{200A}' || c == '\U{2028}' || c == '\U{2029}' || c == '\U{202F}' ||
    c == '\U{205F}' || c == '\U{3000}'
  }

  lemma WhatIsSpace(c: char)
    ensures c == ' ' || '\t' <= c <= '\r' ==> IsSpace(c)
    ensures '!' <= c <= '~' ==> !IsSpace(c)
  {
  }

  function TrimLeft(s: string): (r: string)
    ensures |r| <= |s| && r == s[|s| - |r|..]
    ensures r != "" ==> !IsSpace(r[0])
  {
    if s != "" && IsSpace(s[0]) then TrimLeft(s[1..]) else s
  }

  function TrimRight(s: string): (r: string)
    ensures |r| <= |s| && r == s[..|r|]
    ensures r != "" ==> !IsSpace(r[|r| - 1])
  {
    if s != "" && IsSpace(s[|s| - 1]) then TrimRight(s[..|s| - 1]) else s
  }

  // strings.TrimSpace
  function Trim(s: string): string {
    TrimRight(TrimLeft(s))
  }

  predicate Trimmed(s: string) {
    s == "" || (!IsSpace(s[0]) && !IsSpace(s[|s| - 1]))
  }

  lemma TrimIsTrimmed(s: string)
    ensures Trimmed(Trim(s))
  {
    var t := TrimLeft(s);
    if TrimRight(t) != "" {
      assert TrimRight(t)[0] == t[0];
    }
  }

  lemma TrimKeepsTrimmed(s: string)
    requires Trimmed(s)
    ensures Trim(s) == s
  {
  }

  lemma {:induction false} TrimDropsTrailingSpace(s: string)
    requires Trimmed(s)
    ensures Trim(s + " ") == s
  {
    if s == "" {
      assert (s + " ")[1..] == "";
      assert TrimLeft(s + " ") == TrimLeft("");
    } else {
      assert (s + " ")[0] == s[0];
      assert TrimLeft(s + " ") == s + " ";
      assert (s + " ")[..|s + " "| - 1] == s;
      assert TrimRight(s + " ") == TrimRight(s);
    }
  }

  lemma {:induction false} TrimDropsLeadingSpace(s: string)
    requires Trimmed(s)
    ensures Trim(" " + s) == s
  {
    assert (" " + s)[1..] == s;
    assert TrimLeft(" " + s) == TrimLeft(s);
  }

  // Trimming only removes characters.
  lemma TrimKeepsOut(s: string, c: char)
    requires c !in s
    ensures c !in Trim(s)
  {
    hide TrimLeft, TrimRight, IsSpace;
    var t := TrimLeft(s);
    assert forall i :: 0 <= i < |t| ==> t[i] == s[|s| - |t| + i];
    assert forall i :: 0 <= i < |Trim(s)| ==> Trim(s)[i] == t[i];
  }

  // unicode.ToLower on the characters whose lower case is an ASCII letter.
  function LowerChar(c: char): char {
    if 'A' <= c <= 'Z' then (c as int + 32) as char
    else if c == '\U{130}' then 'i'
    else if c == '\U{212A}' then 'k'
    else c
  }

  function ToLower(s: string): (r: string)
    ensures |r| == |s|
  {
    seq(|s|, i requires 0 <= i < |s| => LowerChar(s[i]))
  }

  // strings.EqualFold on the characters that fold into an ASCII letter; every other character is only equal to itself.
  function FoldChar(c: char): char {
    if 'A' <= c <= 'Z' then (c as int + 32) as char
    else if c == '\U{212A}' then 'k'
    else if c == '\U{17F}' then 's'
    else c
  }

  predicate EqualFold(s: string, t: string) {
    |s| == |t| && forall i :: 0 <= i < |s| ==> FoldChar(s[i]) == FoldChar(t[i])
  }

  // The letters that are the same in capitals and small ones, the sign of the kelvin being a K and the long s an S.
  predicate SameLetter(c: char, d: char) {
    || c == d
    || ('A' <= c <= 'Z' && d as int == c as int + 32)
    || ('A' <= d <= 'Z' && c as int == d as int + 32)
    || (c in {'k', 'K', '\U{212A}'} && d in {'k', 'K', '\U{212A}'})
    || (c in {'s', 'S', '\U{17F}'} && d in {'s', 'S', '\U{17F}'})
  }

  lemma FoldIsSameLetter(c: char, d: char)
    ensures FoldChar(c) == FoldChar(d) <==> SameLetter(c, d)
  {
  }

  // strings.Split with a one-character separator
  function Split(s: string, sep: char): (r: seq<string>)
    ensures |r| >= 1
  {
    if s == "" then [""]
    else
      var rest := Split(s[1..], sep);
      if s[0] == sep then [""] + rest else [[s[0]] + rest[0]] + rest[1..]
  }

  lemma {:induction false} SplitPieces(s: string, sep: char)
    ensures forall i :: 0 <= i < |Split(s, sep)| ==> sep !in Split(s, sep)[i]
    ensures forall i, c :: 0 <= i < |Split(s, sep)| && c in Split(s, sep)[i] ==> c in s
  {
    if s == "" {
    } else {
      SplitPieces(s[1..], sep);
      var rest := Split(s[1..], sep);
      var r := Split(s, sep);
      forall i, c | 0 <= i < |r| && c in r[i]
        ensures c in s
      {
        if s[0] == sep {
          assert i > 0 && r[i] == rest[i - 1] && c in s[1..];
        } else if i > 0 {
          assert r[i] == rest[i] && c in s[1..];
        } else {
          assert r[0] == [s[0]] + rest[0];
          assert c == s[0] || c in s[1..];
        }
      }
      if s[0] == sep {
        assert forall i :: 1 <= i < |r| ==> r[i] == rest[i - 1];
      } else {
        assert forall i :: 1 <= i < |r| ==> r[i] == rest[i];
        assert r[0] == [s[0]] + rest[0];
      }
    }
  }

  // A piece without the separator, followed by the separator, splits off.
  lemma {:induction false} SplitHead(p: string, s: string, sep: char)
    requires sep !in p
    ensures Split(p, sep) == [p]
    ensures Split(p + [sep] + s, sep) == [p] + Split(s, sep)
  {
    if p == "" {
      assert (p + [sep] + s)[1..] == s;
    } else {
      SplitHead(p[1..], s, sep);
      assert (p + [sep] + s)[1..] == p[1..] + [sep] + s;
      assert [p[0]] + p[1..] == p;
    }
  }

  // strings.Join
  function Join(parts: seq<string>, sep: string): string {
    if |parts| == 0 then ""
    else if |parts| == 1 then parts[0]
    else parts[0] + sep + Join(parts[1..], sep)
  }

  // The length in UTF-8, which is Go's len.
  function Bytes(s: string): nat {
    if s == "" then 0
    else (if s[0] < '\U{80}' then 1 else if s[0] < '\U{800}' then 2 else if s[0] < '\U{10000}' then 3 else 4) + Bytes(s[1..])
  }

  lemma {:induction false} AtMostFourBytesEach(s: string)
    ensures Bytes(s) <= 4 * |s|
  {
    if s == "" {
    } else {
      AtMostFourBytesEach(s[1..]);
    }
  }

  lemma {:induction false} BytesConcat(s: string, t: string)
    ensures Bytes(s + t) == Bytes(s) + Bytes(t)
  {
    if s == "" {
      assert s + t == t;
    } else {
      assert (s + t)[1..] == s[1..] + t;
      BytesConcat(s[1..], t);
    }
  }

  // The length of a character in UTF-8 (RFC 3629, section 3).
  lemma BytesOfChar(c: char)
    ensures c <= '\U{7F}' ==> Bytes([c]) == 1
    ensures '\U{80}' <= c <= '\U{7FF}' ==> Bytes([c]) == 2
    ensures '\U{800}' <= c <= '\U{FFFF}' ==> Bytes([c]) == 3
    ensures '\U{10000}' <= c ==> Bytes([c]) == 4
  {
  }

  lemma Associative<T>(a: seq<T>, b: seq<T>, c: seq<T>)
    ensures a + (b + c) == (a + b) + c
  {
  }

  lemma SubsetSize<T>(a: set<T>, b: set<T>)
    requires a <= b
    ensures |a| <= |b|
  {
    assert b == a + (b - a);
  }

  predicate AllBlank(s: string) {
    forall i :: 0 <= i < |s| ==> IsSpace(s[i])
  }

  lemma NoBlanks()
    ensures AllBlank("")
  {
  }

  lemma BlanksConcat(a: string, b: string)
    requires AllBlank(a) && AllBlank(b)
    ensures AllBlank(a + b)
  {
  }

  lemma {:induction false} BlanksTrimLeft(blanks: string, s: string)
    requires AllBlank(blanks)
    ensures TrimLeft(blanks + s) == TrimLeft(s)
  {
    hide IsSpace;
    if blanks == "" {
      assert blanks + s == s;
    } else {
      assert (blanks + s)[1..] == blanks[1..] + s;
      BlanksTrimLeft(blanks[1..], s);
    }
  }

  lemma {:induction false} BlanksTrimRight(s: string, blanks: string)
    requires AllBlank(blanks)
    ensures TrimRight(s + blanks) == TrimRight(s)
  {
    hide IsSpace;
    if blanks == "" {
      assert s + blanks == s;
    } else {
      var n := |blanks| - 1;
      assert (s + blanks)[..|s| + n] == s + blanks[..n];
      assert (s + blanks)[|s| + n] == blanks[n];
      BlanksTrimRight(s, blanks[..n]);
    }
  }

  lemma {:induction false} LeftIsBlank(s: string)
    ensures AllBlank(s[..|s| - |TrimLeft(s)|])
  {
    hide IsSpace;
    if s == "" {
    } else if IsSpace(s[0]) {
      LeftIsBlank(s[1..]);
      var cut := s[..|s| - |TrimLeft(s)|];
      var rest := s[1..][..|cut| - 1];
      forall i | 0 <= i < |cut|
        ensures IsSpace(cut[i])
      {
        assert i > 0 ==> cut[i] == rest[i - 1];
      }
    }
  }

  lemma {:induction false} RightIsBlank(s: string)
    ensures AllBlank(s[|TrimRight(s)|..])
  {
    hide IsSpace;
    if s == "" {
    } else if IsSpace(s[|s| - 1]) {
      var n := |s| - 1;
      RightIsBlank(s[..n]);
      var cut := s[|TrimRight(s)|..];
      var rest := s[..n][|TrimRight(s)|..];
      forall i | 0 <= i < |cut|
        ensures IsSpace(cut[i])
      {
        assert i < |rest| ==> cut[i] == rest[i];
      }
    }
  }

  ghost predicate Padded(s: string, left: string, word: string, right: string) {
    s == left + word + right && AllBlank(left) && AllBlank(right)
  }

  // Trimming takes the blanks around a word away, and nothing else.
  lemma PaddedIsTrimmedTo(s: string, left: string, word: string, right: string)
    requires Padded(s, left, word, right) && Trimmed(word) && word != ""
    ensures Trim(s) == word
  {
    hide IsSpace, AllBlank;
    assert s == left + (word + right);
    BlanksTrimLeft(left, word + right);
    assert (word + right)[0] == word[0];
    assert TrimLeft(word + right) == word + right;
    BlanksTrimRight(word, right);
  }

  lemma TrimIsPadded(s: string) returns (left: string, right: string)
    ensures Padded(s, left, Trim(s), right)
  {
    LeftIsBlank(s);
    RightIsBlank(TrimLeft(s));
    hide IsSpace, AllBlank, TrimLeft, TrimRight;
    var inner := TrimLeft(s);
    left, right := s[..|s| - |inner|], inner[|TrimRight(inner)|..];
    assert inner == TrimRight(inner) + right && s == left + inner;
    Associative(left, TrimRight(inner), right);
  }
}
