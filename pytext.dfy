/** The Python `str` built-ins the handlers rely on: strip, split, join, `in`,
    startswith, lower and isdigit, each with the behaviour CPython gives it. */
module PyText {

  /** The characters for which Python's `str.isspace()` holds; `strip()` and
      `split()` without arguments use exactly this set. */
  predicate IsSpace(c: char)
  {
    || c == ' ' || c == '\t' || c == '\n' || c == '\r'
    || c == '\U{000B}' || c == '\U{000C}'
    || ('\U{001C}' <= c <= '\U{001F}')
    || c == '\U{0085}' || c == '\U{00A0}' || c == '\U{1680}'
    || ('\U{2000}' <= c <= '\U{200A}')
    || c == '\U{2028}' || c == '\U{2029}' || c == '\U{202F}' || c == '\U{205F}' || c == '\U{3000}'
  }

  predicate StartsWith(s: string, prefix: string)
  {
    |prefix| <= |s| && s[..|prefix|] == prefix
  }

  /** `t` occurs in `s` starting at index `j`. */
  predicate OccursAt(s: string, t: string, j: int)
  {
    0 <= j && j + |t| <= |s| && s[j..j + |t|] == t
  }

  // ---------------------------------------------------------------- strip

  /** `s.lstrip()`. */
  function LStrip(s: string): (r: string)
    ensures |r| <= |s| && r == s[|s| - |r|..]
    ensures forall i :: 0 <= i < |s| - |r| ==> IsSpace(s[i])
    ensures r == "" || !IsSpace(r[0])
  {
    if |s| > 0 && IsSpace(s[0]) then LStrip(s[1..]) else s
  }

  /** `s.rstrip()`. */
  function RStrip(s: string): (r: string)
    ensures |r| <= |s| && r == s[..|r|]
    ensures forall i :: |r| <= i < |s| ==> IsSpace(s[i])
    ensures r == "" || !IsSpace(r[|r| - 1])
  {
    if |s| > 0 && IsSpace(s[|s| - 1]) then RStrip(s[..|s| - 1]) else s
  }

  /** `s.strip()`: the longest slice of `s` with no whitespace at either end. */
  function Strip(s: string): (r: string)
    ensures exists i {:trigger OccursAt(s, r, i)} ::
      && OccursAt(s, r, i)
      && (forall j :: 0 <= j < i ==> IsSpace(s[j]))
      && (forall j :: i + |r| <= j < |s| ==> IsSpace(s[j]))
    ensures r == "" || (!IsSpace(r[0]) && !IsSpace(r[|r| - 1]))
  {
    var l := LStrip(s);
    var r := RStrip(l);
    StripSlice(s, l, r);
    r
  }

  /** A prefix `r` of a suffix `l` of `s` occurs in `s` where `l` begins, and the
      characters of `s` after it are those of `l` after it. */
  lemma StripSlice(s: string, l: string, r: string)
    requires |l| <= |s| && l == s[|s| - |l|..]
    requires |r| <= |l| && r == l[..|r|]
    ensures OccursAt(s, r, |s| - |l|)
    ensures forall j :: |s| - |l| + |r| <= j < |s| ==> s[j] == l[j - (|s| - |l|)]
  {
    var i := |s| - |l|;
    assert r == s[i..i + |r|];
  }

  /** A string that has no whitespace at either end is its own strip. */
  lemma StripUnchanged(s: string)
    requires s == "" || (!IsSpace(s[0]) && !IsSpace(s[|s| - 1]))
    ensures Strip(s) == s
  {
  }

  /** A string made only of whitespace strips to the empty string. */
  lemma StripBlank(s: string)
    requires forall i :: 0 <= i < |s| ==> IsSpace(s[i])
    ensures Strip(s) == ""
  {
  }

  /** `s.lstrip(chars)`. */
  function LStripChars(s: string, chars: set<char>): (r: string)
    ensures |r| <= |s| && r == s[|s| - |r|..]
    ensures forall i :: 0 <= i < |s| - |r| ==> s[i] in chars
    ensures r == "" || r[0] !in chars
  {
    if |s| > 0 && s[0] in chars then LStripChars(s[1..], chars) else s
  }

  /** `s.rstrip(chars)`. */
  function RStripChars(s: string, chars: set<char>): (r: string)
    ensures |r| <= |s| && r == s[..|r|]
    ensures forall i :: |r| <= i < |s| ==> s[i] in chars
    ensures r == "" || r[|r| - 1] !in chars
  {
    if |s| > 0 && s[|s| - 1] in chars then RStripChars(s[..|s| - 1], chars) else s
  }

  /** Stripping keeps a prefix that begins and ends with non-whitespace characters. */
  lemma StripKeepsPrefix(s: string, p: string)
    requires StartsWith(s, p) && p != "" && !IsSpace(p[0]) && !IsSpace(p[|p| - 1])
    ensures StartsWith(Strip(s), p)
  {
    assert s[0] == p[0];
    assert LStrip(s) == s;
    var r := RStrip(s);
    assert s[|p| - 1] == p[|p| - 1];
    assert |r| >= |p|;
    assert r[..|p|] == s[..|p|];
  }

  /** `s.strip(chars)`: remove characters of `chars` from both ends. */
  function StripChars(s: string, chars: set<char>): (r: string)
    ensures exists i {:trigger OccursAt(s, r, i)} ::
      && OccursAt(s, r, i)
      && (forall j :: 0 <= j < i ==> s[j] in chars)
      && (forall j :: i + |r| <= j < |s| ==> s[j] in chars)
    ensures r == "" || (r[0] !in chars && r[|r| - 1] !in chars)
  {
    var l := LStripChars(s, chars);
    var r := RStripChars(l, chars);
    StripSlice(s, l, r);
    r
  }

  // ---------------------------------------------------------------- find and `in`

  /** `s.find(t, i)` for a start index within `s`: the first occurrence at or after `i`, or -1. */
  function FindFrom(s: string, t: string, i: nat): (r: int)
    requires i <= |s|
    ensures r == -1 || (i <= r && OccursAt(s, t, r))
    ensures r == -1 ==> forall j {:trigger OccursAt(s, t, j)} :: i <= j ==> !OccursAt(s, t, j)
    ensures r != -1 ==> forall j {:trigger OccursAt(s, t, j)} :: i <= j < r ==> !OccursAt(s, t, j)
    decreases |s| - i
  {
    if i + |t| > |s| then -1
    else if s[i..i + |t|] == t then i
    else FindFrom(s, t, i + 1)
  }

  /** `s.find(t)`. */
  function Find(s: string, t: string): (r: int)
    ensures r == -1 || OccursAt(s, t, r)
    ensures r == -1 ==> forall j {:trigger OccursAt(s, t, j)} :: !OccursAt(s, t, j)
    ensures r != -1 ==> forall j {:trigger OccursAt(s, t, j)} :: j < r ==> !OccursAt(s, t, j)
  {
    FindFrom(s, t, 0)
  }

  /** Python's `t in s`. */
  predicate Contains(s: string, t: string)
  {
    Find(s, t) >= 0
  }

  /** An occurrence inside a slice is an occurrence in the whole string. */
  lemma SliceOccurrence(f: string, q: string, i: int, t: string, j: int)
    requires OccursAt(f, q, i) && OccursAt(q, t, j)
    ensures OccursAt(f, t, i + j)
  {
    forall k | 0 <= k < |t| ensures f[i + j..i + j + |t|][k] == t[k] {
      assert t[k] == q[j..j + |t|][k] == q[j + k];
      assert q[j + k] == f[i..i + |q|][j + k];
    }
  }

  /** A slice of a string that does not contain `t` does not contain `t` either. */
  lemma SliceFree(f: string, q: string, i: int, t: string)
    requires OccursAt(f, q, i) && !Contains(f, t)
    ensures !Contains(q, t)
  {
    forall j | OccursAt(q, t, j) ensures OccursAt(f, t, i + j) {
      SliceOccurrence(f, q, i, t, j);
    }
  }

  lemma ContainsIff(s: string, t: string)
    ensures Contains(s, t) <==> exists j :: OccursAt(s, t, j)
  {
  }

  // ---------------------------------------------------------------- split and join

  /** `sep.join(parts)`. */
  function Join(sep: string, parts: seq<string>): (r: string)
  {
    if |parts| == 0 then ""
    else if |parts| == 1 then parts[0]
    else parts[0] + sep + Join(sep, parts[1..])
  }

  lemma {:induction false} JoinAppend(sep: string, parts: seq<string>, last: string)
    requires |parts| > 0
    ensures Join(sep, parts + [last]) == Join(sep, parts) + sep + last
  {
    if |parts| > 1 {
      assert (parts + [last])[1..] == parts[1..] + [last];
      JoinAppend(sep, parts[1..], last);
    }
  }

  lemma {:induction false} JoinConcat(sep: string, a: seq<string>, b: seq<string>)
    requires |a| > 0 && |b| > 0
    ensures Join(sep, a + b) == Join(sep, a) + sep + Join(sep, b)
  {
    if |a| > 1 {
      assert (a + b)[1..] == a[1..] + b;
      JoinConcat(sep, a[1..], b);
    } else {
      assert (a + b)[1..] == b;
    }
  }

  lemma JoinThree(sep: string, a: string, b: string, c: string)
    ensures Join(sep, [a, b, c]) == a + sep + (b + sep + c)
  {
    assert [a, b, c][1..] == [b, c];
    assert [b, c][1..] == [c];
    assert Join(sep, [b, c]) == b + sep + c;
  }

  /** `s.split(sep)` for a non-empty separator: the pieces between the
      non-overlapping occurrences of `sep`, scanned left to right. */
  function Split(s: string, sep: string): (r: seq<string>)
    requires |sep| > 0
    ensures |r| >= 1
    decreases |s|
  {
    var k := Find(s, sep);
    if k < 0 then [s] else [s[..k]] + Split(s[k + |sep|..], sep)
  }

  /** Splitting and joining back with the same separator gives the string back. */
  lemma {:induction false} JoinSplit(s: string, sep: string)
    requires |sep| > 0
    ensures Join(sep, Split(s, sep)) == s
    decreases |s|
  {
    var k := Find(s, sep);
    if k >= 0 {
      var rest := s[k + |sep|..];
      var tail := Split(rest, sep);
      var parts := [s[..k]] + tail;
      assert Split(s, sep) == parts;
      assert parts[1..] == tail;
      JoinSplit(rest, sep);
      assert Join(sep, parts) == s[..k] + sep + Join(sep, tail);
      assert s == s[..k] + sep + rest;
    }
  }

  /** No piece of a split contains the separator. */
  lemma {:induction false} SplitPiecesFree(s: string, sep: string)
    requires |sep| > 0
    ensures forall p :: p in Split(s, sep) ==> !Contains(p, sep)
    decreases |s|
  {
    var k := Find(s, sep);
    if k >= 0 {
      var head := s[..k];
      forall j | OccursAt(head, sep, j) ensures false {
        assert head[j..j + |sep|] == s[j..j + |sep|];
        assert OccursAt(s, sep, j);
      }
      SplitPiecesFree(s[k + |sep|..], sep);
    }
  }

  /** The string splits into more than one piece exactly when it contains the separator. */
  lemma SplitMany(s: string, sep: string)
    requires |sep| > 0
    ensures |Split(s, sep)| > 1 <==> Contains(s, sep)
  {
  }

  /** The second piece of a split is a prefix of what follows the first separator. */
  lemma SecondPiece(s: string, sep: string)
    requires |sep| > 0 && Contains(s, sep)
    ensures |Split(s, sep)| > 1
    ensures var rest := s[Find(s, sep) + |sep|..];
      |Split(s, sep)[1]| <= |rest| && Split(s, sep)[1] == rest[..|Split(s, sep)[1]|]
  {
    var k := Find(s, sep);
    var rest := s[k + |sep|..];
    assert Split(s, sep) == [s[..k]] + Split(rest, sep);
    var piece := Split(rest, sep)[0];
    if Find(rest, sep) < 0 {
      assert piece == rest;
    } else {
      assert piece == rest[..Find(rest, sep)];
    }
  }

  /** The first piece of a split ends at the first occurrence of the separator. */
  lemma FirstPiece(s: string, sep: string, k: int)
    requires |sep| > 0 && OccursAt(s, sep, k)
    requires forall j :: 0 <= j < k ==> !OccursAt(s, sep, j)
    ensures Find(s, sep) == k && Split(s, sep)[0] == s[..k]
  {
  }

  /** When no separator starts among the first `n` characters of `rest`, the text after
      the first separator, the second piece of the split keeps at least those `n`
      characters. */
  lemma SecondPieceFrom(s: string, sep: string, rest: string, n: nat)
    requires |sep| > 0 && Contains(s, sep) && rest == s[Find(s, sep) + |sep|..]
    requires n <= |rest| && forall j :: 0 <= j < n ==> !OccursAt(rest, sep, j)
    ensures |Split(s, sep)| > 1
    ensures n <= |Split(s, sep)[1]| <= |rest| && Split(s, sep)[1] == rest[..|Split(s, sep)[1]|]
  {
    var k := Find(s, sep);
    assert Split(s, sep) == [s[..k]] + Split(rest, sep);
    var piece := Split(rest, sep)[0];
    if Find(rest, sep) < 0 {
      assert piece == rest;
    } else {
      assert OccursAt(rest, sep, Find(rest, sep));
      assert piece == rest[..Find(rest, sep)];
    }
  }

  /** No piece of a split at a one-character separator holds that character. */
  lemma SplitFreeOfChar(s: string, c: char)
    ensures forall p :: p in Split(s, [c]) ==> c !in p
  {
    SplitPiecesFree(s, [c]);
    forall p, j | p in Split(s, [c]) && 0 <= j < |p| ensures p[j] != c {
      assert !OccursAt(p, [c], j);
      assert p[j..j + 1] == [p[j]];
    }
  }

  /** Joining pieces free of a one-character separator and splitting again gives the pieces back. */
  lemma {:induction false} SplitJoin(parts: seq<string>, c: char)
    requires |parts| > 0
    requires forall p :: p in parts ==> c !in p
    ensures Split(Join([c], parts), [c]) == parts
  {
    var s := Join([c], parts);
    if |parts| == 1 {
      NoCharNoOccurrence(parts[0], c);
    } else {
      var rest := Join([c], parts[1..]);
      assert s == parts[0] + [c] + rest;
      assert OccursAt(s, [c], |parts[0]|);
      forall j | 0 <= j < |parts[0]| ensures !OccursAt(s, [c], j) {
        assert parts[0] in parts;
        assert s[j] == parts[0][j];
        assert s[j..j + 1] == [s[j]];
      }
      assert Find(s, [c]) == |parts[0]|;
      assert s[..|parts[0]|] == parts[0];
      assert s[|parts[0]| + 1..] == rest;
      SplitJoin(parts[1..], c);
    }
  }

  lemma NoCharNoOccurrence(p: string, c: char)
    requires c !in p
    ensures Find(p, [c]) == -1
  {
    forall j | 0 <= j ensures !OccursAt(p, [c], j) {
      if j + 1 <= |p| {
        assert p[j..j + 1] == [p[j]];
      }
    }
  }

  // ---------------------------------------------------------------- whitespace words

  /** The length of the run of non-whitespace characters that starts `s`. */
  function WordLength(s: string): (n: nat)
    ensures n <= |s|
    ensures forall i :: 0 <= i < n ==> !IsSpace(s[i])
    ensures n == |s| || IsSpace(s[n])
  {
    if |s| == 0 || IsSpace(s[0]) then 0 else 1 + WordLength(s[1..])
  }

  /** `s.split()`: the maximal runs of non-whitespace characters, in order. */
  function Words(s: string): (r: seq<string>)
    ensures forall w :: w in r ==> w != "" && forall i :: 0 <= i < |w| ==> !IsSpace(w[i])
    decreases |s|
  {
    if s == "" then []
    else if IsSpace(s[0]) then Words(s[1..])
    else
      var n := WordLength(s);
      [s[..n]] + Words(s[n..])
  }

  /** `strip()` is `lstrip()` followed by `rstrip()`. */
  lemma StripBothEnds(s: string)
    ensures Strip(s) == RStrip(LStrip(s))
  {
  }

  /** Leading whitespace before a text that does not start with whitespace is stripped. */
  lemma {:induction false} LStripBlankPrefix(sep: string, x: string)
    requires forall i :: 0 <= i < |sep| ==> IsSpace(sep[i])
    requires x == "" || !IsSpace(x[0])
    ensures LStrip(sep + x) == x
  {
    if sep == "" {
      assert sep + x == x;
    } else {
      assert (sep + x)[0] == sep[0];
      assert (sep + x)[1..] == sep[1..] + x;
      LStripBlankPrefix(sep[1..], x);
    }
  }

  /** Right-stripping a word followed by text keeps the word and a prefix `t` of the text. */
  lemma RStripKeepsWord(w: string, tail: string) returns (t: string)
    requires w != "" && forall i :: 0 <= i < |w| ==> !IsSpace(w[i])
    ensures |t| <= |tail| && t == tail[..|t|]
    ensures RStrip(w + tail) == w + t
  {
    var s := w + tail;
    var r := RStrip(s);
    assert s[|w| - 1] == w[|w| - 1];
    assert |r| >= |w|;
    t := tail[..|r| - |w|];
    assert r == s[..|r|];
    assert s[..|r|] == w + t;
  }

  /** Stripping a word between leading whitespace and a text keeps the word and a prefix of the text. */
  lemma StripAroundWord(sep: string, w: string, tail: string) returns (t: string)
    requires forall i :: 0 <= i < |sep| ==> IsSpace(sep[i])
    requires w != "" && forall i :: 0 <= i < |w| ==> !IsSpace(w[i])
    ensures |t| <= |tail| && t == tail[..|t|]
    ensures Strip(sep + w + tail) == w + t
  {
    var x := sep + w + tail;
    assert x == sep + (w + tail);
    assert (w + tail)[0] == w[0];
    LStripBlankPrefix(sep, w + tail);
    t := RStripKeepsWord(w, tail);
    StripBothEnds(x);
  }

  /** The first word of a word followed by nothing or by whitespace is that word. */
  lemma FirstWordOf(w: string, t: string)
    requires w != "" && forall i :: 0 <= i < |w| ==> !IsSpace(w[i])
    requires t == "" || IsSpace(t[0])
    ensures Words(w + t) != [] && Words(w + t)[0] == w
  {
    var r := w + t;
    WordLengthOfWord(w, t);
    assert r[0] == w[0];
    assert r[..|w|] == w;
  }

  /** Stripping whitespace, then cutting a text into words: a word after leading
      whitespace, followed by nothing or by whitespace, is the first word. */
  lemma FirstWordAfterBlank(sep: string, w: string, tail: string)
    requires forall i :: 0 <= i < |sep| ==> IsSpace(sep[i])
    requires w != "" && forall i :: 0 <= i < |w| ==> !IsSpace(w[i])
    requires tail == "" || IsSpace(tail[0])
    ensures Words(Strip(sep + w + tail)) != [] && Words(Strip(sep + w + tail))[0] == w
  {
    var t := StripAroundWord(sep, w, tail);
    assert t == "" || t[0] == tail[0];
    FirstWordOf(w, t);
  }

  /** `s.split(p)[1].strip().split()[0]` is the word `w` of `pre + p + sep + w + tail` when
      `p` first occurs after `pre`, `sep` is whitespace, `tail` is empty or starts with
      whitespace, and no other `p` starts before `w` ends. */
  lemma WordAfterSeparator(pre: string, p: string, sep: string, w: string, tail: string)
    requires |p| > 0 && Find(pre + p + sep + w + tail, p) == |pre|
    requires forall i :: 0 <= i < |sep| ==> IsSpace(sep[i])
    requires w != "" && forall i :: 0 <= i < |w| ==> !IsSpace(w[i])
    requires tail == "" || IsSpace(tail[0])
    requires forall j :: 0 <= j < |sep| + |w| ==> !OccursAt(sep + w + tail, p, j)
    ensures |Split(pre + p + sep + w + tail, p)| > 1
    ensures var words := Words(Strip(Split(pre + p + sep + w + tail, p)[1]));
      words != [] && words[0] == w
  {
    assert pre + p + sep + w + tail == pre + p + (sep + w) + tail;
    var t := PieceAfterSeparator(pre, p, sep + w, tail);
    assert Split(pre + p + sep + w + tail, p)[1] == sep + w + t;
    assert t == "" || t[0] == tail[0];
    FirstWordAfterBlank(sep, w, t);
  }

  /** The second piece of `(pre + p + head + tail).split(p)`, when `p` first occurs after
      `pre` and no other `p` starts inside `head`, is `head` and a prefix `t` of `tail`. */
  lemma PieceAfterSeparator(pre: string, p: string, head: string, tail: string) returns (t: string)
    requires |p| > 0 && Find(pre + p + head + tail, p) == |pre|
    requires forall j :: 0 <= j < |head| ==> !OccursAt(head + tail, p, j)
    ensures |Split(pre + p + head + tail, p)| > 1
    ensures |t| <= |tail| && t == tail[..|t|]
    ensures Split(pre + p + head + tail, p)[1] == head + t
  {
    var s := pre + p + head + tail;
    var rest := head + tail;
    assert s == pre + p + rest;
    assert s[|pre| + |p|..] == rest;
    SecondPieceFrom(s, p, rest, |head|);
    var piece := Split(s, p)[1];
    t := tail[..|piece| - |head|];
    assert piece == head + t;
  }

  /** The second piece of `(p + gap + p + tail).split(p)` is `gap` when no other `p`
      starts inside `gap`. */
  lemma PieceBetween(p: string, gap: string, tail: string)
    requires |p| > 0
    requires forall j :: 0 <= j < |gap| ==> !OccursAt(gap + p + tail, p, j)
    ensures |Split(p + gap + p + tail, p)| > 1 && Split(p + gap + p + tail, p)[1] == gap
  {
    var s := p + gap + p + tail;
    var rest := gap + p + tail;
    assert s == p + rest;
    assert OccursAt(s, p, 0);
    assert Find(s, p) == 0;
    assert s[|p|..] == rest;
    assert OccursAt(rest, p, |gap|);
    FirstPiece(rest, p, |gap|);
    assert rest[..|gap|] == gap;
  }

  /** A string made only of whitespace (the empty one included) has no words. */
  lemma {:induction false} WordsOfBlank(s: string)
    requires forall i :: 0 <= i < |s| ==> IsSpace(s[i])
    ensures Words(s) == []
    decreases |s|
  {
    if s != "" {
      WordsOfBlank(s[1..]);
    }
  }

  /** The first word of a word followed by nothing or by whitespace is that word. */
  lemma {:induction false} WordLengthOfWord(w: string, rest: string)
    requires forall i :: 0 <= i < |w| ==> !IsSpace(w[i])
    requires rest == "" || IsSpace(rest[0])
    ensures WordLength(w + rest) == |w|
    decreases |w|
  {
    if w == "" {
      assert w + rest == rest;
    } else {
      assert (w + rest)[0] == w[0];
      assert (w + rest)[1..] == w[1..] + rest;
      WordLengthOfWord(w[1..], rest);
    }
  }

  /** A word followed by a space and more text is the first word of it. */
  lemma WordsOfWordAndSpace(w: string, r: string)
    requires w != "" && forall i :: 0 <= i < |w| ==> !IsSpace(w[i])
    ensures Words(w + " " + r) == [w] + Words(r)
  {
    var s := w + " " + r;
    assert s == w + (" " + r);
    WordLengthOfWord(w, " " + r);
    assert s[0] == w[0];
    assert s[..|w|] == w;
    assert s[|w|..] == " " + r;
    assert (" " + r)[1..] == r;
  }

  /** Joining words with single spaces and splitting at whitespace gives the words back. */
  lemma {:induction false} WordsOfJoin(ws: seq<string>)
    requires forall w :: w in ws ==> w != "" && forall i :: 0 <= i < |w| ==> !IsSpace(w[i])
    ensures Words(Join(" ", ws)) == ws
  {
    if |ws| == 1 {
      var w := ws[0];
      assert w in ws;
      WordLengthOfWord(w, "");
      assert w + "" == w;
      assert w[|w|..] == "";
    } else if |ws| > 1 {
      assert ws[0] in ws;
      WordsOfWordAndSpace(ws[0], Join(" ", ws[1..]));
      forall v | v in ws[1..] ensures v != "" && forall i :: 0 <= i < |v| ==> !IsSpace(v[i]) {
        assert v in ws;
      }
      WordsOfJoin(ws[1..]);
      assert ws == [ws[0]] + ws[1..];
    }
  }

  /** Any string that is not all whitespace has a first word. */
  lemma {:induction false} WordsOfNonBlank(s: string, i: nat)
    requires i < |s| && !IsSpace(s[i])
    ensures Words(s) != []
    decreases |s|
  {
    if IsSpace(s[0]) {
      WordsOfNonBlank(s[1..], i - 1);
    }
  }

  // ---------------------------------------------------------------- lower and isdigit

  /** `c.lower()` on ASCII letters; every other character is kept. */
  function LowerChar(c: char): char
  {
    if 'A' <= c <= 'Z' then (c as int - 'A' as int + 'a' as int) as char else c
  }

  /** `s.lower()`, character by character. */
  function Lower(s: string): (r: string)
    ensures |r| == |s|
    ensures forall i :: 0 <= i < |s| ==> r[i] == LowerChar(s[i])
  {
    seq(|s|, i requires 0 <= i < |s| => LowerChar(s[i]))
  }

  /** Lowering twice is lowering once. */
  lemma LowerIdempotent(s: string)
    ensures Lower(Lower(s)) == Lower(s)
  {
  }

  predicate IsDigit(c: char)
  {
    '0' <= c <= '9'
  }

  /** `''.join(filter(str.isdigit, s))`: the digits of `s`, in order. */
  function Digits(s: string): (r: string)
    ensures |r| <= |s|
    ensures forall i :: 0 <= i < |r| ==> IsDigit(r[i])
  {
    if s == "" then ""
    else if IsDigit(s[0]) then [s[0]] + Digits(s[1..])
    else Digits(s[1..])
  }

  /** The digits of a concatenation are those of each part, in turn. */
  lemma {:induction false} DigitsAppend(a: string, b: string)
    ensures Digits(a + b) == Digits(a) + Digits(b)
  {
    if a == "" {
      assert a + b == b;
    } else {
      assert (a + b)[0] == a[0];
      assert (a + b)[1..] == a[1..] + b;
      DigitsAppend(a[1..], b);
    }
  }

  /** Whitespace holds no digits. */
  lemma {:induction false} DigitsOfBlank(s: string)
    requires forall i :: 0 <= i < |s| ==> IsSpace(s[i])
    ensures Digits(s) == ""
  {
    if s != "" {
      assert IsSpace(s[0]);
      DigitsOfBlank(s[1..]);
    }
  }

  /** Stripping whitespace does not change the digits of a text. */
  lemma DigitsOfStrip(s: string)
    ensures Digits(Strip(s)) == Digits(s)
  {
    StripBothEnds(s);
    DigitsOfLStrip(s);
    DigitsOfRStrip(LStrip(s));
  }

  lemma DigitsOfLStrip(s: string)
    ensures Digits(LStrip(s)) == Digits(s)
  {
    var l := LStrip(s);
    var head := s[..|s| - |l|];
    assert s == head + l;
    DigitsOfBlank(head);
    DigitsAppend(head, l);
  }

  lemma DigitsOfRStrip(s: string)
    ensures Digits(RStrip(s)) == Digits(s)
  {
    var r := RStrip(s);
    var end := s[|r|..];
    assert s == r + end;
    DigitsOfBlank(end);
    DigitsAppend(r, end);
  }

  /** `idx` lists, at increasing positions, the characters of `s` that make up `d`, and
      every digit of `s` is at one of those positions. */
  predicate DigitPositions(s: string, d: string, idx: seq<int>)
  {
    && |idx| == |d|
    && (forall k :: 0 <= k < |idx| ==> 0 <= idx[k] < |s| && s[idx[k]] == d[k])
    && (forall k, m :: 0 <= k < m < |idx| ==> idx[k] < idx[m])
    && (forall i :: 0 <= i < |s| && IsDigit(s[i]) ==> i in idx)
  }

  /** `Digits(s)` keeps exactly the digit characters of `s`, in their order. */
  lemma {:induction false} DigitsInOrder(s: string) returns (idx: seq<int>)
    ensures DigitPositions(s, Digits(s), idx)
  {
    if s == "" {
      return [];
    }
    var inner := DigitsInOrder(s[1..]);
    var shifted := ShiftPositions(s, Digits(s[1..]), inner);
    if IsDigit(s[0]) {
      assert Digits(s) == [s[0]] + Digits(s[1..]);
      idx := PrependFirst(s, Digits(s[1..]), shifted);
    } else {
      assert Digits(s) == Digits(s[1..]);
      idx := shifted;
    }
  }

  /** Positions from index 1 on, with position 0 in front, for a string that starts with a digit. */
  lemma PrependFirst(s: string, d: string, shifted: seq<int>) returns (idx: seq<int>)
    requires s != "" && IsDigit(s[0]) && |shifted| == |d|
    requires forall k :: 0 <= k < |shifted| ==> 1 <= shifted[k] < |s| && s[shifted[k]] == d[k]
    requires forall k, m :: 0 <= k < m < |shifted| ==> shifted[k] < shifted[m]
    requires forall i :: 1 <= i < |s| && IsDigit(s[i]) ==> i in shifted
    ensures DigitPositions(s, [s[0]] + d, idx)
  {
    idx := [0] + shifted;
    var e := [s[0]] + d;
    forall k | 0 <= k < |idx| ensures 0 <= idx[k] < |s| && s[idx[k]] == e[k] {
      if k > 0 {
        assert idx[k] == shifted[k - 1] && e[k] == d[k - 1];
      }
    }
    forall k, m | 0 <= k < m < |idx| ensures idx[k] < idx[m] {
      assert idx[m] == shifted[m - 1];
      if k > 0 {
        assert idx[k] == shifted[k - 1];
      }
    }
    forall i | 0 <= i < |s| && IsDigit(s[i]) ensures i in idx {
      if i > 0 {
        assert i in shifted;
      }
    }
  }

  /** The positions of `s[1..]`, moved one place on, are positions in `s`. */
  lemma ShiftPositions(s: string, d: string, inner: seq<int>) returns (shifted: seq<int>)
    requires s != "" && DigitPositions(s[1..], d, inner)
    ensures |shifted| == |d|
    ensures forall k :: 0 <= k < |shifted| ==> 1 <= shifted[k] < |s| && s[shifted[k]] == d[k]
    ensures forall k, m :: 0 <= k < m < |shifted| ==> shifted[k] < shifted[m]
    ensures forall i :: 1 <= i < |s| && IsDigit(s[i]) ==> i in shifted
  {
    shifted := seq(|inner|, k requires 0 <= k < |inner| => inner[k] + 1);
    forall k | 0 <= k < |shifted| ensures s[shifted[k]] == d[k] {
      assert s[inner[k] + 1] == s[1..][inner[k]];
    }
    forall i | 1 <= i < |s| && IsDigit(s[i]) ensures i in shifted {
      assert s[1..][i - 1] == s[i];
      assert i - 1 in inner;
      var k :| 0 <= k < |inner| && inner[k] == i - 1;
      assert shifted[k] == i;
    }
  }

  /** Filtering a string of digits keeps all of it. */
  lemma {:induction false} DigitsOfDigits(s: string)
    requires forall i :: 0 <= i < |s| ==> IsDigit(s[i])
    ensures Digits(s) == s
  {
    if s != "" {
      DigitsOfDigits(s[1..]);
    }
  }
}
