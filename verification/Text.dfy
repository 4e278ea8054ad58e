/** The string functions of the Go library that the parsers call. Strings are sequences of code points. */
module Text {
  import opened Sequences

  predicate IsSpace(c: char) {
    || '\t' <= c <= '\r' || c == ' ' || c == '\U{0085}' || c == '\U{00A0}' || c == '\U{1680}'
    || '\U{2000}' <= c <= '\U{200A}' || c == '\U{2028}' || c == '\U{2029}' || c == '\U{202F}'
    || c == '\U{205F}' || c == '\U{3000}'
  }

  ghost predicate AllOf(p: char -> bool, s: string) {
    forall i :: 0 <= i < |s| ==> p(s[i])
  }

  ghost predicate NoneOf(p: char -> bool, s: string) {
    forall i :: 0 <= i < |s| ==> !p(s[i])
  }

  // ----- trimming

  function TrimLeft(s: string): string {
    if s != [] && IsSpace(s[0]) then TrimLeft(s[1..]) else s
  }

  function TrimRight(s: string): string {
    if s != [] && IsSpace(s[|s| - 1]) then TrimRight(s[..|s| - 1]) else s
  }

  function TrimSpace(s: string): string {
    TrimRight(TrimLeft(s))
  }

  lemma {:induction false} TrimLeftDrops(pre: string, s: string)
    requires AllOf(IsSpace, pre) && (s == [] || !IsSpace(s[0]))
    ensures TrimLeft(pre + s) == s
  {
    if pre == [] {
      assert pre + s == s;
    } else {
      assert (pre + s)[1..] == pre[1..] + s;
      TrimLeftDrops(pre[1..], s);
    }
  }

  lemma {:induction false} TrimRightDrops(s: string, post: string)
    requires AllOf(IsSpace, post) && (s == [] || !IsSpace(s[|s| - 1]))
    ensures TrimRight(s + post) == s
  {
    if post == [] {
      assert s + post == s;
    } else {
      assert (s + post)[..|s + post| - 1] == s + post[..|post| - 1];
      assert (s + post)[|s + post| - 1] == post[|post| - 1];
      TrimRightDrops(s, post[..|post| - 1]);
    }
  }

  lemma TrimSurrounded(pre: string, s: string, post: string)
    requires AllOf(IsSpace, pre) && AllOf(IsSpace, post)
    requires s != [] && !IsSpace(s[0]) && !IsSpace(s[|s| - 1])
    ensures TrimSpace(pre + s + post) == s
  {
    assert pre + s + post == pre + (s + post);
    TrimLeftDrops(pre, s + post);
    TrimRightDrops(s, post);
  }

  // ----- splitting around runs of separators

  function SkipSep(sep: char -> bool, s: string): (t: string)
    ensures |t| <= |s| && (t == [] || !sep(t[0]))
  {
    if s != [] && sep(s[0]) then SkipSep(sep, s[1..]) else s
  }

  function FirstWord(sep: char -> bool, s: string): (w: string)
    ensures w <= s
    ensures s != [] && !sep(s[0]) ==> w != []
  {
    if s == [] || sep(s[0]) then [] else [s[0]] + FirstWord(sep, s[1..])
  }

  function FieldsFunc(sep: char -> bool, s: string): seq<string>
    decreases |s|
  {
    var t := SkipSep(sep, s);
    if t == [] then []
    else
      var w := FirstWord(sep, t);
      [w] + FieldsFunc(sep, t[|w|..])
  }

  function Fields(s: string): seq<string> {
    FieldsFunc(IsSpace, s)
  }

  lemma {:induction false} SkipSepDrops(sep: char -> bool, gap: string, s: string)
    requires AllOf(sep, gap) && (s == [] || !sep(s[0]))
    ensures SkipSep(sep, gap + s) == s
  {
    if gap == [] {
      assert gap + s == s;
    } else {
      assert (gap + s)[1..] == gap[1..] + s;
      SkipSepDrops(sep, gap[1..], s);
    }
  }

  lemma {:induction false} FirstWordTakes(sep: char -> bool, w: string, rest: string)
    requires NoneOf(sep, w) && (rest == [] || sep(rest[0]))
    ensures FirstWord(sep, w + rest) == w
  {
    if w == [] {
      assert w + rest == rest;
    } else {
      assert (w + rest)[1..] == w[1..] + rest;
      FirstWordTakes(sep, w[1..], rest);
    }
  }

  lemma FieldsFront(sep: char -> bool, w: string, rest: string)
    requires w != [] && NoneOf(sep, w) && (rest == [] || sep(rest[0]))
    ensures FieldsFunc(sep, w + rest) == [w] + FieldsFunc(sep, rest)
  {
    assert (w + rest)[0] == w[0];
    assert SkipSep(sep, w + rest) == w + rest;
    FirstWordTakes(sep, w, rest);
    assert (w + rest)[|w|..] == rest;
  }

  lemma FieldsOfGap(sep: char -> bool, gap: string)
    requires AllOf(sep, gap)
    ensures FieldsFunc(sep, gap) == []
  {
    SkipSepDrops(sep, gap, []);
    assert gap + [] == gap;
  }

  /** Words can be put together with any separators, and come apart again. */
  ghost predicate Words(sep: char -> bool, words: seq<string>) {
    forall i :: 0 <= i < |words| ==> words[i] != [] && NoneOf(sep, words[i])
  }

  function Join(glue: char, words: seq<string>): string {
    if words == [] then []
    else if |words| == 1 then words[0]
    else words[0] + [glue] + Join(glue, words[1..])
  }

  lemma {:induction false} JoinEnds(glue: char, words: seq<string>)
    requires words != [] && words[|words| - 1] != []
    ensures var s := Join(glue, words); var w := words[|words| - 1]; s != [] && s[|s| - 1] == w[|w| - 1]
  {
    if |words| > 1 {
      JoinEnds(glue, words[1..]);
    }
  }

  lemma JoinStarts(glue: char, words: seq<string>)
    requires words != [] && words[0] != []
    ensures Join(glue, words) != [] && Join(glue, words)[0] == words[0][0]
  {
  }

  // Words put together have no blank at either end.
  lemma JoinIsTrim(words: seq<string>)
    requires words != [] && Words(IsSpace, words)
    ensures TrimSpace(Join(' ', words)) == Join(' ', words) != []
    ensures !IsSpace(Join(' ', words)[0]) && !IsSpace(Join(' ', words)[|Join(' ', words)| - 1])
  {
    JoinStarts(' ', words);
    JoinEnds(' ', words);
    var s := Join(' ', words);
    TrimSurrounded("", s, "");
    assert "" + s + "" == s;
  }

  lemma FieldsOfWord(sep: char -> bool, w: string)
    requires w != [] && NoneOf(sep, w)
    ensures FieldsFunc(sep, w) == [w]
  {
    FieldsFront(sep, w, []);
    FieldsOfGap(sep, []);
    assert w + [] == w;
  }

  lemma {:induction false} FieldsOfJoin(sep: char -> bool, glue: char, words: seq<string>)
    requires sep(glue) && Words(sep, words)
    ensures FieldsFunc(sep, Join(glue, words)) == words
    decreases |words|
  {
    if words == [] {
      FieldsOfGap(sep, []);
    } else if |words| == 1 {
      FieldsOfWord(sep, words[0]);
    } else {
      FieldsOfJoin(sep, glue, words[1..]);
      JoinStep(sep, glue, words[0], Join(glue, words[1..]));
      assert words == [words[0]] + words[1..];
    }
  }

  lemma JoinStep(sep: char -> bool, glue: char, w: string, rest: string)
    requires sep(glue) && w != [] && NoneOf(sep, w)
    ensures FieldsFunc(sep, w + [glue] + rest) == [w] + FieldsFunc(sep, rest)
  {
    FieldsFront(sep, w, [glue] + rest);
    assert w + ([glue] + rest) == w + [glue] + rest;
    FieldsAfterGap(sep, [glue], rest);
  }

  // A gap in front changes nothing.
  lemma {:induction false} FieldsAfterGap(sep: char -> bool, gap: string, s: string)
    requires AllOf(sep, gap)
    ensures FieldsFunc(sep, gap + s) == FieldsFunc(sep, s)
  {
    SkipAfterGap(sep, gap, s);
  }

  lemma {:induction false} SkipAfterGap(sep: char -> bool, gap: string, s: string)
    requires AllOf(sep, gap)
    ensures SkipSep(sep, gap + s) == SkipSep(sep, s)
  {
    if gap == [] {
      assert gap + s == s;
    } else {
      assert (gap + s)[1..] == gap[1..] + s;
      SkipAfterGap(sep, gap[1..], s);
    }
  }

  /** The fields of two texts with a separator between them are those of one and then the other. */
  lemma {:induction false} FieldsConcat(sep: char -> bool, a: string, b: string)
    requires a == [] || b == [] || sep(b[0])
    ensures FieldsFunc(sep, a + b) == FieldsFunc(sep, a) + FieldsFunc(sep, b)
    decreases |a|, 1
  {
    var t := SkipSep(sep, a);
    var gap := SkippedGap(sep, a);
    assert a + b == gap + (t + b);
    FieldsAfterGap(sep, gap, t + b);
    FieldsAfterGap(sep, gap, t);
    if t == [] {
      assert t + b == b;
    } else {
      FieldsConcatWord(sep, t, b);
    }
  }

  lemma {:induction false} FieldsConcatWord(sep: char -> bool, t: string, b: string)
    requires t != [] && !sep(t[0]) && (b == [] || sep(b[0]))
    ensures FieldsFunc(sep, t + b) == FieldsFunc(sep, t) + FieldsFunc(sep, b)
    decreases |t|, 0
  {
    var w, rest := SplitWord(sep, t);
    FieldsConcat(sep, rest, b);
    FieldsFrontConcat(sep, w, rest, b);
  }

  lemma SplitWord(sep: char -> bool, t: string) returns (w: string, rest: string)
    requires t != [] && !sep(t[0])
    ensures t == w + rest && w != [] && NoneOf(sep, w) && (rest == [] || sep(rest[0]))
  {
    w := FirstWord(sep, t);
    WordEnds(sep, t);
    rest := t[|w|..];
  }

  lemma FieldsFrontConcat(sep: char -> bool, w: string, rest: string, b: string)
    requires w != [] && NoneOf(sep, w) && (rest == [] || sep(rest[0])) && (b == [] || sep(b[0]))
    requires FieldsFunc(sep, rest + b) == FieldsFunc(sep, rest) + FieldsFunc(sep, b)
    ensures FieldsFunc(sep, w + rest + b) == FieldsFunc(sep, w + rest) + FieldsFunc(sep, b)
  {
    FieldsFront(sep, w, rest);
    FieldsFront(sep, w, rest + b);
    Assoc(w, rest, b);
    Assoc([w], FieldsFunc(sep, rest), FieldsFunc(sep, b));
  }

  lemma {:induction false} SkippedGap(sep: char -> bool, s: string) returns (gap: string)
    ensures AllOf(sep, gap) && s == gap + SkipSep(sep, s)
  {
    if s != [] && sep(s[0]) {
      gap := SkippedGap(sep, s[1..]);
      gap := [s[0]] + gap;
      assert s == [s[0]] + s[1..];
    } else {
      gap := [];
    }
  }

  lemma {:induction false} WordEnds(sep: char -> bool, s: string)
    ensures var w := FirstWord(sep, s); NoneOf(sep, w) && (|w| == |s| || sep(s[|w|]))
  {
    if s != [] && !sep(s[0]) {
      WordEnds(sep, s[1..]);
    }
  }

  // ----- splitting at every separator

  function Index(c: char, s: string): (i: nat)
    ensures i <= |s| && (i < |s| ==> s[i] == c)
    ensures forall k :: 0 <= k < i ==> s[k] != c
  {
    if s == [] || s[0] == c then 0 else 1 + Index(c, s[1..])
  }

  function Split(c: char, s: string): (parts: seq<string>)
    ensures parts != []
    decreases |s|
  {
    var i := Index(c, s);
    if i == |s| then [s] else [s[..i]] + Split(c, s[i + 1..])
  }

  // At most two parts, around the first separator.
  function SplitTwo(c: char, s: string): (parts: seq<string>)
    ensures 1 <= |parts| <= 2
  {
    var i := Index(c, s);
    if i == |s| then [s] else [s[..i], s[i + 1..]]
  }

  lemma IndexIs(c: char, a: string, b: string)
    requires c !in a
    ensures Index(c, a + [c] + b) == |a| && Index(c, a) == |a|
  {
    var s := a + [c] + b;
    assert s[|a|] == c;
    assert forall k :: 0 <= k < |a| ==> s[k] == a[k];
  }

  lemma {:induction false} SplitOfJoin(c: char, parts: seq<string>)
    requires parts != [] && forall i :: 0 <= i < |parts| ==> c !in parts[i]
    ensures Split(c, Join(c, parts)) == parts
    decreases |parts|
  {
    var rest := Join(c, parts[1..]);
    IndexIs(c, parts[0], rest);
    if |parts| > 1 {
      var s := Join(c, parts);
      assert s[..|parts[0]|] == parts[0] && s[|parts[0]| + 1..] == rest;
      SplitOfJoin(c, parts[1..]);
      assert parts == [parts[0]] + parts[1..];
    }
  }

  lemma {:induction false} SplitConcat(c: char, a: string, b: string)
    ensures Split(c, a + [c] + b) == Split(c, a) + Split(c, b)
    decreases |a|
  {
    var i := Index(c, a);
    if i == |a| {
      SplitFront(c, a, b);
    } else {
      var front, rest := a[..i], a[i + 1..];
      assert a + [c] + b == front + [c] + (rest + [c] + b);
      SplitFront(c, front, rest + [c] + b);
      SplitConcat(c, rest, b);
      Assoc([front], Split(c, rest), Split(c, b));
    }
  }

  lemma SplitFront(c: char, front: string, rest: string)
    requires c !in front
    ensures Split(c, front + [c] + rest) == [front] + Split(c, rest)
  {
    var s := front + [c] + rest;
    IndexIs(c, front, rest);
    assert s[..|front|] == front && s[|front| + 1..] == rest;
  }

  /** There is more than one part exactly when the separator occurs. */
  lemma SplitCount(c: char, s: string)
    ensures |Split(c, s)| == 1 <==> c !in s
  {
  }

  // ----- scanning lines

  /** The lines that a scanner hands out before it stops, and whether it
      stopped because of an error (reading failed, or a line was too long). */
  datatype Scan = Scan(lines: seq<string>, failed: bool)

  predicate HasPrefix(s: string, prefix: string) {
    prefix <= s
  }
}
