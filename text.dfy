/**
 * Rust string primitives the gateway relies on (`trim`, `split`, `find`,
 * `strip_prefix`, `eq_ignore_ascii_case`, `lines`, `len`), on strings as
 * sequences of Unicode scalar values.
 */
module Text {
  import opened Wrappers

  /** Unicode `White_Space`, the set `str::trim` removes. */
  predicate IsWhitespace(c: char)
  {
    ('\U{9}' <= c <= '\U{D}') || c == ' ' || c == '\U{85}' || c == '\U{A0}' ||
    c == '\U{1680}' || ('\U{2000}' <= c <= '\U{200A}') || c == '\U{2028}' || c == '\U{2029}' ||
    c == '\U{202F}' || c == '\U{205F}' || c == '\U{3000}'
  }

  /** `str::trim_start`: drops the longest whitespace prefix. */
  function TrimStart(s: string): (r: string)
    ensures |r| <= |s| && r == s[|s| - |r|..]
    ensures forall i :: 0 <= i < |s| - |r| ==> IsWhitespace(s[i])
    ensures r != [] ==> !IsWhitespace(r[0])
  {
    if s != [] && IsWhitespace(s[0]) then TrimStart(s[1..]) else s
  }

  /** `str::trim_end`: drops the longest whitespace suffix. */
  function TrimEnd(s: string): (r: string)
    ensures |r| <= |s| && r == s[..|r|]
    ensures forall i :: |r| <= i < |s| ==> IsWhitespace(s[i])
    ensures r != [] ==> !IsWhitespace(r[|r| - 1])
  {
    if s != [] && IsWhitespace(s[|s| - 1]) then TrimEnd(s[..|s| - 1]) else s
  }

  /** Python's `str.isspace`: Unicode `White_Space` and the four separators U+001C to U+001F. */
  predicate IsPySpace(c: char)
  {
    IsWhitespace(c) || ('\U{1C}' <= c <= '\U{1F}')
  }

  /** `str.lstrip()`: drops the longest leading run of `IsPySpace`. */
  function StripStart(s: string): (r: string)
    ensures |r| <= |s| && r == s[|s| - |r|..]
    ensures forall i :: 0 <= i < |s| - |r| ==> IsPySpace(s[i])
    ensures r != [] ==> !IsPySpace(r[0])
  {
    if s != [] && IsPySpace(s[0]) then StripStart(s[1..]) else s
  }

  /** `str.rstrip()`: drops the longest trailing run of `IsPySpace`. */
  function StripEnd(s: string): (r: string)
    ensures |r| <= |s| && r == s[..|r|]
    ensures forall i :: |r| <= i < |s| ==> IsPySpace(s[i])
    ensures r != [] ==> !IsPySpace(r[|r| - 1])
  {
    if s != [] && IsPySpace(s[|s| - 1]) then StripEnd(s[..|s| - 1]) else s
  }

  /** `str::trim`: the slice left after dropping whitespace at both ends. */
  function Trim(s: string): (r: string)
    ensures exists i, j :: 0 <= i <= j <= |s| && r == s[i..j]
    ensures r != [] ==> !IsWhitespace(r[0]) && !IsWhitespace(r[|r| - 1])
  {
    var t := TrimEnd(s);
    var r := TrimStart(t);
    assert r == s[|t| - |r|..|t|];
    r
  }

  /** `char::to_ascii_lowercase`. */
  function LowerChar(c: char): char
  {
    if 'A' <= c <= 'Z' then (c as int + 32) as char else c
  }

  /**
   * `str::to_ascii_lowercase`; it also stands for `str::to_lowercase`, whose
   * Unicode case mapping is not modelled.
   */
  function Lower(s: string): (r: string)
    ensures |r| == |s|
    ensures forall i :: 0 <= i < |s| ==> r[i] == LowerChar(s[i])
  {
    seq(|s|, i requires 0 <= i < |s| => LowerChar(s[i]))
  }

  /** Lower-casing leaves a string with no ASCII capital unchanged. */
  lemma LowerIdle(s: string)
    requires forall i :: 0 <= i < |s| ==> !('A' <= s[i] <= 'Z')
    ensures Lower(s) == s
  {
  }

  /** `str::eq_ignore_ascii_case`. */
  predicate EqIgnoreAsciiCase(a: string, b: string)
  {
    Lower(a) == Lower(b)
  }

  predicate StartsWith(s: string, p: string)
  {
    |p| <= |s| && s[..|p|] == p
  }

  /** `str::strip_prefix`. */
  function StripPrefix(s: string, p: string): (r: Option<string>)
    ensures r.Some? <==> StartsWith(s, p)
    ensures r.Some? ==> s == p + r.value
  {
    if StartsWith(s, p) then Some(s[|p|..]) else None
  }

  /** `str::trim_start_matches` with a string pattern: strips `p` as often as it repeats. */
  function TrimStartMatches(s: string, p: string): (r: string)
    ensures |r| <= |s| && r == s[|s| - |r|..]
    ensures p != [] ==> !StartsWith(r, p)
    decreases |s|
  {
    if p != [] && StartsWith(s, p) then TrimStartMatches(s[|p|..], p) else s
  }

  predicate OccursAt(s: string, pat: string, i: nat)
  {
    i + |pat| <= |s| && s[i..i + |pat|] == pat
  }

  /** `str::find` with a string pattern: the first index where `pat` occurs. */
  function Find(s: string, pat: string): (r: Option<nat>)
    ensures r.Some? ==> OccursAt(s, pat, r.value) && forall j :: 0 <= j < r.value ==> !OccursAt(s, pat, j)
    ensures r.None? ==> forall j :: 0 <= j <= |s| ==> !OccursAt(s, pat, j)
  {
    FindFrom(s, pat, 0)
  }

  function FindFrom(s: string, pat: string, i: nat): (r: Option<nat>)
    requires i <= |s|
    ensures r.Some? ==> i <= r.value && OccursAt(s, pat, r.value) && forall j :: i <= j < r.value ==> !OccursAt(s, pat, j)
    ensures r.None? ==> forall j :: i <= j <= |s| ==> !OccursAt(s, pat, j)
    decreases |s| - i
  {
    if OccursAt(s, pat, i) then Some(i)
    else if i == |s| then None
    else FindFrom(s, pat, i + 1)
  }

  /** The pieces joined back with the separator. */
  function Join(pieces: seq<string>, sep: char): string
  {
    if |pieces| == 0 then ""
    else if |pieces| == 1 then pieces[0]
    else pieces[0] + [sep] + Join(pieces[1..], sep)
  }

  /** The first position of the character `c` in `s`. */
  function FindChar(s: string, c: char): (r: Option<nat>)
    ensures r.None? ==> c !in s
    ensures r.Some? ==> r.value < |s| && s[r.value] == c && c !in s[..r.value]
  {
    var f := Find(s, [c]);
    if f.None? then
      assert forall j :: 0 <= j < |s| ==> !OccursAt(s, [c], j) ==> s[j] != c;
      f
    else
      var i := f.value;
      assert s[i..i + 1] == [c];
      assert forall j :: 0 <= j < i ==> !OccursAt(s, [c], j) ==> s[j] != c;
      f
  }

  /** `str::split` on one character: every piece, empty ones included. */
  function Split(s: string, sep: char): (r: seq<string>)
    ensures |r| >= 1
    ensures forall i :: 0 <= i < |r| ==> sep !in r[i]
    ensures Join(r, sep) == s
    decreases |s|
  {
    match FindChar(s, sep)
    case None => [s]
    case Some(i) =>
      var rest := Split(s[i + 1..], sep);
      assert s == s[..i] + [sep] + s[i + 1..];
      [s[..i]] + rest
  }

  /** `str::splitn(2, sep)`: the text before the first separator and, if there is one, the rest. */
  function SplitOnce(s: string, sep: char): (r: (string, Option<string>))
    ensures r.1.None? ==> r.0 == s && sep !in s
    ensures r.1.Some? ==> s == r.0 + [sep] + r.1.value && sep !in r.0
  {
    match FindChar(s, sep)
    case None => (s, None)
    case Some(i) =>
      assert s == s[..i] + [sep] + s[i + 1..];
      (s[..i], Some(s[i + 1..]))
  }

  lemma HeadIn<T>(s: seq<T>)
    ensures s != [] ==> s[0] in s
  {
  }

  lemma FirstOfJoin(a: string, b: string, sep: char)
    ensures (a + [sep] + b)[0] == if a == [] then sep else a[0]
  {
  }

  /** A string joined around one separator free of it splits back the same way. */
  lemma {:induction false} SplitUnique(a1: string, b1: string, a2: string, b2: string, sep: char)
    requires sep !in a1 && sep !in a2
    requires a1 + [sep] + b1 == a2 + [sep] + b2
    ensures a1 == a2 && b1 == b2
  {
    if a1 != [] && a2 != [] {
      assert (a1 + [sep] + b1)[0] == a1[0] && (a2 + [sep] + b2)[0] == a2[0];
      assert (a1 + [sep] + b1)[1..] == a1[1..] + [sep] + b1;
      assert (a2 + [sep] + b2)[1..] == a2[1..] + [sep] + b2;
      SplitUnique(a1[1..], b1, a2[1..], b2, sep);
      assert a1 == [a1[0]] + a1[1..] && a2 == [a2[0]] + a2[1..];
    } else {
      FirstOfJoin(a1, b1, sep);
      FirstOfJoin(a2, b2, sep);
      HeadIn(a1);
      HeadIn(a2);
      assert (a1 + [sep] + b1)[|a1| + 1..] == b1;
      assert (a2 + [sep] + b2)[|a2| + 1..] == b2;
    }
  }

  /** A line of `str::lines` that ended in a line feed loses one carriage return before it. */
  function StripCr(s: string): string
  {
    if |s| > 0 && s[|s| - 1] == '\r' then s[..|s| - 1] else s
  }

  /** Whether the text ends in a line feed, so that its last `split` piece is empty and is no line. */
  predicate EndsInLineFeed(s: string)
  {
    |s| > 0 && s[|s| - 1] == '\n'
  }

  /**
   * `str::lines`: the pieces between line feeds, except the empty piece after
   * a final line feed; a piece that a line feed ends loses one trailing
   * carriage return, while a bare carriage return at the very end stays
   * (`LinesArePieces`).
   */
  function Lines(s: string): (r: seq<string>)
    ensures s == [] <==> r == []
    ensures forall i :: 0 <= i < |r| ==> '\n' !in r[i]
    decreases |s|
  {
    if s == [] then []
    else
      var (head, rest) := SplitOnce(s, '\n');
      match rest
      case None => [head]
      case Some(tail) => [StripCr(head)] + Lines(tail)
  }

  /** The lines are the `split` pieces, the empty one after a final line feed dropped, with `StripCr` on each piece a line feed ends. */
  lemma {:induction false} LinesArePieces(s: string)
    ensures s != [] ==> |Lines(s)| == |Split(s, '\n')| - (if EndsInLineFeed(s) then 1 else 0)
    ensures forall i :: 0 <= i < |Lines(s)| ==>
      Lines(s)[i] == if i < |Split(s, '\n')| - 1 then StripCr(Split(s, '\n')[i]) else Split(s, '\n')[i]
    decreases |s|
  {
    if s != [] {
      var (head, rest) := SplitOnce(s, '\n');
      SplitOnceSplit(s, '\n');
      if rest.Some? {
        var tail := rest.value;
        if tail == [] {
          assert Split(tail, '\n') == [[]];
          assert s == head + ['\n'];
        } else {
          LinesArePieces(tail);
          PiecesStep(s);
        }
      } else {
        assert Split(s, '\n') == [s];
        assert s[|s| - 1] in s;
      }
    }
  }

  /** If the lines after the first line feed are those pieces, so are the lines of the whole text. */
  lemma PiecesStep(s: string)
    requires SplitOnce(s, '\n').1.Some? && SplitOnce(s, '\n').1.value != []
    requires var tail := SplitOnce(s, '\n').1.value;
      |Lines(tail)| == |Split(tail, '\n')| - (if EndsInLineFeed(tail) then 1 else 0) &&
      forall i :: 0 <= i < |Lines(tail)| ==>
        Lines(tail)[i] == if i < |Split(tail, '\n')| - 1 then StripCr(Split(tail, '\n')[i]) else Split(tail, '\n')[i]
    ensures |Lines(s)| == |Split(s, '\n')| - (if EndsInLineFeed(s) then 1 else 0)
    ensures forall i :: 0 <= i < |Lines(s)| ==>
      Lines(s)[i] == if i < |Split(s, '\n')| - 1 then StripCr(Split(s, '\n')[i]) else Split(s, '\n')[i]
  {
    var (head, rest) := SplitOnce(s, '\n');
    var tail := rest.value;
    SplitOnceSplit(s, '\n');
    var p, pt := Split(s, '\n'), Split(tail, '\n');
    var ls, lt := Lines(s), Lines(tail);
    assert p == [head] + pt;
    assert ls == [StripCr(head)] + lt;
    assert tail[|tail| - 1] == s[|s| - 1];
    forall i | 0 <= i < |ls|
      ensures ls[i] == if i < |p| - 1 then StripCr(p[i]) else p[i]
    {
      if i > 0 {
        assert ls[i] == lt[i - 1] && p[i] == pt[i - 1];
        assert lt[i - 1] == if i - 1 < |pt| - 1 then StripCr(pt[i - 1]) else pt[i - 1];
      }
    }
  }

  /** `split` starts with the piece `splitn(2, ..)` cuts off. */
  lemma SplitOnceSplit(s: string, sep: char)
    ensures SplitOnce(s, sep).1.None? ==> Split(s, sep) == [s]
    ensures SplitOnce(s, sep).1.Some? ==> Split(s, sep) == [SplitOnce(s, sep).0] + Split(SplitOnce(s, sep).1.value, sep)
  {
  }

  /** Without carriage returns, the lines joined with line feeds, plus a final line feed if there was one, are the text. */
  lemma {:induction false} LinesJoin(s: string)
    requires '\r' !in s
    ensures Join(Lines(s), '\n') + (if EndsInLineFeed(s) then "\n" else "") == s
    decreases |s|
  {
    if s != [] {
      var (head, rest) := SplitOnce(s, '\n');
      if rest.Some? {
        var tail := rest.value;
        FirstLine(s);
        var lt := Lines(tail);
        if tail == [] {
          assert Join(Lines(s), '\n') == head;
        } else {
          LinesJoin(tail);
          var js, e := Join(lt, '\n'), if EndsInLineFeed(tail) then "\n" else "";
          JoinCons(head, lt, '\n');
          assert tail[|tail| - 1] == s[|s| - 1];
          ConcatAssoc(head + ['\n'], js, e);
        }
      } else {
        assert s[|s| - 1] in s;
      }
    }
  }

  /** Without carriage returns, the first line is the text before the first line feed, kept whole. */
  lemma FirstLine(s: string)
    requires '\r' !in s && SplitOnce(s, '\n').1.Some?
    ensures var (head, rest) := SplitOnce(s, '\n');
      s == head + ['\n'] + rest.value && '\r' !in rest.value &&
      Lines(s) == [head] + Lines(rest.value)
  {
    var (head, rest) := SplitOnce(s, '\n');
    assert s[..|head|] == head && s[|head| + 1..] == rest.value;
    if head != [] {
      assert head[|head| - 1] == s[|head| - 1];
    }
  }

  /** Joining one more piece in front adds it and a separator. */
  lemma JoinCons(head: string, p: seq<string>, sep: char)
    requires p != []
    ensures Join([head] + p, sep) == head + [sep] + Join(p, sep)
  {
    assert ([head] + p)[1..] == p;
  }

  lemma ConcatAssoc<T>(a: seq<T>, b: seq<T>, c: seq<T>)
    ensures a + b + c == a + (b + c)
  {
  }

  /** Byte length of the UTF-8 encoding, what Rust's `str::len` returns. */
  function Utf8Width(c: char): nat
  {
    if c < '\U{80}' then 1 else if c < '\U{800}' then 2 else if c < '\U{10000}' then 3 else 4
  }

  function Utf8Len(s: string): (n: nat)
    ensures |s| <= n <= 4 * |s|
  {
    if s == [] then 0 else Utf8Width(s[0]) + Utf8Len(s[1..])
  }
}
