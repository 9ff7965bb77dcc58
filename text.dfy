/** The optional value used wherever the application has `undefined`, `null` or a lookup miss. */
module Options {
  datatype Option<+T> = None | Some(value: T)
}

/** Exact integer arithmetic for the divisions and roundings the application does on numbers. */
module Numbers {

  /** Integer division of naturals, by repeated subtraction. */
  function Quotient(a: nat, b: nat): nat
    requires b > 0
    decreases a
  {
    if a < b then 0 else 1 + Quotient(a - b, b)
  }

  /** `Quotient` is floor division: the largest `q` with `q * b <= a`. */
  lemma {:induction false} QuotientBounds(a: nat, b: nat)
    requires b > 0
    ensures Quotient(a, b) * b <= a < (Quotient(a, b) + 1) * b
    decreases a
  {
    if a >= b {
      QuotientBounds(a - b, b);
    }
  }

  /** `Math.round(a / b)` for naturals: `floor((2a + b) / 2b)`. */
  function Round(a: nat, b: nat): nat
    requires b > 0
  {
    Quotient(2 * a + b, 2 * b)
  }

  /** `Round(a, b)` is the integer nearest to `a / b`, halves rounding up. */
  lemma RoundBounds(a: nat, b: nat)
    requires b > 0
    ensures 2 * Round(a, b) * b <= 2 * a + b < 2 * (Round(a, b) + 1) * b
  {
    QuotientBounds(2 * a + b, 2 * b);
  }
}

/**
 * Strings as the JavaScript runtime of the application sees them: the
 * whitespace class `\s`, `trim()`, `split(/\s+/)`, `replace(/\s+/g, ' ')`,
 * `toLowerCase()`, `includes` and decimal rendering of non-negative integers.
 */
module Text {
  import opened Collections

  /** The characters matched by `\s`; `String.prototype.trim` removes exactly these. */
  predicate IsSpace(c: char) {
    c == ' ' || c == '\t' || c == '\n' || c == '\r' || c == '\U{B}' || c == '\U{C}'
    || c == '\U{A0}' || c == '\U{1680}' || ('\U{2000}' <= c <= '\U{200A}')
    || c == '\U{2028}' || c == '\U{2029}' || c == '\U{202F}' || c == '\U{205F}'
    || c == '\U{3000}' || c == '\U{FEFF}'
  }

  /** Every character of `s` is whitespace (the empty string included). */
  predicate IsBlank(s: string) {
    forall k :: 0 <= k < |s| ==> IsSpace(s[k])
  }

  /** A non-empty piece of text containing no whitespace. */
  predicate IsWord(w: string) {
    w != [] && forall k :: 0 <= k < |w| ==> !IsSpace(w[k])
  }

  /** Neither the first nor the last character is whitespace. */
  predicate IsTrimmed(s: string) {
    s == [] || (!IsSpace(s[0]) && !IsSpace(s[|s| - 1]))
  }

  /** Length of the trailing run of whitespace characters. */
  function TrailingSpaceRun(s: string): (n: nat)
    ensures n <= |s|
    ensures forall k :: |s| - n <= k < |s| ==> IsSpace(s[k])
    ensures n < |s| ==> !IsSpace(s[|s| - 1 - n])
  {
    if s == [] || !IsSpace(s[|s| - 1]) then 0 else 1 + TrailingSpaceRun(s[..|s| - 1])
  }

  /** Where `Trim(s)` starts inside `s`. */
  function TrimOffset(s: string): (n: nat)
    ensures n <= |s|
  {
    SpaceRun(s)
  }

  /** `s.trim()`: the text between the leading and the trailing whitespace. */
  function Trim(s: string): (r: string)
    ensures IsTrimmed(r)
    ensures r == [] <==> IsBlank(s)
    ensures TrimOffset(s) + |r| <= |s| && r == s[TrimOffset(s)..TrimOffset(s) + |r|]
    ensures IsBlank(s[..TrimOffset(s)]) && IsBlank(s[TrimOffset(s) + |r|..])
  {
    var a := SpaceRun(s);
    if a == |s| then []
    else
      var b := TrailingSpaceRun(s);
      assert b < |s| - a;
      s[a..|s| - b]
  }

  /** Trimming a trimmed text changes nothing. */
  lemma TrimOfTrimmed(s: string)
    requires IsTrimmed(s)
    ensures Trim(s) == s
  {
    if s != [] {
      assert SpaceRun(s) == 0;
      assert TrailingSpaceRun(s) == 0;
    }
  }

  /** Length of the leading run of non-whitespace characters. */
  function WordRun(s: string): (n: nat)
    ensures n <= |s|
    ensures forall k :: 0 <= k < n ==> !IsSpace(s[k])
    ensures n < |s| ==> IsSpace(s[n])
  {
    if s == [] || IsSpace(s[0]) then 0 else 1 + WordRun(s[1..])
  }

  /** Length of the leading run of whitespace characters. */
  function SpaceRun(s: string): (n: nat)
    ensures n <= |s|
    ensures forall k :: 0 <= k < n ==> IsSpace(s[k])
    ensures n < |s| ==> !IsSpace(s[n])
  {
    if s == [] || !IsSpace(s[0]) then 0 else 1 + SpaceRun(s[1..])
  }

  /**
   * `s.split(/\s+/)`: the pieces between maximal whitespace runs, with an empty
   * piece before a leading run and after a trailing one; `""` splits to `[""]`.
   */
  function SplitWs(s: string): (r: seq<string>)
    ensures |r| >= 1
    ensures s != [] && !IsSpace(s[0]) ==> r[0] != ""
    decreases |s|
  {
    var n := WordRun(s);
    if n == |s| then
      [s]
    else
      var m := SpaceRun(s[n..]);
      assert n + m < |s| ==> s[n + m..][0] == s[n..][m];
      [s[..n]] + SplitWs(s[n + m..])
  }

  /** The pieces, put back together, are the text without its whitespace. */
  lemma {:induction false} SplitWsConcat(s: string)
    ensures Concat(SplitWs(s)) == Without(s, Whitespace)
    decreases |s|
  {
    var n := WordRun(s);
    if n == |s| {
      WithoutNone(s, Whitespace);
    } else {
      var m := SpaceRun(s[n..]);
      SplitWsConcat(s[n + m..]);
      SplitStepConcat(s, n, m, Whitespace, SplitWs(s[n + m..]));
    }
  }

  /** Splitting a trimmed, non-blank text yields only words. */
  lemma {:induction false} SplitTrimmedIsWords(s: string)
    requires IsTrimmed(s) && s != []
    ensures forall k :: 0 <= k < |SplitWs(s)| ==> IsWord(SplitWs(s)[k])
    decreases |s|
  {
    var n := WordRun(s);
    if n < |s| {
      var m := SpaceRun(s[n..]);
      var rest := s[n + m..];
      assert n + m < |s|;
      assert rest[0] == s[n..][m];
      assert rest[|rest| - 1] == s[|s| - 1];
      SplitTrimmedIsWords(rest);
    }
  }

  /** The whitespace-separated words of a text, as `s.trim().split(/\s+/)` gives them. */
  function Tokenize(s: string): (ws: seq<string>)
    ensures |ws| >= 1
    ensures ws == [""] <==> IsBlank(s)
    ensures IsTokenization(ws)
    ensures Concat(ws) == Without(s, Whitespace)
  {
    var t := Trim(s);
    TrimKeepsText(s);
    SplitWsConcat(t);
    if t == [] then
      assert WordRun(t) == 0;
      SplitWs(t)
    else
      SplitTrimmedIsWords(t);
      assert SplitWs(t)[0] != "";
      SplitWs(t)
  }

  /** The shapes `Tokenize` can produce: `[""]` for blank text, otherwise words only. */
  predicate IsTokenization(ws: seq<string>) {
    ws == [""] || forall k :: 0 <= k < |ws| ==> IsWord(ws[k])
  }

  /** The pieces joined with one separator character between consecutive pieces. */
  function Join(pieces: seq<string>, sep: char): (r: string)
    ensures |pieces| == 1 ==> r == pieces[0]
  {
    if |pieces| == 0 then []
    else if |pieces| == 1 then pieces[0]
    else pieces[0] + [sep] + Join(pieces[1..], sep)
  }

  /** `s.replace(/\s+/g, ' ')`: every maximal whitespace run becomes one space. */
  function CollapseWs(s: string): string {
    Join(SplitWs(s), ' ')
  }

  /** The pieces one after the other. */
  function Concat(pieces: seq<string>): (r: string)
    ensures |pieces| == 1 ==> r == pieces[0]
  {
    if pieces == [] then [] else pieces[0] + Concat(pieces[1..])
  }

  /** The separators the scripts split or squeeze on: `\s`, `[.!?]` and the line feed. */
  datatype Separator = Whitespace | SentenceStop | LineFeed

  /** The characters of `[.!?]`. */
  predicate IsStop(c: char) {
    c == '.' || c == '!' || c == '?'
  }

  predicate Separates(sep: Separator, c: char) {
    match sep
    case Whitespace => IsSpace(c)
    case SentenceStop => IsStop(c)
    case LineFeed => c == '\n'
  }

  /** The characters of `s` other than the separator's, in order. */
  function Without(s: string, sep: Separator): (r: string)
    ensures |r| <= |s|
  {
    if s == [] then [] else (if Separates(sep, s[0]) then [] else [s[0]]) + Without(s[1..], sep)
  }

  /** Filtering distributes over concatenation. */
  lemma {:induction false} WithoutAppend(a: string, b: string, sep: Separator)
    ensures Without(a + b, sep) == Without(a, sep) + Without(b, sep)
  {
    if a == [] {
      assert a + b == b;
    } else {
      assert (a + b)[1..] == a[1..] + b;
      WithoutAppend(a[1..], b, sep);
    }
  }

  /** Filtering a text none of whose characters is selected keeps it whole. */
  lemma {:induction false} WithoutNone(s: string, sep: Separator)
    requires forall k :: 0 <= k < |s| ==> !Separates(sep, s[k])
    ensures Without(s, sep) == s
  {
    if s != [] {
      WithoutNone(s[1..], sep);
    }
  }

  /** Filtering a text all of whose characters are selected leaves nothing. */
  lemma {:induction false} WithoutAll(s: string, sep: Separator)
    requires forall k :: 0 <= k < |s| ==> Separates(sep, s[k])
    ensures Without(s, sep) == []
  {
    if s != [] {
      WithoutAll(s[1..], sep);
    }
  }

  /**
   * One step of a split: a piece without separators, a run of them, and the
   * pieces of the rest concatenate to the text with its separators removed.
   */
  lemma SplitStepConcat(s: string, n: nat, m: nat, sep: Separator, rest: seq<string>)
    requires n + m <= |s|
    requires forall k :: 0 <= k < n ==> !Separates(sep, s[k])
    requires forall k :: 0 <= k < m ==> Separates(sep, s[n..][k])
    requires Concat(rest) == Without(s[n + m..], sep)
    ensures Concat([s[..n]] + rest) == Without(s, sep)
  {
    WithoutAtRun(s, n, m, sep);
    ConcatCons(s[..n], rest);
  }

  /** Filtering a text keeps its leading piece without separators and drops the run of separators after it. */
  lemma WithoutAtRun(s: string, n: nat, m: nat, sep: Separator)
    requires n + m <= |s|
    requires forall k :: 0 <= k < n ==> !Separates(sep, s[k])
    requires forall k :: 0 <= k < m ==> Separates(sep, s[n..][k])
    ensures Without(s, sep) == s[..n] + Without(s[n + m..], sep)
  {
    var tail := s[n..];
    assert s == s[..n] + tail;
    assert tail == tail[..m] + s[n + m..];
    DropSeparatorRun(s[..n], tail[..m], s[n + m..], sep);
  }

  lemma ConcatCons(piece: string, rest: seq<string>)
    ensures Concat([piece] + rest) == piece + Concat(rest)
  {
    assert ([piece] + rest)[1..] == rest;
  }

  /** A piece without separators, then a run of them: filtering keeps the piece and drops the run. */
  lemma DropSeparatorRun(piece: string, run: string, after: string, sep: Separator)
    requires forall k :: 0 <= k < |piece| ==> !Separates(sep, piece[k])
    requires forall k :: 0 <= k < |run| ==> Separates(sep, run[k])
    ensures Without(piece + (run + after), sep) == piece + Without(after, sep)
  {
    calc {
      Without(piece + (run + after), sep);
      { WithoutAppend(piece, run + after, sep); }
      Without(piece, sep) + Without(run + after, sep);
      { WithoutNone(piece, sep); WithoutAppend(run, after, sep); }
      piece + (Without(run, sep) + Without(after, sep));
      { WithoutAll(run, sep); }
      piece + Without(after, sep);
    }
  }

  /** Trimming removes only whitespace. */
  lemma TrimKeepsText(s: string)
    ensures Without(Trim(s), Whitespace) == Without(s, Whitespace)
  {
    var a := TrimOffset(s);
    var t := Trim(s);
    assert s == s[..a] + t + s[a + |t|..];
    WithoutAppend(s[..a] + t, s[a + |t|..], Whitespace);
    WithoutAppend(s[..a], t, Whitespace);
    WithoutAll(s[..a], Whitespace);
    WithoutAll(s[a + |t|..], Whitespace);
  }

  /** The first step of `SplitWs` on a text that holds whitespace. */
  lemma SplitWsUnfold(s: string, n: nat, m: nat)
    requires n == WordRun(s) < |s| && m == SpaceRun(s[n..])
    ensures SplitWs(s) == [s[..n]] + SplitWs(s[n + m..])
  {
  }

  lemma JoinCons(a: string, rest: seq<string>, sep: char)
    requires |rest| >= 1
    ensures Join([a] + rest, sep) == a + [sep] + Join(rest, sep)
  {
    assert ([a] + rest)[1..] == rest;
  }

  /** The first step of `CollapseWs`: the leading word, one space, and the collapse of what follows the whitespace run. */
  lemma CollapseUnfold(s: string, n: nat, m: nat)
    requires n == WordRun(s) < |s| && m == SpaceRun(s[n..])
    ensures m >= 1 && n + m <= |s|
    ensures CollapseWs(s) == s[..n] + [' '] + CollapseWs(s[n + m..])
    ensures s[n + m..] == [] || !IsSpace(s[n + m..][0])
  {
    SplitWsUnfold(s, n, m);
    JoinCons(s[..n], SplitWs(s[n + m..]), ' ');
    if n + m < |s| {
      assert s[n + m..][0] == s[n..][m];
    }
  }

  /** The leading run of non-whitespace ends at the first whitespace character. */
  lemma WordRunIs(s: string, i: nat)
    requires i <= |s| && forall k :: 0 <= k < i ==> !IsSpace(s[k])
    requires i < |s| ==> IsSpace(s[i])
    ensures WordRun(s) == i
  {
    var n := WordRun(s);
    assert n < |s| ==> IsSpace(s[n]);
  }

  /** The leading run of whitespace ends at the first non-whitespace character. */
  lemma SpaceRunIs(s: string, i: nat)
    requires i <= |s| && forall k :: 0 <= k < i ==> IsSpace(s[k])
    requires i < |s| ==> !IsSpace(s[i])
    ensures SpaceRun(s) == i
  {
    var n := SpaceRun(s);
    assert n < |s| ==> !IsSpace(s[n]);
  }

  /** The trailing run of whitespace starts after the last non-whitespace character. */
  lemma TrailingSpaceRunIs(s: string, i: nat)
    requires i <= |s| && forall k :: |s| - i <= k < |s| ==> IsSpace(s[k])
    requires i < |s| ==> !IsSpace(s[|s| - 1 - i])
    ensures TrailingSpaceRun(s) == i
  {
    var n := TrailingSpaceRun(s);
    assert n < |s| ==> !IsSpace(s[|s| - 1 - n]);
  }

  /** A text that is one run of non-whitespace is its own single piece. */
  lemma SplitWsWhole(s: string)
    requires WordRun(s) == |s|
    ensures SplitWs(s) == [s]
  {
  }

  lemma WordRunCons(c: char, t: string)
    requires !IsSpace(c)
    ensures WordRun([c] + t) == 1 + WordRun(t)
  {
    assert ([c] + t)[1..] == t;
  }

  lemma SpaceRunCons(c: char, t: string)
    requires IsSpace(c)
    ensures SpaceRun([c] + t) == 1 + SpaceRun(t)
  {
    assert ([c] + t)[1..] == t;
  }

  lemma ConsSlices<T>(c: T, t: seq<T>, n: nat, m: nat)
    requires n + m <= |t|
    ensures ([c] + t)[..n + 1] == [c] + t[..n]
    ensures ([c] + t)[n + 1..] == t[n..]
    ensures ([c] + t)[n + 1 + m..] == t[n + m..]
  {
  }

  /** A non-whitespace character in front of a text joins its first piece. */
  lemma SplitWsConsWord(c: char, t: string)
    requires !IsSpace(c)
    ensures SplitWs([c] + t) == [[c] + SplitWs(t)[0]] + SplitWs(t)[1..]
  {
    assert ([c] + t)[0] == c && ([c] + t)[1..] == t;
    SplitWsWordFirst([c] + t);
  }

  /** The first step of `SplitWs` on a text that starts with a word: its first character joins the first piece of the rest. */
  lemma SplitWsWordFirst(s: string)
    requires s != [] && !IsSpace(s[0])
    ensures SplitWs(s) == [[s[0]] + SplitWs(s[1..])[0]] + SplitWs(s[1..])[1..]
  {
    var t := s[1..];
    assert WordRun(s) == 1 + WordRun(t);
    if WordRun(t) < |t| {
      SplitWsWordSpaced(s, t, WordRun(t), SpaceRun(t[WordRun(t)..]));
    } else {
      SplitWsWhole(t);
      SplitWsWhole(s);
      assert s == [s[0]] + t;
    }
  }

  /** `SplitWsWordFirst` when whitespace follows the leading word. */
  lemma SplitWsWordSpaced(s: string, t: string, n: nat, m: nat)
    requires s != [] && t == s[1..] && WordRun(s) == 1 + n
    requires n == WordRun(t) < |t| && m == SpaceRun(t[n..])
    ensures SplitWs(s) == [[s[0]] + SplitWs(t)[0]] + SplitWs(t)[1..]
  {
    TailSlices(s, t, n, m);
    SplitWsUnfold(t, n, m);
    SplitWsUnfold(s, n + 1, m);
    PieceParts(SplitWs(t), t[..n], SplitWs(t[n + m..]));
  }

  /** The first piece and the others of a list of pieces built as one piece in front of others. */
  lemma PieceParts(x: seq<string>, first: string, others: seq<string>)
    requires x == [first] + others
    ensures x[0] == first && x[1..] == others
  {
  }

  /** Slices of a sequence and of its tail, shifted by one. */
  lemma TailSlices<T>(s: seq<T>, t: seq<T>, n: nat, m: nat)
    requires s != [] && t == s[1..] && n + m <= |t|
    ensures t[n..] == s[n + 1..] && t[n + m..] == s[n + 1 + m..]
    ensures s[..n + 1] == [s[0]] + t[..n]
  {
  }

  /** A single whitespace character splits into two empty pieces. */
  lemma SplitWsSpaceEnd(c: char)
    requires IsSpace(c)
    ensures SplitWs([c]) == ["", ""]
  {
    SpaceRunCons(c, []);
    assert [c][0..] == [c] && [c][1..] == [];
    SplitWsUnfold([c], 0, 1);
  }

  /** The first step of `SplitWs` on a text that starts with whitespace: an empty piece, then the pieces after the run. */
  lemma SplitWsSpaceFirst(s: string)
    requires s != [] && IsSpace(s[0])
    ensures SplitWs(s) == [""] + SplitWs(s[SpaceRun(s)..])
  {
    assert s[0..] == s;
    SplitWsUnfold(s, 0, SpaceRun(s));
  }

  /** A whitespace character in front of a text that starts with whitespace joins that run: the pieces stay the same. */
  lemma SplitWsSpaceSpace(c: char, t: string)
    requires IsSpace(c)
    requires t != [] && IsSpace(t[0])
    ensures SplitWs([c] + t) == SplitWs(t)
  {
    assert ([c] + t)[1..] == t;
    SplitWsSpaceTwice([c] + t);
  }

  /** Dropping the first of two leading whitespace characters keeps the pieces. */
  lemma SplitWsSpaceTwice(s: string)
    requires |s| >= 2 && IsSpace(s[0]) && IsSpace(s[1])
    ensures SplitWs(s) == SplitWs(s[1..])
  {
    var m := SpaceRun(s[1..]);
    assert SpaceRun(s) == 1 + m;
    assert s[1..][m..] == s[1 + m..];
    SplitWsSpaceFirst(s);
    SplitWsSpaceFirst(s[1..]);
  }

  /** A whitespace character in front of a text that starts with a word adds an empty first piece. */
  lemma SplitWsSpaceWord(c: char, t: string)
    requires IsSpace(c)
    requires t != [] && !IsSpace(t[0])
    ensures SplitWs([c] + t) == [""] + SplitWs(t)
  {
    SplitWsSpaceFirst([c] + t);
    SpaceRunCons(c, t);
    assert ([c] + t)[1..] == t;
  }


  /** A non-empty blank text splits into two empty pieces. */
  lemma {:induction false} SplitBlank(b: string)
    requires b != [] && IsBlank(b)
    ensures SplitWs(b) == ["", ""]
    decreases |b|
  {
    assert b == [b[0]] + b[1..];
    if |b| > 1 {
      SplitWsSpaceSpace(b[0], b[1..]);
      SplitBlank(b[1..]);
    } else {
      SplitWsSpaceEnd(b[0]);
    }
  }

  /** Whitespace in front of a text that starts with a word adds one empty piece. */
  lemma {:induction false} SplitWsLeading(lead: string, u: string)
    requires lead != [] && IsBlank(lead)
    requires u != [] && !IsSpace(u[0])
    ensures SplitWs(lead + u) == [""] + SplitWs(u)
    decreases |lead|
  {
    var rest := lead[1..] + u;
    assert lead + u == [lead[0]] + rest;
    if |lead| > 1 {
      SplitWsSpaceSpace(lead[0], rest);
      SplitWsLeading(lead[1..], u);
    } else {
      assert rest == u;
      SplitWsSpaceWord(lead[0], rest);
    }
  }

  /** Whitespace after a text that ends with a word adds one empty piece. */
  lemma {:induction false} SplitWsTrailing(t: string, trail: string)
    requires t != [] && !IsSpace(t[|t| - 1])
    requires trail != [] && IsBlank(trail)
    ensures SplitWs(t + trail) == SplitWs(t) + [""]
    decreases |t|
  {
    var c, rest := t[0], t[1..];
    assert t == [c] + rest;
    assert t + trail == [c] + (rest + trail);
    if rest == [] {
      WordThenBlank(c, trail);
    } else {
      SplitWsTrailing(rest, trail);
      ConsKeepsTrail(c, rest, rest + trail);
    }
  }

  /** One non-whitespace character followed by whitespace splits into the character and an empty piece. */
  lemma WordThenBlank(c: char, trail: string)
    requires !IsSpace(c)
    requires trail != [] && IsBlank(trail)
    ensures SplitWs([c] + trail) == [[c], ""]
  {
    SplitBlank(trail);
    SplitWsConsWord(c, trail);
  }

  /** A character in front keeps an added empty last piece. */
  lemma ConsKeepsTrail(c: char, t: string, u: string)
    requires t != [] && |u| > |t| && u[0] == t[0]
    requires SplitWs(u) == SplitWs(t) + [""]
    ensures SplitWs([c] + u) == SplitWs([c] + t) + [""]
  {
    if IsSpace(c) {
      SpaceKeepsTrail(c, t, u);
    } else {
      SplitWsConsWord(c, t);
      SplitWsConsWord(c, u);
      AppendEmptyPiece(SplitWs(t), c);
    }
  }

  /** A whitespace character in front keeps an added empty last piece. */
  lemma SpaceKeepsTrail(c: char, t: string, u: string)
    requires IsSpace(c)
    requires t != [] && |u| > |t| && u[0] == t[0]
    requires SplitWs(u) == SplitWs(t) + [""]
    ensures SplitWs([c] + u) == SplitWs([c] + t) + [""]
  {
    var x := SplitWs(t);
    if IsSpace(t[0]) {
      SplitWsSpaceSpace(c, t);
      SplitWsSpaceSpace(c, u);
    } else {
      SplitWsSpaceWord(c, t);
      SplitWsSpaceWord(c, u);
      SeqAssoc([""], x, [""]);
    }
  }


  lemma AppendEmptyPiece(x: seq<string>, c: char)
    requires x != []
    ensures [[c] + (x + [""])[0]] + (x + [""])[1..] == [[c] + x[0]] + x[1..] + [""]
  {
    assert (x + [""])[0] == x[0] && (x + [""])[1..] == x[1..] + [""];
  }

  /**
   * The pieces of a non-blank text: its words, with an empty piece before
   * when it starts with whitespace and after when it ends with whitespace.
   */
  lemma SplitWsEdges(s: string)
    requires !IsBlank(s)
    ensures SplitWs(s) == (if IsSpace(s[0]) then [""] else []) + Tokenize(s)
                           + (if IsSpace(s[|s| - 1]) then [""] else [])
  {
    var a := TrimOffset(s);
    var t := Trim(s);
    var lead, trail := s[..a], s[a + |t|..];
    TrimParts(s, a, t);
    SplitWsAround(lead, t, trail);
    assert Tokenize(s) == SplitWs(t);
  }

  /** A non-blank text is its trimmed core with whitespace around it, present on a side exactly when that side's end character is whitespace. */
  lemma TrimParts(s: string, a: nat, t: string)
    requires !IsBlank(s) && a == TrimOffset(s) && t == Trim(s)
    ensures s == s[..a] + t + s[a + |t|..]
    ensures s[..a] == [] <==> !IsSpace(s[0])
    ensures s[a + |t|..] == [] <==> !IsSpace(s[|s| - 1])
  {
    Slices3(s, a, a + |t|);
    assert a == 0 ==> s[0] == t[0];
    assert a + |t| == |s| ==> s[|s| - 1] == t[|t| - 1];
  }

  /** A sequence is its three consecutive slices. */
  lemma Slices3<T>(s: seq<T>, i: nat, j: nat)
    requires i <= j <= |s|
    ensures s == s[..i] + s[i..j] + s[j..]
  {
  }

  /** Whitespace around a trimmed non-blank text adds an empty piece on each side that has some. */
  lemma SplitWsAround(lead: string, t: string, trail: string)
    requires IsBlank(lead) && IsBlank(trail)
    requires t != [] && IsTrimmed(t)
    ensures SplitWs(lead + t + trail) == (if lead == [] then [] else [""]) + SplitWs(t)
                                         + (if trail == [] then [] else [""])
  {
    var x := SplitWs(t);
    var pre: seq<string> := if lead == [] then [] else [""];
    var post: seq<string> := if trail == [] then [] else [""];
    SplitWsAfter(t, trail);
    assert (t + trail)[0] == t[0];
    SplitWsBefore(lead, t + trail);
    SeqAssoc(lead, t, trail);
    SeqAssoc(pre, x, post);
  }

  /** Whitespace after a text that ends with a word adds an empty piece if there is any. */
  lemma SplitWsAfter(t: string, trail: string)
    requires IsBlank(trail)
    requires t != [] && !IsSpace(t[|t| - 1])
    ensures SplitWs(t + trail) == SplitWs(t) + (if trail == [] then [] else [""])
  {
    if trail == [] {
      assert t + trail == t;
    } else {
      SplitWsTrailing(t, trail);
    }
  }

  /** Whitespace before a text that starts with a word adds an empty piece if there is any. */
  lemma SplitWsBefore(lead: string, u: string)
    requires IsBlank(lead)
    requires u != [] && !IsSpace(u[0])
    ensures SplitWs(lead + u) == (if lead == [] then [] else [""]) + SplitWs(u)
  {
    if lead == [] {
      assert lead + u == u;
    } else {
      SplitWsLeading(lead, u);
    }
  }

  /** Joining two non-empty lists of pieces puts one separator between them. */
  lemma {:induction false} JoinAppend(a: seq<string>, b: seq<string>, sep: char)
    requires a != [] && b != []
    ensures Join(a + b, sep) == Join(a, sep) + [sep] + Join(b, sep)
  {
    if |a| == 1 {
      assert (a + b)[1..] == b;
    } else {
      assert (a + b)[1..] == a[1..] + b;
      JoinAppend(a[1..], b, sep);
    }
  }

  /** Words joined with spaces make a non-empty text without edge whitespace. */
  lemma {:induction false} JoinWords(words: seq<string>)
    requires words != [] && forall k :: 0 <= k < |words| ==> IsWord(words[k])
    ensures Join(words, ' ') != [] && IsTrimmed(Join(words, ' '))
    ensures Join(words, ' ')[0] == words[0][0]
  {
    if |words| > 1 {
      JoinWords(words[1..]);
      var j := Join(words, ' ');
      var tail := Join(words[1..], ' ');
      assert j == words[0] + [' '] + tail;
      assert j[|j| - 1] == tail[|tail| - 1];
    }
  }

  /** Trimming whitespace from around a trimmed text gives that text. */
  lemma TrimAround(pre: string, core: string, post: string)
    requires IsBlank(pre) && IsBlank(post)
    requires core != [] && IsTrimmed(core)
    ensures Trim(pre + core + post) == core
  {
    var s := pre + core + post;
    SpaceRunIs(s, |pre|);
    TrailingSpaceRunIs(s, |post|);
    assert s[|pre|..|s| - |post|] == core;
  }

  /** Splitting words joined with single spaces gives the words back. */
  lemma {:induction false} SplitJoin(words: seq<string>)
    requires words != [] && forall k :: 0 <= k < |words| ==> IsWord(words[k])
    ensures SplitWs(Join(words, ' ')) == words
  {
    var w := words[0];
    if |words| == 1 {
      SplitWord(w);
    } else {
      var tail := Join(words[1..], ' ');
      JoinWords(words[1..]);
      JoinCons(w, words[1..], ' ');
      SplitWordSpace(w, tail);
      SplitJoin(words[1..]);
      assert words == [w] + words[1..];
    }
  }

  /** A word splits into itself. */
  lemma SplitWord(w: string)
    requires IsWord(w)
    ensures SplitWs(w) == [w]
  {
    WordRunIs(w, |w|);
  }

  /** A word, one space and a text starting with a word: the word is the first piece and the text gives the rest. */
  lemma {:induction false} SplitWordSpace(w: string, u: string)
    requires IsWord(w)
    requires u != [] && !IsSpace(u[0])
    ensures SplitWs(w + [' '] + u) == [w] + SplitWs(u)
    decreases |w|
  {
    if |w| == 1 {
      SplitCharSpace(w, u);
    } else {
      SplitWordSpace(w[1..], u);
      SplitWordSpaceStep(w, u);
    }
  }

  /** `SplitWordSpace` for a one-character word. */
  lemma SplitCharSpace(w: string, u: string)
    requires |w| == 1 && !IsSpace(w[0])
    requires u != [] && !IsSpace(u[0])
    ensures SplitWs(w + [' '] + u) == [w] + SplitWs(u)
  {
    var c := w[0];
    assert w + [' '] + u == [c] + ([' '] + u);
    SplitWsSpaceWord(' ', u);
    SplitWsConsWordOnto(c, [' '] + u, "", SplitWs(u));
    assert [c] + "" == w;
  }

  /** The step of `SplitWordSpace`: one more non-whitespace character in front of the word. */
  lemma SplitWordSpaceStep(w: string, u: string)
    requires |w| > 1 && !IsSpace(w[0])
    requires SplitWs(w[1..] + [' '] + u) == [w[1..]] + SplitWs(u)
    ensures SplitWs(w + [' '] + u) == [w] + SplitWs(u)
  {
    ConsInFront(w, ' ', u);
    SplitWsConsWordOnto(w[0], w[1..] + [' '] + u, w[1..], SplitWs(u));
  }

  /** A non-empty sequence is its first element in front of the rest. */
  lemma HeadTail<T>(s: seq<T>)
    requires s != []
    ensures [s[0]] + s[1..] == s
  {
  }

  /** A sequence and what follows it, regrouped around its first element. */
  lemma ConsInFront<T>(w: seq<T>, x: T, u: seq<T>)
    requires |w| >= 1
    ensures w + [x] + u == [w[0]] + (w[1..] + [x] + u)
    ensures [w[0]] + w[1..] == w
  {
  }

  /** `SplitWsConsWord` with the pieces of the text given as a first piece and the others. */
  lemma SplitWsConsWordOnto(c: char, t: string, first: string, others: seq<string>)
    requires !IsSpace(c)
    requires SplitWs(t) == [first] + others
    ensures SplitWs([c] + t) == [[c] + first] + others
  {
    SplitWsConsWord(c, t);
    assert SplitWs(t)[0] == first && SplitWs(t)[1..] == others;
  }





  /** Joining with one empty piece before or after the words puts one separator at that end. */
  lemma JoinEdges(words: seq<string>, l: bool, r: bool)
    requires words != []
    ensures Join((if l then [""] else []) + words + (if r then [""] else []), ' ')
            == (if l then " " else "") + Join(words, ' ') + (if r then " " else "")
  {
    var pre: seq<string> := if l then [""] else [];
    var post: seq<string> := if r then [""] else [];
    var j := Join(words, ' ');
    var front := pre + words;
    if l {
      JoinAppend([""], words, ' ');
    } else {
      assert front == words;
    }
    assert Join(front, ' ') == (if l then " " else "") + j;
    if r {
      JoinAppend(front, [""], ' ');
    } else {
      assert front + post == front;
    }
  }

  /**
   * Collapsing whitespace runs keeps the pieces `split(/\s+/)` finds: the
   * words, and the empty pieces that mark whitespace at either end.
   */
  lemma CollapseKeepsSplit(s: string)
    ensures SplitWs(CollapseWs(s)) == SplitWs(s)
  {
    if s == [] {
    } else if IsBlank(s) {
      SplitBlank(s);
      assert Join(["", ""], ' ') == " ";
      SplitBlank(" ");
    } else {
      var words := Tokenize(s);
      CollapseAroundWords(s);
      JoinWords(words);
      SplitWsSpaced(IsSpace(s[0]), Join(words, ' '), IsSpace(s[|s| - 1]));
      SplitJoin(words);
      SplitWsEdges(s);
    }
  }

  /** `SplitWsAround` with at most one space on each side. */
  lemma SplitWsSpaced(l: bool, core: string, r: bool)
    requires core != [] && IsTrimmed(core)
    ensures SplitWs((if l then " " else "") + core + (if r then " " else ""))
            == (if l then [""] else []) + SplitWs(core) + (if r then [""] else [])
  {
    SplitWsAround(if l then " " else "", core, if r then " " else "");
  }

  /** `TrimAround` with at most one space on each side. */
  lemma TrimSpaced(l: bool, core: string, r: bool)
    requires core != [] && IsTrimmed(core)
    ensures Trim((if l then " " else "") + core + (if r then " " else "")) == core
  {
    TrimAround(if l then " " else "", core, if r then " " else "");
  }

  /** Trimming the collapse of a non-blank text leaves its words joined by single spaces. */
  lemma TrimCollapse(s: string)
    requires !IsBlank(s)
    ensures Trim(CollapseWs(s)) == Join(Tokenize(s), ' ')
  {
    CollapseAroundWords(s);
    JoinWords(Tokenize(s));
    TrimSpaced(IsSpace(s[0]), Join(Tokenize(s), ' '), IsSpace(s[|s| - 1]));
  }

  /** A non-blank text collapses to its words joined by single spaces, with one space at each end that had whitespace. */
  lemma CollapseAroundWords(s: string)
    requires !IsBlank(s)
    ensures CollapseWs(s) == (if IsSpace(s[0]) then " " else "") + Join(Tokenize(s), ' ')
                             + (if IsSpace(s[|s| - 1]) then " " else "")
  {
    SplitWsEdges(s);
    JoinEdges(Tokenize(s), IsSpace(s[0]), IsSpace(s[|s| - 1]));
  }

  /** Words joined by single spaces tokenize back into the same words. */
  lemma JoinedWordsBack(words: seq<string>)
    requires words != [] && forall k :: 0 <= k < |words| ==> IsWord(words[k])
    ensures Tokenize(Join(words, ' ')) == words
  {
    JoinWords(words);
    TrimOfTrimmed(Join(words, ' '));
    SplitJoin(words);
  }


  /** Texts with the same pieces and the same first character keep the same pieces with one more character in front. */
  lemma ConsSameSplit(c: char, t: string, u: string)
    requires t != [] && u != [] && t[0] == u[0]
    requires SplitWs(t) == SplitWs(u)
    ensures SplitWs([c] + t) == SplitWs([c] + u)
  {
    if !IsSpace(c) {
      SplitWsConsWord(c, t);
      SplitWsConsWord(c, u);
    } else if IsSpace(t[0]) {
      SplitWsSpaceSpace(c, t);
      SplitWsSpaceSpace(c, u);
    } else {
      SplitWsSpaceWord(c, t);
      SplitWsSpaceWord(c, u);
    }
  }

  /** Lower-cases the ASCII letters A-Z and leaves every other character alone. */
  function Lower(s: string): (r: string)
    ensures |r| == |s|
    ensures forall k :: 0 <= k < |s| ==> r[k] == LowerChar(s[k])
  {
    if s == [] then [] else [LowerChar(s[0])] + Lower(s[1..])
  }

  function LowerChar(c: char): char {
    if 'A' <= c <= 'Z' then (c as int - 'A' as int + 'a' as int) as char else c
  }

  /** Lower-casing twice is lower-casing once. */
  lemma LowerIdempotent(s: string)
    ensures Lower(Lower(s)) == Lower(s)
  {
    assert forall k :: 0 <= k < |s| ==> LowerChar(LowerChar(s[k])) == LowerChar(s[k]);
  }

  /** `p` occurs in `s` starting at index 0. */
  predicate IsPrefix(p: string, s: string) {
    |p| <= |s| && s[..|p|] == p
  }

  /** `s.includes(p)`. */
  predicate Contains(s: string, p: string)
    decreases |s|
  {
    IsPrefix(p, s) || (s != [] && Contains(s[1..], p))
  }

  /** `Contains` holds exactly when `p` appears at some index of `s`. */
  lemma {:induction false} ContainsAt(s: string, p: string, i: nat)
    requires i + |p| <= |s| && s[i..i + |p|] == p
    ensures Contains(s, p)
    decreases i
  {
    if i > 0 {
      assert s[1..][i - 1..i - 1 + |p|] == p;
      ContainsAt(s[1..], p, i - 1);
    }
  }

  /** A text containing `p` contains every piece of `p`. */
  lemma {:induction false} ContainsInfix(s: string, p: string, a: nat, b: nat)
    requires a <= b <= |p|
    requires Contains(s, p)
    ensures Contains(s, p[a..b])
    decreases |s|
  {
    if IsPrefix(p, s) {
      var q := p[a..b];
      assert forall k :: 0 <= k < |q| ==> s[a + k] == s[..|p|][a + k] == q[k];
      assert s[a..a + |q|] == q;
      ContainsAt(s, q, a);
    } else {
      ContainsInfix(s[1..], p, a, b);
      ContainsShift(s, p[a..b]);
    }
  }

  /** Whatever the tail contains, the whole contains. */
  lemma ContainsShift(s: string, q: string)
    requires s != [] && Contains(s[1..], q)
    ensures Contains(s, q)
  {
  }

  predicate IsDigit(c: char) {
    '0' <= c <= '9'
  }

  predicate AllDigits(s: string) {
    forall k :: 0 <= k < |s| ==> IsDigit(s[k])
  }

  function DigitChar(d: nat): (c: char)
    requires d < 10
    ensures IsDigit(c) && c as int - '0' as int == d
  {
    ('0' as int + d) as char
  }

  /** The number a string of decimal digits denotes (leading zeros allowed). */
  function DigitsValue(s: string): nat
    requires AllDigits(s)
  {
    if s == [] then 0 else DigitsValue(s[..|s| - 1]) * 10 + (s[|s| - 1] as int - '0' as int)
  }

  /** `String(n)` for a non-negative integer: its shortest decimal numeral. */
  function NatToString(n: nat): (s: string)
    ensures 1 <= |s| && AllDigits(s)
    ensures DigitsValue(s) == n
    ensures |s| > 1 ==> s[0] != '0'
    ensures n < 10 ==> |s| == 1
    ensures 10 <= n < 100 ==> |s| == 2
    decreases n
  {
    if n < 10 then [DigitChar(n)]
    else
      var s := NatToString(n / 10) + [DigitChar(n % 10)];
      assert s[..|s| - 1] == NatToString(n / 10);
      s
  }

  /** Two numbers render alike only if they are equal. */
  lemma NatToStringInjective(a: nat, b: nat)
    requires NatToString(a) == NatToString(b)
    ensures a == b
  {
  }

  /** `s.padStart(width, "0")`. */
  function PadZeros(s: string, width: nat): (r: string)
    ensures |r| == if |s| >= width then |s| else width
    ensures AllDigits(s) ==> AllDigits(r) && DigitsValue(r) == DigitsValue(s)
    decreases width - |s|
  {
    if |s| >= width then s
    else
      var r := PadZeros(['0'] + s, width);
      if AllDigits(s) then LeadingZero(s); r else r
  }

  /** A leading zero does not change the value of a numeral. */
  lemma {:induction false} LeadingZero(s: string)
    requires AllDigits(s)
    ensures AllDigits(['0'] + s) && DigitsValue(['0'] + s) == DigitsValue(s)
    decreases |s|
  {
    if s != [] {
      var t := ['0'] + s;
      assert t[..|t| - 1] == ['0'] + s[..|s| - 1];
      LeadingZero(s[..|s| - 1]);
    }
  }
}
