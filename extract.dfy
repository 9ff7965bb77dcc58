/**
 * The offline script that turns the code of civil procedure into practice
 * texts: it cuts the text into articles at the heading matches, packs short
 * articles together and splits long ones by sentences, keeps at most forty
 * texts, and normalises the whitespace of each before saving it under a
 * numbered name.
 */
module Extract {
  import opened Text

  /** Match positions as `matchAll` reports them: increasing, and inside the text. */
  predicate ValidStarts(text: string, starts: seq<nat>) {
    (forall i, j :: 0 <= i < j < |starts| ==> starts[i] < starts[j])
    && (forall i :: 0 <= i < |starts| ==> starts[i] <= |text|)
  }

  /** Where article `i` ends: at the next match, or at the end of the text. */
  function ArticleEnd(text: string, starts: seq<nat>, i: nat): (e: nat)
    requires ValidStarts(text, starts) && i < |starts|
    ensures starts[i] <= e <= |text|
  {
    if i < |starts| - 1 then starts[i + 1] else |text|
  }

  /** The trimmed text from each match to the next, in match order. */
  function Segments(text: string, starts: seq<nat>): (segments: seq<string>)
    requires ValidStarts(text, starts)
    ensures |segments| == |starts|
    ensures forall i :: 0 <= i < |starts| ==>
              segments[i] == Trim(text[starts[i]..ArticleEnd(text, starts, i)]) && IsTrimmed(segments[i])
  {
    seq(|starts|, i requires 0 <= i < |starts| => Trim(text[starts[i]..ArticleEnd(text, starts, i)]))
  }

  /** The segments longer than 50 characters, in order. */
  function LongArticles(segments: seq<string>): (articles: seq<string>)
    ensures |articles| <= |segments|
    ensures forall k :: 0 <= k < |articles| ==> |articles[k]| > 50 && articles[k] in segments
  {
    if segments == [] then []
    else
      var n := |segments| - 1;
      assert forall k :: 0 <= k < n ==> segments[..n][k] == segments[k];
      LongArticles(segments[..n]) + (if |segments[n]| > 50 then [segments[n]] else [])
  }

  /** A segment is kept exactly when it is longer than 50 characters. */
  lemma {:induction false} ArticleKept(segments: seq<string>, i: nat)
    requires i < |segments|
    ensures segments[i] in LongArticles(segments) <==> |segments[i]| > 50
  {
    var n := |segments| - 1;
    if i < n {
      assert segments[..n][i] == segments[i];
      ArticleKept(segments[..n], i);
    }
  }

  /** Every article kept is trimmed. */
  lemma ArticlesTrimmed(text: string, starts: seq<nat>)
    requires ValidStarts(text, starts)
    ensures forall a :: a in LongArticles(Segments(text, starts)) ==> |a| > 50 && IsTrimmed(a)
  {
  }

  /** The next segment appends to the articles of the matches before it. */
  lemma SegmentStep(segments: seq<string>, i: nat)
    requires i < |segments|
    ensures LongArticles(segments[..i + 1])
         == LongArticles(segments[..i]) + (if |segments[i]| > 50 then [segments[i]] else [])
  {
    assert segments[..i + 1][..i] == segments[..i];
  }

  /** `splitIntoArticles`, given the positions of the article headings. */
  method SplitIntoArticles(text: string, starts: seq<nat>) returns (articles: seq<string>)
    requires ValidStarts(text, starts)
    ensures articles == LongArticles(Segments(text, starts))
    ensures |articles| <= |starts|
  {
    ghost var segments := Segments(text, starts);
    articles := [];
    for i := 0 to |starts|
      invariant articles == LongArticles(segments[..i])
    {
      var articleText := ArticleText(text, starts, i);
      SegmentStep(segments, i);
      articles := articles + if |articleText| > 50 then [articleText] else [];
    }
    assert segments[..|starts|] == segments;
  }

  /** The loop body's cut: from match `i` to the next match or the end, trimmed. */
  method ArticleText(text: string, starts: seq<nat>, i: nat) returns (articleText: string)
    requires ValidStarts(text, starts) && i < |starts|
    ensures articleText == Segments(text, starts)[i]
  {
    var startIndex := starts[i];
    var endIndex := if i < |starts| - 1 then starts[i + 1] else |text|;
    articleText := Trim(text[startIndex..endIndex]);
  }

  /** Length of the leading run of characters other than `.`, `!` and `?`. */
  function ClauseRun(s: string): (n: nat)
    ensures n <= |s|
    ensures forall k :: 0 <= k < n ==> !IsStop(s[k])
    ensures n < |s| ==> IsStop(s[n])
  {
    if s == [] || IsStop(s[0]) then 0 else 1 + ClauseRun(s[1..])
  }

  /** Length of the leading run of `.`, `!` and `?`. */
  function StopRun(s: string): (n: nat)
    ensures n <= |s|
    ensures forall k :: 0 <= k < n ==> IsStop(s[k])
  {
    if s == [] || !IsStop(s[0]) then 0 else 1 + StopRun(s[1..])
  }

  /** `s.split(/[.!?]+/)`: the pieces between maximal runs of sentence stops. */
  function SplitStops(s: string): (r: seq<string>)
    ensures |r| >= 1
    ensures forall k :: 0 <= k < |r| ==> forall c :: 0 <= c < |r[k]| ==> !IsStop(r[k][c])
    ensures Concat(r) == Without(s, SentenceStop)
    decreases |s|
  {
    var n := ClauseRun(s);
    if n == |s| then
      WithoutNone(s, SentenceStop);
      [s]
    else
      var m := StopRun(s[n..]);
      assert m >= 1;
      var rest := SplitStops(s[n + m..]);
      SplitStepConcat(s, n, m, SentenceStop, rest);
      [s[..n]] + rest
  }

  /** A piece with no `.`, `!` or `?` in it. */
  predicate StopFree(piece: string) {
    forall c :: 0 <= c < |piece| ==> !IsStop(piece[c])
  }

  /**
   * The text breaks exactly at the stops: joining stop-free pieces with `.`
   * gives them back, provided no inner piece is empty (two stops in a row would
   * be one separator).
   */
  lemma {:induction false} SplitStopsJoin(pieces: seq<string>)
    requires |pieces| >= 1
    requires forall k :: 0 <= k < |pieces| ==> StopFree(pieces[k])
    requires forall k :: 0 < k < |pieces| - 1 ==> pieces[k] != []
    ensures SplitStops(Join(pieces, '.')) == pieces
    decreases |pieces|
  {
    if |pieces| == 1 {
      assert Join(pieces, '.') == pieces[0];
    } else {
      var rest := pieces[1..];
      assert Join(pieces, '.') == pieces[0] + ['.'] + Join(rest, '.');
      if |rest| > 1 {
        assert Join(rest, '.') == rest[0] + ['.'] + Join(rest[1..], '.');
        assert rest[0] != [];
      }
      SplitStopsAfterPiece(pieces[0], ['.'], Join(rest, '.'));
      forall k | 0 <= k < |rest|
        ensures StopFree(rest[k]) && (0 < k < |rest| - 1 ==> rest[k] != [])
      {
        assert rest[k] == pieces[k + 1];
      }
      SplitStopsJoin(rest);
    }
  }

  /** A non-empty run of `.`, `!` and `?`, which `/[.!?]+/` consumes as one separator. */
  predicate IsStopRun(r: string) {
    |r| >= 1 && forall c :: 0 <= c < |r| ==> IsStop(r[c])
  }

  /** A stop-free piece and a run of stops before a text that does not start with a stop. */
  lemma SplitStopsAfterPiece(p: string, r: string, t: string)
    requires StopFree(p) && IsStopRun(r)
    requires t != [] ==> !IsStop(t[0])
    ensures SplitStops(p + r + t) == [p] + SplitStops(t)
  {
    var u := r + t;
    Collections.SeqAssoc(p, r, t);
    ClauseRunOfPiece(p, u);
    StopRunAppend(r, t);
    assert (p + u)[|p|..] == u && (p + u)[..|p|] == p;
    assert u[|r|..] == t;
  }

  /** The clause run of a stop-free piece followed by a stop ends at the stop. */
  lemma ClauseRunOfPiece(p: string, u: string)
    requires StopFree(p) && u != [] && IsStop(u[0])
    ensures ClauseRun(p + u) == |p|
  {
    assert (p + u)[|p|] == u[0];
  }

  /** The stop run at the front of `r + t` is all of `r` when `t` does not start with a stop. */
  lemma {:induction false} StopRunAppend(r: string, t: string)
    requires forall c :: 0 <= c < |r| ==> IsStop(r[c])
    requires t != [] ==> !IsStop(t[0])
    ensures StopRun(r + t) == |r|
  {
    if r == [] {
      assert r + t == t;
    } else {
      assert (r + t)[1..] == r[1..] + t;
      StopRunAppend(r[1..], t);
    }
  }

  /** Stop-free pieces with the given runs of stops between them. */
  function Interleave(pieces: seq<string>, runs: seq<string>): string
    requires |pieces| == |runs| + 1
    decreases |runs|
  {
    if runs == [] then pieces[0] else pieces[0] + runs[0] + Interleave(pieces[1..], runs[1..])
  }

  /** Stop-free pieces, none empty inside, and one run of stops between each two. */
  predicate StopShape(pieces: seq<string>, runs: seq<string>) {
    && |pieces| == |runs| + 1
    && (forall k :: 0 <= k < |pieces| ==> StopFree(pieces[k]))
    && (forall k :: 0 < k < |pieces| - 1 ==> pieces[k] != [])
    && (forall k :: 0 <= k < |runs| ==> IsStopRun(runs[k]))
  }

  /** Dropping the first piece and the first run keeps the shape. */
  lemma StopShapeTail(pieces: seq<string>, runs: seq<string>)
    requires StopShape(pieces, runs) && runs != []
    ensures StopShape(pieces[1..], runs[1..])
    ensures StopFree(pieces[0]) && IsStopRun(runs[0])
    ensures |runs| > 1 ==> pieces[1] != []
  {
    assert forall k :: 0 <= k < |pieces| - 1 ==> pieces[1..][k] == pieces[k + 1];
    assert forall k :: 0 <= k < |runs| - 1 ==> runs[1..][k] == runs[k + 1];
  }

  /**
   * The text breaks at every maximal run of `.`, `!` and `?`, whatever its
   * characters and length: interleaving stop-free pieces, none empty inside,
   * with runs of stops and splitting gives back exactly the pieces.
   */
  lemma {:induction false} SplitStopsInterleave(pieces: seq<string>, runs: seq<string>)
    requires StopShape(pieces, runs)
    ensures SplitStops(Interleave(pieces, runs)) == pieces
    decreases |runs|
  {
    if runs != [] {
      StopShapeTail(pieces, runs);
      var t := Interleave(pieces[1..], runs[1..]);
      if |runs| > 1 {
        InterleaveHead(pieces[1..], runs[1..]);
      }
      SplitStopsAfterPiece(pieces[0], runs[0], t);
      SplitStopsInterleave(pieces[1..], runs[1..]);
      HeadTail(pieces);
    }
  }

  /** An interleaving starts with the first character of its first piece. */
  lemma InterleaveHead(pieces: seq<string>, runs: seq<string>)
    requires |pieces| == |runs| + 1 && pieces[0] != []
    ensures Interleave(pieces, runs) != [] && Interleave(pieces, runs)[0] == pieces[0][0]
  {
  }

  /** "a!b" and "a?!b" break into "a" and "b", like "a.b". */
  lemma SplitStopsOtherStops()
    ensures SplitStops("a!b") == ["a", "b"]
    ensures SplitStops("a?!b") == ["a", "b"]
  {
    TwoPiecesAroundRun("!");
    assert "a" + "!" + "b" == "a!b";
    TwoPiecesAroundRun("?!");
    assert "a" + "?!" + "b" == "a?!b";
  }

  /** "a", a run of stops, then "b". */
  lemma TwoPiecesAroundRun(r: string)
    requires IsStopRun(r)
    ensures SplitStops("a" + r + "b") == ["a", "b"]
  {
    assert StopFree("a") && StopFree("b");
    assert StopShape(["a", "b"], [r]);
    SplitStopsInterleave(["a", "b"], [r]);
    assert Interleave(["b"], []) == "b";
  }

  /** "a.b" breaks into "a" and "b". */
  lemma SplitStopsExample()
    ensures SplitStops("a.b") == ["a", "b"]
  {
    SplitStopsJoin(["a", "b"]);
    assert Join(["a", "b"], '.') == "a.b";
  }

  /** A piece worth keeping as a sentence: longer than 10 characters once trimmed. */
  predicate IsSentence(piece: string) {
    |Trim(piece)| > 10
  }

  /** Keeps the pieces whose trimmed length exceeds 10, in order. */
  function LongPieces(pieces: seq<string>): (r: seq<string>)
    ensures |r| <= |pieces|
    ensures forall k :: 0 <= k < |r| ==> IsSentence(r[k]) && r[k] in pieces
    ensures forall k :: 0 <= k < |pieces| && IsSentence(pieces[k]) ==> pieces[k] in r
    ensures |pieces| == 1 ==> r == if IsSentence(pieces[0]) then pieces else []
  {
    if pieces == [] then []
    else
      var rest := LongPieces(pieces[1..]);
      assert forall k :: 1 <= k < |pieces| ==> pieces[k] == pieces[1..][k - 1];
      if IsSentence(pieces[0]) then [pieces[0]] + rest else rest
  }

  /** Filtering two lists one after the other keeps their sentences in the same order. */
  lemma {:induction false} LongPiecesConcat(a: seq<string>, b: seq<string>)
    ensures LongPieces(a + b) == LongPieces(a) + LongPieces(b)
  {
    if a == [] {
      assert a + b == b;
    } else {
      assert (a + b)[1..] == a[1..] + b;
      LongPiecesConcat(a[1..], b);
    }
  }

  /** The sentences of a long article: the pieces between stops whose trimmed length exceeds 10. */
  function Sentences(article: string): (ss: seq<string>)
    ensures forall k :: 0 <= k < |ss| ==> |Trim(ss[k])| > 10
  {
    LongPieces(SplitStops(article))
  }

  /** All buffers of a chunker are longer than 200 characters. */
  predicate AllLong(buffers: seq<string>) {
    forall k :: 0 <= k < |buffers| ==> |buffers[k]| > 200
  }

  /** Two lists of long buffers, one after the other, are a list of long buffers. */
  lemma AllLongAppend(buffers: seq<string>, more: seq<string>)
    ensures AllLong(buffers) && AllLong(more) ==> AllLong(buffers + more)
  {
    if AllLong(buffers) && AllLong(more) {
      forall k | 0 <= k < |buffers + more|
        ensures |(buffers + more)[k]| > 200
      {
        if k >= |buffers| {
          assert (buffers + more)[k] == more[k - |buffers|];
        }
      }
    }
  }

  /** The buffers flushed so far and the one being filled. */
  datatype Buffers = Buffers(flushed: seq<string>, current: string)

  /**
   * One sentence of a long article: it joins the buffer unless that would make
   * the buffer longer than 1500 characters, in which case the buffer is flushed
   * (kept only if longer than 200) and the sentence starts a new one.
   */
  function SentenceStep(b: Buffers, sentence: string): (r: Buffers)
    ensures AllLong(b.flushed) ==> AllLong(r.flushed)
    ensures |r.current| <= 1500 || r.current == sentence + ". "
    ensures |b.current + sentence + ". "| <= 1500 ==> r == Buffers(b.flushed, b.current + sentence + ". ")
    ensures |b.current + sentence + ". "| > 1500 ==>
              r.current == sentence + ". "
              && (|b.current| > 200 ==> r.flushed == b.flushed + [b.current])
              && (|b.current| <= 200 ==> r.flushed == b.flushed)
  {
    var testText := b.current + sentence + ". ";
    if |testText| > 1500 then
      Buffers(if |b.current| > 200 then b.flushed + [b.current] else b.flushed, sentence + ". ")
    else Buffers(b.flushed, testText)
  }

  /** The buffers after the first `n` sentences. */
  function SentencesUpTo(sentences: seq<string>, n: nat): (r: Buffers)
    requires n <= |sentences|
    ensures AllLong(r.flushed)
  {
    if n == 0 then Buffers([], "") else SentenceStep(SentencesUpTo(sentences, n - 1), sentences[n - 1])
  }

  /** Flushes the final buffer when it is longer than 200 characters. */
  function Finish(b: Buffers): (r: seq<string>)
    ensures AllLong(b.flushed) ==> AllLong(r)
    ensures |r| == |b.flushed| + (if |b.current| > 200 then 1 else 0)
    ensures r[..|b.flushed|] == b.flushed
    ensures |b.current| > 200 ==> r[|b.flushed|] == b.current
  {
    b.flushed + if |b.current| > 200 then [b.current] else []
  }

  /** The buffers a long article is cut into, before trimming: each longer than 200 characters. */
  function LongBuffers(article: string): (r: seq<string>)
    ensures AllLong(r)
  {
    var ss := Sentences(article);
    Finish(SentencesUpTo(ss, |ss|))
  }

  /** Every buffer trimmed. */
  function TrimAll(buffers: seq<string>): (r: seq<string>)
    ensures |r| == |buffers|
    ensures forall k :: 0 <= k < |r| ==> r[k] == Trim(buffers[k])
  {
    seq(|buffers|, k requires 0 <= k < |buffers| => Trim(buffers[k]))
  }

  /** Trimming a list with one more buffer adds that buffer trimmed. */
  lemma TrimAllAppend(buffers: seq<string>, more: seq<string>)
    ensures TrimAll(buffers + more) == TrimAll(buffers) + TrimAll(more)
  {
  }

  /** Trimming a list with one more buffer adds that buffer, trimmed, at the end. */
  lemma TrimAllPush(buffers: seq<string>, buffer: string)
    ensures TrimAll(buffers + [buffer]) == TrimAll(buffers) + [Trim(buffer)]
  {
    TrimAllAppend(buffers, [buffer]);
  }

  /** The sentences of one long article, cut into practice texts. */
  method ChunkLongArticle(article: string) returns (chunks: seq<string>)
    ensures chunks == TrimAll(LongBuffers(article))
  {
    var sentences := Sentences(article);
    chunks := ChunkSentences(sentences);
  }

  /** The inner loop of `createPracticeTexts` over the sentences of one long article, and its final flush. */
  method ChunkSentences(sentences: seq<string>) returns (chunks: seq<string>)
    ensures chunks == TrimAll(Finish(SentencesUpTo(sentences, |sentences|)))
  {
    chunks := [];
    var tempText := "";
    for j := 0 to |sentences|
      invariant chunks == TrimAll(SentencesUpTo(sentences, j).flushed)
      invariant tempText == SentencesUpTo(sentences, j).current
    {
      chunks, tempText := PackSentence(chunks, tempText, sentences[j], SentencesUpTo(sentences, j));
    }
    chunks := FlushBuffer(chunks, tempText, SentencesUpTo(sentences, |sentences|));
  }

  /** One pass of the sentence loop, on the chunks so far and the pending buffer. */
  method PackSentence(chunks: seq<string>, tempText: string, sentence: string, ghost b: Buffers)
    returns (texts: seq<string>, current: string)
    requires chunks == TrimAll(b.flushed) && tempText == b.current
    ensures texts == TrimAll(SentenceStep(b, sentence).flushed)
    ensures current == SentenceStep(b, sentence).current
  {
    texts, current := chunks, tempText;
    var testText := current + sentence + ". ";
    if |testText| > 1500 {
      if |current| > 200 {
        TrimAllPush(b.flushed, current);
        texts := texts + [Trim(current)];
      }
      current := sentence + ". ";
    } else {
      current := testText;
    }
  }

  /** The flush after a loop: the pending buffer, trimmed, when it is longer than 200 characters. */
  method FlushBuffer(texts: seq<string>, current: string, ghost b: Buffers) returns (all: seq<string>)
    requires texts == TrimAll(b.flushed) && current == b.current
    ensures all == TrimAll(Finish(b))
  {
    all := texts;
    if |current| > 200 {
      TrimAllPush(b.flushed, current);
      all := all + [Trim(current)];
    }
  }

  /** `testText.split(/\s+/).length`, the word count the packing uses (edge whitespace gives an extra empty piece). */
  function WordCount(s: string): (r: nat)
    ensures IsBlank(s) ==> r == if s == [] then 1 else 2
    ensures !IsBlank(s) ==>
              r == |Tokenize(s)| + (if IsSpace(s[0]) then 1 else 0) + (if IsSpace(s[|s| - 1]) then 1 else 0)
  {
    if s != [] && IsBlank(s) then
      SplitBlank(s);
      |SplitWs(s)|
    else if s != [] then
      SplitWsEdges(s);
      |SplitWs(s)|
    else
      |SplitWs(s)|
  }

  /**
   * One article: a long one (over 2000 characters) adds its own chunks and
   * leaves the pending buffer alone; a short one joins the buffer, unless the
   * result would have more than 400 words while the buffer already has more
   * than 200 characters, in which case the buffer is flushed and the article
   * starts a new one.
   */
  function ArticleStep(b: Buffers, article: string): (r: Buffers)
    ensures AllLong(b.flushed) ==> AllLong(r.flushed)
    ensures |article| > 2000 ==> r == Buffers(b.flushed + LongBuffers(article), b.current)
    ensures |article| <= 2000 ==>
              (r.flushed == b.flushed + [b.current] <==> WordCount(b.current + article + "\n\n") > 400 && |b.current| > 200)
    ensures |article| <= 2000 && r.flushed == b.flushed ==> r.current == b.current + article + "\n\n"
    ensures |article| <= 2000 && r.flushed != b.flushed ==> r.current == article + "\n\n"
  {
    if |article| > 2000 then
      AllLongAppend(b.flushed, LongBuffers(article));
      Buffers(b.flushed + LongBuffers(article), b.current)
    else
      var testText := b.current + article + "\n\n";
      if WordCount(testText) > 400 && |b.current| > 200 then
        AllLongAppend(b.flushed, [b.current]);
        Buffers(b.flushed + [b.current], article + "\n\n")
      else Buffers(b.flushed, testText)
  }

  /** The buffers after the first `n` articles. */
  function ArticlesStep(articles: seq<string>, n: nat): (r: Buffers)
    requires n <= |articles|
    ensures AllLong(r.flushed)
  {
    if n == 0 then Buffers([], "") else ArticleStep(ArticlesStep(articles, n - 1), articles[n - 1])
  }

  /** The most texts the script keeps. */
  const MAX_TEXTS: nat := 40

  /** The first `MAX_TEXTS` texts. */
  function Cap(texts: seq<string>): (r: seq<string>)
    ensures |r| <= MAX_TEXTS
    ensures |r| <= |texts| && r == texts[..|r|]
    ensures |texts| <= MAX_TEXTS ==> r == texts
  {
    if |texts| <= MAX_TEXTS then texts else texts[..MAX_TEXTS]
  }

  /** Every practice text, before the cap: the trim of a buffer longer than 200 characters. */
  function PracticeBuffers(articles: seq<string>): (r: seq<string>)
    ensures AllLong(r)
  {
    Finish(ArticlesStep(articles, |articles|))
  }

  /** `createPracticeTexts`: the trimmed buffers, at most forty of them. */
  method CreatePracticeTexts(articles: seq<string>) returns (texts: seq<string>)
    ensures texts == Cap(TrimAll(PracticeBuffers(articles)))
    ensures |texts| <= MAX_TEXTS
  {
    var practiceTexts := [];
    var currentText := "";
    for i := 0 to |articles|
      invariant practiceTexts == TrimAll(ArticlesStep(articles, i).flushed)
      invariant currentText == ArticlesStep(articles, i).current
    {
      practiceTexts, currentText := PackArticle(practiceTexts, currentText, articles[i], ArticlesStep(articles, i));
    }
    practiceTexts := FlushBuffer(practiceTexts, currentText, ArticlesStep(articles, |articles|));
    texts := Cap(practiceTexts);
  }

  /** One pass of the article loop of `createPracticeTexts`, on the texts so far and the pending buffer. */
  method PackArticle(practiceTexts: seq<string>, currentText: string, article: string, ghost b: Buffers)
    returns (texts: seq<string>, current: string)
    requires practiceTexts == TrimAll(b.flushed) && currentText == b.current
    ensures texts == TrimAll(ArticleStep(b, article).flushed)
    ensures current == ArticleStep(b, article).current
  {
    texts, current := practiceTexts, currentText;
    if |article| > 2000 {
      var chunks := ChunkLongArticle(article);
      TrimAllAppend(b.flushed, LongBuffers(article));
      texts := texts + chunks;
    } else {
      var testText := current + article + "\n\n";
      var wordCount := WordCount(testText);
      ArticleStepShort(b, article);
      if wordCount > 400 && |current| > 200 {
        TrimAllPush(b.flushed, current);
        texts := texts + [Trim(current)];
        current := article + "\n\n";
      } else {
        current := testText;
      }
    }
  }

  /** `ArticleStep` on an article of at most 2000 characters, in one equation. */
  lemma ArticleStepShort(b: Buffers, article: string)
    requires |article| <= 2000
    ensures ArticleStep(b, article)
            == if WordCount(b.current + article + "\n\n") > 400 && |b.current| > 200
               then Buffers(b.flushed + [b.current], article + "\n\n")
               else Buffers(b.flushed, b.current + article + "\n\n")
  {
  }

  /** `s.replace(/\n+/g, '\n')`: every run of line feeds becomes one. */
  function SqueezeNewlines(s: string): (r: string)
    ensures '\n' !in s ==> r == s
    ensures s != [] ==> r != [] && r[0] == s[0]
    ensures forall k :: 0 <= k < |r| - 1 ==> !(r[k] == '\n' && r[k + 1] == '\n')
    ensures Without(r, LineFeed) == Without(s, LineFeed)
    ensures forall k :: 0 <= k < |r| && r[k] != '\n' ==> r[k] in s
    ensures forall k :: 0 <= k < |s| && s[k] != '\n' ==> s[k] in r
  {
    if |s| <= 1 then s
    else if s[0] == '\n' && s[1] == '\n' then SqueezeNewlines(s[1..])
    else [s[0]] + SqueezeNewlines(s[1..])
  }

  /** Squeezing line feeds only shortens whitespace runs, so `split(/\s+/)` finds the same pieces. */
  lemma {:induction false} SqueezeKeepsSplit(s: string)
    ensures SplitWs(SqueezeNewlines(s)) == SplitWs(s)
    decreases |s|
  {
    if |s| > 1 {
      SqueezeKeepsSplit(s[1..]);
      if s[0] == '\n' && s[1] == '\n' {
        SplitWsSpaceTwice(s);
      } else {
        SqueezeKeptFirst(s);
      }
    }
  }

  /** The step of `SqueezeKeepsSplit` when the first character is kept. */
  lemma SqueezeKeptFirst(s: string)
    requires |s| > 1 && !(s[0] == '\n' && s[1] == '\n')
    requires SplitWs(SqueezeNewlines(s[1..])) == SplitWs(s[1..])
    ensures SplitWs(SqueezeNewlines(s)) == SplitWs(s)
  {
    HeadTail(s);
    ConsSameSplit(s[0], SqueezeNewlines(s[1..]), s[1..]);
  }

  /** Whitespace occurs only as single spaces: every whitespace character is a space, and no two are adjacent. */
  ghost predicate IsSingleSpaced(s: string) {
    (forall k :: 0 <= k < |s| && IsSpace(s[k]) ==> s[k] == ' ')
    && (forall i, j :: 0 <= i < j < |s| && j == i + 1 ==> !(IsSpace(s[i]) && IsSpace(s[j])))
  }

  /** The text saved for a practice text: line feed runs squeezed, whitespace runs made single spaces, the ends trimmed. */
  function Clean(s: string): (r: string)
    ensures IsTrimmed(r) && IsSingleSpaced(r)
    ensures r == [] <==> IsBlank(s)
    ensures r == Join(Tokenize(s), ' ')
    ensures Tokenize(r) == Tokenize(s)
  {
    var t := CollapseWs(SqueezeNewlines(s));
    CollapsedTrimShape(s, t);
    CollapsedTrimWords(s, t);
    Trim(t)
  }

  /** The trimmed collapse is the text's words joined by single spaces, and splitting it gives those words back. */
  lemma CollapsedTrimWords(s: string, t: string)
    requires t == CollapseWs(SqueezeNewlines(s))
    ensures Trim(t) == Join(Tokenize(s), ' ')
    ensures Tokenize(Trim(t)) == Tokenize(s)
  {
    var words := Tokenize(s);
    if IsBlank(s) {
      CollapsedTrimShape(s, t);
      assert IsBlank(Trim(t));
    } else {
      SqueezeKeepsSplit(s);
      assert t == CollapseWs(s);
      TrimCollapse(s);
      JoinedWordsBack(words);
    }
  }


  /** The trimmed collapse is trimmed, single-spaced, and empty exactly for blank input. */
  lemma CollapsedTrimShape(s: string, t: string)
    requires t == CollapseWs(SqueezeNewlines(s))
    ensures IsTrimmed(Trim(t)) && IsSingleSpaced(Trim(t))
    ensures Trim(t) == [] <==> IsBlank(s)
  {
    CollapseShape(SqueezeNewlines(s));
    TrimSingleSpaced(t);
    BlankCollapse(s);
  }

  /** Trimming keeps a text single-spaced. */
  lemma TrimSingleSpaced(t: string)
    requires IsSingleSpaced(t)
    ensures IsSingleSpaced(Trim(t))
  {
    var a, r := TrimOffset(t), Trim(t);
    SingleSpacedSubstring(t, a, a + |r|);
  }

  /** Cleaning a cleaned text changes nothing. */
  lemma CleanIdempotent(s: string)
    ensures Clean(Clean(s)) == Clean(s)
  {
    var c := Clean(s);
    assert '\n' !in c by {
      forall k | 0 <= k < |c| ensures c[k] != '\n' {
        if IsSpace(c[k]) {
          assert c[k] == ' ';
        }
      }
    }
    CollapseOfSingleSpaced(c);
    TrimOfTrimmed(c);
  }

  /** A piece of a single-spaced text is single-spaced. */
  lemma SingleSpacedSubstring(s: string, a: nat, b: nat)
    requires IsSingleSpaced(s) && a <= b <= |s|
    ensures IsSingleSpaced(s[a..b])
  {
    forall k | 0 <= k < b - a && IsSpace(s[a..b][k])
      ensures s[a..b][k] == ' ' && (k + 1 < b - a ==> !IsSpace(s[a..b][k + 1]))
    {
      assert s[a..b][k] == s[a + k];
      if k + 1 < b - a {
        assert s[a..b][k + 1] == s[a + k + 1];
      }
    }
  }

  /** `CollapseWs` leaves single spaces only, and starts with a non-space whenever its input does. */
  lemma {:induction false} CollapseShape(s: string)
    ensures IsSingleSpaced(CollapseWs(s))
    ensures s != [] && !IsSpace(s[0]) ==> !IsSpace(CollapseWs(s)[0])
    decreases |s|
  {
    var n := WordRun(s);
    if n < |s| {
      var m := SpaceRun(s[n..]);
      CollapseUnfold(s, n, m);
      CollapseShape(s[n + m..]);
      JoinSingleSpaced(s[..n], CollapseWs(s[n + m..]));
    } else {
      assert CollapseWs(s) == s;
    }
  }

  /** A space-free word, a space, and a single-spaced text that does not start with a space: single-spaced. */
  lemma JoinSingleSpaced(w: string, tail: string)
    requires forall k :: 0 <= k < |w| ==> !IsSpace(w[k])
    requires IsSingleSpaced(tail) && (tail == [] || !IsSpace(tail[0]))
    ensures IsSingleSpaced(w + [' '] + tail)
  {
    var j := w + [' '] + tail;
    forall k | 0 <= k < |j| && IsSpace(j[k]) ensures j[k] == ' ' && (k + 1 < |j| ==> !IsSpace(j[k + 1])) {
      if k > |w| {
        assert j[k] == tail[k - |w| - 1];
        if k + 1 < |j| {
          assert j[k + 1] == tail[k - |w|];
        }
      } else if k == |w| {
        if k + 1 < |j| {
          assert j[k + 1] == tail[0];
        }
      }
    }
  }

  /** A single-spaced text without edge spaces is its own collapse. */
  lemma {:induction false} CollapseOfSingleSpaced(s: string)
    requires IsSingleSpaced(s) && IsTrimmed(s)
    ensures CollapseWs(s) == s
    decreases |s|
  {
    var n := WordRun(s);
    if n < |s| {
      SpaceAfterWord(s, n);
      var rest := s[n + 1..];
      CollapseUnfold(s, n, 1);
      CollapseOfSingleSpaced(rest);
      SplitAround(s, n);
    } else {
      assert CollapseWs(s) == s;
    }
  }

  /** In a trimmed single-spaced text, the whitespace that ends the first word is one space followed by more text of the same kind. */
  lemma SpaceAfterWord(s: string, n: nat)
    requires IsSingleSpaced(s) && IsTrimmed(s)
    requires n == WordRun(s) < |s|
    ensures s[n] == ' ' && n + 1 < |s| && SpaceRun(s[n..]) == 1
    ensures IsSingleSpaced(s[n + 1..]) && IsTrimmed(s[n + 1..])
  {
    SingleSpaceAt(s, n);
    SpaceRunOfOne(s[n..]);
    SingleSpacedSuffix(s, n + 1);
  }

  /** One whitespace character followed by a non-space is a whitespace run of length 1. */
  lemma SpaceRunOfOne(u: string)
    requires |u| >= 2 && IsSpace(u[0]) && !IsSpace(u[1])
    ensures SpaceRun(u) == 1
  {
    assert u[1..][0] == u[1];
  }

  /** A suffix of a trimmed single-spaced text that starts with a non-space is trimmed and single-spaced. */
  lemma SingleSpacedSuffix(s: string, i: nat)
    requires IsSingleSpaced(s) && IsTrimmed(s)
    requires i < |s| && !IsSpace(s[i])
    ensures IsSingleSpaced(s[i..]) && IsTrimmed(s[i..])
  {
    SingleSpacedSubstring(s, i, |s|);
    assert s[i..][0] == s[i];
    assert s[i..][|s| - i - 1] == s[|s| - 1];
  }

  /** A whitespace character inside a trimmed single-spaced text is a space with a non-space after it. */
  lemma SingleSpaceAt(s: string, n: nat)
    requires IsSingleSpaced(s) && IsTrimmed(s)
    requires n < |s| && IsSpace(s[n])
    ensures s[n] == ' ' && n + 1 < |s| && !IsSpace(s[n + 1])
  {
    assert n != |s| - 1;
    assert !(IsSpace(s[n]) && IsSpace(s[n + 1]));
  }

  /** A sequence is its part before `n`, its element at `n`, and its part after. */
  lemma SplitAround<T>(s: seq<T>, n: nat)
    requires n < |s|
    ensures s == s[..n] + [s[n]] + s[n + 1..]
  {
  }

  /** An empty first part adds nothing. */
  lemma DropEmptyPrefix<T>(a: seq<T>, b: seq<T>, c: seq<T>)
    requires a == []
    ensures a + b + c == b + c
  {
  }

  /** Squeezing line feeds and collapsing whitespace keep a text blank exactly when it was blank. */
  lemma BlankCollapse(s: string)
    ensures IsBlank(CollapseWs(SqueezeNewlines(s))) <==> IsBlank(s)
  {
    var t := SqueezeNewlines(s);
    CollapseBlank(t);
    if IsBlank(s) {
      forall k | 0 <= k < |t| ensures IsSpace(t[k]) {
        if t[k] != '\n' {
          var i :| 0 <= i < |s| && s[i] == t[k];
        }
      }
    } else {
      var i :| 0 <= i < |s| && !IsSpace(s[i]);
      assert s[i] in t;
    }
  }

  /** Collapsing whitespace keeps a text blank exactly when it was blank. */
  lemma {:induction false} CollapseBlank(s: string)
    ensures IsBlank(CollapseWs(s)) <==> IsBlank(s)
    decreases |s|
  {
    var n := WordRun(s);
    if n < |s| {
      var m := SpaceRun(s[n..]);
      CollapseUnfold(s, n, m);
      var rest := s[n + m..];
      CollapseBlank(rest);
      var c := CollapseWs(s);
      if n > 0 {
        assert !IsSpace(c[0]) && !IsSpace(s[0]);
      } else {
        DropEmptyPrefix(s[..n], [' '], CollapseWs(rest));
        assert s[n..] == s;
        BlankAfterSpaces(s, m, c, CollapseWs(rest));
      }
    } else {
      assert CollapseWs(s) == s;
    }
  }

  /** Past a leading run of whitespace, blankness is decided by the rest. */
  lemma BlankAfterSpaces(s: string, m: nat, c: string, t: string)
    requires m <= |s| && forall k :: 0 <= k < m ==> IsSpace(s[k])
    requires c == [' '] + t
    ensures IsBlank(c) <==> IsBlank(t)
    ensures IsBlank(s) <==> IsBlank(s[m..])
  {
    assert forall k :: 0 <= k < |t| ==> c[k + 1] == t[k];
    assert forall k :: m <= k < |s| ==> s[k] == s[m..][k - m];
  }

  /** `texto{i+1}.txt`, the file name of text `i`. */
  function FileName(i: nat): (name: string)
    ensures |name| == 9 + |NatToString(i + 1)|
    ensures name[..5] == "texto" && name[|name| - 4..] == ".txt"
    ensures name[5..|name| - 4] == NatToString(i + 1)
  {
    "texto" + NatToString(i + 1) + ".txt"
  }

  /** Different texts are saved under different names. */
  lemma FileNamesDistinct(i: nat, j: nat)
    requires FileName(i) == FileName(j)
    ensures i == j
  {
    NatToStringInjective(i + 1, j + 1);
  }
}
