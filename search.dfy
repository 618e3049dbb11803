/**
 * The search pipeline of `search.py`: query expansion by the chat model, multi-query recall from
 * the vector store with first-seen deduplication, reranking by a cross-encoder, and the threshold
 * and top-K filter that formats the passages handed back to the reasoning loop.
 */
module Search {
  import opened Text
  import opened Store
  import Config

  /** Neither end of `s` is whitespace: what `strip()` leaves. */
  predicate Stripped(s: string)
  {
    s != [] ==> !IsSpace(s[0]) && !IsSpace(s[|s| - 1])
  }

  // ---------------------------------------------------------------------------------------------
  // Query expansion
  // ---------------------------------------------------------------------------------------------

  /**
   * The enumeration cleanup of one expansion line: the text after the LAST `.` of the line,
   * stripped. It holds no `.`, keeps only characters of the line, and is stripped.
   */
  function CleanLine(line: string): (r: string)
    ensures '.' !in r
    ensures Stripped(r)
    ensures forall c :: c in r ==> c in line
  {
    var tail := AfterLast(line, ".");
    ContainsChar(tail, '.');
    Strip(tail)
  }

  /**
   * A line holding `.` cleans to the stripped text behind its last `.`: there is a `.` at some
   * index `i` with none after it, and the result is `line[i + 1..]` stripped.
   */
  lemma CleanLineAfterLastDot(line: string)
    requires '.' in line
    ensures exists i :: (0 <= i < |line| && line[i] == '.' && '.' !in line[i + 1..]
                         && CleanLine(line) == Strip(line[i + 1..]))
  {
    ContainsChar(line, '.');
    var tail := AfterLast(line, ".");
    var i := |line| - |tail| - 1;
    assert line[i] == line[i..i + 1][0];
    assert line[i + 1..] == tail;
    ContainsChar(tail, '.');
  }

  /** A line without `.` is only stripped. */
  lemma CleanLineWithoutDot(line: string)
    requires '.' !in line
    ensures CleanLine(line) == Strip(line)
  {
    ContainsChar(line, '.');
  }

  /** A line whose last character is `.` (such as `"abc."`) cleans to the empty string. */
  lemma CleanLineEndingInDot(line: string)
    requires line != [] && line[|line| - 1] == '.'
    ensures CleanLine(line) == ""
  {
    var tail := AfterLast(line, ".");
    ContainsChar(tail, '.');
  }

  /** `line.strip()` is falsy: the line is whitespace only. */
  predicate Blank(line: string)
  {
    Strip(line) == []
  }

  /** The lines that are not whitespace only, in order. */
  function NonBlank(lines: seq<string>): (r: seq<string>)
    ensures |r| <= |lines|
    ensures forall k :: 0 <= k < |r| ==> !Blank(r[k])
  {
    if lines == [] then []
    else (if !Blank(lines[0]) then [lines[0]] else []) + NonBlank(lines[1..])
  }

  /** Every line that is not whitespace only survives the filter. */
  lemma {:induction false} NonBlankKeeps(lines: seq<string>, k: nat)
    requires k < |lines| && !Blank(lines[k])
    ensures lines[k] in NonBlank(lines)
  {
    var front := if !Blank(lines[0]) then [lines[0]] else [];
    assert NonBlank(lines) == front + NonBlank(lines[1..]);
    if k > 0 {
      NonBlankKeeps(lines[1..], k - 1);
      assert lines[1..][k - 1] == lines[k];
    } else {
      assert front == [lines[0]];
    }
  }

  /** Each element of `xs` cleaned. */
  function CleanAll(xs: seq<string>): (r: seq<string>)
    ensures |r| == |xs|
    ensures forall k :: 0 <= k < |r| ==> r[k] == CleanLine(xs[k])
  {
    Map(CleanLine, xs)
  }

  /** The comprehension cleans exactly the lines that are not blank, in order. */
  lemma {:induction false} CleanLinesCleanNonBlank(lines: seq<string>)
    ensures CleanLines(lines) == CleanAll(NonBlank(lines))
  {
    if lines != [] {
      CleanLinesCleanNonBlank(lines[1..]);
      var rest := NonBlank(lines[1..]);
      if Blank(lines[0]) {
        assert NonBlank(lines) == [] + rest;
        assert [] + rest == rest;
      } else {
        assert NonBlank(lines) == [lines[0]] + rest;
        assert CleanLines(lines) == [CleanLine(lines[0])] + CleanLines(lines[1..]);
        CleanAllCons(lines[0], rest);
      }
    }
  }

  lemma CleanAllCons(x: string, xs: seq<string>)
    ensures CleanAll([x] + xs) == [CleanLine(x)] + CleanAll(xs)
  {
    MapCons(CleanLine, x, xs);
  }

  /** What the cleanup leaves of a line: no `.`, and stripped. */
  predicate Cleaned(s: string)
  {
    '.' !in s && Stripped(s)
  }

  /** The comprehension over the reply's lines: blank lines dropped, the others cleaned. */
  function CleanLines(lines: seq<string>): (r: seq<string>)
    ensures |r| <= |lines|
    ensures forall k :: 0 <= k < |r| ==> Cleaned(r[k])
  {
    if lines == [] then []
    else
      var rest := CleanLines(lines[1..]);
      if Blank(lines[0]) then rest
      else
        var c := CleanLine(lines[0]);
        assert Cleaned(c);
        ConsAll(c, rest);
        [c] + rest
  }

  lemma ConsAll(c: string, rest: seq<string>)
    requires Cleaned(c)
    requires forall k :: 0 <= k < |rest| ==> Cleaned(rest[k])
    ensures forall k :: 0 <= k < |[c] + rest| ==> Cleaned(([c] + rest)[k])
  {
  }

  /** An expansion variant: no `.`, no line break, stripped. */
  predicate Variant(s: string)
  {
    Cleaned(s) && '\n' !in s
  }

  /** The lines of the stripped reply: `reply.strip().split('\n')`. */
  function ReplyLines(reply: string): (r: seq<string>)
    ensures forall k :: 0 <= k < |r| ==> '\n' !in r[k]
  {
    var lines := Split(Strip(reply), "\n");
    SplitPiecesFree(Strip(reply), "\n");
    forall k | 0 <= k < |lines| ensures '\n' !in lines[k] {
      ContainsChar(lines[k], '\n');
    }
    lines
  }

  /** Cleaning lines free of line breaks yields variants. */
  lemma {:induction false} CleanLinesVariants(lines: seq<string>)
    requires forall k :: 0 <= k < |lines| ==> '\n' !in lines[k]
    ensures forall k :: 0 <= k < |CleanLines(lines)| ==> Variant(CleanLines(lines)[k])
  {
    if lines != [] {
      CleanLinesVariants(lines[1..]);
      var rest := CleanLines(lines[1..]);
      if !Blank(lines[0]) {
        var c := CleanLine(lines[0]);
        assert Variant(c);
        ConsVariants(c, rest);
      }
    }
  }

  lemma ConsVariants(c: string, rest: seq<string>)
    requires Variant(c)
    requires forall k :: 0 <= k < |rest| ==> Variant(rest[k])
    ensures forall k :: 0 <= k < |[c] + rest| ==> Variant(([c] + rest)[k])
  {
  }

  /** The query followed by some variants: every element after the first is a variant. */
  lemma QueryThenVariants(query: string, vs: seq<string>, n: int)
    requires forall k :: 0 <= k < |vs| ==> Variant(vs[k])
    ensures forall k :: 1 <= k < |[query] + SliceTo(vs, n)| ==> Variant(([query] + SliceTo(vs, n))[k])
  {
    var t := SliceTo(vs, n);
    assert forall k :: 0 <= k < |t| ==> t[k] == vs[k];
  }

  /**
   * `QueryExpander.expand(query, count)`. The chat model's reply to the expansion prompt is the
   * oracle `llm`; `None` stands for any exception raised while obtaining it. The original query
   * always comes first; at most `count` cleaned lines of the stripped reply follow it, each of
   * them a `Variant`.
   */
  function Expand(query: string, count: int, llm: string -> Option<string>): (r: seq<string>)
    ensures |r| >= 1 && r[0] == query
    ensures count >= 0 ==> |r| <= count + 1
    ensures llm(Config.QueryExpansionPrompt(query, count)).None? ==> r == [query]
  {
    match llm(Config.QueryExpansionPrompt(query, count))
    case None => [query]
    case Some(reply) => [query] + SliceTo(CleanLines(ReplyLines(reply)), count)
  }

  /** Every element of an expansion after the original query is a `Variant`. */
  lemma ExpandVariants(query: string, count: int, llm: string -> Option<string>)
    ensures var r := Expand(query, count, llm); forall k :: 1 <= k < |r| ==> Variant(r[k])
  {
    match llm(Config.QueryExpansionPrompt(query, count))
    case None =>
    case Some(reply) =>
      CleanLinesVariants(ReplyLines(reply));
      QueryThenVariants(query, CleanLines(ReplyLines(reply)), count);
  }

  // ---------------------------------------------------------------------------------------------
  // Reranking
  // ---------------------------------------------------------------------------------------------

  /** A recalled document with the cross-encoder's score for it and its metadata. */
  datatype Scored = Scored(doc: string, score: real, meta: Meta)

  /** The `[query, doc]` pairs handed to the cross-encoder. */
  function Pairs(query: string, docs: seq<string>): (r: seq<(string, string)>)
    ensures |r| == |docs|
    ensures forall k :: 0 <= k < |r| ==> r[k] == (query, docs[k])
  {
    seq(|docs|, k requires 0 <= k < |docs| => (query, docs[k]))
  }

  /** `list(zip(documents, scores, metadatas))`: as long as the shortest of the three. */
  function Zip3(docs: seq<string>, scores: seq<real>, metas: seq<Meta>): (r: seq<Scored>)
    ensures |r| == Min(|docs|, Min(|scores|, |metas|))
    ensures forall k :: 0 <= k < |r| ==> r[k] == Scored(docs[k], scores[k], metas[k])
  {
    var n := Min(|docs|, Min(|scores|, |metas|));
    seq(n, k requires 0 <= k < n => Scored(docs[k], scores[k], metas[k]))
  }

  /** Scores never increase along `s`. */
  predicate Descending(s: seq<Scored>)
  {
    forall i, j :: 0 <= i < j < |s| ==> s[i].score >= s[j].score
  }

  /** Every score in `s` is at most `v`. */
  predicate AtMost(s: seq<Scored>, v: real)
  {
    forall i :: 0 <= i < |s| ==> s[i].score <= v
  }

  /**
   * Places `x` in front of the first element of `ys` whose score is not above its own, so that
   * it stays ahead of the elements of equal score that came after it in the input.
   */
  function Insert(x: Scored, ys: seq<Scored>): (r: seq<Scored>)
    ensures multiset(r) == multiset{x} + multiset(ys)
  {
    if ys == [] || x.score >= ys[0].score then [x] + ys
    else
      assert ys == [ys[0]] + ys[1..];
      [ys[0]] + Insert(x, ys[1..])
  }

  /** A descending sequence headed by `y`, followed by `ys`. */
  lemma ConsDescending(y: Scored, ys: seq<Scored>)
    requires Descending(ys) && AtMost(ys, y.score)
    ensures Descending([y] + ys)
  {
  }

  /** Inserting into a descending sequence keeps it descending. */
  lemma {:induction false} InsertDescending(x: Scored, ys: seq<Scored>)
    requires Descending(ys)
    ensures Descending(Insert(x, ys))
  {
    if ys == [] || x.score >= ys[0].score {
      ConsDescending(x, ys);
    } else {
      var rest := Insert(x, ys[1..]);
      InsertDescending(x, ys[1..]);
      InsertAtMost(x, ys[1..], ys[0].score);
      ConsDescending(ys[0], rest);
    }
  }

  /** Inserting an element no higher than `v` among elements no higher than `v`. */
  lemma InsertAtMost(x: Scored, ys: seq<Scored>, v: real)
    requires x.score <= v && AtMost(ys, v)
    ensures AtMost(Insert(x, ys), v)
  {
    var r := Insert(x, ys);
    forall i | 0 <= i < |r| ensures r[i].score <= v {
      assert r[i] in multiset(r);
    }
  }

  /** `sort(key=score, reverse=True)`, which Python performs stably (see `SortStable`). */
  function SortByScore(xs: seq<Scored>): (r: seq<Scored>)
    ensures multiset(r) == multiset(xs)
  {
    if xs == [] then []
    else
      assert xs == [xs[0]] + xs[1..];
      Insert(xs[0], SortByScore(xs[1..]))
  }

  /** The sort orders by descending score. */
  lemma {:induction false} SortDescending(xs: seq<Scored>)
    ensures Descending(SortByScore(xs))
  {
    if xs != [] {
      SortDescending(xs[1..]);
      InsertDescending(xs[0], SortByScore(xs[1..]));
    }
  }

  lemma SortLength(xs: seq<Scored>)
    ensures |SortByScore(xs)| == |xs|
  {
    assert |multiset(SortByScore(xs))| == |multiset(xs)|;
  }

  /** The elements of `s` with score `v`, in order. */
  function WithScore(s: seq<Scored>, v: real): (r: seq<Scored>)
  {
    if s == [] then [] else (if s[0].score == v then [s[0]] else []) + WithScore(s[1..], v)
  }

  lemma WithScoreCons(x: Scored, s: seq<Scored>, v: real)
    ensures WithScore([x] + s, v) == (if x.score == v then [x] else []) + WithScore(s, v)
  {
    assert ([x] + s)[1..] == s;
  }

  /** Inserting `x` puts it ahead of every element of equal score. */
  lemma {:induction false} InsertStable(x: Scored, ys: seq<Scored>, v: real)
    ensures WithScore(Insert(x, ys), v) == WithScore([x] + ys, v)
  {
    if ys != [] && x.score < ys[0].score {
      var y, tail := ys[0], ys[1..];
      assert ys == [y] + tail;
      var inserted := Insert(x, tail);
      assert Insert(x, ys) == [y] + inserted;
      InsertStable(x, tail, v);
      WithScoreCons(y, inserted, v);
      WithScoreCons(x, tail, v);
      WithScoreCons(x, ys, v);
      WithScoreCons(y, tail, v);
      if x.score == v {
        assert WithScore(Insert(x, ys), v) == [x] + WithScore(tail, v);
      } else {
        assert WithScore(Insert(x, ys), v) == (if y.score == v then [y] else []) + WithScore(tail, v);
      }
    }
  }

  /** The sort is stable: the elements of any one score keep their input order. */
  lemma {:induction false} SortStable(xs: seq<Scored>, v: real)
    ensures WithScore(SortByScore(xs), v) == WithScore(xs, v)
  {
    if xs != [] {
      SortStable(xs[1..], v);
      InsertStable(xs[0], SortByScore(xs[1..]), v);
      WithScoreCons(xs[0], SortByScore(xs[1..]), v);
      WithScoreCons(xs[0], xs[1..], v);
      assert xs == [xs[0]] + xs[1..];
    }
  }

  /**
   * `Reranker.rerank(query, documents, metadatas)`. The cross-encoder is the oracle `predict`,
   * which scores the pairs or raises. No documents: no prediction and the empty list. Otherwise
   * the zipped triples sorted by descending score (stably, by `SortStable`), or the exception.
   */
  function Rerank(query: string, docs: seq<string>, metas: seq<Meta>,
                  predict: seq<(string, string)> -> Result<seq<real>>): (r: Result<seq<Scored>>)
    ensures docs == [] ==> r == Ok([])
    ensures r.Err? <==> docs != [] && predict(Pairs(query, docs)).Err?
    ensures r.Err? ==> r.error == predict(Pairs(query, docs)).error
    ensures r.Ok? ==> Descending(r.value) && |r.value| <= |docs|
    ensures r.Ok? && docs != [] ==>
      multiset(r.value) == multiset(Zip3(docs, predict(Pairs(query, docs)).value, metas))
    ensures r.Ok? && docs != [] && |predict(Pairs(query, docs)).value| >= |docs| && |metas| >= |docs| ==>
      |r.value| == |docs|
  {
    if docs == [] then Ok([])
    else
      match predict(Pairs(query, docs))
      case Err(e) => Err(e)
      case Ok(scores) =>
        var zipped := Zip3(docs, scores, metas);
        SortDescending(zipped);
        SortLength(zipped);
        Ok(SortByScore(zipped))
  }
  // ---------------------------------------------------------------------------------------------
  // Multi-query recall
  // ---------------------------------------------------------------------------------------------

  /** A recalled document and its metadata. */
  datatype Hit = Hit(doc: string, meta: Meta)

  /** `zip(docs, metas)`, after an empty metadata list has been padded with one `{}` per document. */
  function ZipHits(docs: seq<string>, metas: seq<Meta>): (r: seq<Hit>)
    ensures metas == [] ==> |r| == |docs|
    ensures metas != [] ==> |r| == Min(|docs|, |metas|)
    ensures forall k :: 0 <= k < |r| ==> r[k].doc == docs[k]
    ensures forall k :: 0 <= k < |r| ==> r[k].meta == (if metas == [] then map[] else metas[k])
  {
    var n := if metas == [] then |docs| else Min(|docs|, |metas|);
    seq(n, k requires 0 <= k < n => Hit(docs[k], if metas == [] then map[] else metas[k]))
  }

  /** What one query variant contributes to the recall. */
  datatype Probe = Skipped | Found(hits: seq<Hit>) | Failed(message: string)

  /**
   * One variant: an empty embedding (the embedding call failed) is skipped; otherwise the store
   * is asked for `RECALL_N_RESULTS` neighbours, and either raises or yields its zipped hits.
   */
  function ProbeVariant(q: string, embedQuery: string -> Vector,
                        query: (Vector, int) -> QueryReply): Probe
  {
    var embedding := embedQuery(q);
    if embedding == [] then Skipped
    else
      match query(embedding, Config.RecallNResults)
      case Raised(m) => Failed(m)
      case Hits(docs, metas) => Found(ZipHits(docs, metas))
  }

  /** The hits one variant contributes, before deduplication. */
  function HitsOf(p: Probe): seq<Hit>
  {
    if p.Found? then p.hits else []
  }

  /** The warning logged for a variant whose retrieval raised. */
  function Warning(q: string, message: string): string
  {
    "⚠️ 检索关键词 '" + q + "' 时出错: " + message
  }

  /** All hits of all variants, in the order the variants are tried. */
  function Stream(queries: seq<string>, embedQuery: string -> Vector,
                  query: (Vector, int) -> QueryReply): seq<Hit>
  {
    if queries == [] then []
    else
      var n := |queries| - 1;
      Stream(queries[..n], embedQuery, query) + HitsOf(ProbeVariant(queries[n], embedQuery, query))
  }

  /** One warning per variant whose retrieval raised, in order. */
  function Warnings(queries: seq<string>, embedQuery: string -> Vector,
                    query: (Vector, int) -> QueryReply): seq<string>
  {
    if queries == [] then []
    else
      var n := |queries| - 1;
      var p := ProbeVariant(queries[n], embedQuery, query);
      Warnings(queries[..n], embedQuery, query) + (if p.Failed? then [Warning(queries[n], p.message)] else [])
  }

  /** The documents of `s`. */
  function DocSet(s: seq<Hit>): set<string>
  {
    set k | 0 <= k < |s| :: s[k].doc
  }

  /** First-seen deduplication by document text: a hit is kept unless its document was kept before. */
  function Dedup(s: seq<Hit>): (r: seq<Hit>)
    ensures |r| <= |s|
  {
    if s == [] then []
    else
      var d := Dedup(s[..|s| - 1]);
      if s[|s| - 1].doc in DocSet(d) then d else d + [s[|s| - 1]]
  }

  /** The deduplicated recall of all variants. */
  function Recalled(queries: seq<string>, embedQuery: string -> Vector,
                    query: (Vector, int) -> QueryReply): seq<Hit>
  {
    Dedup(Stream(queries, embedQuery, query))
  }

  /** The parallel lists `documents` and `metadatas` hold the documents and metadatas of `hits`. */
  ghost predicate Mirrors(documents: seq<string>, metadatas: seq<Meta>, hits: seq<Hit>)
  {
    && |documents| == |hits| && |metadatas| == |hits|
    && forall k :: 0 <= k < |hits| ==> documents[k] == hits[k].doc && metadatas[k] == hits[k].meta
  }

  lemma MirrorsSnoc(documents: seq<string>, metadatas: seq<Meta>, hits: seq<Hit>, h: Hit)
    requires Mirrors(documents, metadatas, hits)
    ensures Mirrors(documents + [h.doc], metadatas + [h.meta], hits + [h])
  {
  }

  lemma DocSetSnoc(s: seq<Hit>, h: Hit)
    ensures DocSet(s + [h]) == DocSet(s) + {h.doc}
  {
    var t := s + [h];
    assert t[|s|] == h;
    forall d | d in DocSet(t) ensures d in DocSet(s) + {h.doc} {
      var k :| 0 <= k < |t| && t[k].doc == d;
      if k < |s| { assert t[k] == s[k]; }
    }
    forall d | d in DocSet(s) ensures d in DocSet(t) {
      var k :| 0 <= k < |s| && s[k].doc == d;
      assert t[k] == s[k];
    }
  }

  /** One more hit: kept when its document is new. */
  lemma DedupSnoc(s: seq<Hit>, h: Hit)
    ensures Dedup(s + [h]) == if h.doc in DocSet(Dedup(s)) then Dedup(s) else Dedup(s) + [h]
  {
    assert (s + [h])[..|s|] == s;
  }

  lemma StreamSnoc(queries: seq<string>, i: nat, embedQuery: string -> Vector,
                   query: (Vector, int) -> QueryReply)
    requires i < |queries|
    ensures Stream(queries[..i + 1], embedQuery, query)
         == Stream(queries[..i], embedQuery, query) + HitsOf(ProbeVariant(queries[i], embedQuery, query))
    ensures Warnings(queries[..i + 1], embedQuery, query)
         == Warnings(queries[..i], embedQuery, query)
            + (if ProbeVariant(queries[i], embedQuery, query).Failed?
               then [Warning(queries[i], ProbeVariant(queries[i], embedQuery, query).message)] else [])
  {
    assert queries[..i + 1][..i] == queries[..i];
  }

  /** State of the recall loop after the hits `s`: documents kept so far and the `seen_docs` set. */
  ghost predicate RecallState(documents: seq<string>, metadatas: seq<Meta>, seen: set<string>, s: seq<Hit>)
  {
    Mirrors(documents, metadatas, Dedup(s)) && seen == DocSet(Dedup(s))
  }

  /** The inner loop's step: the hit is appended when its document was not seen. */
  lemma AbsorbHit(documents: seq<string>, metadatas: seq<Meta>, seen: set<string>, s: seq<Hit>, h: Hit)
    requires RecallState(documents, metadatas, seen, s)
    ensures h.doc in seen ==> RecallState(documents, metadatas, seen, s + [h])
    ensures h.doc !in seen ==>
      RecallState(documents + [h.doc], metadatas + [h.meta], seen + {h.doc}, s + [h])
  {
    DedupSnoc(s, h);
    if h.doc !in seen {
      MirrorsSnoc(documents, metadatas, Dedup(s), h);
      DocSetSnoc(Dedup(s), h);
    }
  }

  /** The inner loop of the recall: the hits of one variant, absorbed one at a time. */
  method AbsorbHits(documents: seq<string>, metadatas: seq<Meta>, seen: set<string>,
                    ghost before: seq<Hit>, hits: seq<Hit>)
    returns (documents': seq<string>, metadatas': seq<Meta>, seen': set<string>)
    requires RecallState(documents, metadatas, seen, before)
    ensures RecallState(documents', metadatas', seen', before + hits)
  {
    documents', metadatas', seen' := documents, metadatas, seen;
    assert before + hits[..0] == before;
    for j := 0 to |hits|
      invariant RecallState(documents', metadatas', seen', before + hits[..j])
    {
      var doc, meta := hits[j].doc, hits[j].meta;
      AbsorbHit(documents', metadatas', seen', before + hits[..j], hits[j]);
      SnocPrefix(before, hits, j);
      if doc !in seen' {
        documents' := documents' + [doc];
        metadatas' := metadatas' + [meta];
        seen' := seen' + {doc};
      }
    }
    assert hits[..|hits|] == hits;
  }

  /**
   * `MedicalSearchEngine._multi_recall(queries)`. The embedding service is `embedQuery` (the empty
   * vector when the call failed) and the store's similarity query is `query`. The parallel lists
   * returned are the documents and metadatas of `Recalled`, and the logs are `Warnings`.
   */
  method MultiRecall(queries: seq<string>, embedQuery: string -> Vector,
                     query: (Vector, int) -> QueryReply)
    returns (documents: seq<string>, metadatas: seq<Meta>, logs: seq<string>)
    ensures documents == DocsOf(Recalled(queries, embedQuery, query))
    ensures metadatas == MetasOf(Recalled(queries, embedQuery, query))
    ensures logs == Warnings(queries, embedQuery, query)
  {
    documents, metadatas, logs := [], [], [];
    var seen: set<string> := {};
    for i := 0 to |queries|
      invariant RecallState(documents, metadatas, seen, Stream(queries[..i], embedQuery, query))
      invariant logs == Warnings(queries[..i], embedQuery, query)
    {
      ghost var before := Stream(queries[..i], embedQuery, query);
      StreamSnoc(queries, i, embedQuery, query);
      var q := queries[i];
      var embedding := embedQuery(q);
      if embedding == [] {
        assert before + [] == before;
        continue;
      }
      var reply := query(embedding, Config.RecallNResults);
      match reply
      case Raised(message) =>
        logs := logs + [Warning(q, message)];
        assert before + [] == before;
      case Hits(docs, metas) =>
        documents, metadatas, seen := AbsorbHits(documents, metadatas, seen, before, ZipHits(docs, metas));
        assert logs + [] == logs;
    }
    assert queries[..|queries|] == queries;
    MirrorsOf(documents, metadatas, Recalled(queries, embedQuery, query));
  }

  /** No document is recalled twice. */
  predicate DistinctDocs(s: seq<Hit>)
  {
    forall i, j :: 0 <= i < j < |s| ==> s[i].doc != s[j].doc
  }

  lemma {:induction false} DedupDistinct(s: seq<Hit>)
    ensures DistinctDocs(Dedup(s))
  {
    if s != [] {
      var front, h := s[..|s| - 1], s[|s| - 1];
      assert s == front + [h];
      DedupDistinct(front);
      DedupSnoc(front, h);
      var d := Dedup(front);
      if h.doc !in DocSet(d) {
        forall i | 0 <= i < |d| ensures d[i].doc != h.doc {
          assert d[i].doc in DocSet(d);
        }
      }
    }
  }

  /** Deduplication loses no document and invents none. */
  lemma {:induction false} DedupDocSet(s: seq<Hit>)
    ensures DocSet(Dedup(s)) == DocSet(s)
  {
    if s != [] {
      var front, h := s[..|s| - 1], s[|s| - 1];
      assert s == front + [h];
      DedupDocSet(front);
      DedupSnoc(front, h);
      DocSetSnoc(front, h);
      DocSetSnoc(Dedup(front), h);
    }
  }

  /** Every kept hit is a hit of the stream, metadata included. */
  lemma {:induction false} DedupFromStream(s: seq<Hit>, k: nat)
    requires k < |Dedup(s)|
    ensures Dedup(s)[k] in s
  {
    var front, h := s[..|s| - 1], s[|s| - 1];
    assert s == front + [h];
    DedupSnoc(front, h);
    if k < |Dedup(front)| {
      DedupFromStream(front, k);
    }
  }

  /** The first hit for a document is the one kept: its metadata wins over later duplicates. */
  lemma {:induction false} DedupKeepsFirst(s: seq<Hit>, i: nat)
    requires i < |s|
    requires forall j :: 0 <= j < i ==> s[j].doc != s[i].doc
    ensures s[i] in Dedup(s)
  {
    var front, h := s[..|s| - 1], s[|s| - 1];
    assert s == front + [h];
    DedupSnoc(front, h);
    if i < |front| {
      DedupKeepsFirst(front, i);
    } else {
      DedupDocSet(front);
    }
  }

  /** Later hits never displace or reorder earlier ones: the kept list only grows at its end. */
  lemma {:induction false} DedupPrefix(s: seq<Hit>, t: seq<Hit>)
    ensures Dedup(s) <= Dedup(s + t)
    decreases |t|
  {
    if t != [] {
      var front, h := t[..|t| - 1], t[|t| - 1];
      assert s + t == (s + front) + [h];
      DedupPrefix(s, front);
      DedupSnoc(s + front, h);
    } else {
      assert s + t == s;
    }
  }

  /** A variant whose embedding failed adds no hit and no log line. */
  lemma SkippedVariant(queries: seq<string>, q: string, embedQuery: string -> Vector,
                       query: (Vector, int) -> QueryReply)
    requires embedQuery(q) == []
    ensures Stream(queries + [q], embedQuery, query) == Stream(queries, embedQuery, query)
    ensures Warnings(queries + [q], embedQuery, query) == Warnings(queries, embedQuery, query)
  {
    assert (queries + [q])[..|queries|] == queries;
  }

  /** A variant whose retrieval raised adds no hit and exactly one warning. */
  lemma FailedVariant(queries: seq<string>, q: string, embedQuery: string -> Vector,
                      query: (Vector, int) -> QueryReply)
    requires embedQuery(q) != [] && query(embedQuery(q), Config.RecallNResults).Raised?
    ensures Stream(queries + [q], embedQuery, query) == Stream(queries, embedQuery, query)
    ensures Warnings(queries + [q], embedQuery, query)
         == Warnings(queries, embedQuery, query)
            + [Warning(q, query(embedQuery(q), Config.RecallNResults).message)]
  {
    assert (queries + [q])[..|queries|] == queries;
  }
  // ---------------------------------------------------------------------------------------------
  // Filtering and formatting
  // ---------------------------------------------------------------------------------------------

  /**
   * The services the search engine calls, each an oracle: the chat model for expansion, the
   * embedding service (the empty vector when it fails), the store's similarity query, the
   * cross-encoder, and the two formatters of debug lines, `f"{score:.2f}"` and a list's `str`.
   */
  datatype Services = Services(
    llm: string -> Option<string>,
    embedQuery: string -> Vector,
    query: (Vector, int) -> QueryReply,
    predict: seq<(string, string)> -> Result<seq<real>>,
    showScore: real -> string,
    showList: seq<string> -> string)

  /** The text returned by `search` and its debug log lines. */
  datatype Answer = Answer(text: string, logs: seq<string>)

  const NotFound: string := "未找到相关资料。"
  const LowRelevance: string := "资料相关度较低，建议补充细节。"
  const Separator: string := "\n---\n"
  const UnknownSource: string := "未知来源"

  /** The first log line of every search. */
  function Opening(query: string): string
  {
    "🔍 原始查询: " + query
  }

  /** The text returned when the search raised. */
  function Failure(message: string): string
  {
    "检索过程发生错误: " + message
  }

  /** The chunk's `source` metadata; an empty metadata or a missing key gives `未知来源`. */
  function SourceName(meta: Meta): (r: string)
    ensures "source" in meta ==> r == meta["source"]
    ensures "source" !in meta ==> r == UnknownSource
  {
    if meta == map[] then UnknownSource
    else if "source" in meta then meta["source"] else UnknownSource
  }

  /**
   * A store reply with documents but no metadata: the `{}` padding gives one hit per document,
   * in order, and each of them is later shown with the source `未知来源`.
   */
  lemma UnlabelledHitsUnknownSource(q: string, embedQuery: string -> Vector,
                                    query: (Vector, int) -> QueryReply, docs: seq<string>)
    requires embedQuery(q) != []
    requires query(embedQuery(q), Config.RecallNResults) == Hits(docs, [])
    ensures var p := ProbeVariant(q, embedQuery, query);
      && p.Found? && |p.hits| == |docs|
      && forall k :: 0 <= k < |docs| ==> p.hits[k].doc == docs[k] && SourceName(p.hits[k].meta) == UnknownSource
  {
  }

  /** A kept passage with its source appended. */
  function Annotate(h: Scored): string
  {
    h.doc + "\n[来源: " + SourceName(h.meta) + "]"
  }

  function Annotations(s: seq<Scored>): (r: seq<string>)
    ensures |r| == |s|
    ensures forall k :: 0 <= k < |s| ==> r[k] == Annotate(s[k])
  {
    seq(|s|, k requires 0 <= k < |s| => Annotate(s[k]))
  }

  /** The debug line for one scored document: score, source and a one-line preview of 20 characters. */
  function ScoreLine(showScore: real -> string, h: Scored): string
  {
    "[" + showScore(h.score) + "] " + SourceName(h.meta) + ": "
      + ReplaceChar(SliceTo(h.doc, 20), '\n', ' ') + "..."
  }

  function ScoreLines(showScore: real -> string, s: seq<Scored>): (r: seq<string>)
    ensures |r| == |s|
    ensures forall k :: 0 <= k < |s| ==> r[k] == ScoreLine(showScore, s[k])
  {
    seq(|s|, k requires 0 <= k < |s| => ScoreLine(showScore, s[k]))
  }

  /** A score strictly above `RERANK_THRESHOLD`. */
  predicate Relevant(h: Scored)
  {
    h.score > Config.RerankThreshold as real
  }

  /** The relevant elements of `s`, in order. */
  function Passing(s: seq<Scored>): (r: seq<Scored>)
    ensures |r| <= |s|
    ensures forall k :: 0 <= k < |r| ==> Relevant(r[k])
  {
    if s == [] then []
    else
      var front := Passing(s[..|s| - 1]);
      if Relevant(s[|s| - 1]) then front + [s[|s| - 1]] else front
  }

  /** The results kept: the first `RERANK_TOP_K` relevant ones. */
  function Kept(scored: seq<Scored>): seq<Scored>
  {
    SliceTo(Passing(scored), Config.RerankTopK)
  }

  function DocsOf(hits: seq<Hit>): (r: seq<string>)
    ensures |r| == |hits|
    ensures forall k :: 0 <= k < |r| ==> r[k] == hits[k].doc
  {
    seq(|hits|, k requires 0 <= k < |hits| => hits[k].doc)
  }

  function MetasOf(hits: seq<Hit>): (r: seq<Meta>)
    ensures |r| == |hits|
    ensures forall k :: 0 <= k < |r| ==> r[k] == hits[k].meta
  {
    seq(|hits|, k requires 0 <= k < |hits| => hits[k].meta)
  }

  lemma MirrorsOf(documents: seq<string>, metadatas: seq<Meta>, hits: seq<Hit>)
    requires Mirrors(documents, metadatas, hits)
    ensures documents == DocsOf(hits) && metadatas == MetasOf(hits)
  {
  }

  /** The variants searched: the query and up to `MULTI_QUERY_COUNT` expansions. */
  function Variants(query: string, svc: Services): seq<string>
  {
    Expand(query, Config.MultiQueryCount, svc.llm)
  }

  /** The hits recalled for all variants, deduplicated. */
  function Pool(query: string, svc: Services): seq<Hit>
  {
    Recalled(Variants(query, svc), svc.embedQuery, svc.query)
  }

  /** The log lines written before reranking starts. */
  function RecallLogs(query: string, debug: bool, svc: Services): seq<string>
  {
    [Opening(query)]
      + (if debug then ["🧠 扩展关键词: " + svc.showList(Variants(query, svc))] else [])
      + Warnings(Variants(query, svc), svc.embedQuery, svc.query)
  }

  /** The line announcing the rerank of `n` distinct recalled passages. */
  function RerankNotice(n: nat): string
  {
    "∑ 共召回 " + IntToString(n) + " 条不重复片段，开始 Rerank..."
  }

  /** The formatted answer for the reranked list `scored`. */
  function Format(scored: seq<Scored>): string
  {
    if Kept(scored) == [] then LowRelevance else Join(Annotations(Kept(scored)), Separator)
  }

  /**
   * What `MedicalSearchEngine.search(query, debug)` returns: the original query is expanded, its
   * variants recalled and deduplicated; no recall gives `未找到相关资料。`; otherwise the pool is
   * reranked against the ORIGINAL query, a rerank failure gives the error text with the error as
   * the only log line, and a success gives the kept passages joined by `\n---\n`, or
   * `资料相关度较低，建议补充细节。` when none is kept.
   */
  function SearchResult(query: string, debug: bool, svc: Services): Answer
  {
    var pool := Pool(query, svc);
    var logs := RecallLogs(query, debug, svc);
    if pool == [] then Answer(NotFound, logs)
    else
      match Rerank(query, DocsOf(pool), MetasOf(pool), svc.predict)
      case Err(e) => Answer(Failure(e), [e])
      case Ok(scored) =>
        Answer(Format(scored),
               logs + [RerankNotice(|pool|)] + (if debug then ScoreLines(svc.showScore, scored) else []))
  }

  /** One more scored document: kept when fewer than `RERANK_TOP_K` are kept and it is relevant. */
  lemma KeptSnoc(s: seq<Scored>, x: Scored)
    ensures Kept(s + [x])
         == if |Kept(s)| < Config.RerankTopK && Relevant(x) then Kept(s) + [x] else Kept(s)
  {
    assert (s + [x])[..|s|] == s;
    var p := Passing(s);
    if Relevant(x) {
      assert Passing(s + [x]) == p + [x];
      if |p| < Config.RerankTopK {
        assert Kept(s) == p;
      } else {
        assert Kept(s + [x]) == (p + [x])[..Config.RerankTopK];
        assert (p + [x])[..Config.RerankTopK] == p[..Config.RerankTopK];
      }
    }
  }

  lemma AnnotationsSnoc(s: seq<Scored>, x: Scored)
    ensures Annotations(s + [x]) == Annotations(s) + [Annotate(x)]
  {
  }

  lemma ScoreLinesSnoc(showScore: real -> string, s: seq<Scored>, x: Scored)
    ensures ScoreLines(showScore, s + [x]) == ScoreLines(showScore, s) + [ScoreLine(showScore, x)]
  {
  }

  /** The filter loop's state after the scored documents `s`. */
  ghost predicate FilterState(topK: seq<string>, logs: seq<string>, before: seq<string>, debug: bool,
                              showScore: real -> string, s: seq<Scored>)
  {
    && topK == Annotations(Kept(s))
    && logs == before + (if debug then ScoreLines(showScore, s) else [])
  }

  lemma FilterStep(topK: seq<string>, logs: seq<string>, before: seq<string>, debug: bool,
                   showScore: real -> string, s: seq<Scored>, x: Scored)
    requires FilterState(topK, logs, before, debug, showScore, s)
    ensures FilterState(
      if |topK| < Config.RerankTopK && Relevant(x) then topK + [Annotate(x)] else topK,
      if debug then logs + [ScoreLine(showScore, x)] else logs,
      before, debug, showScore, s + [x])
  {
    KeptSnoc(s, x);
    assert |topK| == |Kept(s)|;
    if |topK| < Config.RerankTopK && Relevant(x) {
      AnnotationsSnoc(Kept(s), x);
    }
    if debug {
      ScoreLinesSnoc(showScore, s, x);
      ConcatAssoc(before, ScoreLines(showScore, s), [ScoreLine(showScore, x)]);
    }
  }

  lemma ResultWhenNothingRecalled(query: string, debug: bool, svc: Services)
    requires Pool(query, svc) == []
    ensures SearchResult(query, debug, svc) == Answer(NotFound, RecallLogs(query, debug, svc))
  {
  }

  lemma ResultWhenRerankFailed(query: string, debug: bool, svc: Services, e: string)
    requires Pool(query, svc) != []
    requires Rerank(query, DocsOf(Pool(query, svc)), MetasOf(Pool(query, svc)), svc.predict) == Err(e)
    ensures SearchResult(query, debug, svc) == Answer(Failure(e), [e])
  {
  }

  lemma ResultWhenRanked(query: string, debug: bool, svc: Services, scored: seq<Scored>)
    requires Pool(query, svc) != []
    requires Rerank(query, DocsOf(Pool(query, svc)), MetasOf(Pool(query, svc)), svc.predict) == Ok(scored)
    ensures SearchResult(query, debug, svc)
         == Answer(Format(scored), RecallLogs(query, debug, svc) + [RerankNotice(|Pool(query, svc)|)]
                                   + (if debug then ScoreLines(svc.showScore, scored) else []))
  {
  }

  /** The joined passages, or the low-relevance text when none was kept. */
  lemma FormatKept(scored: seq<Scored>, topK: seq<string>)
    requires topK == Annotations(Kept(scored))
    ensures Format(scored) == if topK == [] then LowRelevance else Join(topK, Separator)
  {
  }

  /**
   * `MedicalSearchEngine.search(query, debug)`, with the services as oracles. The debug line and
   * the annotated passage of each scored document are `ScoreLine` and `Annotate`.
   */
  method Search(query: string, debug: bool, svc: Services) returns (answer: Answer)
    ensures answer == SearchResult(query, debug, svc)
  {
    var documents, metadatas, logs := RecallStage(query, debug, svc);
    if documents == [] {
      ResultWhenNothingRecalled(query, debug, svc);
      return Answer(NotFound, logs);
    }
    logs := logs + [RerankNotice(|documents|)];
    var ranked := Rerank(query, documents, metadatas, svc.predict);
    if ranked.Err? {
      ResultWhenRerankFailed(query, debug, svc, ranked.error);
      return Answer(Failure(ranked.error), [ranked.error]);
    }
    var topK;
    topK, logs := FilterStage(ranked.value, debug, svc.showScore, logs);
    ResultWhenRanked(query, debug, svc, ranked.value);
    FormatKept(ranked.value, topK);
    if topK == [] {
      return Answer(LowRelevance, logs);
    }
    return Answer(Join(topK, Separator), logs);
  }

  /**
   * The first half of `search`: log the query, expand it, log the variants in debug mode, and
   * recall them. Returns the deduplicated pool as two parallel lists, and the log.
   */
  method RecallStage(query: string, debug: bool, svc: Services)
    returns (documents: seq<string>, metadatas: seq<Meta>, logs: seq<string>)
    ensures documents == DocsOf(Pool(query, svc)) && metadatas == MetasOf(Pool(query, svc))
    ensures logs == RecallLogs(query, debug, svc)
  {
    logs := [Opening(query)];
    var expanded := Expand(query, Config.MultiQueryCount, svc.llm);
    assert expanded == Variants(query, svc);
    if debug {
      logs := logs + ["🧠 扩展关键词: " + svc.showList(expanded)];
    } else {
      assert logs + [] == logs;
    }
    ghost var head := logs;
    assert head == [Opening(query)] + (if debug then ["🧠 扩展关键词: " + svc.showList(expanded)] else []);
    var recallLogs;
    documents, metadatas, recallLogs := MultiRecall(expanded, svc.embedQuery, svc.query);
    logs := logs + recallLogs;
  }

  /**
   * The filter loop of `search` over the reranked list: keep the annotated passages of the first
   * `RERANK_TOP_K` documents scoring above `RERANK_THRESHOLD`, and in debug mode log one score
   * line per document.
   */
  method FilterStage(scored: seq<Scored>, debug: bool, showScore: real -> string, before: seq<string>)
    returns (topK: seq<string>, logs: seq<string>)
    ensures topK == Annotations(Kept(scored))
    ensures logs == before + (if debug then ScoreLines(showScore, scored) else [])
  {
    logs := before;
    topK := [];
    ghost var done: seq<Scored> := [];
    for i := 0 to |scored|
      invariant done == scored[..i]
      invariant FilterState(topK, logs, before, debug, showScore, done)
    {
      var h := scored[i];
      FilterStep(topK, logs, before, debug, showScore, done, h);
      TakeSnoc(scored, i);
      done := done + [h];
      if debug {
        logs := logs + [ScoreLine(showScore, h)];
      }
      if |topK| < Config.RerankTopK && h.score > Config.RerankThreshold as real {
        topK := topK + [Annotate(h)];
      }
    }
    assert done == scored;
  }

  /** Every search logs the original query first, except a failed rerank, which logs only its error. */
  lemma SearchOpensWithQuery(query: string, debug: bool, svc: Services)
    ensures var r := SearchResult(query, debug, svc);
      |r.logs| >= 1 && (r.logs[0] == Opening(query) || (r.logs == [r.logs[0]] && r.text == Failure(r.logs[0])))
  {
  }

  /** With nothing recalled the answer is `未找到相关资料。`, whatever the cross-encoder would say. */
  lemma NothingRecalledSkipsRerank(query: string, debug: bool, svc: Services,
                                   predict: seq<(string, string)> -> Result<seq<real>>)
    requires Pool(query, svc) == []
    ensures SearchResult(query, debug, svc).text == NotFound
    ensures SearchResult(query, debug, svc.(predict := predict)) == SearchResult(query, debug, svc)
  {
    var other := svc.(predict := predict);
    assert Pool(query, other) == Pool(query, svc);
    assert RecallLogs(query, debug, other) == RecallLogs(query, debug, svc);
  }

  /**
   * The cross-encoder is consulted only on the ORIGINAL query paired with each recalled passage:
   * two cross-encoders agreeing there give the same search result.
   */
  lemma RerankSeesOriginalQuery(query: string, debug: bool, svc: Services,
                                predict: seq<(string, string)> -> Result<seq<real>>)
    requires predict(Pairs(query, DocsOf(Pool(query, svc)))) == svc.predict(Pairs(query, DocsOf(Pool(query, svc))))
    ensures SearchResult(query, debug, svc.(predict := predict)) == SearchResult(query, debug, svc)
  {
    var other := svc.(predict := predict);
    assert Pool(query, other) == Pool(query, svc);
    assert RecallLogs(query, debug, other) == RecallLogs(query, debug, svc);
  }

  /**
   * In a list ranked by descending score, the relevant documents form a prefix: the filter
   * takes the top of the ranking and everything after it is below the threshold.
   */
  lemma {:induction false} PassingIsTop(s: seq<Scored>)
    requires Descending(s)
    ensures Passing(s) == s[..|Passing(s)|]
    ensures forall k :: |Passing(s)| <= k < |s| ==> !Relevant(s[k])
  {
    if s != [] {
      var n := |s| - 1;
      var front, last := s[..n], s[n];
      assert Descending(front);
      PassingIsTop(front);
      var m := |Passing(front)|;
      if Relevant(last) {
        assert Passing(s) == front + [last];
        assert front + [last] == s;
      } else {
        assert Passing(s) == Passing(front);
        forall k | m <= k < |s| ensures !Relevant(s[k]) {
          if k < n { assert front[k] == s[k]; }
        }
      }
    }
  }

  /**
   * The kept passages are the first ones of the ranking, all above the threshold; fewer than
   * `RERANK_TOP_K` are kept only when no further document is above the threshold.
   */
  lemma KeptIsTop(scored: seq<Scored>)
    requires Descending(scored)
    ensures Kept(scored) == scored[..|Kept(scored)|]
    ensures |Kept(scored)| <= Config.RerankTopK
    ensures forall k :: 0 <= k < |Kept(scored)| ==> Relevant(scored[k])
    ensures |Kept(scored)| < Config.RerankTopK ==>
      forall k :: |Kept(scored)| <= k < |scored| ==> !Relevant(scored[k])
  {
    PassingIsTop(scored);
    var p := Passing(scored);
    assert Kept(scored) == p[..|Kept(scored)|];
  }
}
