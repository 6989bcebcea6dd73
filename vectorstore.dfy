/**
 * The hybrid retriever of one knowledge base: BM25 top-k selection over the
 * chunk list, then a lexical-first merge with the vector-search hits,
 * de-duplicated on the first 200 characters of each chunk and cut to `k`.
 * The BM25 scores and the FAISS hits come from libraries and are inputs here.
 */
module VectorStore {
  import opened Text

  /** Number of leading characters that identify a chunk during de-duplication. */
  const KeyLength: nat := 200

  /** A chunk produced by the text splitter: its text and its optional `source` metadata. */
  datatype Chunk = Chunk(content: string, source: Option<string>)

  /** The de-duplication key: `page_content[:200]`. */
  function Key(c: Chunk): (key: string)
    ensures |key| <= KeyLength && key <= c.content
    ensures |c.content| <= KeyLength ==> key == c.content
    ensures |c.content| > KeyLength ==> |key| == KeyLength
  {
    Take(c.content, KeyLength)
  }

  // ---------------------------------------------------------------- tokenisation

  /** `text.lower().split()`: used both for the chunks and for the query. */
  function Tokenize(s: string): seq<string>
  {
    Split(Lower(s))
  }

  /** `[c.page_content.lower().split() for c in self.chunks]` */
  function Corpus(chunks: seq<Chunk>): seq<seq<string>>
  {
    seq(|chunks|, i requires 0 <= i < |chunks| => Tokenize(chunks[i].content))
  }

  predicate IsLowerText(s: string)
  {
    forall i :: 0 <= i < |s| ==> !('A' <= s[i] <= 'Z')
  }

  lemma {:induction false} SplitLower(s: string)
    requires IsLowerText(s)
    ensures forall i :: 0 <= i < |Split(s)| ==> IsLowerText(Split(s)[i])
    decreases |s|
  {
    if s == [] {
    } else if IsWhitespace(s[0]) {
      SplitLower(s[1..]);
    } else {
      SplitLower(s[|Word(s)|..]);
    }
  }

  lemma {:induction false} LowerJoin(ws: seq<string>)
    requires forall i :: 0 <= i < |ws| ==> IsLowerText(ws[i])
    ensures Lower(Join(ws, " ")) == Join(ws, " ")
  {
    if |ws| > 1 {
      LowerJoin(ws[1..]);
      assert Lower(ws[0] + " " + Join(ws[1..], " "))
          == Lower(ws[0]) + Lower(" ") + Lower(Join(ws[1..], " "));
    }
  }

  /**
   * Tokens are non-empty, whitespace-free and lower-case, and tokenising
   * the tokens joined by spaces gives the same tokens back.
   */
  lemma TokenizeStable(s: string)
    ensures forall i :: 0 <= i < |Tokenize(s)| ==>
      IsToken(Tokenize(s)[i]) && IsLowerText(Tokenize(s)[i])
    ensures Tokenize(Join(Tokenize(s), " ")) == Tokenize(s)
  {
    var ws := Tokenize(s);
    SplitTokens(Lower(s));
    SplitLower(Lower(s));
    LowerJoin(ws);
    SplitJoin(ws);
  }

  // ---------------------------------------------------------------- BM25 top-k

  /**
   * The order `sorted(range(n), key=score, reverse=True)` produces: higher
   * score first, and, the sort being stable, lower index first among equal scores.
   */
  predicate RanksBefore(scores: seq<real>, i: nat, j: nat)
    requires i < |scores| && j < |scores|
  {
    scores[i] > scores[j] || (scores[i] == scores[j] && i < j)
  }

  predicate ValidIndices(scores: seq<real>, r: seq<nat>)
  {
    forall a :: 0 <= a < |r| ==> r[a] < |scores|
  }

  predicate Ranked(scores: seq<real>, r: seq<nat>)
    requires ValidIndices(scores, r)
  {
    forall a, b :: 0 <= a < b < |r| ==> RanksBefore(scores, r[a], r[b])
  }

  /** One step of the sort: `i` goes before the first index it ranks ahead of. */
  function InsertRanked(scores: seq<real>, i: nat, r: seq<nat>): (out: seq<nat>)
    requires i < |scores| && ValidIndices(scores, r)
    ensures ValidIndices(scores, out)
    ensures multiset(out) == multiset(r) + multiset{i}
  {
    if r == [] then [i]
    else if RanksBefore(scores, i, r[0]) then [i] + r
    else
      assert r == [r[0]] + r[1..];
      [r[0]] + InsertRanked(scores, i, r[1..])
  }

  /** Sorts the indices in `xs` into ranking order. */
  function SortIndices(scores: seq<real>, xs: seq<nat>): (out: seq<nat>)
    requires ValidIndices(scores, xs)
    ensures ValidIndices(scores, out)
    ensures multiset(out) == multiset(xs)
  {
    if xs == [] then []
    else
      assert xs == [xs[0]] + xs[1..];
      InsertRanked(scores, xs[0], SortIndices(scores, xs[1..]))
  }

  lemma RanksBeforeTransitive(scores: seq<real>, x: nat, y: nat, z: nat)
    requires x < |scores| && y < |scores| && z < |scores|
    requires RanksBefore(scores, x, y) && RanksBefore(scores, y, z)
    ensures RanksBefore(scores, x, z)
  {
  }

  /** An index ranked ahead of every index of a ranked list can go in front of it. */
  lemma RankedCons(scores: seq<real>, x: nat, r: seq<nat>)
    requires x < |scores| && ValidIndices(scores, r) && Ranked(scores, r)
    requires forall b :: 0 <= b < |r| ==> RanksBefore(scores, x, r[b])
    ensures ValidIndices(scores, [x] + r) && Ranked(scores, [x] + r)
  {
    var out := [x] + r;
    forall a, b | 0 <= a < b < |out| ensures RanksBefore(scores, out[a], out[b]) {
      assert out[b] == r[b - 1];
      if a > 0 {
        assert out[a] == r[a - 1];
      }
    }
  }

  lemma {:induction false} InsertKeepsRanked(scores: seq<real>, i: nat, r: seq<nat>)
    requires i < |scores| && ValidIndices(scores, r) && Ranked(scores, r)
    requires i !in r
    ensures Ranked(scores, InsertRanked(scores, i, r))
  {
    if r == [] {
    } else if RanksBefore(scores, i, r[0]) {
      forall b | 0 <= b < |r| ensures RanksBefore(scores, i, r[b]) {
        if b > 0 {
          RanksBeforeTransitive(scores, i, r[0], r[b]);
        }
      }
      RankedCons(scores, i, r);
    } else {
      var tail := InsertRanked(scores, i, r[1..]);
      InsertKeepsRanked(scores, i, r[1..]);
      assert r == [r[0]] + r[1..];
      forall b | 0 <= b < |tail| ensures RanksBefore(scores, r[0], tail[b]) {
        var y := tail[b];
        assert y in multiset(tail);
        if y != i {
          assert y in multiset(r[1..]);
          var c :| 0 <= c < |r[1..]| && r[1..][c] == y;
          assert r[c + 1] == y;
        }
      }
      RankedCons(scores, r[0], tail);
    }
  }

  predicate Distinct(xs: seq<nat>)
  {
    forall a, b :: 0 <= a < b < |xs| ==> xs[a] != xs[b]
  }

  lemma {:induction false} SortKeepsRanked(scores: seq<real>, xs: seq<nat>)
    requires ValidIndices(scores, xs) && Distinct(xs)
    ensures Ranked(scores, SortIndices(scores, xs))
  {
    if xs != [] {
      var rest := SortIndices(scores, xs[1..]);
      SortKeepsRanked(scores, xs[1..]);
      assert xs[0] !in xs[1..] by {
        forall b | 0 <= b < |xs[1..]| ensures xs[1..][b] != xs[0] {
          assert xs[1..][b] == xs[b + 1];
        }
      }
      assert xs[0] !in multiset(rest);
      InsertKeepsRanked(scores, xs[0], rest);
    }
  }

  /** Every chunk index `0 .. n-1`, ranked. */
  function Ranking(scores: seq<real>): (r: seq<nat>)
    ensures ValidIndices(scores, r)
    ensures multiset(r) == multiset(seq(|scores|, i => i))
  {
    SortIndices(scores, seq(|scores|, i => i))
  }

  /** `bm25_top`: the first `k` indices of the ranking. */
  function Bm25Top(scores: seq<real>, k: nat): (top: seq<nat>)
    ensures ValidIndices(scores, top)
  {
    Take(Ranking(scores), k)
  }

  /** The ranking is a permutation of `0 .. n-1` in ranking order. */
  lemma RankingSpec(scores: seq<real>)
    ensures |Ranking(scores)| == |scores|
    ensures forall j :: 0 <= j < |scores| ==> j in Ranking(scores)
    ensures Ranked(scores, Ranking(scores))
  {
    var range := seq(|scores|, i => i);
    SortKeepsRanked(scores, range);
    var r := Ranking(scores);
    assert |r| == |multiset(r)| == |multiset(range)| == |range|;
    forall j | 0 <= j < |scores| ensures j in r {
      assert range[j] == j;
      assert j in multiset(range);
    }
  }

  /**
   * `bm25_top` holds `min(k, n)` distinct valid chunk indices in
   * non-increasing score order, equal scores by ascending index, and every
   * index it leaves out ranks after every index it keeps.
   */
  lemma Bm25TopSpec(scores: seq<real>, k: nat)
    ensures var top := Bm25Top(scores, k);
      && |top| == (if k < |scores| then k else |scores|)
      && (forall a :: 0 <= a < |top| ==> top[a] < |scores|)
      && (forall a, b :: 0 <= a < b < |top| ==> top[a] != top[b])
      && (forall a, b :: 0 <= a < b < |top| ==> scores[top[a]] >= scores[top[b]])
      && (forall a, b :: 0 <= a < b < |top| && scores[top[a]] == scores[top[b]] ==> top[a] < top[b])
      && (forall a, j :: 0 <= a < |top| && 0 <= j < |scores| && j !in top ==>
            RanksBefore(scores, top[a], j))
  {
    var r := Ranking(scores);
    var top := Bm25Top(scores, k);
    RankingSpec(scores);
    assert top == r[..|top|];
    forall a, j | 0 <= a < |top| && 0 <= j < |scores| && j !in top
      ensures RanksBefore(scores, top[a], j)
    {
      assert j in r;
      var b :| 0 <= b < |r| && r[b] == j;
      assert b >= |top|;
    }
  }

  /** `bm25_docs`: the chunks at the top-ranked indices. */
  function Bm25Docs(chunks: seq<Chunk>, scores: seq<real>, k: nat): (docs: seq<Chunk>)
    requires |scores| == |chunks|
    ensures |docs| == |Bm25Top(scores, k)|
    ensures forall a :: 0 <= a < |docs| ==> docs[a] == chunks[Bm25Top(scores, k)[a]]
    ensures forall d :: d in docs ==> d in chunks
  {
    var top := Bm25Top(scores, k);
    seq(|top|, a requires 0 <= a < |top| => chunks[top[a]])
  }

  // ---------------------------------------------------------------- merge

  /** The keys of a chunk list. */
  function KeysOf(s: seq<Chunk>): set<string>
  {
    if s == [] then {} else {Key(s[0])} + KeysOf(s[1..])
  }

  /**
   * First-occurrence de-duplication on `Key`, in encounter order, skipping
   * chunks whose key is already in `seen`.
   */
  function DedupFrom(s: seq<Chunk>, seen: set<string>): seq<Chunk>
  {
    if s == [] then []
    else if Key(s[0]) in seen then DedupFrom(s[1..], seen)
    else [s[0]] + DedupFrom(s[1..], seen + {Key(s[0])})
  }

  function Dedup(s: seq<Chunk>): seq<Chunk>
  {
    DedupFrom(s, {})
  }

  /** De-duplication only drops chunks: every survivor is a chunk of the input. */
  lemma {:induction false} DedupDraws(s: seq<Chunk>, seen: set<string>)
    ensures |DedupFrom(s, seen)| <= |s|
    ensures forall x :: x in DedupFrom(s, seen) ==> x in s
  {
    if s != [] {
      var x := s[0];
      var seen' := if Key(x) in seen then seen else seen + {Key(x)};
      DedupDraws(s[1..], seen');
    }
  }

  /** No two chunks of `r` share a key. */
  predicate DistinctKeys(r: seq<Chunk>)
  {
    forall a, b :: 0 <= a < b < |r| ==> Key(r[a]) != Key(r[b])
  }

  /** No survivor's key was seen before, and no two survivors share a key. */
  lemma {:induction false} DedupUnique(s: seq<Chunk>, seen: set<string>)
    ensures forall a :: 0 <= a < |DedupFrom(s, seen)| ==> Key(DedupFrom(s, seen)[a]) !in seen
    ensures DistinctKeys(DedupFrom(s, seen))
  {
    if s != [] {
      var x := s[0];
      if Key(x) in seen {
        DedupUnique(s[1..], seen);
      } else {
        var seen' := seen + {Key(x)};
        var tail := DedupFrom(s[1..], seen');
        DedupUnique(s[1..], seen');
        var r := [x] + tail;
        assert DedupFrom(s, seen) == r;
        forall a | 0 < a < |r| ensures Key(r[a]) !in seen' {
          assert r[a] == tail[a - 1];
        }
      }
    }
  }

  /** No key is lost: the survivors' keys are exactly the input's keys not seen before. */
  lemma {:induction false} DedupKeys(s: seq<Chunk>, seen: set<string>)
    ensures KeysOf(DedupFrom(s, seen)) == KeysOf(s) - seen
  {
    if s != [] {
      var x := s[0];
      assert KeysOf(s) == {Key(x)} + KeysOf(s[1..]);
      if Key(x) in seen {
        DedupKeys(s[1..], seen);
      } else {
        var tail := DedupFrom(s[1..], seen + {Key(x)});
        DedupKeys(s[1..], seen + {Key(x)});
        assert ([x] + tail)[0] == x && ([x] + tail)[1..] == tail;
        assert KeysOf([x] + tail) == {Key(x)} + KeysOf(tail);
      }
    }
  }

  /**
   * De-duplicating `a + b` is de-duplicating `a`, then de-duplicating `b`
   * against everything `a` contributed: survivors of `a` come first, and a
   * chunk of `b` whose key already occurs in `a` is dropped in favour of `a`'s.
   */
  lemma {:induction false} DedupAppend(a: seq<Chunk>, b: seq<Chunk>, seen: set<string>)
    ensures DedupFrom(a + b, seen) == DedupFrom(a, seen) + DedupFrom(b, seen + KeysOf(a))
  {
    if a == [] {
      assert a + b == b;
      assert KeysOf(a) == {} && DedupFrom(a, seen) == [];
      assert seen + KeysOf(a) == seen;
    } else {
      var x := a[0];
      assert (a + b)[0] == x && (a + b)[1..] == a[1..] + b;
      if Key(x) in seen {
        DedupAppend(a[1..], b, seen);
        assert seen + KeysOf(a[1..]) == seen + KeysOf(a);
      } else {
        DedupAppend(a[1..], b, seen + {Key(x)});
        assert seen + {Key(x)} + KeysOf(a[1..]) == seen + KeysOf(a);
      }
    }
  }

  /**
   * The merge favours the lexical hits: the de-duplicated candidates are all
   * the surviving BM25 chunks, which between them carry every BM25 key, followed
   * by the FAISS chunks whose key no BM25 chunk has.
   */
  lemma LexicalFirst(bm25Docs: seq<Chunk>, faissDocs: seq<Chunk>)
    ensures Dedup(bm25Docs + faissDocs) == Dedup(bm25Docs) + DedupFrom(faissDocs, KeysOf(bm25Docs))
    ensures KeysOf(Dedup(bm25Docs)) == KeysOf(bm25Docs)
    ensures forall d :: d in DedupFrom(faissDocs, KeysOf(bm25Docs)) ==> Key(d) !in KeysOf(bm25Docs)
  {
    DedupAppend(bm25Docs, faissDocs, {});
    assert {} + KeysOf(bm25Docs) == KeysOf(bm25Docs);
    DedupKeys(bm25Docs, {});
    var tail := DedupFrom(faissDocs, KeysOf(bm25Docs));
    DedupUnique(faissDocs, KeysOf(bm25Docs));
    forall d | d in tail ensures Key(d) !in KeysOf(bm25Docs) {
      var a :| 0 <= a < |tail| && tail[a] == d;
    }
  }

  /**
   * What `retrieve` returns, given the BM25 and the FAISS candidates: at most
   * `k` chunks, no two sharing a key, each one a BM25 or a FAISS candidate.
   */
  lemma TakeDedupSpec(bm25Docs: seq<Chunk>, faissDocs: seq<Chunk>, k: nat)
    ensures var m := Take(Dedup(bm25Docs + faissDocs), k);
      && |m| <= k
      && DistinctKeys(m)
      && (forall d :: d in m ==> d in bm25Docs || d in faissDocs)
  {
    var all := bm25Docs + faissDocs;
    var d := Dedup(all);
    DedupDraws(all, {});
    DedupUnique(all, {});
    var m := Take(d, k);
    assert m == d[..|m|];
    forall a, b | 0 <= a < b < |m| ensures Key(m[a]) != Key(m[b]) {
      assert m[a] == d[a] && m[b] == d[b];
    }
    forall x | x in m ensures x in bm25Docs || x in faissDocs {
      assert x in d;
      assert x in all;
    }
  }

  /** One step of the merge loop: the chunk at `i` is kept exactly when its key is new. */
  lemma DedupFromStep(all: seq<Chunk>, i: nat, seen: set<string>)
    requires i < |all|
    ensures Key(all[i]) in seen ==> DedupFrom(all[i..], seen) == DedupFrom(all[i + 1..], seen)
    ensures Key(all[i]) !in seen ==>
      DedupFrom(all[i..], seen) == [all[i]] + DedupFrom(all[i + 1..], seen + {Key(all[i])})
  {
    assert all[i..][1..] == all[i + 1..];
  }

  /** The retriever bound to one knowledge base: its chunk list, their tokens and `k`. */
  class HybridRetriever {
    var k: nat
    var chunks: seq<Chunk>
    /** The corpus BM25 is built on: each chunk's text, tokenised. */
    var tokenized: seq<seq<string>>

    /** The corpus is the chunk list, tokenised the same way as queries are. */
    ghost predicate Valid()
      reads this
    {
      tokenized == Corpus(chunks)
    }

    /** `__init__` once the splitter has produced `chunks`. */
    constructor (chunks: seq<Chunk>, k: nat)
      ensures this.chunks == chunks && this.k == k
      ensures Valid()
    {
      this.k := k;
      this.chunks := chunks;
      this.tokenized := Corpus(chunks);
    }

    /**
     * `retrieve`: BM25 scores the tokenised query against the tokenised
     * corpus; its top-k chunks come first, then the FAISS hits, de-duplicated
     * on `Key` in encounter order and cut to `k`. `bm25` is BM25Okapi's
     * scoring of a query against the corpus it was built on; `faiss` is the
     * vector search for a query and a hit count.
     */
    method Retrieve(query: string, bm25: (seq<seq<string>>, seq<string>) -> seq<real>,
                    faiss: (string, nat) -> seq<Chunk>) returns (merged: seq<Chunk>)
      requires Valid()
      requires |bm25(tokenized, Tokenize(query))| == |chunks|
      ensures merged == Take(Dedup(Bm25Docs(chunks, bm25(Corpus(chunks), Tokenize(query)), k)
                                   + faiss(query, k)), k)
      ensures |merged| <= k
      ensures DistinctKeys(merged)
      ensures forall d :: d in merged ==>
        d in Bm25Docs(chunks, bm25(Corpus(chunks), Tokenize(query)), k) || d in faiss(query, k)
    {
      assert tokenized == Corpus(chunks);
      var scores := bm25(tokenized, Tokenize(query));
      var bm25Docs := Bm25Docs(chunks, scores, k);
      var faissDocs := faiss(query, k);
      var all := bm25Docs + faissDocs;
      var seen: set<string> := {};
      merged := [];
      var i := 0;
      while i < |all|
        invariant 0 <= i <= |all|
        invariant merged + DedupFrom(all[i..], seen) == Dedup(all)
      {
        var d := all[i];
        var key := Key(d);
        DedupFromStep(all, i, seen);
        if key !in seen {
          assert merged + ([d] + DedupFrom(all[i + 1..], seen + {key}))
              == (merged + [d]) + DedupFrom(all[i + 1..], seen + {key});
          seen := seen + {key};
          merged := merged + [d];
        }
        i := i + 1;
      }
      assert merged == Dedup(all) by {
        assert all[i..] == [];
      }
      merged := Take(merged, k);
      assert |merged| <= k && DistinctKeys(merged)
             && forall d :: d in merged ==> d in bm25Docs || d in faissDocs by {
        TakeDedupSpec(bm25Docs, faissDocs, k);
      }
    }
  }
}
