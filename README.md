# Agentic RAG core, modelled in Dafny

This project models the core of `agentic_rag`, a retrieval-augmented chat agent.
A user picks a knowledge source (a PDF or a URL). The source is split into
chunks and indexed by a hybrid retriever, which combines BM25 and FAISS vector
search. A LangGraph agent then answers questions. It calls the model, runs the
tools the model asks for (local retrieval or web search), and grades its own
answer.

The model covers six modules:

- `Text` (`text.dfy`): the Python string operations the core relies on.
  These are `str.strip`, `str.lower`, `str.split`, `str.join`, slicing
  `s[:n]`, `str.replace` of one character, and `f"{i}"` for a natural number.
  Each comes with the laws the rest of the model uses.
- `VectorStore` (`vectorstore.dfy`): `HybridRetriever`, written as a class.
  - The constructor stores the chunks and their tokenised corpus.
  - Its `Retrieve` method tokenises the query and scores it against that
    corpus. It then runs the merge loop of `retrieve`, proved equal to the
    specification `Take(Dedup(bm25Docs + faissDocs), k)`.
  - Tokenisation is `text.lower().split()`, for the chunks and the query alike.
  - BM25 top-k is a stable descending sort of the indices, cut to `k`.
  - De-duplication keeps the first chunk for each key `page_content[:200]`.
- `RagAgent` (`rag_agent.dfy`): the pieces of `build_agent`.
  - `retriever_tool` and `take_action` are methods whose loops are proved
    against specification functions.
  - `web_search_tool`, `should_continue`, `call_llm` and `evaluate` are
    functions.
  - The graph is a step function with fuel. The language models, the score
    parser, the retriever and the web search are oracle parameters.
- `KbManager` (`kb_manager.dfy`): the session's knowledge-base registry, as a
  class. `CleanupKbs` deletes idle entries from it in place. The clock read
  `time.time()` is the parameter `now`.
- `SourceInfer` (`source_infer.dfy`): `infer_source`, the classification of
  the user's input, as a pure function.
- `Memory` (`memory.dfy`): `get_recent_messages`, the Python slice
  `messages[-max_turns:]`. This includes the case `max_turns == 0`, where
  `-0` is `0` and the slice returns the whole history.

The model follows the code as written, including where it does less than it
seems written for:

- **No loop-back from `evaluate`.** `evaluate` keeps a `retries` counter and
  stops once `retries >= 2` (`rag_agent.py:203`). That counter and its cap
  only matter if `evaluate` can run again after a refinement. But the graph in
  `rag_agent.py:220-229` has no edge out of the `evaluate` node, so a run ends
  after evaluating once. `Successor` models the edges as written.
  `RunRefinesAtMostOnce` proves that a completed run raises `retries` by at
  most one. The evaluate-refine cycle that the counter is written for is
  modelled separately as `EvaluateLoop`, and its retry bound is proved
  (`EvaluateLoopBound`, `EvaluateLoopExhausts`).
- **The refinement prompt carries neither the question nor the answer.** So
  the refinement prompt is the same for every state, and with the chat model
  as a function the refined answer is too (`RefinementIgnoresQuestion`).
- **Unknown tool names fail with an error, not silently.** The tool is looked
  up with `list.index`, which raises when the name is missing; this is the
  `UnknownTool` error. A last message without `tool_calls` gives
  `AttributeError`. An empty history gives `IndexError`.

## Model

| member | source | states |
|---|---|---|
| Text.TrimLeft | agentic_rag/source_infer.py:5 | the left half of `str.strip()`: it removes an all-whitespace prefix and nothing else, and the rest does not start with whitespace |
| Text.TrimRight | agentic_rag/source_infer.py:5 | the right half of `str.strip()`: it removes an all-whitespace suffix and nothing else, and the rest does not end with whitespace |
| Text.Strip | agentic_rag/source_infer.py:5 | `str.strip()` never lengthens its input, and its result neither starts nor ends with whitespace |
| Text.StripSlice | agentic_rag/source_infer.py:5 | the stripped text is a slice `s[i..i+|r|]` of the input with only whitespace before it and only whitespace after it |
| Text.StripEmpty | agentic_rag/source_infer.py:2-5 | stripping gives the empty string exactly when the input is all whitespace |
| Text.Lower | agentic_rag/source_infer.py:7 | `str.lower()` keeps the length; each ASCII capital becomes the letter 32 code points higher, and every other character is kept |
| Text.Take | agentic_rag/rag_agent.py:135 | `s[:n]` is a prefix of at most `n` elements: all of `s` when it is short enough, exactly `n` otherwise |
| Text.ReplaceChar | agentic_rag/rag_agent.py:132 | after `replace("*", "-")` no `*` is left, and every other character is where it was |
| Text.Split | agentic_rag/vectorstore.py:33 | `str.split()` with no argument: the whitespace-free runs of the text, in order; its contract is stated by `SplitTokens`, `SplitKeepsText`, `SplitBlank`, `SplitWord` and `SplitJoin`, and the first four together pin it down on every input |
| Text.Join | agentic_rag/rag_agent.py:135 | `sep.join(parts)`: the parts in order with `sep` between neighbours; `SplitJoin` and `RetrieverOutputSpec` state what the model relies on |
| Text.SplitTokens | agentic_rag/vectorstore.py:33 | every piece that `str.split()` yields is non-empty and contains no whitespace |
| Text.SplitKeepsText | agentic_rag/vectorstore.py:33 | the pieces of `str.split()`, concatenated, are the input with its whitespace removed |
| Text.SplitBlank | agentic_rag/vectorstore.py:33 | leading whitespace does not change what `str.split()` returns |
| Text.SplitWord | agentic_rag/vectorstore.py:33 | a whitespace-free token followed by the end of the text or by whitespace is the next piece `str.split()` yields, so the pieces are the maximal whitespace-free runs |
| Text.SplitJoin | agentic_rag/vectorstore.py:37 | splitting tokens joined by single spaces gives the same tokens back |
| Text.Decimal | agentic_rag/rag_agent.py:133 | `f"{i}"` is a non-empty string of decimal digits with no leading zero: it starts with `0` exactly when the number is 0 |
| Text.DecimalRoundTrip | agentic_rag/rag_agent.py:133 | reading the digits of `f"{i}"` back gives `i` |
| Text.DecimalInjective | agentic_rag/rag_agent.py:133 | different numbers print as different labels |
| VectorStore.Key | agentic_rag/vectorstore.py:51 | the key is a prefix of the chunk text: the whole text when it has at most 200 characters, exactly its first 200 otherwise |
| VectorStore.Tokenize | agentic_rag/vectorstore.py:33-37 | `text.lower().split()`, the one tokeniser for chunks and query; its contract is stated by `TokenizeStable` |
| VectorStore.Corpus | agentic_rag/vectorstore.py:33 | the tokenised corpus, one token list per chunk, in chunk order; `HybridRetriever.Valid` keeps the stored corpus equal to it |
| VectorStore.TokenizeStable | agentic_rag/vectorstore.py:33-37 | tokens are non-empty, lowercase and free of whitespace, and tokenising the space-joined tokens again returns them unchanged |
| VectorStore.SortIndices | agentic_rag/vectorstore.py:38-41 | sorting the indices keeps exactly the same indices, as a multiset |
| VectorStore.Ranking | agentic_rag/vectorstore.py:38-41 | the sorted list holds valid chunk indices and is, as a multiset, exactly `0..n-1` |
| VectorStore.RankingSpec | agentic_rag/vectorstore.py:38-41 | the sorted index list is a permutation of `0..n-1` whose scores never increase, with tied scores in ascending index order (a stable sort with `reverse=True`) |
| VectorStore.Bm25Top | agentic_rag/vectorstore.py:38-42 | every entry of the top list is a valid chunk index |
| VectorStore.Bm25TopSpec | agentic_rag/vectorstore.py:38-42 | the top `k` indices are distinct and valid, have non-increasing scores with ties in ascending index order, and each outranks every index left out |
| VectorStore.Bm25Docs | agentic_rag/vectorstore.py:44 | the BM25 document at position `a` is the chunk at the `a`-th top index, one per top index |
| VectorStore.DedupFrom | agentic_rag/vectorstore.py:47-54 | the merge loop run with some keys already seen: keeps a chunk exactly when its key is new; its contract is stated by `DedupDraws`, `DedupUnique`, `DedupKeys` and `DedupAppend` |
| VectorStore.Dedup | agentic_rag/vectorstore.py:47-54 | the merge loop from an empty `seen`; its contract is stated by the `DedupFrom` lemmas, `LexicalFirst` and `TakeDedupSpec` |
| VectorStore.DedupDraws | agentic_rag/vectorstore.py:47-54 | the merge never invents documents: it keeps at most as many as it is given, each one from the input |
| VectorStore.DedupUnique | agentic_rag/vectorstore.py:47-54 | the merged documents have pairwise distinct keys, none of them already seen |
| VectorStore.DedupKeys | agentic_rag/vectorstore.py:47-54 | the keys kept are exactly the input's keys minus those already seen |
| VectorStore.DedupAppend | agentic_rag/vectorstore.py:50-54 | merging `a + b` is merging `a`, then merging `b` with `a`'s keys already seen |
| VectorStore.LexicalFirst | agentic_rag/vectorstore.py:44-54 | BM25 hits come first: the merge is the de-duplicated BM25 hits followed by the FAISS hits de-duplicated against the BM25 keys; every BM25 key survives, and every surviving FAISS hit has a key no BM25 hit has |
| VectorStore.TakeDedupSpec | agentic_rag/vectorstore.py:50-56 | the cut merge of the BM25 and FAISS candidates holds at most `k` documents, with distinct keys, each a BM25 or a FAISS candidate |
| VectorStore.HybridRetriever.constructor | agentic_rag/vectorstore.py:8-34 | the retriever holds the splitter's chunks and `k`, and its corpus is each chunk's text tokenised (`Valid`) |
| VectorStore.HybridRetriever.Retrieve | agentic_rag/vectorstore.py:36-56 | the loop's result equals the merge specification, cut to `k`, of the BM25 top documents for the tokenised query and the FAISS hits: at most `k` documents, distinct keys, each a BM25 or a FAISS hit |
| RagAgent.SourceLabel | agentic_rag/rag_agent.py:131 | `d.metadata.get("source", "local")`; `CitationBlocks` states where it appears |
| RagAgent.CitationBlock | agentic_rag/rag_agent.py:132-133 | one `[n] (source)` block; its shape is stated by `CitationBlocks` and `CitationNumberOf` |
| RagAgent.CitationBlocks | agentic_rag/rag_agent.py:129-133 | block `j` is the header `[j+1] (source)` of document `j`, followed by that document's text with every `*` turned into `-` |
| RagAgent.RetrieverOutput | agentic_rag/rag_agent.py:125-135 | `retriever_tool` on the retrieved chunks: the sentinel, or the joined blocks cut to 4000 characters; its contract is stated by `RetrieverOutputSpec` |
| RagAgent.RetrieverTool | agentic_rag/rag_agent.py:120-135 | the loop builds the specified output; the output is the sentinel exactly when nothing was retrieved, and is never over 4000 characters |
| RagAgent.RetrieverOutputSpec | agentic_rag/rag_agent.py:125-135 | sentinel exactly for no documents; otherwise the blocks joined by blank lines when that fits in 4000 characters, and exactly its first 4000 characters when it does not; it starts with `[` |
| RagAgent.CitationNumberOf | agentic_rag/rag_agent.py:133 | a block labelled `n` reads back as citation number `n` |
| RagAgent.CitationNumberAt | agentic_rag/rag_agent.py:130-133 | the block at position `j` is labelled `j + 1` (`enumerate(docs, 1)`) |
| RagAgent.CitationLabels | agentic_rag/rag_agent.py:130-133 | labels run `1..n` in result order, and no two blocks share a label |
| RagAgent.WebSearchOutput | agentic_rag/rag_agent.py:137-142 | the web search answer unchanged when it has at most 4000 characters, and exactly its first 4000 otherwise |
| RagAgent.ShouldContinue | agentic_rag/rag_agent.py:147-149 | `IndexError` exactly on an empty history; `True` exactly when the last message is an AI message with at least one tool call |
| RagAgent.KnownTool | agentic_rag/rag_agent.py:144 | the names in the tool list; `InvokeTool` and `AnswersOk` state what it decides |
| RagAgent.QueryOf | agentic_rag/rag_agent.py:174 | `c["args"].get("query", "")`; `AnswersContent` states where it is used |
| RagAgent.InvokeTool | agentic_rag/rag_agent.py:173-175 | `retriever_tool` runs the retriever output on the retrieved chunks, `web_search_tool` the cut search answer; any other name is the error naming the tool |
| RagAgent.CallTool | agentic_rag/rag_agent.py:173-175 | the lookup loop over the tool names (`list.index`) followed by the call gives the tool answer `InvokeTool` specifies, including the error for a missing name |
| RagAgent.Answers | agentic_rag/rag_agent.py:172-182 | the `for c in calls` loop as a specification: the tool messages for the calls so far, or the first lookup error; its contract is stated by `AnswersOk`, `AnswersContent`, `AnswersError` and `AnswersErrorSticks` |
| RagAgent.ActionResult | agentic_rag/rag_agent.py:168-184 | `take_action`'s outcome from the history; its contract is stated by `ActionResultSpec` |
| RagAgent.TakeAction | agentic_rag/rag_agent.py:168-184 | the loop returns the specified outcome of answering the last message's calls, or the error raised on the way |
| RagAgent.AnswersErrorSticks | agentic_rag/rag_agent.py:172-175 | once a call has raised, the later calls do not change the outcome |
| RagAgent.AnswersOk | agentic_rag/rag_agent.py:172-175 | answering succeeds exactly when every call names a known tool |
| RagAgent.AnswersContent | agentic_rag/rag_agent.py:172-182 | one tool message per call, in call order, with the call's id and name and the tool's output for the call's query, or `""` when there is none |
| RagAgent.AnswersError | agentic_rag/rag_agent.py:172-175 | a failure names the first call whose tool is unknown, and every earlier call's tool is known |
| RagAgent.ActionResultSpec | agentic_rag/rag_agent.py:168-184 | `IndexError` on an empty history; `AttributeError` when the last message is not an AI message; otherwise success exactly when all tools are known, with one message per call |
| RagAgent.SystemPrompt | agentic_rag/rag_agent.py:151-161 | the system prompt, fixed text around the source description; `RunNodeKeepsHistory` states that every `llm` step sends it |
| RagAgent.CallLlm | agentic_rag/rag_agent.py:163-166 | the appended message is the model's reply to the system prompt followed by the history; it follows the unchanged history and becomes the answer; question and retries are untouched |
| RagAgent.CallLlmRoutes | agentic_rag/rag_agent.py:147-166 | after `call_llm`, `should_continue` never fails and goes to the tools exactly when the reply is an AI message with tool calls |
| RagAgent.TreatedScore | agentic_rag/rag_agent.py:197-201 | an unparseable score counts as 0.0; a parsed one is used as is |
| RagAgent.Score | agentic_rag/rag_agent.py:187-201 | the score `evaluate` acts on: the evaluator's reply to the score prompt, stripped, parsed, 0.0 on failure; stated by `TreatedScore` and `EvaluateSpec` |
| RagAgent.Evaluate | agentic_rag/rag_agent.py:186-218 | `evaluate`'s decision to finish or to refine; its contract is stated by `EvaluateSpec` and `RefinementIgnoresQuestion` |
| RagAgent.ApplyOutcome | agentic_rag/rag_agent.py:215-218 | the update `evaluate` returns, applied to the state; `RunNodeRetries` and `RunNodeKeepsHistory` state what it changes |
| RagAgent.EvaluateSpec | agentic_rag/rag_agent.py:186-218 | finish exactly when the score is at least 0.7 or `retries >= 2`; otherwise the new answer is the reflection reply and `retries` goes up by one, never past 2; an unparseable score ends the run only when retries are used up |
| RagAgent.RefinementIgnoresQuestion | agentic_rag/rag_agent.py:206-214 | any two states sent to refinement get the same new answer, because the prompt contains neither question nor answer |
| RagAgent.EvaluateLoop | agentic_rag/rag_agent.py:203-218 | `evaluate` repeated until it finishes; stated by `EvaluateLoopBound`, `EvaluateLoopExhausts` and `EvaluateLoopAccepts` |
| RagAgent.EvaluateLoopBound | agentic_rag/rag_agent.py:203-218 | repeated evaluation only raises `retries`, never past 2 from a start at or below 2, and leaves the messages and question alone |
| RagAgent.EvaluateLoopExhausts | agentic_rag/rag_agent.py:203-218 | with an evaluator that never scores 0.7, repeated evaluation ends with `retries == 2` exactly |
| RagAgent.EvaluateLoopAccepts | agentic_rag/rag_agent.py:203-204 | a first score of at least 0.7 ends evaluation with the state unchanged |
| RagAgent.Successor | agentic_rag/rag_agent.py:224-228 | the edges: only `llm` can fail, and only on an empty history; `llm` never leads back to itself; the run ends exactly after `evaluate`; `tools` always goes back to `llm`; from a non-empty history `llm` goes to `tools` exactly when `should_continue` returns True and to `evaluate` otherwise |
| RagAgent.RunNode | agentic_rag/rag_agent.py:163-218 | one node's state update; its contract is stated by `RunNodeRetries` and `RunNodeKeepsHistory` |
| RagAgent.Run | agentic_rag/rag_agent.py:220-229 | a run of the compiled graph with a step budget; its contract is stated by `RunRefinesAtMostOnce` and `RunKeepsHistory` |
| RagAgent.RunNodeRetries | agentic_rag/rag_agent.py:163-218 | no node changes the question; only `evaluate` may change `retries`, and only by adding one |
| RagAgent.RunRefinesAtMostOnce | agentic_rag/rag_agent.py:220-229 | with no edge out of `evaluate`, a completed run raises `retries` by at most one and keeps the question |
| RagAgent.RunNodeKeepsHistory | agentic_rag/rag_agent.py:151-218 | each node only appends to the history: `llm` exactly the model's reply to the system prompt built from the source description followed by the history, `tools` exactly `take_action`'s tool messages, `evaluate` nothing |
| RagAgent.RunKeepsHistory | agentic_rag/rag_agent.py:163-229 | a completed run never rewrites or drops a message: the starting history is a prefix of the final one |
| KbManager.IsIdle | agentic_rag/kb_manager.py:3-8 | the strict test `now - last_used > 1800`; `SweptSpec` states it |
| KbManager.Swept | agentic_rag/kb_manager.py:5-9 | the sweep only removes entries and never changes a surviving value |
| KbManager.SweptSpec | agentic_rag/kb_manager.py:3-9 | an entry survives exactly when it has been idle at most 1800 seconds; exactly 1800 survives, because the test is strict `>` |
| KbManager.SweepThenSweep | agentic_rag/kb_manager.py:5-9 | sweeping at `t1` then at `t2 >= t1` equals one sweep at `t2`; in particular the sweep is idempotent |
| KbManager.KnowledgeBases.constructor | agentic_rag/app.py:121-122 | the registry starts empty |
| KbManager.KnowledgeBases.Add | agentic_rag/app.py:191-195 | registering a knowledge base stores its entry under its id, leaving the others alone |
| KbManager.KnowledgeBases.CleanupKbs | agentic_rag/kb_manager.py:5-9 | deleting in place over a snapshot of the ids leaves exactly the swept registry |
| SourceInfer.InferSource | agentic_rag/source_infer.py:1-19 | a returned path is always the stripped input and always comes with a kind; no kind means no path; empty input gives `(None, None)` |
| SourceInfer.WhitespaceOnly | agentic_rag/source_infer.py:2-19 | whitespace-only input passes the emptiness test but matches no rule |
| SourceInfer.Keywords | agentic_rag/source_infer.py:7-11 | `pdf`/`p` and `url`/`u`, in any case and with surrounding whitespace, name a kind without a path |
| SourceInfer.PdfSuffixWins | agentic_rag/source_infer.py:13-14 | a `.pdf` ending, in any case, makes a PDF path, even for a `https://` address |
| SourceInfer.UrlScheme | agentic_rag/source_infer.py:16-17 | a text starting with `http://` or `https://` that does not end in `.pdf` is a URL path |
| SourceInfer.NoRule | agentic_rag/source_infer.py:7-19 | a text that is no keyword, does not end in `.pdf` and does not start with a scheme gives `(None, None)` |
| SourceInfer.UpperCaseScheme | agentic_rag/source_infer.py:16-19 | the scheme test is case-sensitive: `HTTP://` and `HTTPS://` match no rule |
| Memory.SliceFrom | agentic_rag/memory.py:19 | Python's `s[start:]` is the suffix of length `|s| - start` for a start in range, `-start` for a negative one in range, all of `s` below the range and nothing above it |
| Memory.GetRecentMessages | agentic_rag/memory.py:18-19 | returns the last `max_turns` messages, or all of them when fewer; for `max_turns == 0` the whole history; for a negative value all but the first `-max_turns` |
| Memory.RecentIdempotent | agentic_rag/memory.py:18-19 | for `max_turns >= 0`, taking the recent messages twice is the same as once |

## Left out

- The text splitter (`RecursiveCharacterTextSplitter`), the embeddings, the FAISS index and BM25Okapi's scoring formula are library code. The chunk list is an input to the constructor. BM25 scoring is the oracle `bm25`, applied to the stored tokenised corpus and the tokenised query. The FAISS search is the oracle `faiss`, applied to the query and `k`.
- VectorStore.HybridRetriever.Retrieve: requires `bm25` to give one score per chunk, as `BM25Okapi.get_scores` does for the corpus it was built on.
- `HybridRetriever.__init__` raises `IndexError` on an empty `docs` list (`docs[0]`). The constructor takes the chunks the splitter would have produced, so that check is not part of it.
- VectorStore.HybridRetriever.Retrieve: `k` is a natural number. A negative `k` (a Python slice from the end) is not modelled.
- Text.Lower: lowercases ASCII letters only. Python's `str.lower` also lowercases other alphabets, so tokens of non-ASCII text differ. No non-ASCII character lowercases to the ASCII letters that `infer_source` compares against, so its classification is unaffected.
- Text.Strip: Python's whitespace set is written out by code point; any other Unicode handling is not modelled.
- RagAgent.TreatedScore: Python's `float()` grammar is the oracle `parseFloat`. `nan` and `inf` are not modelled as values: a result is a real number or a parse failure.
- The chat model, the evaluator model, the DuckDuckGo search (`ddg_search`) and `hybrid_retriever.retrieve` are oracle functions. The tool-binding schema and the model's choice of tool calls are not modelled.
- The wording of the two prompts `evaluate` sends is not modelled. The oracles receive a `Prompt` value that carries exactly what the prompt carries: the question and the answer, or nothing. The system prompt is modelled as text: fixed text around the source description.
- The oracles are deterministic and total. The chat model's sampling at temperature 0.3, and exceptions from the chat model, the evaluator backend or the network behind `ddg_search`, are not modelled.
- `d.metadata.get("source", "local")` is modelled as an optional source string. Metadata of other types is not modelled.
- In the graph library, the `evaluate` node's `END` return is not a state update. The model reads it as "no update, end the run". In the graph library, a node is expected to return a dict, `None` or a `Command`, and a bare `"__end__"` string is likely rejected with `InvalidUpdateError`. So the `Finish` path may well fail the run instead of ending it cleanly; this failure is not modelled.
- `add_messages` is modelled as appending to the history. Its merging of messages by id, and the conversion of the chat history's `{"role", "content"}` dictionaries into messages, are not modelled.
- The graph library's recursion limit is modelled as a step budget (`steps`), and exceeding it is `RecursionLimit`.
- `summarize_conversation` in `memory.py` is one call to the language model and is not modelled.
- KbManager.KnowledgeBases.CleanupKbs: an entry without a `last_used` key (a `KeyError` in Python) is not modelled. Entries always carry a timestamp. Timestamps are real numbers, not floating point.
- SourceInfer.InferSource: a `None` input is not modelled, only strings.
- The Streamlit interface, SQLite persistence, crawling and the web-search module are outside the core.
