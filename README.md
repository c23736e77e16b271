# Few-shot exemplar index of the text-to-Cypher query service

The query service turns a natural-language question into a Cypher query. Before it asks the language model, it retrieves a few known-good (question, Cypher) pairs similar to the question. It formats them as a prompt block of worked examples. This project models that exemplar module (`query-service/src/modules/exemplars.py`) in Dafny and proves what it promises.

- `pytext.dfy` (module `PyText`) models the Python string operations the formatter calls:
  - whitespace as `str.isspace` defines it, which is also the `\s` class of `re` on `str`;
  - `str.strip`, defined together with its two halves `lstrip` and `rstrip`, which the formatter does not call;
  - `re.sub(r"\s+", " ", s)`;
  - `"\n".join(lines)`;
  - the decimal rendering of an `int` in an f-string.

  It also defines `str.split()` and `" ".join(words)`. The formatter never calls them. They are an independent reference: the model proves that the collapse on line 59 equals `" ".join(q.split())`.
- `ranking.dfy` (module `Ranking`) models `sims.argsort()[::-1][:k]` over a score vector.
- `exemplars.dfy` (module `Exemplars`) holds the core:
  - the `Exemplar` record and the five seed pairs;
  - `format_fewshot_block`, a method with the source's loop;
  - `FewShotRetriever` and its `top_k`;
  - the module-level `EXEMPLARS` list and `_retriever`, as the class `ExemplarIndex`, with `add_exemplar` and `get_fewshot_block`.

Similarity scores are inputs. `scores[i]` stands for the cosine similarity between the question and corpus entry `i`. The question itself reaches `top_k` only through these scores, so `TopK` and `GetFewshotBlock` take the score vector instead of the question text.

## Model

| member | source | states |
|---|---|---|
| `PyText.IsSpace` | query-service/src/modules/exemplars.py:59 | The whitespace set that `str.strip` and the `\s` of `re` use: the characters for which `str.isspace` holds. It has no contract. The strip and collapse lemmas below state what depends on it. |
| `PyText.LStrip` | query-service/src/modules/exemplars.py:59 | The first half of `strip`, which the formatter does not call on its own. The result of `lstrip` is empty or starts with a non-whitespace character, and it is strictly shorter when the input starts with whitespace. |
| `PyText.RStrip` | query-service/src/modules/exemplars.py:64 | The second half of `strip`, which the formatter does not call on its own. The result of `rstrip` is empty or ends with a non-whitespace character. It is empty exactly when the input is all whitespace. |
| `PyText.RStripIsPrefix` | query-service/src/modules/exemplars.py:64 | The input is the `rstrip` result followed by whitespace only. |
| `PyText.Strip` | query-service/src/modules/exemplars.py:59 | The result of `strip` has no whitespace at either end. |
| `PyText.StripIsRStripOfLStrip` | query-service/src/modules/exemplars.py:59 | `s.strip()` equals `s.lstrip().rstrip()`. |
| `PyText.StripRemovesOnlyEndSpace` | query-service/src/modules/exemplars.py:64 | The input is leading whitespace, then the `strip` result, then trailing whitespace. |
| `PyText.CollapseSpace` | query-service/src/modules/exemplars.py:59 | `re.sub(r"\s+", " ", s)`. It has no contract of its own. `CollapseSpaceSingleSpaces`, `CollapseStripIsJoinedWords` and `OneLine` state what it computes. |
| `PyText.CollapseSpaceSingleSpaces` | query-service/src/modules/exemplars.py:59 | After `re.sub(r"\s+", " ", s)` every whitespace character is a plain space, no two whitespace characters are adjacent, and a non-whitespace first character is kept. |
| `PyText.TakeWord` | query-service/src/modules/exemplars.py:59 | Part of the `split()` reference, which the formatter does not call. The result is the longest whitespace-free prefix of the input. |
| `PyText.Words` | query-service/src/modules/exemplars.py:59 | `str.split()`, the independent reference for what line 59 computes; the formatter does not call it. Every word that `split()` returns is non-empty and contains no whitespace. |
| `PyText.CollapseStripIsJoinedWords` | query-service/src/modules/exemplars.py:59 | `re.sub(r"\s+", " ", s.strip())` equals `" ".join(s.split())`. |
| `PyText.JoinedWordsIsOneLine` | query-service/src/modules/exemplars.py:59 | About the `" ".join(s.split())` reference. Words joined by single spaces have no whitespace other than single plain spaces and none at either end. |
| `PyText.SplitFirstWord` | query-service/src/modules/exemplars.py:59 | About the `split()` reference. A string that starts with a word is that word, a whitespace run, and the rest. `split()` gives the word and then the words of the rest. |
| `PyText.WordsOfJoin` | query-service/src/modules/exemplars.py:59 | About the `split()` reference. Splitting words joined by single spaces gives back the same words. |
| `PyText.NatToString` | query-service/src/modules/exemplars.py:60 | `str(n)` is a non-empty string of decimal digits, with no leading zero unless `n` is 0. |
| `PyText.NatToStringRoundTrip` | query-service/src/modules/exemplars.py:58-60 | Reading `str(n)` back as a decimal gives `n`, so distinct example numbers render as distinct strings. |
| `PyText.Join` | query-service/src/modules/exemplars.py:64 | `sep.join(parts)`. It has no contract of its own. `JoinSnoc`, `JoinCons` and `JoinFirstChar` state how it grows and how it starts. |
| `PyText.JoinSnoc` | query-service/src/modules/exemplars.py:64 | Joining `parts + [x]` gives the join of `parts`, then the separator, then `x`. |
| `PyText.JoinCons` | query-service/src/modules/exemplars.py:64 | Joining `[w] + ws` gives `w`, then the separator, then the join of `ws`. |
| `PyText.JoinFirstChar` | query-service/src/modules/exemplars.py:64 | A join whose first part is non-empty starts with that part's first character. |
| `Exemplars.SeedCorpus` | query-service/src/modules/exemplars.py:18-39 | The `EXEMPLARS` list starts with five pairs whose questions are pairwise distinct. The constant `SEED` holds the pairs character for character. |
| `Exemplars.OneLine` | query-service/src/modules/exemplars.py:59 | The collapsed query is the query's words joined by single spaces. It has no newline or tab, no two adjacent whitespace characters, and no whitespace at either end. |
| `Exemplars.OneLineIdempotent` | query-service/src/modules/exemplars.py:59 | Collapsing an already collapsed query leaves it unchanged. |
| `Exemplars.CollapsedAll` | query-service/src/modules/exemplars.py:56-59 | The loop computes `one_line` for each exemplar, so there is one collapsed exemplar per input exemplar. `CollapsedAllAt` states each entry. |
| `Exemplars.CollapsedAllAt` | query-service/src/modules/exemplars.py:56-59 | Entry `j` of the collapsed list keeps exemplar `j`'s question and holds its collapsed query, in input order. |
| `Exemplars.Group` | query-service/src/modules/exemplars.py:60-63 | The four lines appended for one exemplar. It has no contract of its own. `GroupLinesAt` and `BlockLinesAt` state where each line lands. |
| `Exemplars.GroupLines` | query-service/src/modules/exemplars.py:56-63 | Collapsed exemplars give exactly four lines each. |
| `Exemplars.GroupLinesAt` | query-service/src/modules/exemplars.py:56-63 | Lines `4j` to `4j+3` belong to collapsed exemplar `j`: "Example j+1:", its question, its query and a blank line. |
| `Exemplars.BlockLines` | query-service/src/modules/exemplars.py:57-63 | The line list holds exactly four lines per exemplar. |
| `Exemplars.BlockLinesSnoc` | query-service/src/modules/exemplars.py:56-63 | One more exemplar adds exactly its four lines at the end, numbered one past the previous count. |
| `Exemplars.BlockLinesAt` | query-service/src/modules/exemplars.py:58-63 | Lines `4j` to `4j+3` belong to exemplar `j`: "Example j+1:", the question, the collapsed query and a blank line. |
| `Exemplars.BlockLinesShape` | query-service/src/modules/exemplars.py:57-63 | For n exemplars there are 4n lines, in input order. Numbering starts at 1. Each question is copied verbatim and each query is collapsed to one line. |
| `Exemplars.StripBlockTail` | query-service/src/modules/exemplars.py:63-64 | The final strip removes the trailing newline. When the last collapsed query is empty, it also removes the space after "Cypher:". |
| `Exemplars.GroupJoinTail` | query-service/src/modules/exemplars.py:57-64 | A non-empty joined block starts with "Example 1:" and ends with the last "Cypher:" line followed by the blank line. |
| `Exemplars.GroupTextShape` | query-service/src/modules/exemplars.py:63-64 | When the last query is empty or ends in a non-whitespace character, the stripped block is the first 4n-1 lines joined. When that query is empty, it ends in "Cypher:" instead. |
| `Exemplars.BlockTextShape` | query-service/src/modules/exemplars.py:64 | With no exemplar the block is empty. Otherwise it is the first 4n-1 lines joined by newlines. When the last query is all whitespace, the block ends in "Cypher:" instead. |
| `Exemplars.FormatFewshotBlock` | query-service/src/modules/exemplars.py:55-64 | The loop builds exactly the specified line list. The returned block is that list joined and stripped, has no whitespace at either end, and takes the exact form `BlockTextShape` gives. |
| `Ranking.Insert` | query-service/src/modules/exemplars.py:51 | Inserting a position into a ranked list keeps it a ranking of distinct valid positions, with one more element. |
| `Ranking.RankPrefix` | query-service/src/modules/exemplars.py:51 | Ranks exactly the positions `0 .. n-1`, each once, by non-increasing score. |
| `Ranking.RankDescending` | query-service/src/modules/exemplars.py:51 | `argsort()[::-1]` is a ranking: every position once, by non-increasing score. |
| `Ranking.RankingPrefix` | query-service/src/modules/exemplars.py:51 | For any ranking, and so for any tie order, a prefix has distinct valid positions in non-increasing score order, and no position left out scores higher than one taken. |
| `Ranking.TopPositions` | query-service/src/modules/exemplars.py:50-51 | `argsort()[::-1][:k]` has exactly min(k, n) distinct positions in non-increasing score order. No position left out scores strictly higher than any position returned. |
| `Exemplars.FewShotRetriever.constructor` | query-service/src/modules/exemplars.py:43-46 | The retriever ranks over exactly the corpus it was built with. |
| `Exemplars.FewShotRetriever.TopK` | query-service/src/modules/exemplars.py:48-52 | `top_k` returns min(k, corpus size) exemplars: the corpus entries at the top positions, best first. `k` defaults to 3, as in the source. |
| `Exemplars.ExemplarIndex.constructor` | query-service/src/modules/exemplars.py:67-68 | At import the corpus is the five seed pairs of lines 18-39, and the retriever is built over it. |
| `Exemplars.ExemplarIndex.AddExemplar` | query-service/src/modules/exemplars.py:78-82 | The corpus grows by exactly the new pair, placed last, and earlier entries stay unchanged. A fresh retriever ranks over exactly the new corpus. |
| `Exemplars.ExemplarIndex.GetFewshotBlock` | query-service/src/modules/exemplars.py:71-74 | The block is the formatted `top_k` result of the current retriever. Its line list, before the join and strip, has 4·min(k, n) ≤ 4k entries, so the block has at most k example groups. `k` defaults to 3, as in the source. |

## Left out

- TF-IDF vectorisation and cosine similarity (`TfidfVectorizer`, `cosine_similarity`, lines 45-50) are floating-point library code. The model takes the score vector as input and does not model tokenisation, n-gram weighting or the fitted vocabulary.
- `Ranking.RankDescending`: numpy's `argsort` promises no order among equal scores. The model breaks ties by lower position first. Every property is proved for any ranking in `Ranking.RankingPrefix`, so none of them depends on that choice.
- `Exemplars.FewShotRetriever.TopK`: `k` is a natural number. Python's slice with a negative `k` is not modelled. The only caller passes 3 (`query-service/src/modules/text2cypher.py:136`).
- `Exemplars.ExemplarIndex.AddExemplar`: in the source, the old retriever aliases the global list that `add_exemplar` appends to before it rebuilds. The model keeps the corpus as a value and states the state after the call only. Readers running at the same time as a rebuild are not modelled.
- Scores are exact reals, not IEEE doubles. A NaN score, for which the ordering is not total, is not modelled.
- The rest of the repository is not part of this model:
  - `query-service/src/modules/text2cypher.py`: language-model calls, database schema reads and Pydantic shapes;
  - the service entry points, which do messaging, HTTP, caching and benchmarking;
  - the configuration files.
