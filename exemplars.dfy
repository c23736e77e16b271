/** The few-shot exemplar index of the query service: a corpus of known-good
    (question, Cypher query) pairs, a retriever that picks the `k` pairs most
    similar to a question, and the formatter that renders the chosen pairs as
    a prompt block. Similarity scores are inputs: the TF-IDF model that
    produces them is not part of this model. */
module Exemplars {
  import opened PyText
  import opened Ranking

  /** A (question, known-good single-line Cypher query) pair. */
  datatype Exemplar = Exemplar(question: string, query: string)

  /** The corpus the module starts with. */
  const SEED: seq<Exemplar> := [
    Exemplar(
      "Which scholars won the Nobel Physics prize after 1950?",
      "MATCH (s:Scholar)-[:WON]->(p:Prize) WHERE toLower(p.category)=toLower('physics') AND p.awardYear>1950 RETURN s.knownName, p.category, p.awardYear"),
    Exemplar(
      "List laureates affiliated with University of Cambridge",
      "MATCH (s:Scholar)-[:AFFILIATED_WITH]->(i:Institution) WHERE toLower(i.name) CONTAINS toLower('university of cambridge') RETURN s.knownName, i.name"),
    Exemplar(
      "Show economics prize winners and their award years",
      "MATCH (s:Scholar)-[:WON]->(p:Prize) WHERE toLower(p.category)=toLower('economics') RETURN s.knownName, p.awardYear"),
    Exemplar(
      "Find chemistry laureates born before 1900",
      "MATCH (s:Scholar)-[:WON]->(p:Prize) WHERE toLower(p.category)=toLower('chemistry') AND s.birthDate<'1900-01-01' RETURN s.knownName, s.birthDate, p.awardYear"),
    Exemplar(
      "Who won a medicine prize at Karolinska Institutet?",
      "MATCH (s:Scholar)-[:WON]->(p:Prize) MATCH (s)-[:AFFILIATED_WITH]->(i:Institution) WHERE toLower(p.category)=toLower('medicine') AND toLower(i.name) CONTAINS toLower('karolinska institutet') RETURN s.knownName, i.name, p.awardYear")
  ]

  /** The seed corpus holds five pairs with pairwise distinct questions. */
  lemma SeedCorpus()
    ensures |SEED| == 5
    ensures forall i, j :: 0 <= i < j < |SEED| ==> SEED[i].question != SEED[j].question
  {
  }

  // ---------------------------------------------------------------------
  // Prompt-block formatting

  /** The query as it appears in the block: stripped, with every whitespace
      run collapsed to one space. This is exactly the query's words joined
      by single spaces, so it has no line break, tab or double space. */
  function OneLine(query: string): (r: string)
    ensures r == Join(Words(query), " ")
    ensures IsOneLine(r)
    ensures '\n' !in r && '\t' !in r
  {
    CollapseStripIsJoinedWords(query);
    JoinedWordsIsOneLine(Words(query));
    CollapseSpace(Strip(query))
  }

  /** Collapsing an already collapsed query changes nothing. */
  lemma OneLineIdempotent(query: string)
    ensures OneLine(OneLine(query)) == OneLine(query)
  {
    WordsOfJoin(Words(query));
  }

  /** The exemplar as it appears in the block: its question verbatim and its
      query collapsed to one line. */
  function Collapsed(ex: Exemplar): Exemplar {
    Exemplar(ex.question, OneLine(ex.query))
  }

  /** Every exemplar of `exs`, collapsed, in input order. */
  function CollapsedAll(exs: seq<Exemplar>): (cs: seq<Exemplar>)
    ensures |cs| == |exs|
  {
    if |exs| == 0 then [] else CollapsedAll(exs[..|exs| - 1]) + [Collapsed(exs[|exs| - 1])]
  }

  /** Entry `j` of the collapsed list is exemplar `j`, collapsed. */
  lemma {:induction false} CollapsedAllAt(exs: seq<Exemplar>, j: nat)
    requires j < |exs|
    ensures CollapsedAll(exs)[j] == Collapsed(exs[j])
  {
    if j < |exs| - 1 {
      CollapsedAllAt(exs[..|exs| - 1], j);
    }
  }

  /** The four lines contributed by an already collapsed exemplar numbered `n`. */
  function Group(n: nat, ex: Exemplar): seq<string> {
    ["Example " + NatToString(n) + ":", "Question: " + ex.question, "Cypher: " + ex.query, ""]
  }

  /** The lines for already collapsed exemplars, numbered from 1. */
  function GroupLines(cs: seq<Exemplar>): (lines: seq<string>)
    ensures |lines| == 4 * |cs|
  {
    if |cs| == 0 then [] else GroupLines(cs[..|cs| - 1]) + Group(|cs|, cs[|cs| - 1])
  }

  /** Collapsed exemplar `j` (0-based) owns lines `4j .. 4j+3`, numbered `j + 1`. */
  lemma {:induction false} GroupLinesAt(cs: seq<Exemplar>, j: nat)
    requires j < |cs|
    ensures GroupLines(cs)[4 * j] == "Example " + NatToString(j + 1) + ":"
    ensures GroupLines(cs)[4 * j + 1] == "Question: " + cs[j].question
    ensures GroupLines(cs)[4 * j + 2] == "Cypher: " + cs[j].query
    ensures GroupLines(cs)[4 * j + 3] == ""
  {
    var n := |cs|;
    var init := cs[..n - 1];
    if j < n - 1 {
      GroupLinesAt(init, j);
      assert init[j] == cs[j];
    }
  }

  /** The lines `format_fewshot_block` collects for `exs`, before joining. */
  function BlockLines(exs: seq<Exemplar>): (lines: seq<string>)
    ensures |lines| == 4 * |exs|
  {
    GroupLines(CollapsedAll(exs))
  }

  /** One more exemplar adds its four lines at the end. */
  lemma BlockLinesSnoc(exs: seq<Exemplar>, ex: Exemplar)
    ensures BlockLines(exs + [ex]) == BlockLines(exs) + Group(|exs| + 1, Collapsed(ex))
  {
    assert (exs + [ex])[..|exs|] == exs;
  }

  /** Exemplar `j` (0-based) owns lines `4j .. 4j+3`, numbered `j + 1`. */
  lemma BlockLinesAt(exs: seq<Exemplar>, j: nat)
    requires j < |exs|
    ensures BlockLines(exs)[4 * j] == "Example " + NatToString(j + 1) + ":"
    ensures BlockLines(exs)[4 * j + 1] == "Question: " + exs[j].question
    ensures BlockLines(exs)[4 * j + 2] == "Cypher: " + OneLine(exs[j].query)
    ensures BlockLines(exs)[4 * j + 3] == ""
  {
    GroupLinesAt(CollapsedAll(exs), j);
    CollapsedAllAt(exs, j);
  }

  /** The lines for `exs`: exemplar `j` (0-based) is rendered, in input
      order, under the number `j + 1`, with its question verbatim and its
      query collapsed to one line, then a blank line. */
  lemma BlockLinesShape(exs: seq<Exemplar>)
    ensures |BlockLines(exs)| == 4 * |exs|
    ensures forall j :: 0 <= j < |exs| ==>
      && BlockLines(exs)[4 * j] == "Example " + NatToString(j + 1) + ":"
      && BlockLines(exs)[4 * j + 1] == "Question: " + exs[j].question
      && BlockLines(exs)[4 * j + 2] == "Cypher: " + OneLine(exs[j].query)
      && BlockLines(exs)[4 * j + 3] == ""
  {
    forall j | 0 <= j < |exs|
      ensures && BlockLines(exs)[4 * j] == "Example " + NatToString(j + 1) + ":"
              && BlockLines(exs)[4 * j + 1] == "Question: " + exs[j].question
              && BlockLines(exs)[4 * j + 2] == "Cypher: " + OneLine(exs[j].query)
              && BlockLines(exs)[4 * j + 3] == ""
    {
      BlockLinesAt(exs, j);
    }
  }

  /** Stripping the joined block when its last two lines are
      "Cypher: " + `o` and the blank line, and it starts with a
      non-whitespace character. */
  lemma StripBlockTail(Y: string, o: string)
    requires |Y| > 0 && !IsSpace(Y[0])
    requires o == [] || !IsSpace(o[|o| - 1])
    ensures Strip(Y + "\n" + ("Cypher: " + o) + "\n" + "") ==
      if o != "" then Y + "\n" + ("Cypher: " + o) else Y + "\nCypher:"
  {
    var X := Y + "\n" + ("Cypher: " + o);
    var s := X + "\n" + "";
    assert s == X + "\n";
    assert s[0] == Y[0];
    RStripSpaceSuffix(X, "\n");
    if o != "" {
      assert X[|X| - 1] == o[|o| - 1];
      RStripNoTrailing(X);
    } else {
      var Z := Y + "\nCypher:";
      assert X == Z + " ";
      RStripSpaceSuffix(Z, " ");
      RStripNoTrailing(Z);
    }
  }

  /** The joined lines of a non-empty list of collapsed exemplars start with
      "Example 1:" and end with the last "Cypher:" line and the blank line. */
  lemma GroupJoinTail(cs: seq<Exemplar>)
    requires |cs| > 0
    ensures var Y := Join(GroupLines(cs)[..4 * |cs| - 2], "\n");
      && |Y| > 0 && !IsSpace(Y[0])
      && Join(GroupLines(cs)[..4 * |cs| - 1], "\n") == Y + "\n" + ("Cypher: " + cs[|cs| - 1].query)
      && Join(GroupLines(cs), "\n") == Join(GroupLines(cs)[..4 * |cs| - 1], "\n") + "\n" + ""
  {
    var n := |cs|;
    var L := GroupLines(cs);
    var P := L[..4 * n - 2];
    var Q := L[..4 * n - 1];
    var c := "Cypher: " + cs[n - 1].query;
    assert Q == P + [c] by {
      GroupLinesAt(cs, n - 1);
    }
    JoinSnoc(P, c, "\n");
    assert L == Q + [""] by {
      GroupLinesAt(cs, n - 1);
    }
    JoinSnoc(Q, "", "\n");
    assert P[0] == "Example " + NatToString(1) + ":" by {
      GroupLinesAt(cs, 0);
    }
    JoinFirstChar(P, "\n");
  }

  /** The stripped join of the lines of collapsed exemplars whose last query
      is empty or ends in a non-whitespace character. */
  lemma GroupTextShape(cs: seq<Exemplar>)
    requires |cs| > 0
    requires var o := cs[|cs| - 1].query; o == [] || !IsSpace(o[|o| - 1])
    ensures cs[|cs| - 1].query != "" ==>
      Strip(Join(GroupLines(cs), "\n")) == Join(GroupLines(cs)[..4 * |cs| - 1], "\n")
    ensures cs[|cs| - 1].query == "" ==>
      Strip(Join(GroupLines(cs), "\n")) == Join(GroupLines(cs)[..4 * |cs| - 2], "\n") + "\nCypher:"
  {
    GroupJoinTail(cs);
    StripBlockTail(Join(GroupLines(cs)[..4 * |cs| - 2], "\n"), cs[|cs| - 1].query);
  }

  /** The block text for `exs`: the lines joined by newlines, then stripped.
      With no exemplar it is empty. Otherwise the strip removes exactly the
      final blank line, and also the space after the last "Cypher:" when the
      last query is all whitespace. */
  lemma BlockTextShape(exs: seq<Exemplar>)
    ensures |exs| == 0 ==> Strip(Join(BlockLines(exs), "\n")) == ""
    ensures |exs| > 0 && OneLine(exs[|exs| - 1].query) != "" ==>
      Strip(Join(BlockLines(exs), "\n")) == Join(BlockLines(exs)[..4 * |exs| - 1], "\n")
    ensures |exs| > 0 && OneLine(exs[|exs| - 1].query) == "" ==>
      Strip(Join(BlockLines(exs), "\n")) == Join(BlockLines(exs)[..4 * |exs| - 2], "\n") + "\nCypher:"
  {
    var n := |exs|;
    if n > 0 {
      var cs := CollapsedAll(exs);
      CollapsedAllAt(exs, n - 1);
      GroupTextShape(cs);
    }
  }

  /** `format_fewshot_block`: renders the exemplars as a compact prompt block. */
  method FormatFewshotBlock(exemplars: seq<Exemplar>) returns (block: string)
    ensures block == Strip(Join(BlockLines(exemplars), "\n"))
    ensures block == [] || (!IsSpace(block[0]) && !IsSpace(block[|block| - 1]))
    ensures |exemplars| == 0 ==> block == ""
    ensures |exemplars| > 0 && OneLine(exemplars[|exemplars| - 1].query) != "" ==>
      block == Join(BlockLines(exemplars)[..4 * |exemplars| - 1], "\n")
    ensures |exemplars| > 0 && OneLine(exemplars[|exemplars| - 1].query) == "" ==>
      block == Join(BlockLines(exemplars)[..4 * |exemplars| - 2], "\n") + "\nCypher:"
  {
    var lines: seq<string> := [];
    var i := 0;
    while i < |exemplars|
      invariant 0 <= i <= |exemplars|
      invariant lines == BlockLines(exemplars[..i])
    {
      var ex := exemplars[i];
      var oneLine := OneLine(ex.query);
      // The four appends of the loop body, as one concatenation.
      lines := lines + ["Example " + NatToString(i + 1) + ":", "Question: " + ex.question, "Cypher: " + oneLine, ""];
      assert exemplars[..i + 1] == exemplars[..i] + [ex];
      BlockLinesSnoc(exemplars[..i], ex);
      i := i + 1;
    }
    assert lines == BlockLines(exemplars) by {
      assert exemplars[..i] == exemplars;
    }
    block := Strip(Join(lines, "\n"));
    BlockTextShape(exemplars);
  }

  // ---------------------------------------------------------------------
  // Retrieval

  /** `FewShotRetriever`: ranks its corpus against a question. The TF-IDF
      vectoriser and matrix it builds are represented by the score vector
      each query supplies. */
  class FewShotRetriever {
    const exemplars: seq<Exemplar>

    constructor (exemplars: seq<Exemplar>)
      ensures this.exemplars == exemplars
    {
      this.exemplars := exemplars;
    }

    /** `top_k`: the exemplars at the `k` best-scoring positions, best first.
        `scores[i]` is the similarity of the question to corpus entry `i`. */
    function TopK(scores: seq<real>, k: nat := 3): (r: seq<Exemplar>)
      requires |scores| == |exemplars|
      ensures |r| == Min(k, |exemplars|)
      ensures forall j :: 0 <= j < |r| ==> r[j] == exemplars[TopPositions(scores, k)[j]]
    {
      var idx := TopPositions(scores, k);
      seq(|idx|, j requires 0 <= j < |idx| => exemplars[idx[j]])
    }
  }

  // ---------------------------------------------------------------------
  // Module-level state

  /** The module-level `EXEMPLARS` list and the `_retriever` built over it. */
  class ExemplarIndex {
    var exemplars: seq<Exemplar>
    var retriever: FewShotRetriever

    /** The retriever ranks over exactly the current corpus. */
    ghost predicate Valid()
      reads this
    {
      retriever.exemplars == exemplars
    }

    /** Module import: the seed corpus and a retriever built over it. */
    constructor ()
      ensures Valid() && exemplars == SEED
    {
      exemplars := SEED;
      retriever := new FewShotRetriever(SEED);
    }

    /** `add_exemplar`: appends the pair, then rebuilds the retriever over
        the grown corpus. */
    method AddExemplar(question: string, query: string)
      requires Valid()
      modifies this
      ensures Valid()
      ensures exemplars == old(exemplars) + [Exemplar(question, query)]
      ensures fresh(retriever)
    {
      exemplars := exemplars + [Exemplar(question, query)];
      retriever := new FewShotRetriever(exemplars);
    }

    /** `get_fewshot_block`: formats the current retriever's top `k`
        exemplars; the block holds at most `k` example groups. */
    method GetFewshotBlock(scores: seq<real>, k: nat := 3) returns (block: string)
      requires Valid() && |scores| == |exemplars|
      ensures block == Strip(Join(BlockLines(retriever.TopK(scores, k)), "\n"))
      ensures |BlockLines(retriever.TopK(scores, k))| == 4 * Min(k, |exemplars|) <= 4 * k
    {
      var examples := retriever.TopK(scores, k);
      block := FormatFewshotBlock(examples);
      BlockLinesShape(examples);
    }
  }
}
