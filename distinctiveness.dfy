/** The distinctiveness analysis (backend/app/analysis/distinctiveness.py):
    the word counts of two corpora are compared word by word with Dunning's
    log-likelihood, and the words are split into those common to both
    corpora and those unique to each. */
module Distinctiveness {
  import opened Wrappers
  import opened Counting

  // ---------------------------------------------------------------------
  // `_get_wordcount_counter`: the word counts of a whole corpus.
  // ---------------------------------------------------------------------

  /** The number of times `word` occurs in the documents, document counters
      added up from the first to the last. */
  function CountIn(documents: seq<Counter<string>>, word: string): nat
    decreases |documents|
  {
    if |documents| == 0 then 0
    else CountIn(documents[..|documents| - 1], word) + Get(documents[|documents| - 1], word)
  }

  /** Every word of some document. */
  function Vocabulary(documents: seq<Counter<string>>): set<string>
  {
    set k, word | 0 <= k < |documents| && word in documents[k] :: word
  }

  /** The corpus counter: each word with a positive total and that total. */
  function CorpusCounter(documents: seq<Counter<string>>): map<string, nat>
  {
    map word | word in Vocabulary(documents) && CountIn(documents, word) > 0 :: CountIn(documents, word)
  }

  /** A word of no document counts 0. */
  lemma {:induction false} CountInOutside(documents: seq<Counter<string>>, word: string)
    requires word !in Vocabulary(documents)
    ensures CountIn(documents, word) == 0
    decreases |documents|
  {
    if |documents| > 0 {
      var prefix := documents[..|documents| - 1];
      forall k | 0 <= k < |prefix| ensures word !in prefix[k] {
        assert prefix[k] == documents[k];
      }
      CountInOutside(prefix, word);
      assert word !in documents[|documents| - 1];
    }
  }

  /** The corpus counter is positive and gives every word its total count. */
  lemma CorpusCounterCounts(documents: seq<Counter<string>>)
    ensures Positive(CorpusCounter(documents))
    ensures forall word :: Get(CorpusCounter(documents), word) == CountIn(documents, word)
  {
    forall word ensures Get(CorpusCounter(documents), word) == CountIn(documents, word) {
      if word !in Vocabulary(documents) {
        CountInOutside(documents, word);
      }
    }
  }

  /** Taking one document out of the sum. */
  lemma {:induction false} CountInRemove(documents: seq<Counter<string>>, k: nat, word: string)
    requires k < |documents|
    ensures CountIn(documents, word)
      == CountIn(documents[..k] + documents[k + 1..], word) + Get(documents[k], word)
    decreases |documents|
  {
    var last := |documents| - 1;
    var prefix := documents[..last];
    if k == last {
      assert documents[..k] + documents[k + 1..] == prefix;
    } else {
      CountInRemove(prefix, k, word);
      var rest := documents[..k] + documents[k + 1..];
      assert rest[..|rest| - 1] == prefix[..k] + prefix[k + 1..];
      assert rest[|rest| - 1] == documents[last];
    }
  }

  /** Taking one element out of a sequence takes it out of its multiset. */
  lemma MultisetRemove(s: seq<Counter<string>>, k: nat)
    requires k < |s|
    ensures multiset(s) == multiset(s[..k] + s[k + 1..]) + multiset{s[k]}
  {
    assert s == s[..k] + [s[k]] + s[k + 1..];
  }

  /** The corpus counts do not depend on the order of the documents. */
  lemma {:induction false} CountInPermutation(documents: seq<Counter<string>>, others: seq<Counter<string>>,
                                              word: string)
    requires multiset(documents) == multiset(others)
    ensures CountIn(documents, word) == CountIn(others, word)
    decreases |documents|
  {
    if |documents| == 0 {
      assert |others| == |multiset(others)| == 0;
    } else {
      var n := |documents| - 1;
      var last := documents[n];
      var prefix := documents[..n];
      assert last in multiset(others) by {
        assert last in multiset(documents);
      }
      var k :| 0 <= k < |others| && others[k] == last;
      var rest := others[..k] + others[k + 1..];
      MultisetRemove(others, k);
      MultisetRemove(documents, n);
      assert documents[..n] + documents[n + 1..] == prefix;
      var before, after := multiset(prefix), multiset(rest);
      forall y ensures before[y] == after[y] {
        assert (before + multiset{last})[y] == (after + multiset{last})[y];
      }
      assert before == after;
      CountInPermutation(prefix, rest, word);
      CountInRemove(others, k, word);
    }
  }

  /** So the corpus counter does not depend on it either. */
  lemma CorpusCounterPermutation(documents: seq<Counter<string>>, others: seq<Counter<string>>)
    requires multiset(documents) == multiset(others)
    ensures CorpusCounter(documents) == CorpusCounter(others)
  {
    CorpusCounterCounts(documents);
    CorpusCounterCounts(others);
    forall word ensures Get(CorpusCounter(documents), word) == Get(CorpusCounter(others), word) {
      CountInPermutation(documents, others, word);
    }
    PositiveUnique(CorpusCounter(documents), CorpusCounter(others));
  }

  /** `corpus_counter += document_counter` for every document of the corpus. */
  method WordcountCounter(documents: seq<Counter<string>>) returns (corpusCounter: Counter<string>)
    ensures corpusCounter == CorpusCounter(documents)
    ensures |documents| == 0 ==> corpusCounter == map[]
  {
    corpusCounter := map[];
    for i := 0 to |documents|
      invariant Positive(corpusCounter)
      invariant forall word :: Get(corpusCounter, word) == CountIn(documents[..i], word)
    {
      var documentCounter := documents[i];
      assert documents[..i + 1][..i] == documents[..i];
      corpusCounter := Plus(corpusCounter, documentCounter);
    }
    assert documents[..|documents|] == documents;
    CorpusCounterCounts(documents);
    PositiveUnique(corpusCounter, CorpusCounter(documents));
  }

  // ---------------------------------------------------------------------
  // `dunn_individual_word`.
  // ---------------------------------------------------------------------

  /** The value of Dunning's log-likelihood for these arguments, left
      symbolic: only whether it can be computed is modelled. */
  datatype LogLikelihood = LogLikelihood(total1: nat, total2: nat, count1: nat, count2: nat)

  /** `dunn_individual_word(total1, total2, count1, count2)`, or the
      exception it raises: the divisions by `c + d`, `e1` and `e2` raise
      `ZeroDivisionError` and `math.log(0)` raises `ValueError`, in the order
      in which the expressions are evaluated. */
  function DunnIndividualWord(total1: nat, total2: nat, count1: nat, count2: nat): (r: Result<LogLikelihood, Error>)
    ensures r.Success? <==> total1 > 0 && total2 > 0 && count1 > 0 && count2 > 0
    ensures r.Success? ==> r.value == LogLikelihood(total1, total2, count1, count2)
    ensures r == Failure(ValueError) <==>
      total1 > 0 && count1 + count2 > 0 && (count1 == 0 || (total2 > 0 && count2 == 0))
    ensures r.Failure? ==> r.error in {ZeroDivisionError, ValueError}
  {
    var a, b, c, d := count1, count2, total1, total2;
    if c + d == 0 then Failure(ZeroDivisionError)
    else
      var e1 := (c * (a + b)) as real / (c + d) as real;
      var e2 := (d * (a + b)) as real / (c + d) as real;
      if e1 == 0.0 then Failure(ZeroDivisionError)
      else if a == 0 then Failure(ValueError)
      else if e2 == 0.0 then Failure(ZeroDivisionError)
      else if b == 0 then Failure(ValueError)
      else Success(LogLikelihood(c, d, a, b))
  }

  // ---------------------------------------------------------------------
  // `dunning_total`.
  // ---------------------------------------------------------------------

  /** `{'dunning': ..., 'count_corp1': ..., 'count_corp2': ...}`. */
  datatype CommonWord = CommonWord(dunning: LogLikelihood, countCorp1: nat, countCorp2: nat)

  /** `{"unique_to_corp_1": ..., "unique_to_corp_2": ..., "common_words": ...}`. */
  datatype DunningResult = DunningResult(uniqueToCorp1: set<string>, uniqueToCorp2: set<string>,
                                         commonWords: map<string, CommonWord>)

  /** What `dunning_total` computes from the two corpus counters: the
      assertion that not both are empty, the `ZeroDivisionError` that every
      word of the first raises when the second is empty, and otherwise the
      three collections. */
  ghost function Dunning(counter1: Counter<string>, counter2: Counter<string>): Result<DunningResult, Error>
  {
    var total1, total2 := SumValues(counter1), SumValues(counter2);
    if total1 == 0 && total2 == 0 then Failure(AssertionError)
    else if total2 == 0 && counter1 != map[] then Failure(ZeroDivisionError)
    else Success(DunningResult(
      set word | word in counter1 && Get(counter2, word) == 0,
      set word | word in counter2 && word !in counter1,
      map word | word in counter1 && Get(counter2, word) > 0
        :: CommonWord(LogLikelihood(total1, total2, counter1[word], counter2[word]),
                      counter1[word], counter2[word])))
  }

  /** The first loop of `dunning_total`, after the words of `counter1` outside `todo`. */
  ghost predicate FirstLoop(result: DunningResult, counter1: Counter<string>, counter2: Counter<string>,
                            todo: set<string>, total1: nat, total2: nat)
  {
    var done := counter1.Keys - todo;
    && todo <= counter1.Keys
    && result.uniqueToCorp1 == (set word | word in done && Get(counter2, word) == 0)
    && result.uniqueToCorp2 == {}
    && result.commonWords == map word | word in done && Get(counter2, word) > 0
         :: CommonWord(LogLikelihood(total1, total2, counter1[word], counter2[word]),
                       counter1[word], counter2[word])
  }

  /** The assertion fails when both corpora are empty. */
  lemma EmptyCorporaFail(counter1: Counter<string>, counter2: Counter<string>)
    requires SumValues(counter1) == 0 && SumValues(counter2) == 0
    ensures Dunning(counter1, counter2) == Failure(AssertionError)
  {
  }

  /** A first corpus with words and an empty second one divide by `e2 = 0`. */
  lemma SecondCorpusEmptyFails(counter1: Counter<string>, counter2: Counter<string>)
    requires SumValues(counter1) > 0 && SumValues(counter2) == 0 && counter1 != map[]
    ensures Dunning(counter1, counter2) == Failure(ZeroDivisionError)
  {
  }

  /** A word whose count in the second counter is positive becomes a common word. */
  lemma FirstLoopCommon(result: DunningResult, counter1: Counter<string>, counter2: Counter<string>,
                        todo: set<string>, total1: nat, total2: nat, word: string)
    requires FirstLoop(result, counter1, counter2, todo, total1, total2)
    requires word in todo && Get(counter2, word) > 0
    ensures FirstLoop(result.(commonWords := result.commonWords[word :=
                        CommonWord(LogLikelihood(total1, total2, counter1[word], counter2[word]),
                                   counter1[word], counter2[word])]),
                      counter1, counter2, todo - {word}, total1, total2)
  {
    assert counter1.Keys - (todo - {word}) == (counter1.Keys - todo) + {word};
  }

  /** A word the second counter does not count is unique to the first corpus. */
  lemma FirstLoopUnique(result: DunningResult, counter1: Counter<string>, counter2: Counter<string>,
                        todo: set<string>, total1: nat, total2: nat, word: string)
    requires FirstLoop(result, counter1, counter2, todo, total1, total2)
    requires word in todo && Get(counter2, word) == 0
    ensures FirstLoop(result.(uniqueToCorp1 := result.uniqueToCorp1 + {word}),
                      counter1, counter2, todo - {word}, total1, total2)
  {
    assert counter1.Keys - (todo - {word}) == (counter1.Keys - todo) + {word};
  }

  /** The second loop of `dunning_total`, after the words of `counter2` outside `todo`. */
  ghost predicate SecondLoop(result: DunningResult, counter1: Counter<string>, counter2: Counter<string>,
                             todo: set<string>, total1: nat, total2: nat)
  {
    && todo <= counter2.Keys
    && FirstLoop(result.(uniqueToCorp2 := {}), counter1, counter2, {}, total1, total2)
    && result.uniqueToCorp2 == set word | word in counter2.Keys - todo && word !in counter1
  }

  lemma SecondLoopStep(result: DunningResult, counter1: Counter<string>, counter2: Counter<string>,
                       todo: set<string>, total1: nat, total2: nat, word: string)
    requires SecondLoop(result, counter1, counter2, todo, total1, total2) && word in todo
    ensures word !in counter1 ==>
      SecondLoop(result.(uniqueToCorp2 := result.uniqueToCorp2 + {word}), counter1, counter2, todo - {word}, total1, total2)
    ensures word in counter1 ==> SecondLoop(result, counter1, counter2, todo - {word}, total1, total2)
  {
    assert counter2.Keys - (todo - {word}) == (counter2.Keys - todo) + {word};
    var added := result.(uniqueToCorp2 := result.uniqueToCorp2 + {word});
    assert added.(uniqueToCorp2 := {}) == result.(uniqueToCorp2 := {});
  }

  /** After both loops the result is the one `Dunning` describes. */
  lemma BothLoopsDone(result: DunningResult, counter1: Counter<string>, counter2: Counter<string>)
    requires Positive(counter2)
    requires SecondLoop(result, counter1, counter2, {}, SumValues(counter1), SumValues(counter2))
    requires SumValues(counter1) > 0 || SumValues(counter2) > 0
    requires SumValues(counter2) == 0 ==> counter1 == map[]
    ensures Dunning(counter1, counter2) == Success(result)
  {
    assert counter1.Keys - {} == counter1.Keys;
    assert counter2.Keys - {} == counter2.Keys;
  }

  /** `dunning_total(corpus_1, corpus_2)` on the word counters of the
      corpora's documents. */
  method DunningTotal(corpus1: seq<Counter<string>>, corpus2: seq<Counter<string>>)
    returns (r: Result<DunningResult, Error>)
    ensures r == Dunning(CorpusCounter(corpus1), CorpusCounter(corpus2))
  {
    var counter1 := WordcountCounter(corpus1);
    var counter2 := WordcountCounter(corpus2);
    CorpusCounterCounts(corpus1);
    CorpusCounterCounts(corpus2);
    r := CompareCounters(counter1, counter2);
  }

  /** The body of `dunning_total` after the two corpus counters are built. */
  method CompareCounters(counter1: Counter<string>, counter2: Counter<string>)
    returns (r: Result<DunningResult, Error>)
    requires Positive(counter1) && Positive(counter2)
    ensures r == Dunning(counter1, counter2)
  {
    var totalWordCount1 := Total(counter1);
    var totalWordCount2 := Total(counter2);
    if !(totalWordCount1 > 0 || totalWordCount2 > 0) {
      EmptyCorporaFail(counter1, counter2);
      return Failure(AssertionError);
    }
    var result := DunningResult({}, {}, map[]);
    var todo := counter1.Keys;
    while todo != {}
      invariant FirstLoop(result, counter1, counter2, todo, totalWordCount1, totalWordCount2)
      invariant totalWordCount2 == 0 ==> todo == counter1.Keys
      decreases todo
    {
      var word :| word in todo;
      var counter1Wordcount := counter1[word];
      var counter2Wordcount := Get(counter2, word);
      SumValuesBounds(counter1, word);
      var dunningWord := DunnIndividualWord(totalWordCount1, totalWordCount2, counter1Wordcount, counter2Wordcount);
      match dunningWord {
        case Success(score) =>
          FirstLoopCommon(result, counter1, counter2, todo, totalWordCount1, totalWordCount2, word);
          result := result.(commonWords := result.commonWords[word := CommonWord(score, counter1Wordcount, counter2Wordcount)]);
        case Failure(ValueError) =>
          FirstLoopUnique(result, counter1, counter2, todo, totalWordCount1, totalWordCount2, word);
          result := result.(uniqueToCorp1 := result.uniqueToCorp1 + {word});
        case Failure(error) =>
          SecondCorpusEmptyFails(counter1, counter2);
          return Failure(error);
      }
      todo := todo - {word};
    }
    todo := counter2.Keys;
    while todo != {}
      invariant SecondLoop(result, counter1, counter2, todo, totalWordCount1, totalWordCount2)
      decreases todo
    {
      var word :| word in todo;
      SecondLoopStep(result, counter1, counter2, todo, totalWordCount1, totalWordCount2, word);
      if word !in counter1 {
        result := result.(uniqueToCorp2 := result.uniqueToCorp2 + {word});
      }
      todo := todo - {word};
    }
    BothLoopsDone(result, counter1, counter2);
    return Success(result);
  }

  /** Which corpora make `dunning_total` fail, and how. */
  lemma DunningOutcome(counter1: Counter<string>, counter2: Counter<string>)
    requires Positive(counter1) && Positive(counter2)
    ensures Dunning(counter1, counter2) == Failure(AssertionError) <==> counter1 == map[] && counter2 == map[]
    ensures Dunning(counter1, counter2) == Failure(ZeroDivisionError) <==> counter1 != map[] && counter2 == map[]
    ensures Dunning(counter1, counter2).Success? <==> counter2 != map[]
  {
    PositiveSumZero(counter1);
    PositiveSumZero(counter2);
  }

  /** On success the words are split three ways: common words are those of
      both corpora, with both counts, and each unique set holds the words of
      one corpus only; together they are both vocabularies. */
  lemma DunningPartition(counter1: Counter<string>, counter2: Counter<string>)
    requires Positive(counter1) && Positive(counter2)
    requires Dunning(counter1, counter2).Success?
    ensures var result := Dunning(counter1, counter2).value;
      && result.uniqueToCorp1 == counter1.Keys - counter2.Keys
      && result.uniqueToCorp2 == counter2.Keys - counter1.Keys
      && result.commonWords.Keys == counter1.Keys * counter2.Keys
      && (forall word :: word in result.commonWords ==>
            && result.commonWords[word].countCorp1 == counter1[word]
            && result.commonWords[word].countCorp2 == counter2[word])
      && result.uniqueToCorp1 !! result.uniqueToCorp2
      && result.uniqueToCorp1 !! result.commonWords.Keys
      && result.uniqueToCorp2 !! result.commonWords.Keys
      && result.uniqueToCorp1 + result.uniqueToCorp2 + result.commonWords.Keys == counter1.Keys + counter2.Keys
  {
    var result := Dunning(counter1, counter2).value;
    assert forall word :: Get(counter2, word) > 0 <==> word in counter2;
    assert result.uniqueToCorp1 == counter1.Keys - counter2.Keys;
    assert result.commonWords.Keys == counter1.Keys * counter2.Keys;
  }

  /** Swapping two non-empty corpora swaps the unique sets and the counts of
      the common words. */
  lemma DunningSwap(counter1: Counter<string>, counter2: Counter<string>)
    requires Positive(counter1) && Positive(counter2)
    requires counter1 != map[] && counter2 != map[]
    ensures Dunning(counter1, counter2).Success? && Dunning(counter2, counter1).Success?
    ensures var forward, backward := Dunning(counter1, counter2).value, Dunning(counter2, counter1).value;
      && forward.uniqueToCorp1 == backward.uniqueToCorp2
      && forward.uniqueToCorp2 == backward.uniqueToCorp1
      && forward.commonWords.Keys == backward.commonWords.Keys
      && (forall word :: word in forward.commonWords ==>
            && forward.commonWords[word].countCorp1 == backward.commonWords[word].countCorp2
            && forward.commonWords[word].countCorp2 == backward.commonWords[word].countCorp1)
  {
    DunningOutcome(counter1, counter2);
    DunningOutcome(counter2, counter1);
    DunningPartition(counter1, counter2);
    DunningPartition(counter2, counter1);
  }

  /** The corpora `{"she": 2, "ran": 1}` and `{"he": 3, "ran": 4}`: "ran" is
      common, "she" and "he" are unique to their corpus. */
  lemma DunningExample()
    ensures var result := Dunning(map["she" := 2, "ran" := 1], map["he" := 3, "ran" := 4]);
      && result.Success?
      && result.value.uniqueToCorp1 == {"she"}
      && result.value.uniqueToCorp2 == {"he"}
      && result.value.commonWords.Keys == {"ran"}
      && result.value.commonWords["ran"].countCorp1 == 1
      && result.value.commonWords["ran"].countCorp2 == 4
  {
    var counter1: Counter<string> := map["she" := 2, "ran" := 1];
    var counter2: Counter<string> := map["he" := 3, "ran" := 4];
    assert "he" in counter2;
    DunningOutcome(counter1, counter2);
    DunningPartition(counter1, counter2);
    assert counter1.Keys == {"she", "ran"} && counter2.Keys == {"he", "ran"};
  }

  /** An empty second corpus makes the first word of the first corpus divide by zero. */
  lemma SecondCorpusEmptyExample()
    ensures Dunning(map["she" := 1], map[]) == Failure(ZeroDivisionError)
  {
    var counter1: Counter<string> := map["she" := 1];
    assert "she" in counter1;
    DunningOutcome(counter1, map[]);
  }
}
