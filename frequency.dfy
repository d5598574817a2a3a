/** The frequency analysis (backend/app/analysis/frequency.py): the counts
    of each gender's pronouns in a document, and each count as a share of
    all of them. */
module Frequency {
  import opened Counting
  import opened Genders

  /** `{gender_label: {word: float}}`. */
  type Frequencies = map<string, map<string, real>>

  /** `original_count / total_word_count`, with the `ZeroDivisionError` of
      a zero total caught and replaced by 0. */
  function Fraction(count: nat, total: nat): (r: real)
    ensures total == 0 ==> r == 0.0
    ensures total > 0 ==> r * total as real == count as real
    ensures count <= total ==> 0.0 <= r <= 1.0
  {
    if total == 0 then 0.0 else count as real / total as real
  }

  /** What `_get_gender_word_frequencies_relative` returns: every count as
      a fraction of the total of all counts of all genders. */
  ghost function Relative(counts: map<string, Counter<string>>): Frequencies
  {
    var total := NestedTotal(counts);
    map gender | gender in counts :: map word | word in counts[gender] :: Fraction(counts[gender][word], total)
  }

  /** The first loop of `_get_gender_word_frequencies_relative`, on one
      gender: `total_word_count += gender_word_counts[gender][word]` for
      each of its words. */
  method AddCounts(counter: Counter<string>, before: nat) returns (total: nat)
    ensures total == before + SumValues(counter)
  {
    total := before;
    var words := counter.Keys;
    while words != {}
      invariant words <= counter.Keys
      invariant total == before + SumOn(counter, counter.Keys - words)
      decreases words
    {
      var word :| word in words;
      SumOnAdd(counter, counter.Keys - words, word);
      assert counter.Keys - words + {word} == counter.Keys - (words - {word});
      total := total + counter[word];
      words := words - {word};
    }
    assert counter.Keys - words == counter.Keys;
  }

  /** `_get_gender_word_frequencies_relative(gender_word_counts)`. */
  method RelativeFrequencies(genderWordCounts: map<string, Counter<string>>) returns (output: Frequencies)
    ensures output == Relative(genderWordCounts)
  {
    var sums := Sums(genderWordCounts);
    var totalWordCount := 0;
    var genders := genderWordCounts.Keys;
    while genders != {}
      invariant genders <= genderWordCounts.Keys
      invariant totalWordCount == SumOn(sums, genderWordCounts.Keys - genders)
      decreases genders
    {
      var gender :| gender in genders;
      SumOnAdd(sums, genderWordCounts.Keys - genders, gender);
      assert genderWordCounts.Keys - genders + {gender} == genderWordCounts.Keys - (genders - {gender});
      totalWordCount := AddCounts(genderWordCounts[gender], totalWordCount);
      genders := genders - {gender};
    }
    assert genderWordCounts.Keys - genders == genderWordCounts.Keys == sums.Keys;
    assert totalWordCount == NestedTotal(genderWordCounts);

    output := map[];
    genders := genderWordCounts.Keys;
    while genders != {}
      invariant genders <= genderWordCounts.Keys
      invariant output.Keys == genderWordCounts.Keys - genders
      invariant forall g :: g in output ==> output[g] == Relative(genderWordCounts)[g]
      decreases genders
    {
      var gender :| gender in genders;
      var frequencies := FractionsOf(genderWordCounts[gender], totalWordCount);
      output := output[gender := frequencies];
      genders := genders - {gender};
    }
    assert genderWordCounts.Keys - genders == genderWordCounts.Keys;
  }

  /** The second loop of `_get_gender_word_frequencies_relative`, on one
      gender: `output[gender][word] = frequency` for each of its words. */
  method FractionsOf(counter: Counter<string>, total: nat) returns (frequencies: map<string, real>)
    ensures frequencies == map word | word in counter :: Fraction(counter[word], total)
  {
    frequencies := map[];
    var items := counter.Keys;
    while items != {}
      invariant items <= counter.Keys
      invariant frequencies.Keys == counter.Keys - items
      invariant forall word :: word in frequencies ==> frequencies[word] == Fraction(counter[word], total)
      decreases items
    {
      var word :| word in items;
      var originalCount := counter[word];
      var frequency: real;
      if total == 0 {
        frequency := 0.0;
      } else {
        frequency := originalCount as real / total as real;
      }
      frequencies := frequencies[word := frequency];
      items := items - {word};
    }
    assert counter.Keys - items == counter.Keys;
  }

  /** The output has the genders and words of the input, and every value is
      a fraction between 0 and 1: the count over the total, or 0 when the
      total is 0. */
  lemma RelativeValues(counts: map<string, Counter<string>>)
    ensures Relative(counts).Keys == counts.Keys
    ensures forall gender :: gender in counts ==> Relative(counts)[gender].Keys == counts[gender].Keys
    ensures forall gender, word :: gender in counts && word in counts[gender] ==> WordShare(counts, gender, word)
  {
    forall gender, word | gender in counts && word in counts[gender]
      ensures WordShare(counts, gender, word)
    {
      WordShareHolds(counts, gender, word);
    }
  }

  /** The value of one word of one gender in the relative frequencies. */
  ghost predicate WordShare(counts: map<string, Counter<string>>, gender: string, word: string)
    requires gender in counts && word in counts[gender]
  {
    var value := Relative(counts)[gender][word];
    && 0.0 <= value <= 1.0
    && (NestedTotal(counts) == 0 ==> value == 0.0)
    && (NestedTotal(counts) > 0 ==> value * NestedTotal(counts) as real == counts[gender][word] as real)
  }

  lemma WordShareHolds(counts: map<string, Counter<string>>, gender: string, word: string)
    requires gender in counts && word in counts[gender]
    ensures WordShare(counts, gender, word)
  {
    var total := NestedTotal(counts);
    var count := counts[gender][word];
    CountBelowTotal(counts, gender, word);
    assert Relative(counts)[gender] == map w | w in counts[gender] :: Fraction(counts[gender][w], total);
    var value := Fraction(count, total);
    assert 0.0 <= value <= 1.0;
  }

  /** No single count exceeds the total. */
  lemma CountBelowTotal(counts: map<string, Counter<string>>, gender: string, word: string)
    requires gender in counts && word in counts[gender]
    ensures counts[gender][word] <= NestedTotal(counts)
  {
    SumValuesBounds(counts[gender], word);
    SumValuesBounds(Sums(counts), gender);
  }

  /** With a positive total, the shares of all words of all genders add up to 1. */
  lemma RelativeSumsToOne(counts: map<string, Counter<string>>)
    requires NestedTotal(counts) > 0
    ensures RealSum(map gender | gender in Relative(counts) :: RealSum(Relative(counts)[gender])) == 1.0
  {
    var total := NestedTotal(counts);
    var t := total as real;
    var relative := Relative(counts);
    var shares := map gender | gender in relative :: RealSum(relative[gender]);
    forall gender | gender in counts
      ensures shares[gender] == Sums(counts)[gender] as real / t
    {
      GenderShare(counts, gender);
    }
    assert shares.Keys == Sums(counts).Keys == counts.Keys;
    ScaledSum(Sums(counts), shares, t, counts.Keys);
    assert SumOn(Sums(counts), counts.Keys) == total;
    DivSelf(t);
  }

  /** The shares of one gender add up to its count over the total. */
  lemma GenderShare(counts: map<string, Counter<string>>, gender: string)
    requires NestedTotal(counts) > 0 && gender in counts
    ensures RealSum(Relative(counts)[gender]) == SumValues(counts[gender]) as real / NestedTotal(counts) as real
  {
    var total := NestedTotal(counts);
    var counter, fractions := counts[gender], Relative(counts)[gender];
    assert fractions.Keys == counter.Keys;
    forall word | word in counter ensures fractions[word] == counter[word] as real / total as real {
      assert fractions[word] == Fraction(counter[word], total);
    }
    ScaledSum(counter, fractions, total as real, counter.Keys);
  }

  /** The result of `run_single_analysis`: `{'count': ..., 'frequency': ..., 'relative': ...}`. */
  datatype SingleAnalysis = SingleAnalysis(count: map<string, Counter<string>>, frequency: Frequencies,
                                           relative: Frequencies)

  /** `run_single_analysis(doc_obj, genders)`, with the document's
      `get_count_of_words` and `get_word_freqs` given as functions of the
      pronoun list. */
  method RunSingleAnalysis(genders: seq<Gender>, countOfWords: seq<string> -> Counter<string>,
                           wordFreqs: seq<string> -> map<string, real>)
    returns (output: SingleAnalysis)
    ensures output.count.Keys == Names(genders) && output.frequency.Keys == Names(genders)
    ensures forall name :: name in output.count ==>
      && output.count[name] == countOfWords(Latest(genders, name).pronouns)
      && output.frequency[name] == wordFreqs(Latest(genders, name).pronouns)
    ensures output.relative == Relative(output.count)
  {
    var count: map<string, Counter<string>> := map[];
    var frequency: Frequencies := map[];
    for i := 0 to |genders|
      invariant count.Keys == Names(genders[..i]) && frequency.Keys == Names(genders[..i])
      invariant forall name :: name in count ==>
        && count[name] == countOfWords(Latest(genders[..i], name).pronouns)
        && frequency[name] == wordFreqs(Latest(genders[..i], name).pronouns)
    {
      var gender := genders[i];
      NamesSnoc(genders, i);
      forall name | name in Names(genders[..i + 1]) {
        LatestSnoc(genders, i, name);
      }
      count := count[gender.name := countOfWords(gender.pronouns)];
      frequency := frequency[gender.name := wordFreqs(gender.pronouns)];
    }
    assert genders[..|genders|] == genders;
    var relative := RelativeFrequencies(count);
    output := SingleAnalysis(count, frequency, relative);
  }
}
