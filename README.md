# gender_analysis_web: a verified model of the analysis core

This project models, in Dafny, the analysis core of *gender_analysis_web*. It is a
web application that counts how the pronouns of each gender are used in a corpus
of documents, and compares corpora by the words they use.

The model covers these parts of the system:

- **Proximity analysis** (`proximity.dfy`). For each occurrence of one of a gender's
  pronouns in a part-of-speech-tagged document, the words within `word_window`
  positions on either side are counted, grouped by their part-of-speech tag. This
  is done for every pronoun type of every gender, and for every document of a
  corpus. The window, its `None` padding and `more_itertools.windowed` are written
  out. The result is tied to a position-by-position definition of what is counted
  (`Occurrences`).
- **Distinctiveness** (`distinctiveness.dfy`). The corpus word counter adds up the
  word counters of the documents. `dunn_individual_word` is modelled through the
  exceptions it raises. `dunning_total` splits the vocabularies of two corpora into
  words unique to each corpus and common words, and it fails on the corpora that
  make the source raise.
- **Frequency analysis** (`frequency.dfy`). Each gender's pronoun counts, and every
  count as a share of the counts of all genders.
- **Document helpers** (`document.dfy`). Smart-quote cleaning, the tokenized text
  without punctuation, the word count and the word counter. The last three are
  memoised on a `Document` object whose fields the helpers update.
- **Honorific filter** (`ner.dfy`). Removal of honorifics from a name.
- **Front end** (`cookie.dfy`, `proximity_tree.dfy`). `getCookie`, and the reshaping
  of proximity results into the tree that the D3 chart draws.

Shared modules:

- `wrappers.dfy`: `Option`, `Result`, and the Python exceptions.
- `text.dfy`: lower-casing, and splitting on a separator.
- `counting.dfy`: `Counter`s as maps to natural numbers, with their sums.
- `genders.dfy`: genders and their pronoun series.

Python integers and floats are exact here, as Dafny `nat`/`int` and `real`.
Dictionary traversal is modelled as choosing an arbitrary remaining key, and each
result is proved independent of that choice. Database queries, `nltk` and the
browser are modelled as parameters, as listed below.

## Behaviour worth noting

- **Pronoun matching.** In `backend/app/analysis/proximity.py` only the candidate
  token is lower-cased (line 86). The test on line 88 is exact membership in the
  pronoun values as they are stored, so a stored value with a capital letter
  never matches. Such a value can only come from a row written without `save()`:
  the pronoun columns are `LowercaseCharField`s
  (`backend/app/migrations/0003_pronounseries_gender_models.py:19-23`), which
  lower-case their value before saving (`backend/app/fields.py:20-28`).
- **Which neighbours are counted.** Line 94 skips only the tokens whose
  lower-cased word equals the centre's lower-cased word. A different pronoun of
  the same set inside the window is therefore counted.
- **Counter field name.** `get_wordcount_counter` reads and writes
  `document_obj._word_counts_counter`, while `backend/app/models.py` declares the
  field `word_counts_counter`. Migration `backend/app/migrations/0001_initial.py:25`
  declares the column as `_word_counts_counter`, with the same `{}` default. The
  model has one field for it.

## Model

| member | source | states |
|---|---|---|
| Proximity.WindowShape | backend/app/analysis/proximity.py:82-86 | the padded input has one window per token; window `i` is centred on token `i`, and each of its positions holds the token at `i - w + t` or padding |
| Proximity.GenerateTokenCounter | backend/app/analysis/proximity.py:67-100 | the output tabulates exactly `Occurrences` for every tag and word, with no empty inner counter and no zero count; its tags occur in the document; its total is the number of counted positions and at most `2 * word_window` per pronoun occurrence; a zero window gives `{}` |
| Proximity.CountWindow | backend/app/analysis/proximity.py:90-98 | counting one window whose centre is a pronoun turns the counter for the first `j` windows into the counter for the first `j + 1` |
| Proximity.GenerateGenderTokenCounters | backend/app/analysis/proximity.py:39-64 | the result is keyed by the gender names; each gender has all five pronoun types, and each type holds the tabulated counter for that gender's pronouns of that type; for a repeated name, the last gender wins |
| Proximity.RunAnalysis | backend/app/analysis/proximity.py:13-36 | the result is keyed by the corpus's document ids, and each document holds the per-gender counters of its own tags |
| Proximity.PronounSetBound | backend/app/analysis/proximity.py:60 | a gender has at most as many distinct pronouns of a type as it has pronoun series |
| Proximity.PronounSetAppend | backend/app/analysis/proximity.py:60 | the pronoun set over two lists of series is the union of their pronoun sets, so each series adds its own value of the column |
| Proximity.Padded | backend/app/analysis/proximity.py:83-85 | the padded input is `word_window` longer on each side; a position holds a token exactly in the middle part, and that part is the document in order |
| Proximity.Windowed | backend/app/analysis/proximity.py:85 | `windowed` gives `n - size + 1` windows of `size` elements, and window `j` holds the elements from position `j` on |
| Proximity.Bump | backend/app/analysis/proximity.py:96-98 | `setdefault` then `+= 1` adds the tag to the keys and one to the count of that tag and word; every other count is unchanged |
| Proximity.TabulatesUnique | backend/app/analysis/proximity.py:67-100 | at most one sparse counter tabulates a document, so the output is determined by the document, the pronouns and the window |
| Proximity.SparseUnique | backend/app/analysis/proximity.py:96-98 | two counters without empty inner counters or zero counts are equal when all their counts agree |
| Proximity.SparseZero | backend/app/analysis/proximity.py:82 | a sparse counter whose counts are all zero is `{}` |
| Proximity.BumpCounts | backend/app/analysis/proximity.py:96-98 | `setdefault` then `+= 1` adds one to exactly one count, keeps the counter sparse and adds only its tag |
| Proximity.BumpTotal | backend/app/analysis/proximity.py:96-98 | one increment adds one to the total of all counts |
| Proximity.NotAnchorNoHits | backend/app/analysis/proximity.py:88 | a window whose centre is not a pronoun contributes nothing |
| Proximity.NoAnchorsNoCounts | backend/app/analysis/proximity.py:86-88 | a document without any pronoun counts nothing |
| Proximity.ZeroWindowNoHits | backend/app/analysis/proximity.py:83-94 | with `word_window = 0` nothing is ever counted |
| Proximity.SelfExcludedInWindow | backend/app/analysis/proximity.py:93-94 | a window never counts the lower-cased word of its own centre |
| Proximity.SinglePronounNeverCounted | backend/app/analysis/proximity.py:86-94 | with a single pronoun, that pronoun is never counted, however close its occurrences are |
| Proximity.WindowContextBound | backend/app/analysis/proximity.py:90-94 | a window counts at most its width minus its centre |
| Proximity.CentreContextBound | backend/app/analysis/proximity.py:85-98 | the document counts at most `2 * word_window` positions per pronoun occurrence |
| Genders.Latest | backend/app/analysis/proximity.py:56-57 | the gender whose entry a later assignment under the same key leaves in place has that name and is one of the genders |
| Genders.NamesSnoc | backend/app/analysis/proximity.py:56-57 | handling one more gender adds exactly its name to the keys |
| Genders.LatestSnoc | backend/app/analysis/proximity.py:56-62 | the gender just handled owns its name's entry; the other names keep theirs |
| Genders.LatestDistinct | backend/app/analysis/proximity.py:56-62 | when no two genders share a name, every gender's entry holds its own counters |
| Counting.Get | backend/app/analysis/proximity.py:98 | reading a Counter gives the stored count, and 0 for a missing key; in a positive Counter the count is positive exactly for its keys |
| Counting.Total | backend/app/analysis/distinctiveness.py:86-87 | `sum(counter.values())` equals the sum of the counter, in whatever order the keys are visited |
| Counting.Plus | backend/app/analysis/distinctiveness.py:21 | `a += b` on Counters adds the counts and keeps only positive ones |
| Counting.SumOnRemove | backend/app/analysis/frequency.py:19-21 | a sum over a dictionary does not depend on which key is taken first |
| Counting.SumValuesUpdate | backend/app/analysis/proximity.py:98 | storing a new count under a key changes the sum by the difference |
| Counting.NestedTotalUpdate | backend/app/analysis/frequency.py:19-21 | storing a new counter under a key changes the nested total by the difference of the two counters' sums |
| Counting.SumValuesBounds | backend/app/analysis/frequency.py:19-21 | no single count exceeds the sum |
| Counting.PositiveUnique | backend/app/analysis/distinctiveness.py:18-22 | Counters with only positive counts are equal when their counts agree |
| Counting.PositiveSumZero | backend/app/analysis/distinctiveness.py:86-89 | a Counter with only positive counts sums to 0 exactly when it is empty |
| Counting.ScaledSum | backend/app/analysis/frequency.py:23-30 | dividing every count by the total divides their sum by the total |
| Distinctiveness.WordcountCounter | backend/app/analysis/distinctiveness.py:12-22 | the corpus counter gives each word its total over the documents and holds only positive counts; no documents give `{}` |
| Distinctiveness.CorpusCounterCounts | backend/app/analysis/distinctiveness.py:18-22 | the corpus counter is positive and counts each word as often as the documents do |
| Distinctiveness.CountInOutside | backend/app/analysis/distinctiveness.py:18-22 | a word of no document counts 0 |
| Distinctiveness.CountInRemove | backend/app/analysis/distinctiveness.py:19-21 | any one document's counts can be taken out of the corpus total |
| Distinctiveness.CountInPermutation | backend/app/analysis/distinctiveness.py:19 | the corpus counts do not depend on the order in which `corpus.documents.all()` lists the documents |
| Distinctiveness.CorpusCounterPermutation | backend/app/analysis/distinctiveness.py:12-22 | the corpus counter does not depend on the order of the documents |
| Distinctiveness.DunnIndividualWord | backend/app/analysis/distinctiveness.py:25-65 | the score is computed exactly when all four arguments are positive; `ValueError` (`log(0)`) is raised exactly when the first total is positive, the word occurs, and it is missing from corpus 1 or from a non-empty corpus 2; every other failure is `ZeroDivisionError` |
| Distinctiveness.DunningTotal | backend/app/analysis/distinctiveness.py:68-119 | the outcome is `Dunning` of the two corpus counters |
| Distinctiveness.CompareCounters | backend/app/analysis/distinctiveness.py:86-119 | after the counters are built, the assertion, the two loops and the caught `ValueError` give exactly `Dunning` of the counters |
| Distinctiveness.EmptyCorporaFail | backend/app/analysis/distinctiveness.py:89 | two empty corpora fail the assertion |
| Distinctiveness.SecondCorpusEmptyFails | backend/app/analysis/distinctiveness.py:96-104 | a non-empty first corpus against an empty second one raises `ZeroDivisionError` |
| Distinctiveness.DunningOutcome | backend/app/analysis/distinctiveness.py:86-112 | `AssertionError` exactly when both corpora are empty; `ZeroDivisionError` exactly when only the second is empty; success exactly when the second is non-empty |
| Distinctiveness.DunningPartition | backend/app/analysis/distinctiveness.py:92-117 | on success, the unique sets are the two differences of the vocabularies and the common words are their intersection, with both counts; the three are disjoint and together cover both vocabularies |
| Distinctiveness.DunningSwap | backend/app/analysis/distinctiveness.py:68-119 | swapping two non-empty corpora swaps the unique sets and the two counts of each common word |
| Distinctiveness.DunningExample | backend/app/analysis/distinctiveness.py:96-117 | `{"she": 2, "ran": 1}` against `{"he": 3, "ran": 4}` gives "she" unique to corpus 1, "he" unique to corpus 2, and "ran" common with counts 1 and 4 |
| Distinctiveness.SecondCorpusEmptyExample | backend/app/analysis/distinctiveness.py:57-60 | `{"she": 1}` against an empty corpus raises `ZeroDivisionError` |
| Frequency.Fraction | backend/app/analysis/frequency.py:26-29 | a zero total gives 0; otherwise the result times the total is the count, and a count within the total gives a value between 0 and 1 |
| Frequency.AddCounts | backend/app/analysis/frequency.py:20-21 | the running total grows by the sum of one gender's counts |
| Frequency.FractionsOf | backend/app/analysis/frequency.py:24-30 | each word of one gender's counter maps to its count over the total |
| Frequency.RelativeFrequencies | backend/app/analysis/frequency.py:4-32 | the output is `Relative` of the counts: every count over the total of all genders' counts |
| Frequency.RelativeValues | backend/app/analysis/frequency.py:4-32 | the output has the genders and words of the input, and every value lies between 0 and 1 and, times the total, gives the count; a zero total makes every value 0 |
| Frequency.WordShareHolds | backend/app/analysis/frequency.py:25-30 | one word's value lies between 0 and 1, and times the total gives its count |
| Frequency.CountBelowTotal | backend/app/analysis/frequency.py:17-21 | no single count exceeds the total of all counts |
| Frequency.GenderShare | backend/app/analysis/frequency.py:23-30 | one gender's shares add up to its count over the total |
| Frequency.RelativeSumsToOne | backend/app/analysis/frequency.py:4-32 | with a positive total, all shares of all genders add up to 1 |
| Frequency.RunSingleAnalysis | backend/app/analysis/frequency.py:35-64 | `count` and `frequency` are keyed by the gender labels and hold the document's counts and frequencies of that gender's pronouns (the last gender wins for a repeated label); `relative` is `Relative` of `count` |
| DocumentText.ReplaceChar | backend/app/analysis/document.py:48 | `replace` of one character keeps the length and the place of every other character; no occurrence of the quote is left; the replacement character gains exactly the quote's occurrences and every other character keeps its number |
| DocumentText.ReplacedCounts | backend/app/analysis/document.py:48 | the character counts of a text in which every quote is replaced: the quote is gone and its occurrences are added to the replacement's |
| DocumentText.CleanQuotes | backend/app/analysis/document.py:24-50 | the cleaned text has the same length, and each character is replaced by its ASCII counterpart if it is a smart quote and is kept otherwise |
| DocumentText.CleanChar | backend/app/analysis/document.py:38-48 | the double smart quotes become `"` and the single ones `'`; every other character is kept; no smart quote is left |
| DocumentText.CleanCharIdempotent | backend/app/analysis/document.py:38-48 | cleaning a cleaned character changes nothing |
| DocumentText.CleanQuotesExample | backend/app/analysis/document.py:29-31 | the doctest: `This is a “smart” phrase` becomes `This is a "smart" phrase` |
| DocumentText.PunctuationAscii | backend/app/analysis/document.py:62-65 | `string.punctuation` is exactly the printable ASCII characters that are neither letters nor digits |
| DocumentText.ExcludedMeans | backend/app/analysis/document.py:65-66 | a token is excluded exactly when it is one of the one-character strings of the punctuation set |
| DocumentText.FilterTokens | backend/app/analysis/document.py:65-66 | the kept tokens are exactly the lower-cased tokens that are not a single punctuation character, so none of them is one |
| DocumentText.LowerKeepsPunctuation | backend/app/analysis/document.py:66 | lower-casing cannot turn a token into a punctuation character |
| DocumentText.FilterTokensAppend | backend/app/analysis/document.py:66 | the filter keeps the order of the tokens |
| DocumentText.FilterTokensLower | backend/app/analysis/document.py:66 | every kept token is already lower-case |
| DocumentText.Tokenized | backend/app/analysis/document.py:64-66 | the tokens of a text are no more than the tokenizer's, none is a punctuation character and each is lower-case, and every non-punctuation token appears lower-cased |
| DocumentText.CounterOf | backend/app/analysis/document.py:85 | `Counter(tokens)` counts each word as often as it occurs and holds only positive counts |
| DocumentText.CounterOfSum | backend/app/analysis/document.py:85 | the counts of `Counter(tokens)` add up to the number of tokens |
| DocumentText.Document.constructor | backend/app/models.py:17-19 | a new document has its text; the count and the tokens are unset (`None`) and the counter holds its `{}` default |
| DocumentText.GetTokenizedText | backend/app/analysis/document.py:53-72 | with no stored tokens, they are computed from the text and stored; otherwise the stored tokens are returned; the other fields are unchanged; consistent memo fields stay consistent |
| DocumentText.WordCount | backend/app/analysis/document.py:8-21 | with no stored count, the number of tokens is stored and returned, and the tokens are stored too (the ones already there, or freshly computed); otherwise the stored count is returned and the tokens are untouched; consistent memo fields stay consistent |
| DocumentText.GetWordcountCounter | backend/app/analysis/document.py:74-86 | an unset or empty stored counter is recomputed from the tokens and stored, and the tokens are stored too; a non-empty one is returned as it is and the tokens are untouched; consistent memo fields stay consistent |
| DocumentText.MemoisedOnce | backend/app/analysis/document.py:53-86 | on a new document, two token requests give the same tokens, the word count is their number, and the counter sums to it |
| Ner.DropLast | backend/app/analysis/ner.py:12 | `n[:-1]` is `n` without its last character, and the empty string for the empty string |
| Ner.Kept | backend/app/analysis/ner.py:12 | a word is kept exactly when it is not an honorific and neither is the word without its last character; the empty word is kept exactly when "" is not an honorific |
| Ner.FilterPieces | backend/app/analysis/ner.py:12 | a piece is kept exactly when neither it nor it without its last character is an honorific |
| Ner.FilterHonr | backend/app/analysis/ner.py:4-12 | the result holds exactly those words of the name, split on spaces, that are neither an honorific nor an honorific plus one character |
| Ner.FilterPiecesSubsequence | backend/app/analysis/ner.py:12 | the kept words keep the order of the name |
| Ner.FilterPiecesAppend | backend/app/analysis/ner.py:12 | filtering a concatenation concatenates the filtered parts |
| Ner.FilterPiecesIdempotent | backend/app/analysis/ner.py:12 | filtering a filtered name removes nothing more |
| Ner.MissWoodhouseWords | backend/app/analysis/ner.py:11 | "Miss. Woodhouse" splits into "Miss." and "Woodhouse" |
| Ner.MissWoodhouse | backend/app/analysis/ner.py:8-9 | the docstring's example: with "Miss" an honorific, "Miss. Woodhouse" gives `["Woodhouse"]` |
| Text.Lower | backend/app/analysis/proximity.py:86 | lower-casing keeps the length and lower-cases each character and nothing else; no capital is left, so lower-casing again changes nothing |
| Text.Split | backend/app/analysis/ner.py:11 | splitting gives at least one piece, and no piece contains the separator |
| Text.JoinSplit | frontend/common.js:58 | joining the pieces with the separator gives the string back |
| Text.SplitJoin | backend/app/analysis/ner.py:11 | splitting pieces joined by the separator gives the pieces back, when none contains it |
| Cookie.LeadingSpaces | frontend/common.js:60 | the count of whitespace characters at the start of an entry, followed by a non-space character or the end |
| Cookie.TrailingSpaces | frontend/common.js:60 | the count of whitespace characters at the end of an entry, preceded by a non-space character or the start |
| Cookie.Trim | frontend/common.js:60 | `trim()` gives the slice between the leading and trailing whitespace: it neither starts nor ends with whitespace, and everything cut off is whitespace |
| Cookie.TrimIdempotent | frontend/common.js:60 | trimming twice trims nothing more |
| Cookie.TrimEmpty | frontend/common.js:60 | an entry trims to "" exactly when it is all whitespace |
| Cookie.Clamp | frontend/common.js:62-63 | an index is clamped into `0 .. n`, and one already inside is kept |
| Cookie.Substring | frontend/common.js:62-63 | `substring` with indices inside the string is the slice between them, and an end beyond the string stops at its end |
| Cookie.Matches | frontend/common.js:62 | the comparison holds exactly when the entry starts with the name followed by `=` |
| Cookie.LongerNameNoMatch | frontend/common.js:62 | a cookie whose name only begins with the wanted name (such as `csrftokenX` for `csrftoken`) does not match |
| Cookie.GetCookie | frontend/common.js:55-69 | no value exactly when the cookie string is empty or no trimmed entry starts with `name=`; otherwise the value is the decoded rest of the first such entry |
| Cookie.ValueOf | frontend/common.js:63 | for a matching entry, the value is the decoded text of the trimmed entry after the name and `=` |
| Cookie.ValueAfterName | frontend/common.js:63 | only the leading `name=` is cut off, so a value may itself contain `=` |
| ProximityTree.Helper | frontend/components/Proximity.js:85-94 | a number becomes a childless node named by it; an object becomes one node per key, in key order, named by the key; reading the tree back gives the original JSON, so no key, order or count is lost |
| ProximityTree.Entry | frontend/components/Proximity.js:89-92 | one entry's node is named by its key, and its children read back to the entry's value |
| ProximityTree.Results | frontend/components/Proximity.js:103-109 | `null` exactly for a value without keys; otherwise a root named "Proximity Analysis" over the helper's tree, which reads back to the value |
| ProximityTree.HelperInjective | frontend/components/Proximity.js:85-94 | different results give different trees |

## Left out

- The database and the ORM are not modelled. Each query becomes a parameter:
  - `Gender.objects.all()` becomes a sequence of genders.
  - Each `Corpus`'s document ids become a sequence of ids.
  - `Document.part_of_speech_tags` becomes a function from id to tags.
  - `corpus.documents.all()` becomes a sequence of document counters.
  - `gender.pronoun_series` becomes a sequence of series.
- The `Gender` and `PronounSeries` models are not part of this model. A gender is
  its label (taken as what `str(gender)` gives), its `pronouns` list and its
  pronoun series. The five `PRONOUN_TYPES` and their order come from
  `frontend/common.js:41-47` and the migrations.
- `set(Gender.objects.all())` has an unspecified iteration order. The model takes
  any order, and when two genders share a label the last one wins.
- `document_obj.save()` (document.py:20 and :68) writes to the database. Only the
  field update is modelled.
- Proximity.GenerateTokenCounter: requires a non-empty tag list. For an empty
  document and `word_window > 0`, `windowed` over the `2 * word_window` paddings
  yields one tuple padded with `None`, whose `None` centre makes
  `tagged_tokens[word_window][0]` raise `TypeError`. Only for `word_window = 0`,
  an empty input, does the outcome depend on the `more_itertools` version.
  Proximity.RunAnalysis requires the same of every document.
- Proximity.GenerateGenderTokenCounters: requires the same non-empty tag list.
  With no genders the source returns `{}` even for an empty document, a case the
  model does not cover.
- Proximity.GenerateTokenCounter: `word_window` is a natural number. A negative
  `word_window` in the source makes `windowed` raise `ValueError`, because the
  window size `2 * word_window + 1` is negative; that error path is not modelled.
- A corpus without documents yields the id `None` from
  `values_list('documents__pk')`. The model takes the ids as given.
- Text.Lower: lower-cases ASCII letters only, where Python's `str.lower` follows
  Unicode.
- `nltk.word_tokenize` is a parameter, and so are `get_count_of_words` and
  `get_word_freqs`. `Document.get_count_of_words` and `get_word_freqs` are not
  part of this model.
- Distinctiveness.DunnIndividualWord: keeps the score symbolic, as its four
  arguments. The value of the logarithms and the sign flip of lines 62-63 are not
  modelled, because Dafny has no logarithm. The exceptions raised are modelled
  exactly.
- Floating point: `/` on Python floats is modelled as exact real division. The
  integer `0` of `frequency = 0` (frequency.py:29) is the real `0.0`.
- Cookie.GetCookie: `decodeURIComponent` is a parameter, and the `URIError` it
  raises on a malformed escape is not modelled. `document.cookie` is a parameter.
- ProximityTree.Helper: an object's entries are taken in the order `Object.keys`
  returns them. JavaScript lists integer-like keys, such as document ids, first
  in ascending order; that ordering rule is not modelled.
- ProximityTree.Helper: the JSON leaves are integers, since the results hold
  counts. Other JSON values (strings, arrays, `null`) are not modelled.
- `HONORIFICS` is imported by `ner.py` from `backend/app/common.py`, which does not
  define it. Ner.FilterHonr takes the set of honorifics as a parameter.
- Proximity.CountWindow and Distinctiveness.CompareCounters split one source
  function into two methods: the inner loop of `generate_token_counter`, and the
  part of `dunning_total` after the counters are built.
