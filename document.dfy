/** The text helpers of a document (backend/app/analysis/document.py):
    quote normalisation, the tokenized text without punctuation, its
    length and its word counter, the last three memoised on the document. */
module DocumentText {
  import opened Wrappers
  import opened Text
  import opened Counting

  // ---------------------------------------------------------------------
  // `_clean_quotes`.
  // ---------------------------------------------------------------------

  /** The keys of `smart_quotes`, in the order the dictionary lists them. */
  const SMART_QUOTES: seq<char> := ['\U{201C}', '\U{201D}', '\U{2018}', '\U{2019}']

  /** The ASCII replacement of each smart quote. */
  function Replacement(quote: char): char
  {
    if quote == '\U{201C}' || quote == '\U{201D}' then '"' else '\''
  }

  /** `s.replace(quote, replacement)` for one character by one character:
      every occurrence of `quote` becomes `replacement`, so none is left,
      `replacement` gains exactly the occurrences of `quote`, and every other
      character keeps its place and its number. */
  function ReplaceChar(s: string, quote: char, replacement: char): (r: string)
    ensures |r| == |s|
    ensures forall i :: 0 <= i < |s| ==> r[i] == if s[i] == quote then replacement else s[i]
    ensures quote != replacement ==> quote !in r
    ensures quote != replacement ==>
      multiset(r)[replacement] == multiset(s)[replacement] + multiset(s)[quote]
    ensures forall c :: c != quote && c != replacement ==> multiset(r)[c] == multiset(s)[c]
  {
    var r := seq(|s|, i requires 0 <= i < |s| => if s[i] == quote then replacement else s[i]);
    ReplacedCounts(s, r, quote, replacement);
    r
  }

  /** The character counts of a text with every `quote` replaced. */
  lemma {:induction false} ReplacedCounts(s: string, r: string, quote: char, replacement: char)
    requires |r| == |s|
    requires forall i :: 0 <= i < |s| ==> r[i] == if s[i] == quote then replacement else s[i]
    ensures quote != replacement ==> quote !in r
    ensures quote != replacement ==>
      multiset(r)[replacement] == multiset(s)[replacement] + multiset(s)[quote]
    ensures forall c :: c != quote && c != replacement ==> multiset(r)[c] == multiset(s)[c]
    decreases |s|
  {
    if |s| > 0 {
      var n := |s| - 1;
      ReplacedCounts(s[..n], r[..n], quote, replacement);
      assert s == s[..n] + [s[n]];
      assert r == r[..n] + [r[n]];
    }
  }

  /** A character after `_clean_quotes`: the double smart quotes become `"`,
      the single ones `'`, every other character is kept, and no smart quote
      is left. */
  function CleanChar(c: char): (r: char)
    ensures c == '\U{201C}' || c == '\U{201D}' ==> r == '"'
    ensures c == '\U{2018}' || c == '\U{2019}' ==> r == '\''
    ensures c !in SMART_QUOTES ==> r == c
    ensures r !in SMART_QUOTES
  {
    if c in SMART_QUOTES then Replacement(c) else c
  }

  /** A character after the first `k` replacements of `_clean_quotes`. */
  function CleanCharUpTo(c: char, k: nat): char
    requires k <= |SMART_QUOTES|
  {
    if c in SMART_QUOTES[..k] then Replacement(c) else c
  }

  /** `_clean_quotes(text)`: each smart quote replaced in turn. */
  method CleanQuotes(text: string) returns (outputText: string)
    ensures |outputText| == |text|
    ensures forall i :: 0 <= i < |text| ==> outputText[i] == CleanChar(text[i])
  {
    outputText := text;
    for k := 0 to |SMART_QUOTES|
      invariant |outputText| == |text|
      invariant forall i :: 0 <= i < |text| ==> outputText[i] == CleanCharUpTo(text[i], k)
    {
      var quote := SMART_QUOTES[k];
      assert SMART_QUOTES[..k + 1] == SMART_QUOTES[..k] + [quote];
      outputText := ReplaceChar(outputText, quote, Replacement(quote));
    }
    assert SMART_QUOTES[..|SMART_QUOTES|] == SMART_QUOTES;
  }

  /** Cleaning a cleaned text changes nothing more. */
  lemma CleanCharIdempotent(c: char)
    ensures CleanChar(CleanChar(c)) == CleanChar(c)
  {
  }

  /** The doctest of `_clean_quotes`. */
  method CleanQuotesExample() returns (cleaned: string)
    ensures cleaned == "This is a \"smart\" phrase"
  {
    cleaned := CleanQuotes("This is a \U{201C}smart\U{201D} phrase");
    assert cleaned == "This is a \"smart\" phrase";
  }

  // ---------------------------------------------------------------------
  // The token filter of `get_tokenized_text` and `Counter`.
  // ---------------------------------------------------------------------

  /** `string.punctuation`. */
  const PUNCTUATION: string := "!\"#$%&'()*+,-./:;<=>?@[\\]^_`{|}~"

  /** `string.punctuation`: the printable ASCII characters other than
      letters and digits. */
  lemma PunctuationAscii(c: char)
    ensures c in PUNCTUATION <==>
      ('!' <= c <= '~' && !('a' <= c <= 'z') && !('A' <= c <= 'Z') && !('0' <= c <= '9'))
  {
  }

  /** `word in set(string.punctuation)`: the token is one punctuation character. */
  predicate Excluded(word: string)
  {
    |word| == 1 && word[0] in PUNCTUATION
  }

  /** A token is excluded exactly when it is one of the one-character
      strings of the punctuation set. */
  lemma ExcludedMeans(word: string)
    ensures Excluded(word) <==> exists c :: c in PUNCTUATION && word == [c]
  {
    if Excluded(word) {
      assert word == [word[0]];
    }
  }

  /** `[word.lower() for word in tokens if word not in excluded_characters]`. */
  function FilterTokens(tokens: seq<string>): (r: seq<string>)
    ensures |r| <= |tokens|
    ensures forall x :: x in r ==> !Excluded(x)
    ensures forall x :: x in r <==> exists k :: 0 <= k < |tokens| && !Excluded(tokens[k]) && Lower(tokens[k]) == x
    decreases |tokens|
  {
    if |tokens| == 0 then []
    else
      var rest := FilterTokens(tokens[1..]);
      assert forall k :: 1 <= k < |tokens| ==> tokens[1..][k - 1] == tokens[k];
      assert forall k :: 0 <= k < |tokens| - 1 ==> tokens[1..][k] == tokens[k + 1];
      if Excluded(tokens[0]) then rest
      else
        LowerKeepsPunctuation(tokens[0]);
        [Lower(tokens[0])] + rest
  }

  /** Lower-casing a token that is not one punctuation character does not
      make it one. */
  lemma LowerKeepsPunctuation(word: string)
    requires !Excluded(word)
    ensures !Excluded(Lower(word))
  {
  }

  /** The filter keeps the order of the tokens: filtering a concatenation
      concatenates the filtered parts. */
  lemma {:induction false} FilterTokensAppend(a: seq<string>, b: seq<string>)
    ensures FilterTokens(a + b) == FilterTokens(a) + FilterTokens(b)
    decreases |a|
  {
    if |a| == 0 {
      assert a + b == b;
    } else {
      assert (a + b)[0] == a[0];
      assert (a + b)[1..] == a[1..] + b;
      FilterTokensAppend(a[1..], b);
    }
  }

  /** `Counter(tokens)`. */
  function CounterOf(tokens: seq<string>): (r: Counter<string>)
    ensures Positive(r)
    ensures forall word :: Get(r, word) == multiset(tokens)[word]
    decreases |tokens|
  {
    if |tokens| == 0 then map[]
    else
      var prefix := tokens[..|tokens| - 1];
      var last := tokens[|tokens| - 1];
      var c := CounterOf(prefix);
      assert tokens == prefix + [last];
      c[last := Get(c, last) + 1]
  }

  /** The counts of `Counter(tokens)` add up to the number of tokens. */
  lemma {:induction false} CounterOfSum(tokens: seq<string>)
    ensures SumValues(CounterOf(tokens)) == |tokens|
    decreases |tokens|
  {
    if |tokens| > 0 {
      var prefix := tokens[..|tokens| - 1];
      var last := tokens[|tokens| - 1];
      CounterOfSum(prefix);
      SumValuesUpdate(CounterOf(prefix), last, Get(CounterOf(prefix), last) + 1);
    }
  }

  /** Every kept token is already lower-case. */
  lemma FilterTokensLower(tokens: seq<string>)
    ensures forall x :: x in FilterTokens(tokens) ==> Lower(x) == x
  {
    forall x | x in FilterTokens(tokens) ensures Lower(x) == x {
      var k :| 0 <= k < |tokens| && !Excluded(tokens[k]) && Lower(tokens[k]) == x;
      assert Lower(x) == x;
    }
  }

  /** The tokens that `get_tokenized_text` derives from a text, with
      `nltk.word_tokenize` given as `tokenize`. */
  function Tokenized(text: string, tokenize: string -> seq<string>): (r: seq<string>)
    ensures |r| <= |tokenize(text)|
    ensures forall x :: x in r ==> !Excluded(x) && Lower(x) == x
    ensures forall k :: 0 <= k < |tokenize(text)| && !Excluded(tokenize(text)[k]) ==> Lower(tokenize(text)[k]) in r
  {
    FilterTokensLower(tokenize(text));
    FilterTokens(tokenize(text))
  }

  // ---------------------------------------------------------------------
  // The memoised fields of a document.
  // ---------------------------------------------------------------------

  /** The fields of a `Document` that the helpers read and write. */
  class Document {
    var text: string
    /** `word_count`, `None` until computed. */
    var wordCount: Option<nat>
    /** `tokenized_text`, `None` until computed. */
    var tokenizedText: Option<seq<string>>
    /** `_word_counts_counter`, `{}` by default; `None` and the empty counter
        both read as unset. */
    var wordCountsCounter: Option<Counter<string>>

    /** A new document whose derived fields are all unset: the count and
        the tokens are `None`, the counter holds its `{}` default. */
    constructor (text: string)
      ensures this.text == text
      ensures wordCount == None && tokenizedText == None && wordCountsCounter == Some(map[])
    {
      this.text := text;
      wordCount := None;
      tokenizedText := None;
      wordCountsCounter := Some(map[]);
    }

    /** Every memoised field that is set holds what would be computed from `text`. */
    ghost predicate Consistent(tokenize: string -> seq<string>)
      reads this
    {
      && (tokenizedText.Some? ==> tokenizedText.value == Tokenized(text, tokenize))
      && (wordCount.Some? ==> wordCount.value == |Tokenized(text, tokenize)|)
      && (wordCountsCounter.Some? && wordCountsCounter.value != map[] ==>
            wordCountsCounter.value == CounterOf(Tokenized(text, tokenize)))
    }
  }

  /** `get_tokenized_text(document_obj)`: the stored tokens or, when none
      are stored, the filtered and lower-cased tokens of the text, which are
      then stored. */
  method GetTokenizedText(documentObj: Document, tokenize: string -> seq<string>) returns (tokens: seq<string>)
    modifies documentObj
    ensures old(documentObj.tokenizedText).None? ==> tokens == Tokenized(documentObj.text, tokenize)
    ensures old(documentObj.tokenizedText).Some? ==> tokens == old(documentObj.tokenizedText).value
    ensures documentObj.tokenizedText == Some(tokens)
    ensures documentObj.text == old(documentObj.text)
    ensures documentObj.wordCount == old(documentObj.wordCount)
    ensures documentObj.wordCountsCounter == old(documentObj.wordCountsCounter)
    ensures old(documentObj.Consistent(tokenize)) ==>
      documentObj.Consistent(tokenize) && tokens == Tokenized(documentObj.text, tokenize)
  {
    if documentObj.tokenizedText.None? {
      var wordTokens := tokenize(documentObj.text);
      var tokenizedText := FilterTokens(wordTokens);
      documentObj.tokenizedText := Some(tokenizedText);
      return tokenizedText;
    } else {
      return documentObj.tokenizedText.value;
    }
  }

  /** `word_count(document_obj)`: the stored count or, when none is stored,
      the number of tokens, which is then stored. */
  method WordCount(documentObj: Document, tokenize: string -> seq<string>) returns (count: nat)
    modifies documentObj
    ensures old(documentObj.wordCount).Some? ==> count == old(documentObj.wordCount).value
    ensures old(documentObj.wordCount).None? && old(documentObj.tokenizedText).None? ==>
      count == |Tokenized(documentObj.text, tokenize)|
    ensures old(documentObj.wordCount).None? && old(documentObj.tokenizedText).Some? ==>
      count == |old(documentObj.tokenizedText).value|
    ensures documentObj.wordCount == Some(count)
    ensures old(documentObj.wordCount).None? ==>
      documentObj.tokenizedText == Some(if old(documentObj.tokenizedText).Some?
        then old(documentObj.tokenizedText).value else Tokenized(documentObj.text, tokenize))
    ensures old(documentObj.wordCount).Some? ==> documentObj.tokenizedText == old(documentObj.tokenizedText)
    ensures documentObj.text == old(documentObj.text)
    ensures documentObj.wordCountsCounter == old(documentObj.wordCountsCounter)
    ensures old(documentObj.Consistent(tokenize)) ==>
      documentObj.Consistent(tokenize) && count == |Tokenized(documentObj.text, tokenize)|
  {
    if documentObj.wordCount.None? {
      var tokens := GetTokenizedText(documentObj, tokenize);
      documentObj.wordCount := Some(|tokens|);
    }
    return documentObj.wordCount.value;
  }

  /** `get_wordcount_counter(document_obj)`: the stored counter unless it
      is unset or empty, else `Counter` of the tokens, which is then stored. */
  method GetWordcountCounter(documentObj: Document, tokenize: string -> seq<string>)
    returns (counter: Counter<string>)
    modifies documentObj
    ensures old(documentObj.wordCountsCounter) !in {None, Some(map[])} ==>
      counter == old(documentObj.wordCountsCounter).value
    ensures old(documentObj.wordCountsCounter) in {None, Some(map[])} && old(documentObj.tokenizedText).None? ==>
      counter == CounterOf(Tokenized(documentObj.text, tokenize))
    ensures old(documentObj.wordCountsCounter) in {None, Some(map[])} && old(documentObj.tokenizedText).Some? ==>
      counter == CounterOf(old(documentObj.tokenizedText).value)
    ensures documentObj.wordCountsCounter == Some(counter)
    ensures old(documentObj.wordCountsCounter) in {None, Some(map[])} ==>
      documentObj.tokenizedText == Some(if old(documentObj.tokenizedText).Some?
        then old(documentObj.tokenizedText).value else Tokenized(documentObj.text, tokenize))
    ensures old(documentObj.wordCountsCounter) !in {None, Some(map[])} ==>
      documentObj.tokenizedText == old(documentObj.tokenizedText)
    ensures documentObj.text == old(documentObj.text)
    ensures documentObj.wordCount == old(documentObj.wordCount)
    ensures old(documentObj.Consistent(tokenize)) ==>
      documentObj.Consistent(tokenize) && counter == CounterOf(Tokenized(documentObj.text, tokenize))
  {
    if documentObj.wordCountsCounter.None? || documentObj.wordCountsCounter.value == map[] {
      var tokens := GetTokenizedText(documentObj, tokenize);
      documentObj.wordCountsCounter := Some(CounterOf(tokens));
    }
    return documentObj.wordCountsCounter.value;
  }

  /** A fresh document tokenizes once: the second call returns the stored
      tokens, and the word count and counter agree with them. */
  method MemoisedOnce(text: string, tokenize: string -> seq<string>)
    returns (first: seq<string>, second: seq<string>, count: nat, counter: Counter<string>)
    ensures first == second == Tokenized(text, tokenize)
    ensures count == |first|
    ensures counter == CounterOf(first) && SumValues(counter) == count
  {
    var documentObj := new Document(text);
    first := GetTokenizedText(documentObj, tokenize);
    second := GetTokenizedText(documentObj, tokenize);
    count := WordCount(documentObj, tokenize);
    counter := GetWordcountCounter(documentObj, tokenize);
    CounterOfSum(first);
  }
}
