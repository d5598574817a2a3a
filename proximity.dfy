/** The proximity analysis (backend/app/analysis/proximity.py): for every
    occurrence of a gender's pronoun in a part-of-speech-tagged document,
    count the words within `wordWindow` positions on each side of it,
    grouped by their part-of-speech tag. */
module Proximity {
  import opened Wrappers
  import opened Text
  import opened Counting
  import opened Genders

  /** One `(word, part-of-speech tag)` pair of a document's `part_of_speech_tags`. */
  datatype TaggedToken = TaggedToken(word: string, tag: string)

  /** `{pos_tag: Counter(word -> count)}`, the result of one window count. */
  type TagCounter = map<string, Counter<string>>

  /** `output[tag][word]`, reading a missing tag or word as 0. */
  function Count(m: TagCounter, tag: string, word: string): nat
  {
    if tag in m then Get(m[tag], word) else 0
  }

  /** The set of tags that occur in a document. */
  function Tags(tokens: seq<TaggedToken>): set<string>
  {
    set k | 0 <= k < |tokens| :: tokens[k].tag
  }

  // ---------------------------------------------------------------------
  // The sliding window: padding and `more_itertools.windowed`.
  // ---------------------------------------------------------------------

  /** `chain(padding, pos_tags, padding)` with `padding = [None] * w`. */
  function Padded(tokens: seq<TaggedToken>, w: nat): (r: seq<Option<TaggedToken>>)
    ensures |r| == |tokens| + 2 * w
    ensures forall k :: 0 <= k < |r| ==> (r[k].Some? <==> w <= k < w + |tokens|)
    ensures forall k :: 0 <= k < |tokens| ==> r[w + k] == Some(tokens[k])
  {
    seq(w, _ => None)
      + seq(|tokens|, k requires 0 <= k < |tokens| => Some(tokens[k]))
      + seq(w, _ => None)
  }

  /** `windowed(s, size)` for an input at least `size` long: every run of
      `size` consecutive elements, from left to right. */
  function Windowed<T>(s: seq<T>, size: nat): (r: seq<seq<T>>)
    requires 0 < size <= |s|
    ensures |r| == |s| - size + 1
    ensures forall j :: 0 <= j < |r| ==> |r[j]| == size
    ensures forall j, t :: 0 <= j < |r| && 0 <= t < size ==> r[j][t] == s[j + t]
  {
    seq(|s| - size + 1, j requires 0 <= j < |s| - size + 1 => s[j..j + size])
  }

  /** The windows over the padded text: there is one per position `i` of the
      text, centred on it; position `t` of that window holds the token at
      `i - w + t` when that index lies in `max(0, i - w) .. min(n - 1, i + w)`,
      and a padding `None` otherwise. */
  lemma WindowShape(tokens: seq<TaggedToken>, w: nat, i: nat, t: nat)
    requires 0 <= i < |tokens| && t < 2 * w + 1
    ensures |Padded(tokens, w)| == |tokens| + 2 * w
    ensures |Windowed(Padded(tokens, w), 2 * w + 1)| == |tokens|
    ensures |Windowed(Padded(tokens, w), 2 * w + 1)[i]| == 2 * w + 1
    ensures Windowed(Padded(tokens, w), 2 * w + 1)[i][w] == Some(tokens[i])
    ensures Windowed(Padded(tokens, w), 2 * w + 1)[i][t]
      == if 0 <= i - w + t < |tokens| then Some(tokens[i - w + t]) else None
  {
    var padded := Padded(tokens, w);
    var window := Windowed(padded, 2 * w + 1)[i];
    assert window == padded[i..i + 2 * w + 1];
    assert window[t] == padded[i + t];
    assert window[w] == padded[i + w];
  }

  // ---------------------------------------------------------------------
  // What is counted, stated position by position.
  // ---------------------------------------------------------------------

  /** The token at `k` is counted for the window centred at `i`: the centre
      word, lower-cased, is one of the pronouns, `k` is a real position of
      the text (not padding), and its word, lower-cased, differs from the
      centre's. */
  predicate Counted(tokens: seq<TaggedToken>, pronounSet: set<string>, i: int, k: int)
    requires 0 <= i < |tokens|
  {
    && Lower(tokens[i].word) in pronounSet
    && 0 <= k < |tokens|
    && Lower(tokens[k].word) != Lower(tokens[i].word)
  }

  /** 1 when the token at `k`, seen from the centre `i`, is counted as
      `word` under `tag`. */
  function Hit(tokens: seq<TaggedToken>, pronounSet: set<string>, i: int, k: int,
               tag: string, word: string): nat
    requires 0 <= i < |tokens|
  {
    if Counted(tokens, pronounSet, i, k) && tokens[k].tag == tag
       && Lower(tokens[k].word) == word
    then 1 else 0
  }

  /** Hits of `(tag, word)` at the positions `lo .. hi - 1` around centre `i`. */
  function WindowHits(tokens: seq<TaggedToken>, pronounSet: set<string>, i: int,
                      lo: int, hi: int, tag: string, word: string): nat
    requires 0 <= i < |tokens|
    decreases hi - lo
  {
    if hi <= lo then 0
    else WindowHits(tokens, pronounSet, i, lo, hi - 1, tag, word)
         + Hit(tokens, pronounSet, i, hi - 1, tag, word)
  }

  /** Hits of `(tag, word)` in the windows centred at `0 .. j - 1`. */
  function CentreHits(tokens: seq<TaggedToken>, pronounSet: set<string>, w: nat,
                      j: nat, tag: string, word: string): nat
    requires j <= |tokens|
  {
    if j == 0 then 0
    else CentreHits(tokens, pronounSet, w, j - 1, tag, word)
         + WindowHits(tokens, pronounSet, j - 1, j - 1 - w, j + w, tag, word)
  }

  /** How often `word` tagged `tag` is counted in the whole document. */
  function Occurrences(tokens: seq<TaggedToken>, pronounSet: set<string>, w: nat,
                       tag: string, word: string): nat
  {
    CentreHits(tokens, pronounSet, w, |tokens|, tag, word)
  }

  /** The number of positions `lo .. hi - 1` counted for centre `i`. */
  function WindowContext(tokens: seq<TaggedToken>, pronounSet: set<string>, i: int,
                         lo: int, hi: int): nat
    requires 0 <= i < |tokens|
    decreases hi - lo
  {
    if hi <= lo then 0
    else WindowContext(tokens, pronounSet, i, lo, hi - 1)
         + (if Counted(tokens, pronounSet, i, hi - 1) then 1 else 0)
  }

  /** The number of counted positions in the windows centred at `0 .. j - 1`. */
  function CentreContext(tokens: seq<TaggedToken>, pronounSet: set<string>, w: nat, j: nat): nat
    requires j <= |tokens|
  {
    if j == 0 then 0
    else CentreContext(tokens, pronounSet, w, j - 1)
         + WindowContext(tokens, pronounSet, j - 1, j - 1 - w, j + w)
  }

  /** The number of anchors (centres whose word is a pronoun) among `0 .. j - 1`. */
  function Anchors(tokens: seq<TaggedToken>, pronounSet: set<string>, j: nat): nat
    requires j <= |tokens|
  {
    if j == 0 then 0
    else Anchors(tokens, pronounSet, j - 1)
         + (if Lower(tokens[j - 1].word) in pronounSet then 1 else 0)
  }

  /** `m` is the sparse counter of the document: it holds exactly the
      occurrence counts, never an empty inner counter, never a zero count. */
  ghost predicate Tabulates(m: TagCounter, tokens: seq<TaggedToken>, pronounSet: set<string>, w: nat)
  {
    && (forall tag, word :: Count(m, tag, word) == Occurrences(tokens, pronounSet, w, tag, word))
    && Sparse(m)
  }

  ghost predicate Sparse(m: TagCounter)
  {
    && (forall tag :: tag in m ==> m[tag] != map[])
    && (forall tag, word :: tag in m && word in m[tag] ==> m[tag][word] > 0)
  }

  // ---------------------------------------------------------------------
  // Lemmas about the specification.
  // ---------------------------------------------------------------------

  /** A sparse counter is determined by its counts. */
  lemma {:induction false} SparseUnique(m: TagCounter, m': TagCounter)
    requires Sparse(m) && Sparse(m')
    requires forall tag, word :: Count(m, tag, word) == Count(m', tag, word)
    ensures m == m'
  {
    forall tag | tag in m ensures tag in m' && m[tag] == m'[tag] {
      var word :| word in m[tag];
      assert Count(m, tag, word) > 0;
      assert Count(m', tag, word) > 0;
      forall x | x in m[tag] ensures x in m'[tag] && m[tag][x] == m'[tag][x] {
        assert Count(m, tag, x) == Count(m', tag, x);
      }
      forall x | x in m'[tag] ensures x in m[tag] {
        assert Count(m, tag, x) == Count(m', tag, x);
      }
    }
    forall tag | tag in m' ensures tag in m {
      var word :| word in m'[tag];
      assert Count(m', tag, word) > 0;
      assert Count(m, tag, word) > 0;
    }
  }

  /** The counting is deterministic: at most one sparse counter tabulates a
      document for a given set of pronouns and window. */
  lemma TabulatesUnique(m: TagCounter, m': TagCounter, tokens: seq<TaggedToken>,
                        pronounSet: set<string>, w: nat)
    requires Tabulates(m, tokens, pronounSet, w) && Tabulates(m', tokens, pronounSet, w)
    ensures m == m'
  {
    SparseUnique(m, m');
  }

  /** A sparse counter with only zero counts is the empty dictionary. */
  lemma SparseZero(m: TagCounter)
    requires Sparse(m)
    ensures (forall tag, word :: Count(m, tag, word) == 0) ==> m == map[]
  {
    if m != map[] {
      var tag :| tag in m;
      var word :| word in m[tag];
      assert Count(m, tag, word) > 0;
    }
  }

  /** `output.setdefault(tag, Counter())` followed by `output[tag][word] += 1`. */
  function Bump(m: TagCounter, tag: string, word: string): (r: TagCounter)
    ensures r.Keys == m.Keys + {tag}
    ensures Count(r, tag, word) == Count(m, tag, word) + 1
    ensures forall t, x :: t != tag || x != word ==> Count(r, t, x) == Count(m, t, x)
  {
    var c: Counter<string> := if tag in m then m[tag] else map[];
    m[tag := c[word := Get(c, word) + 1]]
  }

  /** One increment adds one to exactly one count, keeps the counter sparse
      and adds at most its tag. */
  lemma BumpCounts(m: TagCounter, tag: string, word: string)
    requires Sparse(m)
    ensures Sparse(Bump(m, tag, word))
    ensures Bump(m, tag, word).Keys == m.Keys + {tag}
    ensures forall t, x :: (Count(Bump(m, tag, word), t, x)
      == Count(m, t, x) + (if t == tag && x == word then 1 else 0))
  {
    var m' := Bump(m, tag, word);
    forall t, x ensures Count(m', t, x) == Count(m, t, x) + (if t == tag && x == word then 1 else 0) {
      if t == tag {
        var c: Counter<string> := if tag in m then m[tag] else map[];
        assert m'[tag] == c[word := Get(c, word) + 1];
        assert Count(m, t, x) == Get(c, x);
      }
    }
  }

  /** One increment adds one to the total. */
  lemma BumpTotal(m: TagCounter, tag: string, word: string)
    ensures NestedTotal(Bump(m, tag, word)) == NestedTotal(m) + 1
  {
    var c: Counter<string> := if tag in m then m[tag] else map[];
    var c': Counter<string> := c[word := Get(c, word) + 1];
    assert m[tag := c'] == Bump(m, tag, word);
    SumValuesUpdate(c, word, Get(c, word) + 1);
    NestedTotalUpdate(m, tag, c');
    if tag !in m {
      assert c.Keys == {};
    }
  }

  /** A window whose centre is not a pronoun contributes nothing. */
  lemma {:induction false} NotAnchorNoHits(tokens: seq<TaggedToken>, pronounSet: set<string>,
                                           i: int, lo: int, hi: int, tag: string, word: string)
    requires 0 <= i < |tokens| && Lower(tokens[i].word) !in pronounSet
    ensures WindowHits(tokens, pronounSet, i, lo, hi, tag, word) == 0
    ensures WindowContext(tokens, pronounSet, i, lo, hi) == 0
    decreases hi - lo
  {
    if lo < hi {
      NotAnchorNoHits(tokens, pronounSet, i, lo, hi - 1, tag, word);
    }
  }

  /** Nothing is counted for a document in which no word, lower-cased, is one
      of the pronouns. */
  lemma {:induction false} NoAnchorsNoCounts(tokens: seq<TaggedToken>, pronounSet: set<string>,
                                             w: nat, j: nat, tag: string, word: string)
    requires j <= |tokens|
    requires forall i :: 0 <= i < |tokens| ==> Lower(tokens[i].word) !in pronounSet
    ensures CentreHits(tokens, pronounSet, w, j, tag, word) == 0
  {
    if j > 0 {
      NoAnchorsNoCounts(tokens, pronounSet, w, j - 1, tag, word);
      NotAnchorNoHits(tokens, pronounSet, j - 1, j - 1 - w, j + w, tag, word);
    }
  }

  /** With `word_window = 0` the only token of each window is its centre,
      which equals the candidate: nothing is counted. */
  lemma {:induction false} ZeroWindowNoHits(tokens: seq<TaggedToken>, pronounSet: set<string>,
                                            j: nat, tag: string, word: string)
    requires j <= |tokens|
    ensures CentreHits(tokens, pronounSet, 0, j, tag, word) == 0
  {
    if j > 0 {
      ZeroWindowNoHits(tokens, pronounSet, j - 1, tag, word);
      assert WindowHits(tokens, pronounSet, j - 1, j - 1, j, tag, word)
        == WindowHits(tokens, pronounSet, j - 1, j - 1, j - 1, tag, word)
           + Hit(tokens, pronounSet, j - 1, j - 1, tag, word);
    }
  }

  /** A word is never counted in the window of an anchor with the same
      lower-cased word; conversely every hit of `word` comes from an anchor
      whose own word is different. */
  lemma {:induction false} SelfExcludedInWindow(tokens: seq<TaggedToken>, pronounSet: set<string>,
                                                i: int, lo: int, hi: int, tag: string)
    requires 0 <= i < |tokens|
    ensures WindowHits(tokens, pronounSet, i, lo, hi, tag, Lower(tokens[i].word)) == 0
    decreases hi - lo
  {
    if lo < hi {
      SelfExcludedInWindow(tokens, pronounSet, i, lo, hi - 1, tag);
    }
  }

  /** With a single pronoun, that pronoun itself is never counted, however
      often it occurs near another of its occurrences. */
  lemma {:induction false} SinglePronounNeverCounted(tokens: seq<TaggedToken>, p: string, w: nat,
                                                     j: nat, tag: string)
    requires j <= |tokens|
    ensures CentreHits(tokens, {p}, w, j, tag, p) == 0
  {
    if j > 0 {
      SinglePronounNeverCounted(tokens, p, w, j - 1, tag);
      if Lower(tokens[j - 1].word) == p {
        SelfExcludedInWindow(tokens, {p}, j - 1, j - 1 - w, j + w, tag);
      } else {
        NotAnchorNoHits(tokens, {p}, j - 1, j - 1 - w, j + w, tag, p);
      }
    }
  }

  /** Counted positions of a window: at most its width, less the centre. */
  lemma {:induction false} WindowContextBound(tokens: seq<TaggedToken>, pronounSet: set<string>,
                                              i: int, lo: int, hi: int)
    requires 0 <= i < |tokens| && lo <= hi
    ensures WindowContext(tokens, pronounSet, i, lo, hi)
      <= (hi - lo) - (if lo <= i < hi then 1 else 0)
    decreases hi - lo
  {
    if lo < hi {
      WindowContextBound(tokens, pronounSet, i, lo, hi - 1);
    }
  }

  /** The total over all counts is at most `2 * w` per anchor. */
  lemma {:induction false} CentreContextBound(tokens: seq<TaggedToken>, pronounSet: set<string>,
                                              w: nat, j: nat)
    requires j <= |tokens|
    ensures CentreContext(tokens, pronounSet, w, j) <= 2 * w * Anchors(tokens, pronounSet, j)
  {
    if j > 0 {
      CentreContextBound(tokens, pronounSet, w, j - 1);
      var i := j - 1;
      var a := Anchors(tokens, pronounSet, i);
      var here := WindowContext(tokens, pronounSet, i, i - w, j + w);
      assert CentreContext(tokens, pronounSet, w, j) == CentreContext(tokens, pronounSet, w, i) + here;
      if Lower(tokens[i].word) in pronounSet {
        WindowContextBound(tokens, pronounSet, i, i - w, j + w);
        assert Anchors(tokens, pronounSet, j) == a + 1;
        MulSucc(2 * w, a);
      } else {
        NotAnchorNoHits(tokens, pronounSet, i, i - w, j + w, "", "");
      }
    }
  }

  /** Arithmetic step of `CentreContextBound`: one more anchor adds `x`. */
  lemma MulSucc(x: nat, a: nat)
    ensures x * (a + 1) == x * a + x
  {
  }

  // ---------------------------------------------------------------------
  // The operations.
  // ---------------------------------------------------------------------

  /** `generate_token_counter(pos_tags, pronoun_set, word_window)`. */
  method GenerateTokenCounter(posTags: seq<TaggedToken>, pronounSet: set<string>, wordWindow: nat)
    returns (output: TagCounter)
    requires |posTags| > 0
    ensures Tabulates(output, posTags, pronounSet, wordWindow)
    ensures output.Keys <= Tags(posTags)
    ensures NestedTotal(output) == CentreContext(posTags, pronounSet, wordWindow, |posTags|)
    ensures NestedTotal(output) <= 2 * wordWindow * Anchors(posTags, pronounSet, |posTags|)
    ensures wordWindow == 0 ==> output == map[]
  {
    var n := |posTags|;
    var w := wordWindow;
    output := map[];
    var padded := Padded(posTags, w);
    WindowShape(posTags, w, 0, 0);
    var windows := Windowed(padded, 2 * w + 1);
    for j := 0 to |windows|
      invariant Done(output, posTags, pronounSet, w, j)
    {
      var taggedTokens := windows[j];
      WindowShape(posTags, w, j, 0);
      var candidate := Lower(taggedTokens[w].value.word);
      if candidate in pronounSet {
        output := CountWindow(output, posTags, pronounSet, w, j, taggedTokens, candidate);
      } else {
        SkipWindow(output, posTags, pronounSet, w, j);
      }
    }
    AllDone(output, posTags, pronounSet, w);
  }

  /** The inner loop of `generate_token_counter`, for a window whose centre
      is a pronoun: every other word of the window is counted under its tag. */
  method CountWindow(output: TagCounter, posTags: seq<TaggedToken>, pronounSet: set<string>, w: nat,
                     j: nat, taggedTokens: seq<Option<TaggedToken>>, candidate: string)
    returns (result: TagCounter)
    requires Done(output, posTags, pronounSet, w, j) && j < |posTags|
    requires taggedTokens == Windowed(Padded(posTags, w), 2 * w + 1)[j]
    requires candidate == Lower(posTags[j].word) && candidate in pronounSet
    ensures Done(result, posTags, pronounSet, w, j + 1)
  {
    result := output;
    WindowShape(posTags, w, j, 0);
    StartWindow(result, posTags, pronounSet, w, j);
    for index := 0 to |taggedTokens|
      invariant Partial(result, posTags, pronounSet, w, j, index)
    {
      var taggedToken := taggedTokens[index];
      WindowShape(posTags, w, j, index);
      if taggedToken.Some? {
        var word := Lower(taggedToken.value.word);
        if word != candidate {
          var posTag := taggedToken.value.tag;
          StepCounted(result, posTags, pronounSet, w, j, index, posTag, word);
          result := Bump(result, posTag, word);
        } else {
          StepSkipped(result, posTags, pronounSet, w, j, index);
        }
      } else {
        StepSkipped(result, posTags, pronounSet, w, j, index);
      }
    }
    EndWindow(result, posTags, pronounSet, w, j);
  }

  // ---------------------------------------------------------------------
  // The loop invariants of GenerateTokenCounter and their steps.
  // ---------------------------------------------------------------------

  /** After the windows centred at `0 .. j - 1`. */
  ghost predicate Done(m: TagCounter, tokens: seq<TaggedToken>, pronounSet: set<string>, w: nat, j: nat)
  {
    && j <= |tokens|
    && m.Keys <= Tags(tokens)
    && Sparse(m)
    && (forall tag, word :: Count(m, tag, word) == CentreHits(tokens, pronounSet, w, j, tag, word))
    && NestedTotal(m) == CentreContext(tokens, pronounSet, w, j)
  }

  /** Inside the window centred at `j`, after its first `t` positions. */
  ghost predicate Partial(m: TagCounter, tokens: seq<TaggedToken>, pronounSet: set<string>, w: nat,
                          j: nat, t: nat)
  {
    && j < |tokens|
    && t <= 2 * w + 1
    && m.Keys <= Tags(tokens)
    && Sparse(m)
    && (forall tag, word :: (Count(m, tag, word)
          == CentreHits(tokens, pronounSet, w, j, tag, word)
             + WindowHits(tokens, pronounSet, j, j - w, j - w + t, tag, word)))
    && NestedTotal(m) == CentreContext(tokens, pronounSet, w, j) + WindowContext(tokens, pronounSet, j, j - w, j - w + t)
  }

  /** After the last window the invariant gives every promise of the operation. */
  lemma AllDone(m: TagCounter, tokens: seq<TaggedToken>, pronounSet: set<string>, w: nat)
    requires Done(m, tokens, pronounSet, w, |tokens|)
    ensures Tabulates(m, tokens, pronounSet, w)
    ensures m.Keys <= Tags(tokens)
    ensures NestedTotal(m) == CentreContext(tokens, pronounSet, w, |tokens|)
    ensures NestedTotal(m) <= 2 * w * Anchors(tokens, pronounSet, |tokens|)
    ensures w == 0 ==> m == map[]
  {
    var n := |tokens|;
    CentreContextBound(tokens, pronounSet, w, n);
    SparseZero(m);
    if w == 0 {
      forall tag, word ensures Count(m, tag, word) == 0 {
        ZeroWindowNoHits(tokens, pronounSet, n, tag, word);
      }
    }
  }

  lemma StartWindow(m: TagCounter, tokens: seq<TaggedToken>, pronounSet: set<string>, w: nat, j: nat)
    requires Done(m, tokens, pronounSet, w, j) && j < |tokens|
    ensures Partial(m, tokens, pronounSet, w, j, 0)
  {
  }

  lemma StepCounted(m: TagCounter, tokens: seq<TaggedToken>, pronounSet: set<string>, w: nat,
                    j: nat, t: nat, tag: string, word: string)
    requires Partial(m, tokens, pronounSet, w, j, t) && t < 2 * w + 1
    requires Counted(tokens, pronounSet, j, j - w + t)
    requires tag == tokens[j - w + t].tag && word == Lower(tokens[j - w + t].word)
    ensures Partial(Bump(m, tag, word), tokens, pronounSet, w, j, t + 1)
  {
    var k := j - w + t;
    BumpCounts(m, tag, word);
    BumpTotal(m, tag, word);
    HitAt(tokens, pronounSet, j, k, tag, word);
  }

  lemma StepSkipped(m: TagCounter, tokens: seq<TaggedToken>, pronounSet: set<string>, w: nat,
                    j: nat, t: nat)
    requires Partial(m, tokens, pronounSet, w, j, t) && t < 2 * w + 1
    requires !Counted(tokens, pronounSet, j, j - w + t)
    ensures Partial(m, tokens, pronounSet, w, j, t + 1)
  {
    NoHitAt(tokens, pronounSet, j, j - w + t);
  }

  lemma EndWindow(m: TagCounter, tokens: seq<TaggedToken>, pronounSet: set<string>, w: nat, j: nat)
    requires Partial(m, tokens, pronounSet, w, j, 2 * w + 1)
    ensures Done(m, tokens, pronounSet, w, j + 1)
  {
  }

  lemma SkipWindow(m: TagCounter, tokens: seq<TaggedToken>, pronounSet: set<string>, w: nat, j: nat)
    requires Done(m, tokens, pronounSet, w, j) && j < |tokens|
    requires Lower(tokens[j].word) !in pronounSet
    ensures Done(m, tokens, pronounSet, w, j + 1)
  {
    var lo, hi := j - w, j + w + 1;
    forall tag, word
      ensures WindowHits(tokens, pronounSet, j, lo, hi, tag, word) == 0
    {
      NotAnchorNoHits(tokens, pronounSet, j, lo, hi, tag, word);
    }
    NotAnchorNoHits(tokens, pronounSet, j, lo, hi, "", "");
  }

  /** The position `k` of a window is counted as its own tag and word only. */
  lemma HitAt(tokens: seq<TaggedToken>, pronounSet: set<string>, i: int, k: int, tag: string, word: string)
    requires 0 <= i < |tokens| && Counted(tokens, pronounSet, i, k)
    requires tokens[k].tag == tag && Lower(tokens[k].word) == word
    ensures forall t, x :: Hit(tokens, pronounSet, i, k, t, x) == if t == tag && x == word then 1 else 0
    ensures tag in Tags(tokens)
  {
  }

  /** An uncounted position hits nothing. */
  lemma NoHitAt(tokens: seq<TaggedToken>, pronounSet: set<string>, i: int, k: int)
    requires 0 <= i < |tokens| && !Counted(tokens, pronounSet, i, k)
    ensures forall t, x :: Hit(tokens, pronounSet, i, k, t, x) == 0
  {
  }

  // ---------------------------------------------------------------------
  // Per gender and per document.
  // ---------------------------------------------------------------------

  /** `gender.pronoun_series.values_list(pronoun_type, flat=True)`, as the
      set that `candidate in pronoun_set` tests. */
  function PronounSet(gender: Gender, pronounType: string): (r: set<string>)
    requires pronounType in PRONOUN_TYPES
  {
    set k | 0 <= k < |gender.pronounSeries| :: Pronoun(gender.pronounSeries[k], pronounType)
  }

  /** A gender has at most as many pronouns of a type as it has series. */
  lemma {:induction false} PronounSetBound(gender: Gender, pronounType: string)
    requires pronounType in PRONOUN_TYPES
    ensures |PronounSet(gender, pronounType)| <= |gender.pronounSeries|
    decreases |gender.pronounSeries|
  {
    var series := gender.pronounSeries;
    if |series| > 0 {
      var n := |series| - 1;
      var shorter := gender.(pronounSeries := series[..n]);
      PronounSetBound(shorter, pronounType);
      var last := gender.(pronounSeries := [series[n]]);
      assert series == series[..n] + [series[n]];
      PronounSetAppend(gender, shorter, last, pronounType);
      assert PronounSet(last, pronounType) == {Pronoun(series[n], pronounType)};
    }
  }

  /** The pronouns of series listed one after the other are the union of
      their pronouns: each series contributes its own value of the column. */
  lemma PronounSetAppend(gender: Gender, a: Gender, b: Gender, pronounType: string)
    requires pronounType in PRONOUN_TYPES
    requires gender.pronounSeries == a.pronounSeries + b.pronounSeries
    ensures PronounSet(gender, pronounType) == PronounSet(a, pronounType) + PronounSet(b, pronounType)
  {
    var n := |a.pronounSeries|;
    forall p | p in PronounSet(gender, pronounType)
      ensures p in PronounSet(a, pronounType) + PronounSet(b, pronounType)
    {
      var k :| 0 <= k < |gender.pronounSeries| && Pronoun(gender.pronounSeries[k], pronounType) == p;
      if k < n {
        assert gender.pronounSeries[k] == a.pronounSeries[k];
      } else {
        assert gender.pronounSeries[k] == b.pronounSeries[k - n];
      }
    }
    forall p | p in PronounSet(a, pronounType) ensures p in PronounSet(gender, pronounType) {
      var k :| 0 <= k < |a.pronounSeries| && Pronoun(a.pronounSeries[k], pronounType) == p;
      assert gender.pronounSeries[k] == a.pronounSeries[k];
    }
    forall p | p in PronounSet(b, pronounType) ensures p in PronounSet(gender, pronounType) {
      var k :| 0 <= k < |b.pronounSeries| && Pronoun(b.pronounSeries[k], pronounType) == p;
      assert gender.pronounSeries[n + k] == b.pronounSeries[k];
    }
  }

  /** `{pronoun_type: generate_token_counter(...)}` for one gender. */
  ghost predicate GenderCounters(r: map<string, TagCounter>, tokens: seq<TaggedToken>, gender: Gender, w: nat)
  {
    && r.Keys == set t | t in PRONOUN_TYPES
    && forall t :: t in PRONOUN_TYPES ==> t in r && Tabulates(r[t], tokens, PronounSet(gender, t), w)
  }

  /** What `generate_gender_token_counters` returns: one entry per gender
      name, holding the counters of the last gender with that name. */
  ghost predicate GendersCounted(results: map<string, map<string, TagCounter>>, tokens: seq<TaggedToken>,
                                 genders: seq<Gender>, w: nat)
  {
    && results.Keys == Names(genders)
    && forall name :: name in results ==> GenderCounters(results[name], tokens, Latest(genders, name), w)
  }

  /** Per gender and per pronoun type, the counter of the words near that
      gender's pronouns of that type. */
  method GenerateGenderTokenCounters(posTags: seq<TaggedToken>, genders: seq<Gender>, wordWindow: nat)
    returns (results: map<string, map<string, TagCounter>>)
    requires |posTags| > 0
    ensures GendersCounted(results, posTags, genders, wordWindow)
  {
    results := map[];
    for i := 0 to |genders|
      invariant GendersCounted(results, posTags, genders[..i], wordWindow)
    {
      var gender := genders[i];
      var genderName := gender.name;
      StartGender(results, posTags, genders, i, wordWindow);
      results := results[genderName := map[]];
      for k := 0 to |PRONOUN_TYPES|
        invariant GenderPartial(results, posTags, genders, i, k, wordWindow)
      {
        var pronounType := PRONOUN_TYPES[k];
        var pronounSet := PronounSet(gender, pronounType);
        var docResult := GenerateTokenCounter(posTags, pronounSet, wordWindow);
        AddedType(results, posTags, genders, i, k, wordWindow, docResult);
        results := results[genderName := results[genderName][pronounType := docResult]];
      }
      AddedGender(results, posTags, genders, i, wordWindow);
    }
    assert genders[..|genders|] == genders;
  }

  /** Inside `GenerateGenderTokenCounters`, after the first `k` pronoun
      types of `genders[i]`. */
  ghost predicate GenderPartial(results: map<string, map<string, TagCounter>>, tokens: seq<TaggedToken>,
                                genders: seq<Gender>, i: nat, k: nat, w: nat)
  {
    && i < |genders|
    && k <= |PRONOUN_TYPES|
    && var gender := genders[i];
    && gender.name in results
    && results.Keys == Names(genders[..i]) + {gender.name}
    && (forall name :: name in results && name != gender.name ==>
          GenderCounters(results[name], tokens, Latest(genders[..i], name), w))
    && TypesDone(results[gender.name], tokens, gender, k, w)
  }

  /** The counters of one gender after its first `k` pronoun types. */
  ghost predicate TypesDone(counters: map<string, TagCounter>, tokens: seq<TaggedToken>, gender: Gender,
                            k: nat, w: nat)
  {
    && k <= |PRONOUN_TYPES|
    && counters.Keys == (set t | t in PRONOUN_TYPES[..k])
    && (forall t :: t in PRONOUN_TYPES[..k] ==>
          t in counters && Tabulates(counters[t], tokens, PronounSet(gender, t), w))
  }

  /** `results[str(gender)] = dict()` starts the next gender afresh. */
  lemma StartGender(results: map<string, map<string, TagCounter>>, tokens: seq<TaggedToken>,
                    genders: seq<Gender>, i: nat, w: nat)
    requires i < |genders| && GendersCounted(results, tokens, genders[..i], w)
    ensures GenderPartial(results[genders[i].name := map[]], tokens, genders, i, 0, w)
  {
  }

  /** One more pronoun type for `genders[i]`. */
  lemma AddedType(results: map<string, map<string, TagCounter>>, tokens: seq<TaggedToken>,
                  genders: seq<Gender>, i: nat, k: nat, w: nat, docResult: TagCounter)
    requires GenderPartial(results, tokens, genders, i, k, w) && k < |PRONOUN_TYPES|
    requires Tabulates(docResult, tokens, PronounSet(genders[i], PRONOUN_TYPES[k]), w)
    ensures GenderPartial(results[genders[i].name := results[genders[i].name][PRONOUN_TYPES[k] := docResult]],
                          tokens, genders, i, k + 1, w)
  {
    TypeStep(results[genders[i].name], tokens, genders[i], k, w, docResult);
  }

  /** `results[str(gender)][pronoun_type] = doc_result` on the counters of one gender. */
  lemma TypeStep(counters: map<string, TagCounter>, tokens: seq<TaggedToken>, gender: Gender,
                 k: nat, w: nat, docResult: TagCounter)
    requires TypesDone(counters, tokens, gender, k, w) && k < |PRONOUN_TYPES|
    requires Tabulates(docResult, tokens, PronounSet(gender, PRONOUN_TYPES[k]), w)
    ensures TypesDone(counters[PRONOUN_TYPES[k] := docResult], tokens, gender, k + 1, w)
  {
    var t := PRONOUN_TYPES[k];
    var counters' := counters[t := docResult];
    var done := PRONOUN_TYPES[..k + 1];
    assert done == PRONOUN_TYPES[..k] + [t];
    assert counters'.Keys == (set x | x in done);
    forall x | x in done
      ensures x in counters' && Tabulates(counters'[x], tokens, PronounSet(gender, x), w)
    {
      if x != t {
        assert x in PRONOUN_TYPES[..k];
      }
    }
  }

  /** The last pronoun type of `genders[i]` done: `genders[..i + 1]` is counted. */
  lemma AddedGender(results: map<string, map<string, TagCounter>>, tokens: seq<TaggedToken>,
                    genders: seq<Gender>, i: nat, w: nat)
    requires GenderPartial(results, tokens, genders, i, |PRONOUN_TYPES|, w)
    ensures GendersCounted(results, tokens, genders[..i + 1], w)
  {
    NamesSnoc(genders, i);
    assert PRONOUN_TYPES[..|PRONOUN_TYPES|] == PRONOUN_TYPES;
    forall name | name in results
      ensures GenderCounters(results[name], tokens, Latest(genders[..i + 1], name), w)
    {
      LatestSnoc(genders, i, name);
    }
  }

  /** `run_analysis`: for every document of the corpus, the per-gender
      counters of its part-of-speech tags. */
  method RunAnalysis(docIds: seq<int>, tagsOf: int -> seq<TaggedToken>, genders: seq<Gender>, wordWindow: nat)
    returns (results: map<int, map<string, map<string, TagCounter>>>)
    requires forall k :: 0 <= k < |docIds| ==> |tagsOf(docIds[k])| > 0
    ensures results.Keys == set k | 0 <= k < |docIds| :: docIds[k]
    ensures forall id :: id in results ==> GendersCounted(results[id], tagsOf(id), genders, wordWindow)
  {
    results := map[];
    for i := 0 to |docIds|
      invariant results.Keys == set k | 0 <= k < i :: docIds[k]
      invariant forall id :: id in results ==> GendersCounted(results[id], tagsOf(id), genders, wordWindow)
    {
      var key := docIds[i];
      var counters := GenerateGenderTokenCounters(tagsOf(key), genders, wordWindow);
      results := results[key := counters];
    }
  }
}
