/** Honorific removal (backend/app/analysis/ner.py): the words of a name
    that are neither an honorific nor an honorific followed by one more
    character, such as "Miss." for "Miss". The list of honorifics is a
    parameter: backend/app/common.py, from which it is imported, does not
    define it. */
module Ner {
  import opened Text

  /** `n[:-1]`: all but the last character; the empty string stays empty. */
  function DropLast(n: string): (r: string)
    ensures |n| > 0 ==> n == r + [n[|n| - 1]]
    ensures |n| == 0 ==> r == ""
  {
    if |n| == 0 then "" else n[..|n| - 1]
  }

  /** The condition of the comprehension. */
  predicate Kept(n: string, honorifics: set<string>)
    ensures Kept(n, honorifics) ==> n !in honorifics
    ensures |n| > 0 ==> (Kept(n, honorifics) <==> n !in honorifics && n[..|n| - 1] !in honorifics)
    ensures |n| == 0 ==> (Kept(n, honorifics) <==> "" !in honorifics)
  {
    n !in honorifics && DropLast(n) !in honorifics
  }

  /** `[n for n in pieces if (n not in HONORIFICS and n[:-1] not in HONORIFICS)]`. */
  function FilterPieces(pieces: seq<string>, honorifics: set<string>): (r: seq<string>)
    ensures |r| <= |pieces|
    ensures forall x :: x in r ==> Kept(x, honorifics)
    ensures forall x :: x in r <==> x in pieces && Kept(x, honorifics)
    decreases |pieces|
  {
    if |pieces| == 0 then []
    else
      var rest := FilterPieces(pieces[1..], honorifics);
      assert forall x :: x in pieces <==> x == pieces[0] || x in pieces[1..];
      if Kept(pieces[0], honorifics) then [pieces[0]] + rest else rest
  }

  /** `filter_honr(name)`. */
  function FilterHonr(name: string, honorifics: set<string>): (r: seq<string>)
    ensures |r| <= |Split(name, ' ')|
    ensures forall x :: x in r <==> x in Split(name, ' ') && Kept(x, honorifics)
  {
    FilterPieces(Split(name, ' '), honorifics)
  }

  /** `a` is `b` with some elements deleted. */
  predicate IsSubsequence(a: seq<string>, b: seq<string>)
    decreases |b|
  {
    if |a| == 0 then true
    else if |b| == 0 then false
    else (a[0] == b[0] && IsSubsequence(a[1..], b[1..])) || IsSubsequence(a, b[1..])
  }

  /** The kept pieces keep their order: the result is a subsequence of the pieces. */
  lemma {:induction false} FilterPiecesSubsequence(pieces: seq<string>, honorifics: set<string>)
    ensures IsSubsequence(FilterPieces(pieces, honorifics), pieces)
    decreases |pieces|
  {
    if |pieces| > 0 {
      FilterPiecesSubsequence(pieces[1..], honorifics);
      var r := FilterPieces(pieces, honorifics);
      if Kept(pieces[0], honorifics) {
        assert r[1..] == FilterPieces(pieces[1..], honorifics);
      }
    }
  }

  /** Filtering a concatenation concatenates the filtered parts. */
  lemma {:induction false} FilterPiecesAppend(a: seq<string>, b: seq<string>, honorifics: set<string>)
    ensures FilterPieces(a + b, honorifics) == FilterPieces(a, honorifics) + FilterPieces(b, honorifics)
    decreases |a|
  {
    if |a| == 0 {
      assert a + b == b;
    } else {
      assert (a + b)[0] == a[0];
      assert (a + b)[1..] == a[1..] + b;
      FilterPiecesAppend(a[1..], b, honorifics);
    }
  }

  /** Filtering again removes nothing more. */
  lemma {:induction false} FilterPiecesIdempotent(pieces: seq<string>, honorifics: set<string>)
    ensures FilterPieces(FilterPieces(pieces, honorifics), honorifics) == FilterPieces(pieces, honorifics)
    decreases |pieces|
  {
    if |pieces| > 0 {
      FilterPiecesIdempotent(pieces[1..], honorifics);
      var rest := FilterPieces(pieces[1..], honorifics);
      if Kept(pieces[0], honorifics) {
        assert ([pieces[0]] + rest)[1..] == rest;
      }
    }
  }

  /** The name of the doc-comment's example splits into two words. */
  lemma MissWoodhouseWords()
    ensures Split("Miss. Woodhouse", ' ') == ["Miss.", "Woodhouse"]
  {
    var parts := ["Miss.", "Woodhouse"];
    assert Join(parts, ' ') == "Miss. Woodhouse" by {
      assert parts[1..] == ["Woodhouse"];
    }
    assert forall i :: 0 <= i < |parts| ==> ' ' !in parts[i];
    SplitJoin(parts, ' ');
  }

  /** The doc-comment's example: "Miss. Woodhouse" keeps only "Woodhouse",
      as a one-element list. */
  lemma MissWoodhouse(honorifics: set<string>)
    requires "Miss" in honorifics && "Woodhouse" !in honorifics && "Woodhous" !in honorifics
    ensures FilterHonr("Miss. Woodhouse", honorifics) == ["Woodhouse"]
  {
    MissWoodhouseWords();
    MissWoodhouseFiltered(honorifics);
  }

  lemma MissWoodhouseFiltered(honorifics: set<string>)
    requires "Miss" in honorifics && "Woodhouse" !in honorifics && "Woodhous" !in honorifics
    ensures FilterPieces(["Miss.", "Woodhouse"], honorifics) == ["Woodhouse"]
  {
    var pieces := ["Miss.", "Woodhouse"];
    assert DropLast("Miss.") == "Miss";
    assert DropLast("Woodhouse") == "Woodhous";
    assert pieces[1..] == ["Woodhouse"];
    assert pieces[1..][1..] == [];
  }
}
