/** String primitives shared by the back end and the front end:
    lower-casing (Python's `str.lower`, restricted to ASCII) and splitting
    on a one-character separator (Python's `str.split(sep)` and JavaScript's
    `String.prototype.split(sep)`, which agree for a non-empty separator). */
module Text {

  function LowerChar(c: char): char
  {
    if 'A' <= c <= 'Z' then (c as int + 32) as char else c
  }

  /** `s.lower()` on ASCII letters; every other character is kept. The
      result holds no upper-case letter, so lower-casing it again changes
      nothing. */
  function Lower(s: string): (r: string)
    ensures |r| == |s|
    ensures forall i :: 0 <= i < |s| ==> r[i] == LowerChar(s[i])
    ensures forall i :: 0 <= i < |s| && !('A' <= s[i] <= 'Z') ==> r[i] == s[i]
    ensures forall i :: 0 <= i < |r| ==> !('A' <= r[i] <= 'Z')
    ensures forall i :: 0 <= i < |r| ==> LowerChar(r[i]) == r[i]
  {
    seq(|s|, i requires 0 <= i < |s| => LowerChar(s[i]))
  }

  /** The pieces of `s` between occurrences of `sep`, including empty pieces
      at the ends and between adjacent separators: `"a  b"` gives
      `["a", "", "b"]` and `""` gives `[""]`. */
  function Split(s: string, sep: char): (r: seq<string>)
    ensures |r| >= 1
    ensures forall i :: 0 <= i < |r| ==> sep !in r[i]
    decreases |s|
  {
    if |s| == 0 then [""]
    else
      var rest := Split(s[1..], sep);
      if s[0] == sep then [""] + rest
      else [[s[0]] + rest[0]] + rest[1..]
  }

  /** `sep.join(parts)`. */
  function Join(parts: seq<string>, sep: char): string
    decreases |parts|
  {
    if |parts| == 0 then ""
    else if |parts| == 1 then parts[0]
    else parts[0] + [sep] + Join(parts[1..], sep)
  }

  /** Splitting loses nothing: joining the pieces back gives the string. */
  lemma {:induction false} JoinSplit(s: string, sep: char)
    ensures Join(Split(s, sep), sep) == s
    decreases |s|
  {
    if |s| > 0 {
      var rest := Split(s[1..], sep);
      JoinSplit(s[1..], sep);
      if s[0] == sep {
        assert Split(s, sep) == [""] + rest;
        assert ([""] + rest)[1..] == rest;
      } else {
        var parts := Split(s, sep);
        assert parts == [[s[0]] + rest[0]] + rest[1..];
        if |rest| == 1 {
          assert parts == [[s[0]] + rest[0]];
        } else {
          assert parts[1..] == rest[1..];
          assert Join(rest, sep) == rest[0] + [sep] + Join(rest[1..], sep);
        }
      }
    }
  }

  /** And splitting the joined pieces gives them back, as long as no piece
      holds the separator. */
  lemma {:induction false} SplitJoin(parts: seq<string>, sep: char)
    requires |parts| >= 1
    requires forall i :: 0 <= i < |parts| ==> sep !in parts[i]
    ensures Split(Join(parts, sep), sep) == parts
    decreases |parts|, |parts[0]|
  {
    if |parts[0]| > 0 {
      var first := parts[0];
      var tail := [first[1..]] + parts[1..];
      TailFree(parts, sep);
      SplitJoin(tail, sep);
      var joined := Join(parts, sep);
      JoinFirstChar(parts, sep);
      assert joined[1..] == Join(tail, sep);
      assert Split(joined, sep) == [[first[0]] + tail[0]] + tail[1..];
      assert tail[1..] == parts[1..];
      assert [first[0]] + tail[0] == first;
      assert parts == [first] + parts[1..];
    } else if |parts| > 1 {
      SplitJoin(parts[1..], sep);
      var joined := Join(parts, sep);
      assert joined == [sep] + Join(parts[1..], sep);
      assert joined[1..] == Join(parts[1..], sep);
      assert parts == [""] + parts[1..];
    }
  }

  /** Dropping the first character of the first piece keeps the pieces
      free of the separator. */
  lemma TailFree(parts: seq<string>, sep: char)
    requires |parts| >= 1 && |parts[0]| > 0
    requires forall i :: 0 <= i < |parts| ==> sep !in parts[i]
    ensures forall i :: 0 <= i < |[parts[0][1..]] + parts[1..]| ==> sep !in ([parts[0][1..]] + parts[1..])[i]
  {
    var tail := [parts[0][1..]] + parts[1..];
    forall i | 0 <= i < |tail| ensures sep !in tail[i] {
      if i == 0 {
        assert forall c :: c in parts[0][1..] ==> c in parts[0];
      } else {
        assert tail[i] == parts[i];
      }
    }
  }

  /** Joining starts with the first character of the first piece, followed
      by the join of the pieces without it. */
  lemma JoinFirstChar(parts: seq<string>, sep: char)
    requires |parts| >= 1 && |parts[0]| > 0
    ensures Join(parts, sep) == [parts[0][0]] + Join([parts[0][1..]] + parts[1..], sep)
  {
    var first := parts[0];
    var tail := [first[1..]] + parts[1..];
    assert first == [first[0]] + first[1..];
    assert tail[1..] == parts[1..];
    if |parts| > 1 {
      assert Join(parts, sep) == first + [sep] + Join(parts[1..], sep);
      assert Join(tail, sep) == first[1..] + [sep] + Join(parts[1..], sep);
    }
  }
}
