/** Reading one cookie out of the browser's cookie string
    (`getCookie` in frontend/common.js): the string is split on ';', each
    entry is trimmed, and the first entry that begins with the name followed
    by '=' gives the value, passed through `decodeURIComponent`. The cookie
    string and the decoding function are parameters. */
module Cookie {
  import opened Wrappers
  import opened Text

  /** The code points that `String.prototype.trim` removes: the ECMAScript
      WhiteSpace (tab, vertical tab, form feed, space, no-break space, the
      byte order mark and the other space separators) and LineTerminator
      (line feed, carriage return, line and paragraph separators). */
  predicate JsSpace(c: char)
  {
    c == '\t' || c == '\U{000B}' || c == '\U{000C}' || c == ' ' || c == '\U{00A0}'
    || c == '\U{FEFF}' || c == '\U{1680}' || ('\U{2000}' <= c <= '\U{200A}')
    || c == '\U{202F}' || c == '\U{205F}' || c == '\U{3000}'
    || c == '\n' || c == '\r' || c == '\U{2028}' || c == '\U{2029}'
  }

  /** The number of space characters at the start of `s`. */
  function LeadingSpaces(s: string): (n: nat)
    ensures n <= |s|
    ensures forall k :: 0 <= k < n ==> JsSpace(s[k])
    ensures n < |s| ==> !JsSpace(s[n])
    decreases |s|
  {
    if |s| == 0 || !JsSpace(s[0]) then 0 else 1 + LeadingSpaces(s[1..])
  }

  /** The number of space characters at the end of `s`. */
  function TrailingSpaces(s: string): (n: nat)
    ensures n <= |s|
    ensures forall k :: |s| - n <= k < |s| ==> JsSpace(s[k])
    ensures n < |s| ==> !JsSpace(s[|s| - n - 1])
    decreases |s|
  {
    if |s| == 0 || !JsSpace(s[|s| - 1]) then 0 else 1 + TrailingSpaces(s[..|s| - 1])
  }

  /** `s.trim()`: the slice of `s` between its leading and trailing spaces. */
  function Trim(s: string): (r: string)
    ensures |r| <= |s|
    ensures |r| > 0 ==> !JsSpace(r[0]) && !JsSpace(r[|r| - 1])
    ensures LeadingSpaces(s) + |r| <= |s|
    ensures r == s[LeadingSpaces(s)..LeadingSpaces(s) + |r|]
    ensures forall k :: 0 <= k < |s| && !(LeadingSpaces(s) <= k < LeadingSpaces(s) + |r|) ==> JsSpace(s[k])
  {
    var lead := LeadingSpaces(s);
    var t := s[lead..];
    var trail := TrailingSpaces(t);
    assert forall k :: lead + |t| - trail <= k < |s| ==> s[k] == t[k - lead];
    t[..|t| - trail]
  }

  /** Trimming twice trims nothing more. */
  lemma TrimIdempotent(s: string)
    ensures Trim(Trim(s)) == Trim(s)
  {
    var r := Trim(s);
    if |r| > 0 {
      assert LeadingSpaces(r) == 0;
      assert TrailingSpaces(r) == 0;
    }
  }

  /** A string trims to nothing exactly when it is all spaces. */
  lemma TrimEmpty(s: string)
    ensures Trim(s) == "" <==> forall k :: 0 <= k < |s| ==> JsSpace(s[k])
  {
    if forall k :: 0 <= k < |s| ==> JsSpace(s[k]) {
      assert LeadingSpaces(s) == |s|;
    }
  }

  /** `min(max(x, 0), n)`: how `substring` clamps an index. */
  function Clamp(x: int, n: nat): (r: nat)
    ensures r <= n
    ensures 0 <= x <= n ==> r == x
  {
    if x < 0 then 0 else if x > n then n else x
  }

  /** `s.substring(start, end)`: both indices are clamped to the string,
      and swapped when the first is the larger. */
  function Substring(s: string, start: int, end: int): (r: string)
    ensures 0 <= start <= end <= |s| ==> r == s[start..end]
    ensures 0 <= start <= |s| <= end ==> r == s[start..]
    ensures |r| <= |s|
  {
    var a := Clamp(start, |s|);
    var b := Clamp(end, |s|);
    if a <= b then s[a..b] else s[b..a]
  }

  /** `cookie.substring(0, name.length + 1) === (name + "=")`: an exact
      prefix test, the entry starts with the name and '='. */
  predicate Matches(entry: string, name: string)
    ensures Matches(entry, name) <==> |name| + 1 <= |entry| && entry[..|name| + 1] == name + "="
  {
    var head := Substring(entry, 0, |name| + 1);
    assert |entry| < |name| + 1 ==> |head| == |entry| < |name + "="|;
    head == name + "="
  }

  /** A cookie whose name only begins with `name` ("csrftokenX" for
      "csrftoken") is not taken for it. */
  lemma LongerNameNoMatch(entry: string, name: string, other: string)
    requires |other| > |name| && other[..|name|] == name && other[|name|] != '='
    requires |other| < |entry| && entry[..|other|] == other
    ensures !Matches(entry, name)
  {
    assert entry[|name|] == other[|name|] != '=';
    assert (name + "=")[|name|] == '=';
  }

  /** The index of the first matching entry, as the `for ... of` loop with
      `break` finds it. */
  ghost predicate FirstMatch(entries: seq<string>, name: string, k: int)
  {
    0 <= k < |entries| && Matches(Trim(entries[k]), name)
    && forall j :: 0 <= j < k ==> !Matches(Trim(entries[j]), name)
  }

  /** No entry matches. */
  ghost predicate NoMatch(entries: seq<string>, name: string)
  {
    forall k :: 0 <= k < |entries| ==> !Matches(Trim(entries[k]), name)
  }

  lemma NoMatchStep(entries: seq<string>, name: string, i: nat)
    requires i < |entries| && NoMatch(entries[..i], name) && !Matches(Trim(entries[i]), name)
    ensures NoMatch(entries[..i + 1], name)
  {
    assert forall k :: 0 <= k < i ==> entries[..i + 1][k] == entries[..i][k];
  }

  lemma FoundFirst(entries: seq<string>, name: string, i: nat)
    requires i < |entries| && NoMatch(entries[..i], name) && Matches(Trim(entries[i]), name)
    ensures FirstMatch(entries, name, i) && !NoMatch(entries, name)
  {
    assert forall k :: 0 <= k < i ==> entries[k] == entries[..i][k];
  }

  /** The value of the matching entry: the text after the name and '=', decoded. */
  function ValueOf(entry: string, name: string, decode: string -> string): (r: string)
    ensures Matches(Trim(entry), name) ==> r == decode(Trim(entry)[|name| + 1..])
    ensures !Matches(Trim(entry), name) && |name| + 1 >= |Trim(entry)| ==> r == decode("")
  {
    decode(Substring(Trim(entry), |name| + 1, |Trim(entry)|))
  }

  /** `getCookie(name)` with `document.cookie` as `cookie`; `undefined`
      is `None`. An empty cookie string is falsy and gives `None`; otherwise
      the first entry whose trimmed text starts with `name` and '=' gives its
      decoded value, and there is no value when no entry does. */
  method GetCookie(cookie: string, name: string, decode: string -> string) returns (cookieValue: Option<string>)
    ensures cookieValue.None? <==> cookie == "" || NoMatch(Split(cookie, ';'), name)
    ensures cookieValue.Some? ==>
      exists k :: FirstMatch(Split(cookie, ';'), name, k)
        && cookieValue.value == ValueOf(Split(cookie, ';')[k], name, decode)
  {
    cookieValue := None;
    if cookie != "" {
      var cookies := Split(cookie, ';');
      var i := 0;
      while i < |cookies|
        invariant 0 <= i <= |cookies|
        invariant NoMatch(cookies[..i], name)
        decreases |cookies| - i
      {
        var entry := Trim(cookies[i]);
        if Substring(entry, 0, |name| + 1) == name + "=" {
          cookieValue := Some(decode(Substring(entry, |name| + 1, |entry|)));
          FoundFirst(cookies, name, i);
          return;
        }
        NoMatchStep(cookies, name, i);
        i := i + 1;
      }
      assert cookies[..i] == cookies;
    }
  }

  /** The value may itself hold '=': only the first `name=` is cut off. */
  lemma ValueAfterName(entry: string, name: string, value: string, decode: string -> string)
    requires Trim(entry) == name + "=" + value
    ensures Matches(Trim(entry), name)
    ensures ValueOf(entry, name, decode) == decode(value)
  {
    var t := Trim(entry);
    assert t[..|name| + 1] == name + "=";
    assert t[|name| + 1..] == value;
  }
}
