/** The handful of JavaScript built-ins the portfolio's handlers and components
    rely on, stated over Dafny strings: optional (possibly `undefined`) values and
    their truthiness, `String.prototype.trim`, the `\s` class of regular
    expressions, and the global `replace(/\n/g, '<br>')` rewrite; plus the
    "no element repeats" predicate that several lists of the site are held to. */
module Js {

  /** No element of the list occurs twice. */
  predicate Distinct<T(==)>(s: seq<T>) {
    forall i, j | 0 <= i < j < |s| :: s[i] != s[j]
  }

  /** `undefined` (None) or a value. */
  datatype Option<T> = None | Some(value: T)

  /** JavaScript truthiness of a value that is a string or `undefined`:
      only `undefined` and the empty string are falsy. */
  predicate Truthy(v: Option<string>) {
    v.Some? && v.value != ""
  }

  /** `a || b` on an optional string. */
  function OrElse(v: Option<string>, fallback: string): (r: string)
    ensures Truthy(v) ==> r == v.value
    ensures !Truthy(v) ==> r == fallback
  {
    if Truthy(v) then v.value else fallback
  }

  /** How a template literal renders an optional string (`${undefined}` is "undefined"). */
  function Show(v: Option<string>): string {
    if v.Some? then v.value else "undefined"
  }

  /** The characters that `trim` removes and that `\s` matches: ECMAScript
      WhiteSpace (tab, vertical tab, form feed, space, no-break space, byte order
      mark and the Zs space separators) and LineTerminator (LF, CR, LS, PS). */
  predicate IsWhitespace(c: char) {
    c == '\t' || c == '\n' || c == '\U{000B}' || c == '\U{000C}' || c == '\r' || c == ' ' ||
    c == '\U{00A0}' || c == '\U{1680}' || ('\U{2000}' <= c <= '\U{200A}') ||
    c == '\U{2028}' || c == '\U{2029}' || c == '\U{202F}' || c == '\U{205F}' ||
    c == '\U{3000}' || c == '\U{FEFF}'
  }

  predicate AllWhitespace(s: string) {
    forall i :: 0 <= i < |s| ==> IsWhitespace(s[i])
  }

  predicate NoWhitespace(s: string) {
    forall i :: 0 <= i < |s| ==> !IsWhitespace(s[i])
  }

  /** Drops the leading whitespace (the first half of `trim`). */
  function TrimStart(s: string): string {
    if s != [] && IsWhitespace(s[0]) then TrimStart(s[1..]) else s
  }

  /** Drops the trailing whitespace (the second half of `trim`). */
  function TrimEnd(s: string): string {
    if s != [] && IsWhitespace(s[|s| - 1]) then TrimEnd(s[..|s| - 1]) else s
  }

  /** `String.prototype.trim`. */
  function Trim(s: string): (r: string)
    ensures |r| <= |s|
  {
    TrimStartSpec(s);
    TrimEndSpec(TrimStart(s));
    TrimEnd(TrimStart(s))
  }

  /** `TrimStart` keeps a suffix that does not start with whitespace and drops only whitespace. */
  lemma {:induction false} TrimStartSpec(s: string)
    ensures |TrimStart(s)| <= |s| && TrimStart(s) == s[|s| - |TrimStart(s)|..]
    ensures TrimStart(s) == [] || !IsWhitespace(TrimStart(s)[0])
    ensures AllWhitespace(s[..|s| - |TrimStart(s)|])
  {
    if s != [] && IsWhitespace(s[0]) {
      var t := s[1..];
      var r := TrimStart(t);
      TrimStartSpec(t);
      var n := |t| - |r|;
      assert t[n..] == s[n + 1..];
      assert s[..n + 1] == [s[0]] + t[..n];
      AllWhitespaceCons(s[0], t[..n]);
    }
  }

  /** Whitespace in front of a run of whitespace is a run of whitespace. */
  lemma AllWhitespaceCons(c: char, p: string)
    requires IsWhitespace(c) && AllWhitespace(p)
    ensures AllWhitespace([c] + p)
  {
    forall k | 0 <= k < |[c] + p|
      ensures IsWhitespace(([c] + p)[k])
    {
      if k > 0 {
        assert ([c] + p)[k] == p[k - 1];
      }
    }
  }

  /** `TrimEnd` keeps a prefix that does not end with whitespace and drops only whitespace. */
  lemma {:induction false} TrimEndSpec(s: string)
    ensures |TrimEnd(s)| <= |s| && TrimEnd(s) == s[..|TrimEnd(s)|]
    ensures TrimEnd(s) == [] || !IsWhitespace(TrimEnd(s)[|TrimEnd(s)| - 1])
    ensures AllWhitespace(s[|TrimEnd(s)|..])
  {
    if s != [] && IsWhitespace(s[|s| - 1]) {
      var r := TrimEnd(s[..|s| - 1]);
      TrimEndSpec(s[..|s| - 1]);
      assert s[..|s| - 1][..|r|] == s[..|r|];
      forall k | |r| <= k < |s| ensures IsWhitespace(s[k]) {
        if k < |s| - 1 {
          assert s[k] == s[..|s| - 1][|r|..][k - |r|];
        }
      }
    }
  }

  /** Leading whitespace in front of a non-whitespace character is exactly what
      `TrimStart` drops. */
  lemma {:induction false} TrimStartDropsPadding(pre: string, rest: string)
    requires AllWhitespace(pre) && rest != [] && !IsWhitespace(rest[0])
    ensures TrimStart(pre + rest) == rest
  {
    if pre != [] {
      assert (pre + rest)[1..] == pre[1..] + rest;
      TrimStartDropsPadding(pre[1..], rest);
    }
  }

  /** Trailing whitespace after a non-whitespace character is exactly what
      `TrimEnd` drops. */
  lemma {:induction false} TrimEndDropsPadding(rest: string, post: string)
    requires AllWhitespace(post) && rest != [] && !IsWhitespace(rest[|rest| - 1])
    ensures TrimEnd(rest + post) == rest
  {
    if post != [] {
      var n := |post| - 1;
      assert (rest + post)[..|rest + post| - 1] == rest + post[..n];
      TrimEndDropsPadding(rest, post[..n]);
    } else {
      assert rest + post == rest;
    }
  }

  /** `trim` of a text padded with whitespace on both sides gives back the text. */
  lemma TrimPadded(pre: string, core: string, post: string)
    requires AllWhitespace(pre) && AllWhitespace(post)
    requires core != [] && !IsWhitespace(core[0]) && !IsWhitespace(core[|core| - 1])
    ensures Trim(pre + core + post) == core
  {
    assert pre + core + post == pre + (core + post);
    TrimStartDropsPadding(pre, core + post);
    TrimEndDropsPadding(core, post);
  }

  /** `!s.trim()`: the string is empty once trimmed. */
  predicate IsBlank(s: string) {
    Trim(s) == ""
  }

  /** Trimming keeps a contiguous slice of the input that neither starts nor ends
      with whitespace, and everything cut off on either side is whitespace. */
  lemma TrimIsInnerSlice(s: string)
    ensures exists a, b :: 0 <= a <= b <= |s| && Trim(s) == s[a..b]
                           && AllWhitespace(s[..a]) && AllWhitespace(s[b..])
    ensures Trim(s) == [] || (!IsWhitespace(Trim(s)[0]) && !IsWhitespace(Trim(s)[|Trim(s)| - 1]))
  {
    var t := TrimStart(s);
    var a := |s| - |t|;
    var r := TrimEnd(t);
    var b := a + |r|;
    TrimStartSpec(s);
    TrimEndSpec(t);
    assert r == s[a..b];
    assert s[b..] == t[|r|..];
    assert Trim(s) == s[a..b] && AllWhitespace(s[..a]) && AllWhitespace(s[b..]);
  }

  /** Leading-trimming a string of whitespace leaves nothing. */
  lemma {:induction false} TrimStartOfWhitespace(s: string)
    requires AllWhitespace(s)
    ensures TrimStart(s) == []
  {
    if s != [] {
      assert IsWhitespace(s[0]);
      assert AllWhitespace(s[1..]) by {
        forall i | 0 <= i < |s[1..]|
          ensures IsWhitespace(s[1..][i])
        {
          assert s[1..][i] == s[i + 1];
        }
      }
      TrimStartOfWhitespace(s[1..]);
    }
  }

  /** A string is blank exactly when every one of its characters is whitespace. */
  lemma {:induction false} BlankIffAllWhitespace(s: string)
    ensures IsBlank(s) <==> AllWhitespace(s)
  {
    var t := TrimStart(s);
    TrimStartSpec(s);
    TrimEndSpec(t);
    if AllWhitespace(s) {
      TrimStartOfWhitespace(s);
      assert TrimEnd([]) == [];
    } else {
      var i :| 0 <= i < |s| && !IsWhitespace(s[i]);
      if i >= |s| - |t| {
        assert t[i - (|s| - |t|)] == s[i];
      }
    }
  }

  /** Trimming is idempotent. */
  lemma TrimIdempotent(s: string)
    ensures Trim(Trim(s)) == Trim(s)
  {
    var r := Trim(s);
    TrimIsInnerSlice(s);
    if r != [] {
      assert TrimStart(r) == r;
      assert TrimEnd(r) == r;
    } else {
      assert TrimStart(r) == r;
    }
  }

  /** Number of occurrences of `c` in `s`. */
  function Count(s: string, c: char): nat {
    if s == [] then 0 else (if s[0] == c then 1 else 0) + Count(s[1..], c)
  }

  /** `s.length`: JavaScript strings are UTF-16, so a character outside the Basic
      Multilingual Plane (an emoji, say) is a surrogate pair and counts twice. */
  function Utf16Length(s: string): (n: nat)
    ensures |s| <= n <= 2 * |s|
  {
    if s == [] then 0 else (if s[0] > '\U{FFFF}' then 2 else 1) + Utf16Length(s[1..])
  }

  /** For text within the Basic Multilingual Plane the two counts agree. */
  lemma {:induction false} Utf16LengthOfBmp(s: string)
    requires forall i :: 0 <= i < |s| ==> s[i] <= '\U{FFFF}'
    ensures Utf16Length(s) == |s|
  {
    if s != [] {
      Utf16LengthOfBmp(s[1..]);
    }
  }

  /** Five emoji are five characters but ten UTF-16 code units. */
  lemma FiveEmojiAreTenUnits()
    ensures |"\U{1F600}\U{1F600}\U{1F600}\U{1F600}\U{1F600}"| == 5
    ensures Utf16Length("\U{1F600}\U{1F600}\U{1F600}\U{1F600}\U{1F600}") == 10
  {
    var e := "\U{1F600}\U{1F600}\U{1F600}\U{1F600}\U{1F600}";
    assert e[1..][1..][1..][1..][1..] == [];
  }

  /** `s.replace(/\n/g, '<br>')`: every line feed becomes the four characters `<br>`. */
  function BreakLines(s: string): string {
    if s == [] then ""
    else (if s[0] == '\n' then "<br>" else [s[0]]) + BreakLines(s[1..])
  }

  /** The rewritten text has no line feed left in it. */
  lemma {:induction false} BreakLinesRemovesNewlines(s: string)
    ensures '\n' !in BreakLines(s)
  {
    if s != [] {
      BreakLinesRemovesNewlines(s[1..]);
      var head := if s[0] == '\n' then "<br>" else [s[0]];
      assert '\n' !in head;
    }
  }

  /** Each line feed grows the text by exactly three characters. */
  lemma {:induction false} BreakLinesLength(s: string)
    ensures |BreakLines(s)| == |s| + 3 * Count(s, '\n')
  {
    if s != [] {
      BreakLinesLength(s[1..]);
    }
  }

  /** Text without a line feed is left untouched. */
  lemma {:induction false} BreakLinesIdentity(s: string)
    requires '\n' !in s
    ensures BreakLines(s) == s
  {
    if s != [] {
      assert s[0] != '\n';
      BreakLinesIdentity(s[1..]);
      assert [s[0]] + s[1..] == s;
    }
  }

  /** The rewrite distributes over concatenation, so it acts line by line. */
  lemma {:induction false} BreakLinesAppend(s: string, t: string)
    ensures BreakLines(s + t) == BreakLines(s) + BreakLines(t)
  {
    if s == [] {
      assert s + t == t;
    } else {
      assert (s + t)[0] == s[0];
      assert (s + t)[1..] == s[1..] + t;
      BreakLinesAppend(s[1..], t);
    }
  }
}
