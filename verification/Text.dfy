/** String operations of the source language's standard library that the text
    algorithms rest on, with the facts about them those algorithms need.
    Strings are sequences of characters. */
module Text {

  datatype Option<+T> = None | Some(value: T)

  /** `pat` occurs in `s` at position `i`. */
  ghost predicate At(s: string, pat: string, i: int)
  {
    0 <= i <= |s| && pat <= s[i..]
  }

  /** `pat` occurs in `s`. */
  ghost predicate Within(pat: string, s: string)
  {
    exists i :: At(s, pat, i)
  }

  /** The position of the leftmost occurrence of `pat`. */
  function Find(s: string, pat: string): (r: Option<nat>)
    ensures r.Some? ==> At(s, pat, r.value) && r.value + |pat| <= |s|
    ensures r.Some? ==> forall i :: At(s, pat, i) ==> r.value <= i
    ensures r.None? ==> !Within(pat, s)
  {
    if pat <= s then
      assert s[0..] == s;
      Some(0)
    else if s == "" then
      assert forall i :: At(s, pat, i) ==> s[i..] == s;
      None
    else
      var rest := Find(s[1..], pat);
      assert forall i :: At(s, pat, i) ==> i > 0 && s[i..] == s[1..][i - 1..] && At(s[1..], pat, i - 1) by {
        assert s[0..] == s;
      }
      assert rest.Some? ==> s[1..][rest.value..] == s[rest.value + 1..];
      if rest.None? then None else Some(rest.value + 1)
  }

  /** The position of the first character `c`. */
  function IndexOf(s: string, c: char): (r: Option<nat>)
    ensures r.Some? ==> r.value < |s| && s[r.value] == c && c !in s[..r.value]
    ensures r.None? ==> c !in s
  {
    if s == "" then None
    else if s[0] == c then Some(0)
    else match IndexOf(s[1..], c)
         case None => None
         case Some(k) =>
           assert s[..k + 1] == [s[0]] + s[1..][..k];
           Some(k + 1)
  }

  lemma {:induction false} IndexOfFirst(head: string, c: char, tail: string)
    requires c !in head
    ensures IndexOf(head + [c] + tail, c) == Some(|head|)
  {
    if head != "" {
      assert (head + [c] + tail)[1..] == head[1..] + [c] + tail;
      IndexOfFirst(head[1..], c, tail);
    }
  }

  /** All occurrences of `pat`, leftmost first and without overlap, become `with`. */
  function Replace(s: string, pat: string, with: string): string
    requires pat != ""
  {
    if s == "" then ""
    else if pat <= s then with + Replace(s[|pat|..], pat, with)
    else [s[0]] + Replace(s[1..], pat, with)
  }

  /** The pieces of `s` between occurrences of `sep`. */
  function Split(s: string, sep: char): (parts: seq<string>)
    ensures |parts| >= 1
    ensures forall p :: p in parts ==> sep !in p
    ensures Join(parts, sep) == s
    ensures sep in s <==> |parts| >= 2
  {
    if s == "" then [""]
    else
      var rest := Split(s[1..], sep);
      if s[0] == sep then
        assert ([""] + rest)[1..] == rest;
        [""] + rest
      else
        var parts := [[s[0]] + rest[0]] + rest[1..];
        assert parts[1..] == rest[1..];
        parts
  }

  function Join(parts: seq<string>, sep: char): string
    requires |parts| >= 1
  {
    if |parts| == 1 then parts[0] else parts[0] + [sep] + Join(parts[1..], sep)
  }

  /** Splitting stops at the first separator. */
  lemma {:induction false} SplitAtFirst(head: string, sep: char, tail: string)
    requires sep !in head
    ensures Split(head + [sep] + tail, sep) == [head] + Split(tail, sep)
  {
    var s := head + [sep] + tail;
    if head == "" {
      assert s[1..] == tail;
    } else {
      var t := head[1..] + [sep] + tail;
      assert s[1..] == t && s[0] == head[0];
      SplitAtFirst(head[1..], sep, tail);
      assert Split(t, sep)[0] == head[1..] && Split(t, sep)[1..] == Split(tail, sep);
      assert [head[0]] + head[1..] == head;
    }
  }

  /** Splitting text without a separator gives that text alone. */
  lemma {:induction false} SplitNone(s: string, sep: char)
    requires sep !in s
    ensures Split(s, sep) == [s]
  {
    if s != "" {
      SplitNone(s[1..], sep);
    }
  }

  predicate IsWhite(c: char) { c in {' ', '\t', '\n', '\r', '\U{B}', '\U{C}'} }

  function TrimStart(s: string): string
  {
    if s != "" && IsWhite(s[0]) then TrimStart(s[1..]) else s
  }

  function TrimEnd(s: string): string
  {
    if s != "" && IsWhite(s[|s| - 1]) then TrimEnd(s[..|s| - 1]) else s
  }

  function Trim(s: string): string { TrimEnd(TrimStart(s)) }

  lemma TrimShortens(s: string)
    ensures |Trim(s)| <= |s|
  {
    TrimStartShortens(s);
    TrimEndShortens(TrimStart(s));
  }

  lemma TrimStartShortens(s: string)
    ensures |TrimStart(s)| <= |s|
  {}

  lemma TrimEndShortens(s: string)
    ensures |TrimEnd(s)| <= |s|
  {}

  function LowerChar(c: char): char
  {
    if 'A' <= c <= 'Z' then (c as int + 32) as char else c
  }

  /** ASCII lower-casing, the only case folding the source uses. */
  function Lower(s: string): (l: string)
    ensures |l| == |s|
  {
    if s == "" then "" else [LowerChar(s[0])] + Lower(s[1..])
  }

  predicate EqIgnoreCase(a: string, b: string) { Lower(a) == Lower(b) }
}
