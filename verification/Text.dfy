/** Searching in strings, as the server does it. */
module Text {
  import opened Basics

  const CRLF: string := "\r\n"

  predicate CrlfAt(s: string, i: nat) {
    i + 1 < |s| && s[i] == '\r' && s[i + 1] == '\n'
  }

  /** An empty line: the line break that ends the last field, followed by another one. */
  predicate HeadEndAt(s: string, i: nat) {
    CrlfAt(s, i) && CrlfAt(s, i + 2)
  }

  predicate NoCrlf(s: string) {
    forall i: nat | i < |s| :: !CrlfAt(s, i)
  }

  /** The first line break at or after `i`. */
  function CrlfFrom(s: string, i: nat): (r: Option<nat>)
    requires i <= |s|
    ensures r.Some? ==> i <= r.value && CrlfAt(s, r.value) && forall k: nat | i <= k < r.value :: !CrlfAt(s, k)
    ensures r.None? ==> forall k: nat | i <= k :: !CrlfAt(s, k)
    decreases |s| - i
  {
    if i == |s| then None else if CrlfAt(s, i) then Some(i) else CrlfFrom(s, i + 1)
  }

  /** find("\r\n") */
  function FindCrlf(s: string): (r: Option<nat>)
    ensures r.Some? ==> CrlfAt(s, r.value) && forall k: nat | k < r.value :: !CrlfAt(s, k)
    ensures r.None? ==> forall k: nat :: !CrlfAt(s, k)
  {
    CrlfFrom(s, 0)
  }

  function HeadEndFrom(s: string, i: nat): (r: Option<nat>)
    requires i <= |s|
    ensures r.Some? ==> i <= r.value && HeadEndAt(s, r.value) && forall k: nat | i <= k < r.value :: !HeadEndAt(s, k)
    ensures r.None? ==> forall k: nat | i <= k :: !HeadEndAt(s, k)
    decreases |s| - i
  {
    if i == |s| then None else if HeadEndAt(s, i) then Some(i) else HeadEndFrom(s, i + 1)
  }

  /** find("\r\n\r\n") */
  function FindHeadEnd(s: string): (r: Option<nat>)
    ensures r.Some? ==> HeadEndAt(s, r.value) && forall k: nat | k < r.value :: !HeadEndAt(s, k)
    ensures r.None? ==> forall k: nat :: !HeadEndAt(s, k)
  {
    HeadEndFrom(s, 0)
  }

  predicate Lacks(s: string, c: char) {
    forall i | 0 <= i < |s| :: s[i] != c
  }

  function CharFrom(s: string, c: char, i: nat): (r: Option<nat>)
    requires i <= |s|
    ensures r.Some? ==> i <= r.value < |s| && s[r.value] == c
    decreases |s| - i
  {
    if i == |s| then None else if s[i] == c then Some(i) else CharFrom(s, c, i + 1)
  }

  /** find(c) */
  function FindChar(s: string, c: char): (r: Option<nat>)
    ensures r.Some? ==> r.value < |s| && s[r.value] == c
  {
    CharFrom(s, c, 0)
  }

  lemma {:induction false} CharFromFirst(s: string, c: char, i: nat)
    requires i <= |s|
    ensures var r := CharFrom(s, c, i);
            forall k | i <= k < (if r.Some? then r.value else |s|) :: s[k] != c
    decreases |s| - i
  {
    if i < |s| && s[i] != c { CharFromFirst(s, c, i + 1); }
  }

  /** No earlier character is the one found. */
  lemma FindCharFirst(s: string, c: char)
    ensures var r := FindChar(s, c);
            if r.Some? then Lacks(s[..r.value], c) else Lacks(s, c)
    ensures FindChar(s, c).Some? ==> forall k | 0 <= k < FindChar(s, c).value :: s[k] != c
  {
    CharFromFirst(s, c, 0);
  }

  function Spaces(n: nat): (r: string)
    ensures |r| == n && forall i | 0 <= i < n :: r[i] == ' '
  {
    seq(n, _ => ' ')
  }

  function NonSpaceFrom(s: string, i: nat): (r: Option<nat>)
    requires i <= |s|
    ensures r.Some? ==> i <= r.value < |s| && s[r.value] != ' '
    decreases |s| - i
  {
    if i == |s| then None else if s[i] != ' ' then Some(i) else NonSpaceFrom(s, i + 1)
  }

  /** find_first_not_of(' ') */
  function FirstNonSpace(s: string): (r: Option<nat>)
    ensures r.Some? ==> r.value < |s| && s[r.value] != ' '
  {
    NonSpaceFrom(s, 0)
  }

  lemma {:induction false} NonSpaceFromFirst(s: string, i: nat)
    requires i <= |s|
    ensures var r := NonSpaceFrom(s, i);
            forall k | i <= k < (if r.Some? then r.value else |s|) :: s[k] == ' '
    decreases |s| - i
  {
    if i < |s| && s[i] == ' ' { NonSpaceFromFirst(s, i + 1); }
  }

  /** All earlier characters are spaces. */
  lemma OnlySpacesBefore(s: string)
    ensures var r := FirstNonSpace(s);
            forall k | 0 <= k < (if r.Some? then r.value else |s|) :: s[k] == ' '
    ensures FirstNonSpace(s).Some? ==> s[..FirstNonSpace(s).value] == Spaces(FirstNonSpace(s).value)
  {
    NonSpaceFromFirst(s, 0);
  }

  /** The searches are determined by what they return. */
  lemma FindCrlfIs(s: string, i: nat)
    requires CrlfAt(s, i) && forall k: nat | k < i :: !CrlfAt(s, k)
    ensures FindCrlf(s) == Some(i)
  {
  }

  lemma FindHeadEndIs(s: string, i: nat)
    requires HeadEndAt(s, i) && forall k: nat | k < i :: !HeadEndAt(s, k)
    ensures FindHeadEnd(s) == Some(i)
  {
  }

  lemma FindCharIs(s: string, c: char, i: nat)
    requires i < |s| && s[i] == c && forall k | 0 <= k < i :: s[k] != c
    ensures FindChar(s, c) == Some(i)
  {
    FindCharFirst(s, c);
  }

  lemma FindCharNone(s: string, c: char)
    requires Lacks(s, c)
    ensures FindChar(s, c) == None
  {
  }

  lemma FirstNonSpaceIs(s: string, i: nat)
    requires i < |s| && s[i] != ' ' && forall k | 0 <= k < i :: s[k] == ' '
    ensures FirstNonSpace(s) == Some(i)
  {
    OnlySpacesBefore(s);
  }

  /** A text without line breaks, ended by one: that one is the first. */
  lemma LineEnd(content: string, rest: string)
    requires NoCrlf(content)
    ensures FindCrlf(content + CRLF + rest) == Some(|content|)
  {
    var s := content + CRLF + rest;
    forall k: nat | k < |content| ensures !CrlfAt(s, k) {
      assert !CrlfAt(content, k);
      if k + 1 == |content| { assert s[k + 1] == '\r'; }
    }
    assert s[|content|] == '\r' && s[|content| + 1] == '\n';
    FindCrlfIs(s, |content|);
  }

  function Take(s: string, n: nat): string {
    if n <= |s| then s[..n] else s
  }

  function Drop(s: string, n: nat): string {
    if n <= |s| then s[n..] else ""
  }

  /** The concatenation of chunks. */
  function Concat(chunks: seq<string>): string {
    if |chunks| == 0 then "" else Concat(chunks[..|chunks| - 1]) + chunks[|chunks| - 1]
  }

  lemma {:induction false} ConcatPrefix(chunks: seq<string>, n: nat)
    requires n <= |chunks|
    ensures Concat(chunks[..n]) <= Concat(chunks)
    decreases |chunks|
  {
    if n < |chunks| {
      var m := |chunks| - 1;
      ConcatPrefix(chunks[..m], n);
      assert chunks[..m][..n] == chunks[..n];
    } else {
      assert chunks[..n] == chunks;
    }
  }
}
