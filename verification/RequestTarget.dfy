/** The request line and the target inside it. */
module RequestTarget {
  import opened Basics
  import opened Text

  // ---------------------------------------------------------------- the request line

  datatype RequestLine = RequestLine(method_: string, path: string, version: string)

  function LineText(v: RequestLine): string {
    v.method_ + " " + v.path + " " + v.version
  }

  /** Cut at the first two spaces; the version is all that remains. */
  function ParseRequestLine(line: string): (r: Option<RequestLine>)
    ensures r.Some? ==> LineText(r.value) == line && Lacks(r.value.method_, ' ') && Lacks(r.value.path, ' ')
  {
    match FindChar(line, ' ')
    case None => None
    case Some(i) =>
      var sv := line[i + 1..];
      match FindChar(sv, ' ')
      case None => None
      case Some(j) =>
        TwoCuts(line, i, j);
        FindCharFirst(line, ' ');
        FindCharFirst(sv, ' ');
        Some(RequestLine(line[..i], sv[..j], sv[j + 1..]))
  }

  lemma CutAt(s: string, i: nat)
    requires i < |s| && s[i] == ' '
    ensures s == s[..i] + " " + s[i + 1..]
  {
  }

  lemma TwoCuts(line: string, i: nat, j: nat)
    requires i < |line| && line[i] == ' ' && j < |line[i + 1..]| && line[i + 1..][j] == ' '
    ensures var sv := line[i + 1..]; line == line[..i] + " " + sv[..j] + " " + sv[j + 1..]
  {
    CutAt(line, i);
    CutAt(line[i + 1..], j);
    Flatten(line[..i], line[i + 1..][..j], line[i + 1..][j + 1..]);
  }

  lemma Flatten(a: string, b: string, c: string)
    ensures a + " " + (b + " " + c) == a + " " + b + " " + c
  {
  }

  /** The parser inverts printing: a line is accepted with result `v` exactly when it is `v` printed and neither the
      method nor the path holds a space. */
  lemma RequestLineExact(line: string, v: RequestLine)
    ensures ParseRequestLine(line) == Some(v) <==> line == LineText(v) && Lacks(v.method_, ' ') && Lacks(v.path, ' ')
  {
    if line == LineText(v) && Lacks(v.method_, ' ') && Lacks(v.path, ' ') {
      var sv := v.path + " " + v.version;
      assert line == v.method_ + " " + sv;
      FirstWord(line, v.method_, sv);
      FirstWord(sv, v.path, v.version);
    }
  }

  lemma FirstWord(line: string, word: string, sv: string)
    requires line == word + " " + sv && Lacks(word, ' ')
    ensures FindChar(line, ' ') == Some(|word|) && line[..|word|] == word && line[|word| + 1..] == sv
  {
    FindCharIs(line, ' ', |word|);
  }

  method ParseHttpRequestLine(requestLine: string) returns (r: Option<RequestLine>)
    ensures r == ParseRequestLine(requestLine)
  {
    var sv := requestLine;
    var separator := FindChar(sv, ' ');
    if separator.None? { return None; }
    var method_ := sv[..separator.value];
    sv := sv[separator.value + 1..];
    separator := FindChar(sv, ' ');
    if separator.None? { return None; }
    var path := sv[..separator.value];
    sv := sv[separator.value + 1..];
    r := Some(RequestLine(method_, path, sv));
  }

  // ---------------------------------------------------------------- the target

  datatype Url = Url(path: string, query: string, fragment: string)

  /** What the three parts are, whatever computes them. */
  predicate IsSplit(raw: string, u: Url) {
    && u.path + u.query + u.fragment == raw
    && Lacks(u.path, '?') && Lacks(u.path, '#')
    && (u.query == "" || (u.query[0] == '?' && Lacks(u.query, '#')))
    && (u.fragment == "" || u.fragment[0] == '#')
  }

  /** The branches of onStatusChanged on the two find_first_of results; `None` is answered with 400. */
  function SplitUrl(raw: string): Option<Url> {
    var offQuery := FindChar(raw, '?');
    var offFragment := FindChar(raw, '#');
    if offFragment.Some? then
      var f := offFragment.value;
      if offQuery.Some? then
        var q := offQuery.value;
        if q > f then None
        else Some(Url(raw[..q], raw[q..f], raw[f..]))
      else Some(Url(raw[..f], "", raw[f..]))
    else if offQuery.Some? then
      var q := offQuery.value;
      Some(Url(raw[..q], raw[q..], ""))
    else Some(Url(raw, "", ""))
  }

  method SplitTarget(rawPath: string) returns (r: Option<Url>)
    ensures r == SplitUrl(rawPath)
  {
    var pathView, queryView, fragmentView := "", "", "";
    var offQuery := FindChar(rawPath, '?');
    var offFragment := FindChar(rawPath, '#');
    if offFragment.Some? {
      if offQuery.Some? {
        if offQuery.value > offFragment.value { return None; }
        queryView := rawPath[offQuery.value..offFragment.value];
        fragmentView := rawPath[offFragment.value..];
        pathView := rawPath[..offQuery.value];
      } else {
        pathView := rawPath[..offFragment.value];
        fragmentView := rawPath[offFragment.value..];
      }
    } else {
      if offQuery.Some? {
        pathView := rawPath[..offQuery.value];
        queryView := rawPath[offQuery.value..];
      } else {
        pathView := rawPath;
      }
    }
    r := Some(Url(pathView, queryView, fragmentView));
  }

  /** A '#' stands before the first '?'. */
  predicate FragmentFirst(raw: string) {
    exists f: nat, q: nat :: f < q < |raw| && raw[f] == '#' && raw[q] == '?' && Lacks(raw[..q], '?')
  }

  /** A target is refused exactly when a '#' precedes its first '?'. */
  lemma RefusedIff(raw: string)
    ensures SplitUrl(raw).None? <==> FragmentFirst(raw)
  {
    if SplitUrl(raw).None? {
      var f, q := FindChar(raw, '#').value, FindChar(raw, '?').value;
      FindCharFirst(raw, '?');
      assert f < q < |raw| && raw[f] == '#' && raw[q] == '?' && Lacks(raw[..q], '?');
    }
    if FragmentFirst(raw) {
      var f: nat, q: nat :| f < q < |raw| && raw[f] == '#' && raw[q] == '?' && Lacks(raw[..q], '?');
      assert forall k | 0 <= k < q :: raw[..q][k] == raw[k];
      FindCharIs(raw, '?', q);
      FindCharFirst(raw, '#');
      assert FindChar(raw, '#').Some? && FindChar(raw, '#').value <= f;
    }
  }

  /** A target is refused exactly when a '#' precedes its first '?'; otherwise the split is lossless, of the required
      form, and the only one of that form. */
  lemma SplitExact(raw: string, u: Url)
    ensures SplitUrl(raw).None? <==> FragmentFirst(raw)
    ensures SplitUrl(raw).Some? ==> IsSplit(raw, SplitUrl(raw).value)
    ensures SplitUrl(raw) == Some(u) <==> IsSplit(raw, u) && !FragmentFirst(raw)
  {
    RefusedIff(raw);
    if SplitUrl(raw).Some? {
      SplitSound(raw);
      if IsSplit(raw, u) {
        SplitUnique(raw, u);
      }
    }
  }

  /** Where the three parts of `u` begin and end in `raw`. */
  predicate Parts(raw: string, q: nat, f: nat) {
    && q <= f <= |raw|
    && (forall k | 0 <= k < q :: raw[k] != '?')
    && (forall k | 0 <= k < f :: raw[k] != '#')
    && (q < f ==> raw[q] == '?')
    && (f < |raw| ==> raw[f] == '#')
  }

  lemma SplitSound(raw: string)
    requires SplitUrl(raw).Some?
    ensures IsSplit(raw, SplitUrl(raw).value)
  {
    var offQuery, offFragment := FindChar(raw, '?'), FindChar(raw, '#');
    FindCharFirst(raw, '?');
    FindCharFirst(raw, '#');
    var f := if offFragment.Some? then offFragment.value else |raw|;
    var q := if offQuery.Some? then offQuery.value else f;
    SplitAt(raw, q, f);
    PartsSound(raw, q, f);
  }

  lemma SplitAt(raw: string, q: nat, f: nat)
    requires SplitUrl(raw).Some? && Parts(raw, q, f)
    ensures SplitUrl(raw) == Some(Url(raw[..q], raw[q..f], raw[f..]))
  {
    assert raw[|raw|..] == "" && raw[f..f] == "" && raw[q..|raw|] == raw[q..] && raw[..|raw|] == raw;
    if f < |raw| { FindCharIs(raw, '#', f); }
    if q < f { FindCharIs(raw, '?', q); }
  }

  lemma PartsSound(raw: string, q: nat, f: nat)
    requires Parts(raw, q, f)
    ensures IsSplit(raw, Url(raw[..q], raw[q..f], raw[f..]))
  {
  }

  lemma SplitUnique(raw: string, u: Url)
    requires IsSplit(raw, u) && SplitUrl(raw).Some?
    ensures SplitUrl(raw) == Some(u)
  {
    var q, f := |u.path|, |u.path| + |u.query|;
    PartsMarked(raw, u);
    SplitAt(raw, q, f);
  }

  lemma PartsMarked(raw: string, u: Url)
    requires IsSplit(raw, u)
    ensures var q, f := |u.path|, |u.path| + |u.query|;
            Parts(raw, q, f) && raw[..q] == u.path && raw[q..f] == u.query && raw[f..] == u.fragment
  {
    var q, f := |u.path|, |u.path| + |u.query|;
    assert raw[..q] == u.path && raw[q..f] == u.query && raw[f..] == u.fragment;
    assert forall k | 0 <= k < q :: raw[k] == u.path[k];
    assert forall k | q <= k < f :: raw[k] == u.query[k - q];
  }
}
