/** How the reader depends on the way the request is cut into chunks. */
module Chunks {
  import opened Basics
  import opened Text
  import opened Reader
  import opened RequestTarget
  import HeaderFields

  /** The reader after the whole text in one chunk. */
  function OneShot(x: string, v: Version): Reader {
    OnChunk(FRESH, x, v).next
  }

  // ---------------------------------------------------------------- searching in prefixes

  lemma CrlfInPrefix(y: string, c: string)
    ensures var i := FindCrlf(y + c);
            && (i.Some? && i.value + 2 <= |y| ==> FindCrlf(y) == i)
            && (i.None? || |y| < i.value + 2 ==> FindCrlf(y).None?)
            && (FindCrlf(y).Some? ==> FindCrlf(y + c) == FindCrlf(y))
  {
    var x := y + c;
    assert forall k: nat | k + 1 < |y| :: CrlfAt(y, k) == CrlfAt(x, k);
  }

  lemma CrlfInSuffix(y: string, c: string)
    ensures var i := FindCrlf(y + c);
            && (i.Some? && |y| <= i.value ==> FindCrlf(c) == Some(i.value - |y|))
            && (i.None? ==> FindCrlf(c).None?)
  {
    var x := y + c;
    assert forall k: nat :: CrlfAt(c, k) == CrlfAt(x, |y| + k);
    var i := FindCrlf(x);
    if i.Some? && |y| <= i.value {
      FindCrlfIs(c, i.value - |y|);
    }
  }

  lemma HeadEndInPrefix(y: string, c: string)
    ensures var j := FindHeadEnd(y + c);
            && (j.Some? && j.value + 4 <= |y| ==> FindHeadEnd(y) == j)
            && (j.None? || |y| < j.value + 4 ==> FindHeadEnd(y).None?)
            && (FindHeadEnd(y).Some? ==> FindHeadEnd(y + c) == FindHeadEnd(y))
  {
    var x := y + c;
    assert forall k: nat | k + 3 < |y| :: HeadEndAt(y, k) == HeadEndAt(x, k);
  }

  lemma HeadEndInSuffix(y: string, c: string)
    ensures var j := FindHeadEnd(y + c);
            && (j.Some? && |y| <= j.value ==> FindHeadEnd(c) == Some(j.value - |y|))
            && (j.None? ==> FindHeadEnd(c).None?)
  {
    var x := y + c;
    assert forall k: nat :: HeadEndAt(c, k) == HeadEndAt(x, |y| + k);
    var j := FindHeadEnd(x);
    if j.Some? && |y| <= j.value {
      FindHeadEndIs(c, j.value - |y|);
    }
  }

  // ---------------------------------------------------------------- which cuts matter

  /** A cut inside or right after the first line break. */
  predicate BadLineCut(x: string, p: nat) {
    var i := FindCrlf(x);
    i.Some? && i.value < p <= i.value + 2
  }

  /** A cut inside the first empty line that ends the fields. */
  predicate BadHeadCut(h: string, p: nat) {
    var j := FindHeadEnd(h);
    j.Some? && j.value < p < j.value + 4
  }

  /** The cuts of the whole text that the code as written does not get over. */
  predicate BadCut(x: string, p: nat) {
    var i := FindCrlf(x);
    BadLineCut(x, p) || (i.Some? && i.value + 2 <= p && BadHeadCut(x[i.value + 2..], p - i.value - 2))
  }

  /** No boundary between two chunks is a bad cut of `x`. */
  ghost predicate CleanCuts(chunks: seq<string>, x: string) {
    forall k | 0 < k < |chunks| :: !BadCut(x, |Concat(chunks[..k])|)
  }

  // ---------------------------------------------------------------- reading on is reading the whole

  lemma HeaderReadOn(y: string, c: string, cuts: bool)
    requires cuts || !BadHeadCut(y + c, |y|)
    ensures var (text, complete) := AppendHeader("", y, cuts);
            AppendHeader("", y + c, cuts) == if complete then (text, true) else AppendHeader(text, c, cuts)
  {
    HeadEndInPrefix(y, c);
    HeadEndInSuffix(y, c);
    var x := y + c;
    assert "" + y == y && "" + x == x;
    var j := FindHeadEnd(x);
    if j.Some? {
      var n := j.value + 2;
      assert "" + x[..n] == x[..n];
      if j.value + 4 <= |y| {
        assert x[..n] == y[..n] == "" + y[..n];
      } else if |y| <= j.value {
        assert x[..n] == y + c[..n - |y|];
      }
    }
  }

  lemma LineReadOn(y: string, c: string, cuts: bool)
    requires cuts || !BadLineCut(y + c, |y|)
    ensures var (text, rest) := AppendLine("", y, cuts);
            AppendLine("", y + c, cuts)
            == match rest case None => AppendLine(text, c, cuts) case Some(sv) => (text, Some(sv + c))
  {
    CrlfInPrefix(y, c);
    CrlfInSuffix(y, c);
    var x := y + c;
    assert "" + y == y && "" + x == x;
    var i := FindCrlf(x);
    if i.Some? {
      var n := i.value;
      assert "" + x[..n] == x[..n];
      if n + 2 <= |y| {
        assert x[..n] == y[..n] == "" + y[..n];
        assert x[n + 2..] == y[n + 2..] + c;
      } else if |y| <= n {
        assert x[..n] == y + c[..n - |y|];
        assert x[n + 2..] == c[n + 2 - |y|..];
      }
    }
  }

  lemma HeaderStep(r: Reader, y: string, c: string, v: Version)
    requires r.status.Header? && r.requestHeader == "" && (v.cuts || !BadHeadCut(y + c, |y|))
    ensures OnChunk(InHeader(r, y, v).next, c, v).next == InHeader(r, y + c, v).next
  {
    HeaderReadOn(y, c, v.cuts);
    var (text, complete) := AppendHeader("", y, v.cuts);
    HeaderTakenAdvances(r, text, complete, v.skip);
  }

  /** Outside the bad cuts, reading on from a prefix is reading the whole. */
  lemma CleanStep(y: string, c: string, v: Version)
    requires v.cuts || !BadCut(y + c, |y|)
    ensures OnChunk(OneShot(y, v), c, v).next == OneShot(y + c, v)
  {
    LineReadOn(y, c, v.cuts);
    var (text, rest) := AppendLine("", y, v.cuts);
    LineTakenAdvances(FRESH, text, rest, v);
    var line := ParseRequestLine(text);
    if rest.Some? && line.Some? {
      RestIs(y, c, v.cuts);
      HeaderStep(FRESH.(requestLine := text, status := Header, lineView := line.value), rest.value, c, v);
    }
  }

  lemma RestIs(y: string, c: string, cuts: bool)
    requires AppendLine("", y, cuts).1.Some? && (cuts || !BadCut(y + c, |y|))
    ensures cuts || !BadHeadCut(AppendLine("", y, cuts).1.value + c, |AppendLine("", y, cuts).1.value|)
  {
    CrlfInPrefix(y, c);
    assert "" + y == y;
    var i := FindCrlf(y).value;
    assert (y + c)[i + 2..] == y[i + 2..] + c;
  }

  /** A bad cut of a text is a bad cut of every longer text. */
  lemma BadCutExtends(y: string, c: string, p: nat)
    requires BadCut(y, p)
    ensures BadCut(y + c, p)
  {
    CrlfInPrefix(y, c);
    var i := FindCrlf(y).value;
    assert (y + c)[i + 2..] == y[i + 2..] + c;
    HeadEndInPrefix(y[i + 2..], c);
  }

  /** As written: if no boundary is a bad cut, the chunks lead to the same state as the whole text in one chunk.  As
      meant, they do so whatever the boundaries are. */
  lemma {:induction false} CleanChunking(chunks: seq<string>, v: Version)
    requires v.cuts || CleanCuts(chunks, Concat(chunks))
    ensures After(chunks, v) == OneShot(Concat(chunks), v)
  {
    if |chunks| == 0 {
      EmptyText(v);
    } else {
      var n := |chunks| - 1;
      var y, c := Concat(chunks[..n]), chunks[n];
      if !v.cuts {
        CleanBefore(chunks);
        NotBadAtStart(y, c);
      }
      CleanChunking(chunks[..n], v);
      CleanStep(y, c, v);
    }
  }

  lemma EmptyText(v: Version)
    ensures OneShot("", v) == FRESH
  {
    assert "" + "" == "";
  }

  lemma CleanBefore(chunks: seq<string>)
    requires |chunks| > 0 && CleanCuts(chunks, Concat(chunks))
    ensures CleanCuts(chunks[..|chunks| - 1], Concat(chunks[..|chunks| - 1]))
  {
    var n := |chunks| - 1;
    var y := Concat(chunks[..n]);
    forall k | 0 < k < n ensures !BadCut(y, |Concat(chunks[..n][..k])|) {
      assert chunks[..n][..k] == chunks[..k];
      if BadCut(y, |Concat(chunks[..k])|) { BadCutExtends(y, chunks[n], |Concat(chunks[..k])|); }
    }
  }

  lemma NotBadAtStart(y: string, c: string)
    ensures |y| == 0 ==> !BadCut(y + c, |y|)
  {
  }

  /** As meant, the reader depends only on the bytes received: every chunking, whatever it cuts, ends in the same state
      as the whole text in one chunk. */
  lemma ChunkIndependenceAsMeant(chunks: seq<string>, v: Version)
    requires v.cuts
    ensures After(chunks, v) == OneShot(Concat(chunks), v)
  {
    CleanChunking(chunks, v);
  }

  /** In one chunk the two versions agree, unless the text stops right after its first line break. */
  lemma OneShotsAgree(x: string, v: Version)
    requires FindCrlf(x) != Some(|x| - 2)
    ensures OneShot(x, v) == OneShot(x, v.(cuts := !v.cuts))
  {
    LinesAgree(x);
    var (line, rest) := AppendLine("", x, v.cuts);
    if rest.Some? { HeadersAgree(rest.value); }
  }

  lemma LinesAgree(x: string)
    requires FindCrlf(x) != Some(|x| - 2)
    ensures AppendLine("", x, true) == AppendLine("", x, false)
  {
    assert "" + x == x;
    var i := FindCrlf(x);
    assert i.Some? ==> "" + x[..i.value] == x[..i.value];
  }

  lemma HeadersAgree(sv: string)
    ensures AppendHeader("", sv, true) == AppendHeader("", sv, false)
  {
    assert "" + sv == sv;
    var j := FindHeadEnd(sv);
    assert j.Some? ==> "" + sv[..j.value + 2] == sv[..j.value + 2];
  }

  // ---------------------------------------------------------------- what the state says about the bytes

  /** The line break and the empty line of a request. */
  predicate Marks(x: string, i: nat, j: nat) {
    FindCrlf(x) == Some(i) && FindHeadEnd(x[i + 2..]) == Some(j)
  }

  lemma BlankHeader(skip: nat)
    requires skip <= 1
    ensures HeaderFields.ParseMap(CRLF, skip).None?
  {
    var c := FindChar(CRLF, ':');
    assert c.None?;
    assert HeaderFields.ParseOne(CRLF, skip).None?;
  }

  lemma WholeLine(x: string, cuts: bool)
    ensures var (text, rest) := AppendLine("", x, cuts);
            rest.Some? ==>
              FindCrlf(x).Some? && text == x[..FindCrlf(x).value] && rest.value == x[FindCrlf(x).value + 2..]
  {
    assert "" + x == x;
    assert FindCrlf(x).Some? ==> "" + x[..FindCrlf(x).value] == x[..FindCrlf(x).value];
  }

  lemma WholeHeader(sv: string, cuts: bool)
    ensures var (text, complete) := AppendHeader("", sv, cuts);
            complete ==> FindHeadEnd(sv).Some? && text == sv[..FindHeadEnd(sv).value + 2]
  {
    assert "" + sv == sv;
    assert FindHeadEnd(sv).Some? ==> "" + sv[..FindHeadEnd(sv).value + 2] == sv[..FindHeadEnd(sv).value + 2];
  }

  lemma BodyFromHeader(r: Reader, text: string, complete: bool, skip: nat)
    requires skip <= 1 && r.status.Header? && HeaderTaken(r, text, complete, skip).next.status.Body?
    ensures complete && text != CRLF
    ensures var next := HeaderTaken(r, text, complete, skip).next;
            next.requestHeader == text && next.requestLine == r.requestLine
  {
    HeaderTakenAdvances(r, text, complete, skip);
    BlankHeader(skip);
  }

  lemma BodyFromLine(text: string, rest: Option<string>, v: Version)
    requires LineTaken(FRESH, text, rest, v).next.status.Body?
    ensures rest.Some? && ParseRequestLine(text).Some?
    ensures var r := FRESH.(requestLine := text, status := Header, lineView := ParseRequestLine(text).value);
            LineTaken(FRESH, text, rest, v) == InHeader(r, rest.value, v)
  {
  }

  lemma OneShotText(x: string, cuts: bool, line: string, sv: string, text: string) returns (i: nat, j: nat)
    requires AppendLine("", x, cuts) == (line, Some(sv)) && AppendHeader("", sv, cuts) == (text, true) && text != CRLF
    ensures Marks(x, i, j) && j > 0 && line == x[..i] && text == x[i + 2..i + 4 + j]
  {
    WholeLine(x, cuts);
    WholeHeader(sv, cuts);
    i, j := FindCrlf(x).value, FindHeadEnd(sv).value;
    HeaderSlice(x, i, j, text);
  }

  /** What one chunk gives when it reaches Body: the line up to the first line break, and the fields up to the first
      empty line after it. */
  lemma OneShotIs(x: string, v: Version) returns (i: nat, j: nat)
    requires OneShot(x, v).status.Body?
    ensures Marks(x, i, j) && j > 0
    ensures OneShot(x, v).requestLine == x[..i] && OneShot(x, v).requestHeader == x[i + 2..i + 4 + j]
    ensures ParseRequestLine(x[..i]).Some?
    ensures var r := FRESH.(status := Header, requestLine := x[..i], requestHeader := x[i + 2..i + 4 + j],
                            lineView := ParseRequestLine(x[..i]).value);
            OneShot(x, v) == Settle(r, v.skip).next
  {
    var (line, rest) := AppendLine("", x, v.cuts);
    BodyFromLine(line, rest, v);
    var (text, complete) := AppendHeader("", rest.value, v.cuts);
    BodyFromHeader(FRESH.(requestLine := line, status := Header, lineView := ParseRequestLine(line).value),
                   text, complete, v.skip);
    i, j := OneShotText(x, v.cuts, line, rest.value, text);
  }

  lemma HeaderSlice(x: string, i: nat, j: nat, text: string)
    requires Marks(x, i, j) && text == x[i + 2..][..j + 2] && text != CRLF
    ensures j > 0 && text == x[i + 2..i + 4 + j]
  {
    assert j == 0 ==> text == CRLF;
  }

  /** The bytes received are all in the fields: the open line in Initial, and line, line break and header text in
      Header. */
  lemma {:induction false} ConsumedIs(chunks: seq<string>, v: Version)
    requires v.cuts || (CleanCuts(chunks, Concat(chunks)) && FindCrlf(Concat(chunks)) != Some(|Concat(chunks)| - 2))
    ensures var x, r := Concat(chunks), After(chunks, v);
            && (r.status.Initial? ==> r.requestLine == x && r.requestHeader == "")
            && (r.status.Header? ==> r.requestLine + CRLF + r.requestHeader == x)
            && (r.status.Body? ==> r.requestLine + CRLF + r.requestHeader + CRLF <= x)
  {
    var x := Concat(chunks);
    CleanChunking(chunks, v);
    var (line, rest) := AppendLine("", x, v.cuts);
    LineTakenAdvances(FRESH, line, rest, v);
    LineSplits(x, v.cuts);
    if rest.Some? {
      EnterConsumes(line, rest.value, v);
    }
  }

  lemma EnterConsumes(line: string, sv: string, v: Version)
    ensures var x, r := line + CRLF + sv, EnterHeader(FRESH.(requestLine := line), sv, v).next;
            && (r.status.Header? ==> r.requestLine + CRLF + r.requestHeader == x)
            && (r.status.Body? ==> r.requestLine + CRLF + r.requestHeader + CRLF <= x)
  {
    EnterHeaderAdvances(FRESH.(requestLine := line), sv, v);
    var view := ParseRequestLine(line);
    if view.Some? {
      var (text, complete) := AppendHeader("", sv, v.cuts);
      HeaderTakenAdvances(FRESH.(requestLine := line, status := Header, lineView := view.value),
                          text, complete, v.skip);
      HeaderSplits(sv, v.cuts);
      if complete { PrefixAfter(line + CRLF, text, sv); }
    }
  }

  lemma PrefixAfter(a: string, b: string, c: string)
    requires b + CRLF <= c
    ensures a + b + CRLF <= a + c
  {
    assert a + b + CRLF == a + (b + CRLF);
  }

  lemma LineSplits(x: string, cuts: bool)
    requires cuts || FindCrlf(x) != Some(|x| - 2)
    ensures var (text, rest) := AppendLine("", x, cuts);
            x == match rest case None => text case Some(sv) => text + CRLF + sv
  {
    assert "" + x == x;
    var i := FindCrlf(x);
    if i.Some? {
      assert "" + x[..i.value] == x[..i.value];
      LineBreakSplits(x, i.value);
    }
  }

  lemma LineBreakSplits(x: string, i: nat)
    requires CrlfAt(x, i)
    ensures x == x[..i] + CRLF + x[i + 2..]
  {
    assert x[i..i + 2] == CRLF;
  }

  lemma HeaderSplits(sv: string, cuts: bool)
    ensures var (text, complete) := AppendHeader("", sv, cuts);
            if complete then text + CRLF <= sv else text == sv
  {
    assert "" + sv == sv;
    var j := FindHeadEnd(sv);
    if j.Some? {
      assert "" + sv[..j.value + 2] == sv[..j.value + 2];
      assert sv[j.value + 2..j.value + 4] == CRLF;
    }
  }
}
