/** The converse: a boundary at a bad cut always spoils a request that would have been read in one chunk. */
module BadCuts {
  import opened Basics
  import opened Text
  import opened Reader
  import opened RequestTarget
  import opened Chunks

  /** The first line break of `x` and, if there is one, the first empty line after it, which is not right there. */
  predicate Layout(x: string, i: nat, e: Option<nat>) {
    FindCrlf(x) == Some(i) && FindHeadEnd(x[i + 2..]) == e && e != Some(0)
  }

  /** A reader that has consumed the first `p` bytes of `x` and can no longer end in the state that one chunk gives. */
  predicate Off(x: string, i: nat, e: Option<nat>, r: Reader, p: nat)
    requires Layout(x, i, e)
  {
    || |r.requestLine| > i
    || match r.status
       case Initial => OpenLine(x, i, r, p)
       case Header => Shifted(x, i, r.requestHeader, p) || (e.Some? && Overdue(x, i, e.value, r.requestHeader, p))
       case Body => WrongHeader(x, i, e, r.requestHeader)
       case Terminated => true
  }

  /** The line is still open although its line break has been consumed. */
  predicate OpenLine(x: string, i: nat, r: Reader, p: nat)
    requires i <= |x|
  {
    r.requestLine == x[..i] && r.requestHeader == "" && (p == i + 2 || (p == i + 4 && CrlfAt(x, i + 2)))
  }

  /** A complete header text that is not the one of `x`, which may have none. */
  predicate WrongHeader(x: string, i: nat, e: Option<nat>, h: string)
    requires Layout(x, i, e)
  {
    e.Some? ==> h != x[i + 2..i + 4 + e.value]
  }

  /** The header text misses the two bytes that the still open line took. */
  predicate Shifted(x: string, i: nat, h: string, p: nat) {
    i + 4 < p <= |x| && CrlfAt(x, i + 2) && h == x[i + 4..p]
  }

  /** The header text ends inside the empty line. */
  predicate Overdue(x: string, i: nat, j: nat, h: string, p: nat) {
    i + 2 + j < p < i + 2 + j + 4 && p <= |x| && h == x[i + 2..p]
  }

  lemma NoBreakAfter(x: string, i: nat, e: Option<nat>)
    requires Layout(x, i, e) && CrlfAt(x, i + 2)
    ensures !CrlfAt(x, i + 4)
  {
    assert !HeadEndAt(x[i + 2..], 0);
  }

  /** The line taken from a text that ends at a bad cut. */
  lemma LineAtBadCut(y: string, c: string, i: nat)
    requires FindCrlf(y + c) == Some(i) && i < |y|
    ensures var (text, rest) := AppendLine("", y, false);
            if |y| == i + 1 then |text| > i
            else text == (y + c)[..i] && rest == if |y| == i + 2 then None else Some(y[i + 2..])
  {
    CrlfInPrefix(y, c);
    assert "" + y == y;
    if |y| > i + 1 { assert "" + y[..i] == y[..i] == (y + c)[..i]; }
  }

  /** A reader goes off at a bad cut ... */
  lemma GoesOff(y: string, c: string, i: nat, e: Option<nat>, v: Version)
    requires !v.cuts && Layout(y + c, i, e) && BadCut(y + c, |y|)
    ensures Off(y + c, i, e, OneShot(y, v), |y|)
  {
    LineAtBadCut(y, c, i);
    var (text, rest) := AppendLine("", y, false);
    if |y| > i + 2 {
      OverdueAtFirst(y, c, i, e, text, v);
    } else {
      OpenAtFirst(y + c, i, e, text, rest, |y|, v);
    }
  }

  lemma OpenAtFirst(x: string, i: nat, e: Option<nat>, text: string, rest: Option<string>, p: nat, v: Version)
    requires Layout(x, i, e) && (|text| > i || (text == x[..i] && rest.None? && p == i + 2))
    ensures Off(x, i, e, LineTaken(FRESH, text, rest, v).next, p)
  {
    LineTakenAdvances(FRESH, text, rest, v);
  }

  lemma OverdueAtFirst(y: string, c: string, i: nat, e: Option<nat>, text: string, v: Version)
    requires !v.cuts && Layout(y + c, i, e) && e.Some? && i + 2 + e.value < |y| < i + 2 + e.value + 4
    ensures Off(y + c, i, e, EnterHeader(FRESH.(requestLine := text), y[i + 2..], v).next, |y|)
  {
    var h := y[i + 2..];
    assert (y + c)[i + 2..] == h + c;
    HeadEndInPrefix(h, c);
    assert "" + h == h;
    assert h == (y + c)[i + 2..|y|];
  }

  /** ... and stays off. */
  lemma StaysOff(x: string, i: nat, e: Option<nat>, r: Reader, y: string, c: string, next: Reader, q: nat, v: Version)
    requires !v.cuts && Layout(x, i, e) && y + c <= x && Off(x, i, e, r, |y|)
    requires next == OnChunk(r, c, v).next && q == |y| + |c|
    ensures Off(x, i, e, next, q)
  {
    match r.status
    case Terminated => SettledStaysOff(x, i, e, r, |y|, q);
    case Body => SettledStaysOff(x, i, e, r, |y|, q);
    case Header => HeaderStaysOff(x, i, e, r, y, c, next, q, v);
    case Initial => InitialStaysOff(x, i, e, r, y, c, next, q, v);
  }

  lemma SettledStaysOff(x: string, i: nat, e: Option<nat>, r: Reader, p: nat, q: nat)
    requires Layout(x, i, e) && Off(x, i, e, r, p) && (r.status.Body? || r.status.Terminated?)
    ensures Off(x, i, e, r, q)
  {
  }

  lemma InitialStaysOff(x: string, i: nat, e: Option<nat>, r: Reader, y: string, c: string, next: Reader, q: nat,
                        v: Version)
    requires !v.cuts && Layout(x, i, e) && y + c <= x && Off(x, i, e, r, |y|) && r.status.Initial?
    requires next == InInitial(r, c, v).next && q == |y| + |c|
    ensures Off(x, i, e, next, q)
  {
    var (text, rest) := AppendLine(r.requestLine, c, false);
    LineTakenAdvances(r, text, rest, v);
    if |text| <= i {
      LineKept(x, i, e, r, y, c);
      if rest.Some? {
        ShiftedAtFirst(x, i, e, r, y, c, v);
      }
    }
  }

  /** The still open line stays what it was only if the chunk is empty or starts with a second line break. */
  lemma LineKept(x: string, i: nat, e: Option<nat>, r: Reader, y: string, c: string)
    requires Layout(x, i, e) && y + c <= x && Off(x, i, e, r, |y|) && r.status.Initial?
    requires |r.requestLine| <= i && |AppendLine(r.requestLine, c, false).0| <= i
    ensures var (text, rest) := AppendLine(r.requestLine, c, false);
            && text == x[..i]
            && (c == "" ==> rest.None?)
            && (c != "" ==> |y| == i + 2 && CrlfAt(x, i + 2) && |c| >= 2
                            && rest == if |c| == 2 then None else Some(c[2..]))
  {
    assert x[..i] + "" == x[..i];
    assert forall k: nat | k < |c| :: c[k] == x[|y| + k];
    if c == "" {
      assert FindCrlf(x[..i]).None? by {
        assert x == x[..i] + x[i..];
        CrlfInPrefix(x[..i], x[i..]);
      }
    } else {
      assert FindCrlf(c) == Some(0);
      assert CrlfAt(c, 0) && c[..0] == "";
      assert CrlfAt(x, |y|);
      if |y| == i + 4 { NoBreakAfter(x, i, e); }
    }
  }

  lemma ShiftedAtFirst(x: string, i: nat, e: Option<nat>, r: Reader, y: string, c: string, v: Version)
    requires !v.cuts && Layout(x, i, e) && y + c <= x && r.requestHeader == "" && r.status.Initial?
    requires |y| == i + 2 && CrlfAt(x, i + 2) && |c| > 2
    ensures Off(x, i, e, EnterHeader(r.(requestLine := x[..i]), c[2..], v).next, |y| + |c|)
  {
    var p := |y| + |c|;
    assert c[2..] == x[i + 4..p];
    assert "" + c[2..] == c[2..];
    var (text, complete) := AppendHeader("", c[2..], false);
    assert text <= x[i + 4..];
    var line := ParseRequestLine(x[..i]);
    if line.Some? {
      var r1 := r.(requestLine := x[..i], status := Header, lineView := line.value);
      HeaderTakenAdvances(r1, text, complete, v.skip);
      if complete { ShiftedIsWrong(x, i, e, text); }
    }
  }

  lemma ShiftedIsWrong(x: string, i: nat, e: Option<nat>, h: string)
    requires Layout(x, i, e) && CrlfAt(x, i + 2) && |h| >= 2 && h <= x[i + 4..]
    ensures WrongHeader(x, i, e, h)
  {
    NoBreakAfter(x, i, e);
    if e.Some? { WrongStart(x, i, e, h); }
  }

  lemma WrongStart(x: string, i: nat, e: Option<nat>, h: string)
    requires Layout(x, i, e) && e.Some? && CrlfAt(x, i + 2) && !CrlfAt(x, i + 4) && |h| >= 2 && h <= x[i + 4..]
    ensures h != x[i + 2..i + 4 + e.value]
  {
    var t := x[i + 2..i + 4 + e.value];
    assert t[0] == x[i + 2] && t[1] == x[i + 3] && h[0] == x[i + 4] && h[1] == x[i + 5];
  }

  lemma HeaderStaysOff(x: string, i: nat, e: Option<nat>, r: Reader, y: string, c: string, next: Reader, q: nat,
                       v: Version)
    requires !v.cuts && Layout(x, i, e) && y + c <= x && Off(x, i, e, r, |y|) && r.status.Header?
    requires next == InHeader(r, c, v).next && q == |y| + |c|
    ensures Off(x, i, e, next, q)
  {
    var p, h := |y| + |c|, r.requestHeader;
    var (text, complete) := AppendHeader(h, c, false);
    HeaderTakenAdvances(r, text, complete, v.skip);
    if |r.requestLine| <= i {
      if Shifted(x, i, h, |y|) {
        ShiftedText(x, i, e, h, y, c);
      } else {
        OverdueText(x, i, e, h, y, c);
      }
    }
  }

  lemma ShiftedText(x: string, i: nat, e: Option<nat>, h: string, y: string, c: string)
    requires Layout(x, i, e) && y + c <= x && Shifted(x, i, h, |y|)
    ensures var (text, complete) := AppendHeader(h, c, false);
            if complete then WrongHeader(x, i, e, text) else Shifted(x, i, text, |y| + |c|)
  {
    var (text, complete) := AppendHeader(h, c, false);
    assert c == x[|y|..|y| + |c|];
    assert h + c == x[i + 4..|y| + |c|];
    assert text <= h + c <= x[i + 4..];
    if complete { ShiftedIsWrong(x, i, e, text); }
  }

  lemma OverdueText(x: string, i: nat, e: Option<nat>, h: string, y: string, c: string)
    requires Layout(x, i, e) && e.Some? && y + c <= x && Overdue(x, i, e.value, h, |y|)
    ensures var (text, complete) := AppendHeader(h, c, false);
            if complete then WrongHeader(x, i, e, text) else Overdue(x, i, e.value, text, |y| + |c|)
  {
    var p := |y| + |c|;
    assert c == x[|y|..p];
    assert h + c == x[i + 2..p];
    assert x[i + 2..] == (h + c) + x[p..];
    HeadEndInPrefix(h + c, x[p..]);
  }

  lemma FirstBad(chunks: seq<string>, x: string, i: nat, e: Option<nat>, n: nat, v: Version)
    requires !v.cuts && Layout(x, i, e) && n <= |chunks| && Concat(chunks[..n]) <= x
    requires BadCut(x, |Concat(chunks[..n])|) && forall k | 0 < k < n :: !BadCut(x, |Concat(chunks[..k])|)
    ensures Off(x, i, e, After(chunks[..n], v), |Concat(chunks[..n])|)
  {
    var y := Concat(chunks[..n]);
    var c := x[|y|..];
    assert x == y + c;
    CleanUpTo(chunks, n, x, c);
    CleanChunking(chunks[..n], v);
    GoesOff(y, c, i, e, v);
  }

  lemma AfterStep(chunks: seq<string>, n: nat, v: Version)
    requires 0 < n <= |chunks|
    ensures After(chunks[..n], v) == OnChunk(After(chunks[..n - 1], v), chunks[n - 1], v).next
    ensures Concat(chunks[..n]) == Concat(chunks[..n - 1]) + chunks[n - 1]
  {
    var s := chunks[..n];
    assert s[..|s| - 1] == chunks[..n - 1] && s[|s| - 1] == chunks[n - 1];
  }

  lemma {:induction false} StaysSpoilt(chunks: seq<string>, x: string, i: nat, e: Option<nat>, k: nat, n: nat,
                                       v: Version)
    requires !v.cuts && Layout(x, i, e) && k <= n <= |chunks| && Concat(chunks) == x
    requires Off(x, i, e, After(chunks[..k], v), |Concat(chunks[..k])|)
    ensures Off(x, i, e, After(chunks[..n], v), |Concat(chunks[..n])|)
  {
    hide Concat, After, OnChunk, Off, Layout;
    if n > k {
      StaysSpoilt(chunks, x, i, e, k, n - 1, v);
      AfterStep(chunks, n, v);
      ConcatPrefix(chunks, n);
      StaysOff(x, i, e, After(chunks[..n - 1], v), Concat(chunks[..n - 1]), chunks[n - 1],
               After(chunks[..n], v), |Concat(chunks[..n])|, v);
    }
  }

  /** The earliest bad boundary. */
  lemma {:induction false} EarliestBad(chunks: seq<string>, x: string, n: nat) returns (k: nat)
    requires 0 < n < |chunks| && BadCut(x, |Concat(chunks[..n])|)
    ensures 0 < k <= n && BadCut(x, |Concat(chunks[..k])|)
    ensures forall m | 0 < m < k :: !BadCut(x, |Concat(chunks[..m])|)
  {
    if m :| 0 < m < n && BadCut(x, |Concat(chunks[..m])|) {
      k := EarliestBad(chunks, x, m);
    } else {
      k := n;
    }
  }

  lemma CleanUpTo(chunks: seq<string>, n: nat, x: string, c: string)
    requires n <= |chunks| && x == Concat(chunks[..n]) + c
    requires forall k | 0 < k < n :: !BadCut(x, |Concat(chunks[..k])|)
    ensures CleanCuts(chunks[..n], Concat(chunks[..n]))
  {
    var y := Concat(chunks[..n]);
    forall k | 0 < k < n ensures !BadCut(y, |Concat(chunks[..n][..k])|) {
      assert chunks[..n][..k] == chunks[..k];
      if BadCut(y, |Concat(chunks[..k])|) { BadCutExtends(y, c, |Concat(chunks[..k])|); }
    }
  }

  /** What one chunk gives when it stops in the fields. */
  lemma OpenHeaderIs(x: string, v: Version) returns (i: nat)
    requires !v.cuts && OneShot(x, v).status.Header?
    ensures Layout(x, i, None)
    ensures OneShot(x, v).requestLine == x[..i] && OneShot(x, v).requestHeader == x[i + 2..]
  {
    var (line, rest) := AppendLine("", x, false);
    LineTakenAdvances(FRESH, line, rest, v);
    WholeLine(x, false);
    i := FindCrlf(x).value;
    OpenFromLine(line, rest.value, v);
  }

  lemma OpenFromLine(line: string, sv: string, v: Version)
    requires !v.cuts && EnterHeader(FRESH.(requestLine := line), sv, v).next.status.Header?
    ensures FindHeadEnd(sv).None?
    ensures EnterHeader(FRESH.(requestLine := line), sv, v).next.requestHeader == sv
  {
    var view := ParseRequestLine(line).value;
    var (text, complete) := AppendHeader("", sv, false);
    HeaderTakenAdvances(FRESH.(requestLine := line, status := Header, lineView := view), text, complete, v.skip);
    assert "" + sv == sv;
  }

  lemma SpoiltEnd(chunks: seq<string>, i: nat, e: Option<nat>, v: Version)
    requires !v.cuts && Layout(Concat(chunks), i, e) && !CleanCuts(chunks, Concat(chunks))
    ensures Off(Concat(chunks), i, e, After(chunks, v), |Concat(chunks)|)
  {
    var x := Concat(chunks);
    var n :| 0 < n < |chunks| && BadCut(x, |Concat(chunks[..n])|);
    var k := EarliestBad(chunks, x, n);
    ConcatPrefix(chunks, k);
    FirstBad(chunks, x, i, e, k, v);
    StaysSpoilt(chunks, x, i, e, k, |chunks|, v);
    assert chunks[..|chunks|] == chunks;
  }

  /** As written: a text that one chunk would carry past its request line ends in that same state, cut into chunks,
      exactly when no boundary falls inside or right after its first line break or inside the first empty line that
      follows. */
  lemma ChunkIndependenceAsWritten(chunks: seq<string>, v: Version)
    requires !v.cuts && (OneShot(Concat(chunks), v).status.Body? || OneShot(Concat(chunks), v).status.Header?)
    ensures After(chunks, v) == OneShot(Concat(chunks), v) <==> CleanCuts(chunks, Concat(chunks))
  {
    var x := Concat(chunks);
    if CleanCuts(chunks, x) {
      CleanChunking(chunks, v);
    } else if OneShot(x, v).status.Body? {
      SpoiltBody(chunks, v);
    } else {
      SpoiltHeader(chunks, v);
    }
  }

  lemma SpoiltBody(chunks: seq<string>, v: Version)
    requires !v.cuts && OneShot(Concat(chunks), v).status.Body? && !CleanCuts(chunks, Concat(chunks))
    ensures After(chunks, v) != OneShot(Concat(chunks), v)
  {
    var i, j := OneShotIs(Concat(chunks), v);
    SpoiltEnd(chunks, i, Some(j), v);
    NotTheBody(Concat(chunks), i, j, After(chunks, v), OneShot(Concat(chunks), v));
  }

  lemma NotTheBody(x: string, i: nat, j: nat, r: Reader, one: Reader)
    requires Layout(x, i, Some(j)) && Off(x, i, Some(j), r, |x|)
    requires one.status.Body? && one.requestLine == x[..i] && one.requestHeader == x[i + 2..i + 4 + j]
    ensures r != one
  {
  }

  lemma SpoiltHeader(chunks: seq<string>, v: Version)
    requires !v.cuts && OneShot(Concat(chunks), v).status.Header? && !CleanCuts(chunks, Concat(chunks))
    ensures After(chunks, v) != OneShot(Concat(chunks), v)
  {
    var i := OpenHeaderIs(Concat(chunks), v);
    SpoiltEnd(chunks, i, None, v);
    NotTheHeader(Concat(chunks), i, After(chunks, v), OneShot(Concat(chunks), v));
  }

  lemma NotTheHeader(x: string, i: nat, r: Reader, one: Reader)
    requires Layout(x, i, None) && Off(x, i, None, r, |x|)
    requires one.status.Header? && one.requestLine == x[..i] && one.requestHeader == x[i + 2..]
    ensures r != one
  {
  }

  // ---------------------------------------------------------------- texts that one chunk refuses

  /** Without bad cuts a refusal is kept. */
  lemma RefusalKept(chunks: seq<string>, v: Version)
    requires OneShot(Concat(chunks), v).status.Terminated? && (v.cuts || CleanCuts(chunks, Concat(chunks)))
    ensures After(chunks, v).status.Terminated?
  {
    CleanChunking(chunks, v);
  }

  /** At a cut inside the line break it is lost whenever the line and the next one together make a request line: the
      reader then goes on with that one. */
  lemma RefusalLost(l: string, next: string, rest: string, v: Version)
    requires !v.cuts && NoCrlf(l) && ParseRequestLine(l).None?
    requires NoCrlf("\n" + next) && rest != "" && ParseRequestLine(l + CRLF + next).Some?
    ensures OneShot(l + CRLF + (next + CRLF + rest), v).status.Terminated?
    ensures Concat([l + "\r", "\n" + next + CRLF + rest]) == l + CRLF + (next + CRLF + rest)
    ensures After([l + "\r", "\n" + next + CRLF + rest], v)
         == EnterHeader(FRESH.(requestLine := l + CRLF + next), rest, v).next
  {
    RefusedLine(l, next + CRLF + rest, v);
    LostInTwo(l, next, rest, v);
    WholeText(l, next, rest);
    TwoChunks(l + "\r", "\n" + next + CRLF + rest, v);
  }

  lemma LostInTwo(l: string, next: string, rest: string, v: Version)
    requires !v.cuts && NoCrlf(l) && NoCrlf("\n" + next) && rest != ""
    ensures OnChunk(OnChunk(FRESH, l + "\r", v).next, "\n" + next + CRLF + rest, v).next
         == EnterHeader(FRESH.(requestLine := l + CRLF + next), rest, v).next
  {
    HalfLine(l, v);
    OtherHalf(l, next, rest);
  }

  lemma WholeText(l: string, next: string, rest: string)
    ensures l + "\r" + ("\n" + next + CRLF + rest) == l + CRLF + (next + CRLF + rest)
  {
    assert "\r" + "\n" == CRLF;
    assert l + "\r" + ("\n" + next + CRLF + rest) == l + ("\r" + "\n") + (next + CRLF + rest);
  }

  lemma RefusedLine(l: string, sv: string, v: Version)
    requires !v.cuts && NoCrlf(l) && ParseRequestLine(l).None? && sv != ""
    ensures OneShot(l + CRLF + sv, v).status.Terminated?
  {
    var x := l + CRLF + sv;
    LineEnd(l, sv);
    assert x[..|l|] == l == "" + x[..|l|] && x[|l| + 2..] == sv;
  }

  lemma HalfLine(l: string, v: Version)
    requires !v.cuts && NoCrlf(l)
    ensures OnChunk(FRESH, l + "\r", v).next == FRESH.(requestLine := l + "\r")
  {
    var x := l + "\r";
    assert "" + x == x;
    forall k: nat ensures !CrlfAt(x, k) {
      assert k < |l| ==> !CrlfAt(l, k);
    }
    assert FindCrlf(x).None?;
  }

  lemma OtherHalf(l: string, next: string, rest: string)
    requires NoCrlf("\n" + next) && rest != ""
    ensures AppendLine(l + "\r", "\n" + next + CRLF + rest, false) == (l + CRLF + next, Some(rest))
  {
    var h, c := "\n" + next, "\n" + next + CRLF + rest;
    LineEnd(h, rest);
    assert c[..|h|] == h && c[|h| + 2..] == rest;
    assert "\r" + "\n" == CRLF;
    assert l + "\r" + h == l + ("\r" + "\n") + next;
  }

  lemma TwoChunks(a: string, b: string, v: Version)
    ensures After([a, b], v) == OnChunk(OnChunk(FRESH, a, v).next, b, v).next && Concat([a, b]) == a + b
  {
    assert [a, b][..1] == [a] && [a][..0] == [];
    assert After([a], v) == OnChunk(After([], v), a, v).next;
    assert Concat([a]) == "" + a == a;
  }

  /** If the second half of the line break comes in a piece without another one, the piece is read twice: it is taken
      into the request line, together with the break, and then read as the beginning of the fields. */
  lemma HalfBreakReadTwice(l: string, b: string, v: Version)
    requires !v.cuts && NoCrlf(l) && NoCrlf("\n" + b)
    ensures After([l + "\r", "\n" + b], v) == EnterHeader(FRESH.(requestLine := l + CRLF + b), "\n" + b, v).next
  {
    HalfLine(l, v);
    SecondHalf(l, b);
    TwoChunks(l + "\r", "\n" + b, v);
  }

  lemma SecondHalf(l: string, b: string)
    requires NoCrlf("\n" + b)
    ensures AppendLine(l + "\r", "\n" + b, false) == (l + CRLF + b, Some("\n" + b))
  {
    assert "\r" + "\n" == CRLF;
    var x := l + "\r" + ("\n" + b);
    assert x == l + ("\r" + "\n") + b;
    assert CrlfAt(x, |l|);
    forall k: nat ensures !CrlfAt("\n" + b, k) {
    }
  }

  /** A line that is refused in one chunk and accepted in two. */
  lemma RefusalCanBeLost(v: Version)
    requires !v.cuts
    ensures OneShot("A B" + CRLF + ("X: y z" + CRLF + CRLF), v).status.Terminated?
    ensures After(["A B" + "\r", "\n" + "X: y z" + CRLF + CRLF], v).status.Header?
  {
    hide OneShot, After, OnChunk, ParseRequestLine, EnterHeader, Concat;
    OneSpaceOnly();
    TwoSpaces();
    RefusalLost("A B", "X: y z", CRLF, v);
    AcceptedLine("A B" + CRLF + "X: y z", v);
  }

  lemma OneSpaceOnly()
    ensures ParseRequestLine("A B").None? && NoCrlf("A B") && NoCrlf("\n" + "X: y z")
  {
    assert "A B"[2..] == "B";
    FindCharIs("A B", ' ', 1);
    FindCharNone("B", ' ');
  }

  lemma TwoSpaces()
    ensures ParseRequestLine("A B" + CRLF + "X: y z").Some?
  {
    var line := RequestLine("A", "B" + CRLF + "X:", "y z");
    assert LineText(line) == "A B" + CRLF + "X: y z";
    RequestLineExact("A B" + CRLF + "X: y z", line);
  }

  lemma AcceptedLine(text: string, v: Version)
    requires !v.cuts && ParseRequestLine(text).Some?
    ensures EnterHeader(FRESH.(requestLine := text), CRLF, v).next.status.Header?
  {
    assert "" + CRLF == CRLF && FindHeadEnd(CRLF).None?;
  }
}
