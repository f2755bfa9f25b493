/** Whole requests: what a client prints is what the reader holds, and what the reader holds was printed. */
module Requests {
  import opened Basics
  import opened Text
  import opened Reader
  import opened RequestTarget
  import opened HeaderFields
  import opened Chunks
  import BadCuts
  import ContentLength
  import Engine

  /** A request as a client sends it; `rest` is whatever follows the empty line. */
  function RequestText(line: RequestLine, block: string, rest: string): string {
    LineText(line) + CRLF + block + CRLF + rest
  }

  // ---------------------------------------------------------------- what the fields decide

  /** The fields that make the code terminate. */
  predicate Refused(m: map<string, string>) {
    || ("Transfer-Encoding" in m && m["Transfer-Encoding"] == "chunked")
    || ("Content-Length" in m && !ContentLength.IsLength(m["Content-Length"]))
  }

  function BodySize(m: map<string, string>): nat {
    if "Content-Length" in m && ContentLength.IsLength(m["Content-Length"])
    then ContentLength.Value(m["Content-Length"])
    else 0
  }

  function Encoding(m: map<string, string>): string {
    if "Transfer-Encoding" in m then m["Transfer-Encoding"] else ""
  }

  /** The reader that holds a request. */
  function Holding(line: RequestLine, block: string, m: map<string, string>): Reader {
    Reader(Body, LineText(line), block, line, m, Encoding(m), false, BodySize(m))
  }

  lemma DecideIs(r: Reader, m: map<string, string>)
    requires r.transferEncoding == "" && r.expectedBodySize == 0
    ensures var o := Decide(r, Some(m));
            if Refused(m) then o.next.status.Terminated? && o.verdict.Abort?
            else && o.next == r.(status := Body, headers := m, transferEncoding := Encoding(m),
                                 expectedBodySize := BodySize(m))
                 && o.verdict == if BodySize(m) > 0 then Engine.ReadMore else Engine.Respond
  {
  }

  /** A reader in Body holds the map of its header text, which is not empty, and was not refused for it. */
  predicate BodyMeans(r: Reader, skip: nat)
    requires skip <= 1
  {
    r.status.Body? ==>
      r.requestHeader != "" && ParseMap(r.requestHeader, skip) == Some(r.headers) && !Refused(r.headers)
  }

  lemma DecideMeans(r: Reader, fields: Option<map<string, string>>)
    requires r.status.Header?
    ensures var next := Decide(r, fields).next;
            && next.requestHeader == r.requestHeader
            && (next.status.Body? ==> fields == Some(next.headers) && !Refused(next.headers))
  {
  }

  lemma TakenMeans(r: Reader, sv: string, v: Version)
    requires r.status.Header?
    ensures BodyMeans(InHeader(r, sv, v).next, v.skip)
  {
    var (text, complete) := AppendHeader(r.requestHeader, sv, v.cuts);
    assert complete ==> |text| >= 2;
    DecideMeans(r.(requestHeader := text), ParseMap(text, v.skip));
  }

  lemma MeaningKept(r: Reader, sv: string, v: Version)
    requires BodyMeans(r, v.skip)
    ensures BodyMeans(OnChunk(r, sv, v).next, v.skip)
  {
    if r.status.Header? {
      TakenMeans(r, sv, v);
    } else if r.status.Initial? {
      var (text, rest) := AppendLine(r.requestLine, sv, v.cuts);
      LineTakenAdvances(r, text, rest, v);
      var line := ParseRequestLine(text);
      if rest.Some? && line.Some? {
        TakenMeans(r.(requestLine := text, status := Header, lineView := line.value), rest.value, v);
      }
    }
  }

  lemma {:induction false} BodyHolds(chunks: seq<string>, v: Version)
    ensures BodyMeans(After(chunks, v), v.skip)
  {
    if |chunks| > 0 {
      var n := |chunks| - 1;
      BodyHolds(chunks[..n], v);
      MeaningKept(After(chunks[..n], v), chunks[n], v);
    }
  }

  // ---------------------------------------------------------------- printed, then read

  /** A line and fields that a client can send.  There may be no fields at all, as section 2.1 of RFC 9112 allows, and
      values may be empty, as section 5.5 of RFC 9110 does. */
  predicate Sendable(line: RequestLine, fs: seq<Field>) {
    && Lacks(line.method_, ' ') && Lacks(line.path, ' ') && NoCrlf(LineText(line))
    && BreakFree(fs) && forall i | 0 <= i < |fs| :: Lacks(fs[i].name, ':')
  }

  lemma PrintedLine(line: RequestLine, sv: string, cuts: bool)
    requires NoCrlf(LineText(line)) && sv != ""
    ensures AppendLine("", LineText(line) + CRLF + sv, cuts) == (LineText(line), Some(sv))
  {
    var x, n := LineText(line) + CRLF + sv, |LineText(line)|;
    LineEnd(LineText(line), sv);
    assert "" + x == x;
    assert x[..n] == LineText(line) == "" + x[..n] && x[n + 2..] == sv;
  }

  lemma BlockFound(block: string, rest: string, cuts: bool)
    requires |block| >= 2 && FindHeadEnd(block + CRLF + rest) == Some(|block| - 2)
    ensures AppendHeader("", block + CRLF + rest, cuts) == (block, true)
  {
    var sv := block + CRLF + rest;
    assert "" + sv == sv;
    assert sv[..|block|] == block == "" + sv[..|block|];
  }

  /** What the code makes of a request with the fields `fs`: it terminates if they cannot be read or are refused, and
      otherwise holds what is read of them and waits for the body or asks for the response. */
  predicate ReadAs(o: Outcome, line: RequestLine, block: string, fs: seq<Field>, skip: nat) {
    var r := ReadBack(fs, skip);
    if r.None? || Refused(FieldMap(r.value)) then o.next.status.Terminated? && o.verdict.Abort?
    else
      && o.next == Holding(line, block, FieldMap(r.value))
      && o.verdict == if BodySize(FieldMap(r.value)) > 0 then Engine.ReadMore else Engine.Respond
  }

  /** The field parser reads `fs` of the block, as far as it can. */
  predicate GivesMap(block: string, fs: seq<Field>, skip: nat)
    requires skip <= 1
  {
    ParseMap(block, skip) == match ReadBack(fs, skip) case None => None case Some(gs) => Some(FieldMap(gs))
  }

  lemma MapRead(fs: seq<Field>, skip: nat)
    requires skip <= 1 && Printed(fs)
    ensures GivesMap(PrintFields(fs), fs, skip)
  {
    PrintedIsRead(fs, skip);
  }

  /** The reader whose header text is complete. */
  function Complete(line: RequestLine, block: string): Reader {
    FRESH.(status := Header, requestLine := LineText(line), requestHeader := block, lineView := line)
  }

  lemma Settles(line: RequestLine, block: string, x: string, sv: string, v: Version)
    requires AppendLine("", x, v.cuts) == (LineText(line), Some(sv)) && AppendHeader("", sv, v.cuts) == (block, true)
    requires ParseRequestLine(LineText(line)) == Some(line)
    ensures OnChunk(FRESH, x, v) == Settle(Complete(line, block), v.skip)
  {
  }

  /** What one chunk gives when the first empty line after the request line is the one that ends the block. */
  lemma BlockSettles(line: RequestLine, block: string, rest: string, v: Version)
    requires Sendable(line, []) && |block| >= 2 && FindHeadEnd(block + CRLF + rest) == Some(|block| - 2)
    ensures OnChunk(FRESH, RequestText(line, block, rest), v) == Settle(Complete(line, block), v.skip)
  {
    var sv := block + CRLF + rest;
    assert RequestText(line, block, rest) == LineText(line) + CRLF + sv;
    PrintedLine(line, sv, v.cuts);
    BlockFound(block, rest, v.cuts);
    RequestLineExact(LineText(line), line);
    Settles(line, block, RequestText(line, block, rest), sv, v);
  }

  lemma SettledAs(o: Outcome, line: RequestLine, block: string, fs: seq<Field>, skip: nat)
    requires skip <= 1 && GivesMap(block, fs, skip) && o == Settle(Complete(line, block), skip)
    ensures ReadAs(o, line, block, fs, skip)
  {
    var r := ReadBack(fs, skip);
    if r.Some? { DecideIs(Complete(line, block), FieldMap(r.value)); }
  }

  lemma BlockIsRead(line: RequestLine, block: string, fs: seq<Field>, rest: string, v: Version)
    requires Sendable(line, []) && GivesMap(block, fs, v.skip)
    requires |block| >= 2 && FindHeadEnd(block + CRLF + rest) == Some(|block| - 2)
    ensures ReadAs(OnChunk(FRESH, RequestText(line, block, rest), v), line, block, fs, v.skip)
  {
    BlockSettles(line, block, rest, v);
    SettledAs(OnChunk(FRESH, RequestText(line, block, rest), v), line, block, fs, v.skip);
  }

  lemma FreshHolds(x: string, v: Version)
    ensures BodyMeans(OnChunk(FRESH, x, v).next, v.skip)
  {
    MeaningKept(FRESH, x, v);
  }

  /** The client's fields as the reader should hold them: as written, without the first characters of their values. */
  function Intended(fs: seq<Field>, skip: nat): map<string, string> {
    FieldMap(Shortened(fs, skip))
  }

  /** The map that is read of a request with the fields `fs`, if it has any and is not refused. */
  predicate Reads(fs: seq<Field>, m: map<string, string>, skip: nat) {
    fs != [] && ReadBack(fs, skip).Some? && FieldMap(ReadBack(fs, skip).value) == m && !Refused(m)
  }

  /** Every value has the characters that are dropped and does not start with a space. */
  predicate Whole(fs: seq<Field>, skip: nat) {
    forall i | 0 <= i < |fs| :: |fs[i].content| >= skip && (fs[i].content == "" || fs[i].content[0] != ' ')
  }

  lemma WholeIsPrintable(line: RequestLine, fs: seq<Field>, skip: nat)
    requires Sendable(line, fs)
    ensures Whole(fs, skip) <==> AllPrintable(fs, skip)
  {
    if Whole(fs, skip) {
      forall i | 0 <= i < |fs| ensures Printable(fs[i], skip) {
        DropNoCrlf(fs[i].content, skip);
      }
    }
    if AllPrintable(fs, skip) {
      forall i | 0 <= i < |fs|
        ensures |fs[i].content| >= skip && (fs[i].content == "" || fs[i].content[0] != ' ')
      {
        assert Printable(fs[i], skip);
      }
    }
  }

  /** Among distinct names, that map is the intended one exactly when there is a field, the values are whole, and the
      code does not refuse the map. */
  lemma ReadsIntended(line: RequestLine, fs: seq<Field>, skip: nat)
    requires skip <= 1 && Sendable(line, fs) && Distinct(fs)
    ensures Reads(fs, Intended(fs, skip), skip) <==> fs != [] && Whole(fs, skip) && !Refused(Intended(fs, skip))
  {
    ClientsMap(fs, skip);
    WholeIsPrintable(line, fs, skip);
  }

  lemma FieldsAreRead(line: RequestLine, fs: seq<Field>, rest: string, v: Version)
    requires Sendable(line, fs) && fs != []
    ensures ReadAs(OnChunk(FRESH, RequestText(line, PrintFields(fs), rest), v), line, PrintFields(fs), fs, v.skip)
  {
    hide OnChunk, ReadAs, FindHeadEnd, GivesMap;
    FieldsEnd(fs, rest);
    MapRead(fs, v.skip);
    BlockIsRead(line, PrintFields(fs), fs, rest, v);
  }

  lemma HeldIffReads(o: Outcome, line: RequestLine, block: string, fs: seq<Field>, m: map<string, string>, skip: nat)
    requires fs != [] && ReadAs(o, line, block, fs, skip)
    ensures o.next == Holding(line, block, m) <==> Reads(fs, m, skip)
  {
  }

  lemma FieldlessNotHeld(line: RequestLine, rest: string, m: map<string, string>, v: Version)
    requires Sendable(line, [])
    ensures OnChunk(FRESH, RequestText(line, "", rest), v).next != Holding(line, "", m)
  {
    hide OnChunk;
    FreshHolds(RequestText(line, "", rest), v);
  }

  /** A printed request in one chunk: what becomes of it, for any fields; and the reader holds the request with the map
      `m` exactly when that is the map read of its fields. */
  lemma PrintedRequestIsRead(line: RequestLine, fs: seq<Field>, rest: string, m: map<string, string>, v: Version)
    requires Sendable(line, fs)
    ensures var o := OnChunk(FRESH, RequestText(line, PrintFields(fs), rest), v);
            && (fs != [] ==> ReadAs(o, line, PrintFields(fs), fs, v.skip))
            && (o.next == Holding(line, PrintFields(fs), m) <==> Reads(fs, m, v.skip))
  {
    hide OnChunk, ReadAs;
    if fs != [] {
      FieldsAreRead(line, fs, rest, v);
      HeldIffReads(OnChunk(FRESH, RequestText(line, PrintFields(fs), rest), v), line, PrintFields(fs), fs, m, v.skip);
    } else {
      FieldlessNotHeld(line, rest, m, v);
    }
  }

  lemma HeldIsRead(line: RequestLine, fs: seq<Field>, m: map<string, string>, r: Reader, skip: nat)
    requires skip <= 1 && Printed(fs) && BodyMeans(r, skip) && r == Holding(line, PrintFields(fs), m)
    ensures Reads(fs, m, skip)
  {
    MapRead(fs, skip);
  }

  /** ... and in several chunks: exactly when, besides, no boundary is a bad cut, as the code is written. */
  lemma PrintedRequestInChunks(line: RequestLine, fs: seq<Field>, rest: string, chunks: seq<string>,
                               m: map<string, string>, v: Version)
    requires Sendable(line, fs) && Concat(chunks) == RequestText(line, PrintFields(fs), rest)
    ensures After(chunks, v) == Holding(line, PrintFields(fs), m)
       <==> Reads(fs, m, v.skip) && (v.cuts || CleanCuts(chunks, Concat(chunks)))
  {
    if After(chunks, v) == Holding(line, PrintFields(fs), m) {
      BodyHolds(chunks, v);
      HeldIsRead(line, fs, m, After(chunks, v), v.skip);
    }
    if Reads(fs, m, v.skip) {
      PrintedRequestIsRead(line, fs, rest, m, v);
      InChunks(chunks, v);
    }
  }

  lemma InChunks(chunks: seq<string>, v: Version)
    requires OneShot(Concat(chunks), v).status.Body?
    ensures After(chunks, v) == OneShot(Concat(chunks), v) <==> v.cuts || CleanCuts(chunks, Concat(chunks))
  {
    if v.cuts {
      ChunkIndependenceAsMeant(chunks, v);
    } else {
      BadCuts.ChunkIndependenceAsWritten(chunks, v);
    }
  }

  // ---------------------------------------------------------------- when the request is answered

  /** The position after the empty line. */
  function HeaderEnd(line: RequestLine, block: string): nat {
    |LineText(line)| + |block| + 4
  }

  lemma {:induction false} CleanPrefix(chunks: seq<string>, n: nat, v: Version)
    requires n <= |chunks| && (v.cuts || CleanCuts(chunks, Concat(chunks)))
    ensures v.cuts || CleanCuts(chunks[..n], Concat(chunks[..n]))
    decreases |chunks|
  {
    hide CleanCuts, Concat;
    if n == |chunks| {
      assert chunks[..n] == chunks;
    } else if !v.cuts {
      var m := |chunks| - 1;
      CleanBefore(chunks);
      assert chunks[..m][..n] == chunks[..n];
      CleanPrefix(chunks[..m], n, v);
    }
  }

  /** A beginning of the request that includes the empty line is read as the request, ... */
  lemma LongPrefix(line: RequestLine, fs: seq<Field>, rest: string, y: string, m: map<string, string>, v: Version)
    requires Sendable(line, fs) && Reads(fs, m, v.skip) && y <= RequestText(line, PrintFields(fs), rest)
    requires |y| >= HeaderEnd(line, PrintFields(fs))
    ensures OneShot(y, v) == Holding(line, PrintFields(fs), m)
  {
    hide OnChunk, ReadAs, Reads, Sendable, PrintFields;
    var e := HeaderEnd(line, PrintFields(fs));
    assert y == RequestText(line, PrintFields(fs), y[e..]);
    PrintedRequestIsRead(line, fs, y[e..], m, v);
  }

  /** ... and a shorter one is not complete. */
  lemma ShortPrefix(line: RequestLine, fs: seq<Field>, rest: string, y: string, v: Version)
    requires Sendable(line, fs) && fs != [] && y <= RequestText(line, PrintFields(fs), rest)
    requires OneShot(y, v).status.Body?
    ensures |y| >= HeaderEnd(line, PrintFields(fs))
  {
    hide OnChunk, PrintFields, OneShot, ParseRequestLine, Settle, LineText, BreakFree;
    var i, j := OneShotIs(y, v);
    FieldsEnd(fs, rest);
    MarksOf(LineText(line), PrintFields(fs), rest);
    MarksInPrefix(RequestText(line, PrintFields(fs), rest), y, i, j);
  }

  lemma MarksOf(l: string, block: string, rest: string)
    requires NoCrlf(l)
    ensures var x := l + CRLF + block + CRLF + rest;
            FindCrlf(x) == Some(|l|) && x[|l| + 2..] == block + CRLF + rest
  {
    LineEnd(l, block + CRLF + rest);
    assert l + CRLF + block + CRLF + rest == l + CRLF + (block + CRLF + rest);
  }

  lemma MarksInPrefix(x: string, y: string, i: nat, j: nat)
    requires y <= x && Marks(y, i, j)
    ensures Marks(x, i, j) && i + j + 6 <= |y|
  {
    var c := x[|y|..];
    assert x == y + c;
    CrlfInPrefix(y, c);
    assert x[i + 2..] == y[i + 2..] + c;
    HeadEndInPrefix(y[i + 2..], c);
  }

  /** The reader is in Body exactly from the chunk that brings the end of the empty line. */
  lemma BodyFrom(line: RequestLine, fs: seq<Field>, rest: string, chunks: seq<string>, n: nat, m: map<string, string>,
                 v: Version)
    requires Sendable(line, fs) && Concat(chunks) == RequestText(line, PrintFields(fs), rest) && Reads(fs, m, v.skip)
    requires n <= |chunks| && (v.cuts || CleanCuts(chunks, Concat(chunks)))
    requires |Concat(chunks)| >= HeaderEnd(line, PrintFields(fs))
    ensures var r := After(chunks[..n], v);
            && (r.status.Body? <==> |Concat(chunks[..n])| >= HeaderEnd(line, PrintFields(fs)))
            && !r.status.Terminated? && (r.status.Body? ==> r.expectedBodySize == BodySize(m))
  {
    hide OnChunk, After, PrintFields, RequestText, Sendable;
    var y := Concat(chunks[..n]);
    ConcatPrefix(chunks, n);
    CleanPrefix(chunks, n, v);
    CleanChunking(chunks[..n], v);
    AfterAdvances(chunks, n, v);
    PrintedRequestInChunks(line, fs, rest, chunks, m, v);
    if |y| >= HeaderEnd(line, PrintFields(fs)) { LongPrefix(line, fs, rest, y, m, v); }
    if OneShot(y, v).status.Body? { ShortPrefix(line, fs, rest, y, v); }
  }

  lemma WholeIsLong(line: RequestLine, block: string, rest: string)
    ensures |RequestText(line, block, rest)| >= HeaderEnd(line, block)
  {
  }

  /** When a printed request is answered, for every clean chunking.  Until the empty line has arrived another read is
      asked for; the chunk that completes it is answered at once if the fields announce no body, and otherwise asks for
      one more read; every later chunk is answered, whatever it holds. */
  lemma RequestVerdicts(line: RequestLine, fs: seq<Field>, rest: string, chunks: seq<string>, k: nat,
                        m: map<string, string>, v: Version)
    requires Sendable(line, fs) && Concat(chunks) == RequestText(line, PrintFields(fs), rest) && Reads(fs, m, v.skip)
    requires k < |chunks| && (v.cuts || CleanCuts(chunks, Concat(chunks)))
    ensures var end := HeaderEnd(line, PrintFields(fs));
            OnChunk(After(chunks[..k], v), chunks[k], v).verdict ==
              if |Concat(chunks[..k + 1])| < end then Engine.ReadMore
              else if |Concat(chunks[..k])| < end && BodySize(m) > 0 then Engine.ReadMore
              else Engine.Respond
  {
    hide OnChunk, PrintFields, RequestText, Sendable, Reads, Concat, CleanCuts, HeaderEnd, BodySize;
    WholeIsLong(line, PrintFields(fs), rest);
    BodyFrom(line, fs, rest, chunks, k, m, v);
    BodyFrom(line, fs, rest, chunks, k + 1, m, v);
    OnlyAdvances(After(chunks[..k], v), chunks[k], v);
    assert chunks[..k + 1][..k] == chunks[..k] && chunks[..k + 1][k] == chunks[k];
    assert After(chunks[..k + 1], v) == OnChunk(After(chunks[..k], v), chunks[k], v).next;
    Longer(chunks, k);
  }

  lemma Longer(chunks: seq<string>, k: nat)
    requires k < |chunks|
    ensures |Concat(chunks[..k])| <= |Concat(chunks[..k + 1])|
  {
    ConcatPrefix(chunks[..k + 1], k);
    assert chunks[..k + 1][..k] == chunks[..k];
  }

  // ---------------------------------------------------------------- values that are empty

  /** As written, a request ends the process exactly when, walking over its fields, an empty value is left without a
      next line to take along, or the fields read refuse it. */
  lemma TerminatesAsWritten(line: RequestLine, fs: seq<Field>, rest: string, v: Version)
    requires v.skip == 1 && Sendable(line, fs) && fs != []
    ensures OnChunk(FRESH, RequestText(line, PrintFields(fs), rest), v).verdict.Abort?
       <==> Dangling(fs) || (ReadBack(fs, 1).Some? && Refused(FieldMap(ReadBack(fs, 1).value)))
  {
    RefusedIffDangling(fs);
    PrintedRequestIsRead(line, fs, rest, map[], v);
  }

  /** An empty last value does, after any fields that do not take it along. */
  lemma EmptyLastValueTerminates(line: RequestLine, fs: seq<Field>, n: string, rest: string, v: Version)
    requires v.skip == 1 && Sendable(line, fs + [Field(n, "")]) && !Dangling(fs)
    ensures var o := OnChunk(FRESH, RequestText(line, PrintFields(fs + [Field(n, "")]), rest), v);
            o.next.status.Terminated? && o.verdict.Abort?
  {
    var gs := fs + [Field(n, "")];
    EmptyLast(fs, n);
    RefusedIffDangling(gs);
    PrintedRequestIsRead(line, gs, rest, map[], v);
  }

  // ---------------------------------------------------------------- a request without fields

  /** The empty line of a request without fields is taken for the beginning of the fields: the reader waits for more. */
  lemma FieldlessRequestWaits(line: RequestLine, v: Version)
    requires Sendable(line, [])
    ensures OnChunk(FRESH, RequestText(line, "", ""), v)
         == More(FRESH.(status := Header, requestLine := LineText(line), requestHeader := CRLF, lineView := line))
  {
    assert RequestText(line, "", "") == LineText(line) + CRLF + CRLF;
    PrintedLine(line, CRLF, v.cuts);
    RequestLineExact(LineText(line), line);
    assert "" + CRLF == CRLF;
    assert FindHeadEnd(CRLF).None?;
  }

  /** The fields that are read when a request follows one without fields: its line has become part of its first name. */
  function Swallowed(second: RequestLine, fs: seq<Field>): seq<Field>
    requires fs != []
  {
    fs[0 := Field(CRLF + LineText(second) + CRLF + fs[0].name, fs[0].content)]
  }

  /** A request without fields swallows the line of the request that follows it, and is answered for its fields. */
  lemma FieldlessSwallowsNextRequest(line: RequestLine, second: RequestLine, fs: seq<Field>, rest: string, v: Version)
    requires Sendable(line, []) && Sendable(second, fs) && fs != [] && Lacks(LineText(second), ':')
    ensures ReadAs(OnChunk(FRESH, RequestText(line, "", RequestText(second, PrintFields(fs), rest)), v),
                   line, CRLF + LineText(second) + CRLF + PrintFields(fs), Swallowed(second, fs), v.skip)
  {
    hide OnChunk, ReadAs, FindHeadEnd, GivesMap;
    SwallowedMap(second, fs, v.skip);
    SwallowedEnd(second, fs, rest);
    BlockIsRead(line, CRLF + LineText(second) + CRLF + PrintFields(fs), Swallowed(second, fs), rest, v);
    SwallowedWhole(line, second, fs, CRLF + LineText(second) + CRLF + PrintFields(fs), rest);
  }

  lemma SwallowedMap(second: RequestLine, fs: seq<Field>, skip: nat)
    requires skip <= 1 && Sendable(second, fs) && fs != [] && Lacks(LineText(second), ':')
    ensures GivesMap(CRLF + LineText(second) + CRLF + PrintFields(fs), Swallowed(second, fs), skip)
  {
    SwallowedText(second, fs);
    SwallowedPrinted(second, fs);
    MapRead(Swallowed(second, fs), skip);
  }

  lemma SwallowedWhole(line: RequestLine, second: RequestLine, fs: seq<Field>, block: string, rest: string)
    requires block == CRLF + LineText(second) + CRLF + PrintFields(fs)
    ensures RequestText(line, "", RequestText(second, PrintFields(fs), rest)) == RequestText(line, block, rest)
  {
    EmptyBlock(LineText(line) + CRLF, LineText(second) + CRLF + PrintFields(fs), rest);
    assert CRLF + (LineText(second) + CRLF + PrintFields(fs)) == block;
  }

  lemma EmptyBlock(line: string, block: string, rest: string)
    ensures line + "" + CRLF + (block + CRLF + rest) == line + (CRLF + block) + CRLF + rest
  {
    assert line + "" == line;
  }

  lemma SwallowedText(second: RequestLine, fs: seq<Field>)
    requires fs != []
    ensures PrintFields(Swallowed(second, fs)) == CRLF + LineText(second) + CRLF + PrintFields(fs)
  {
    var gs := Swallowed(second, fs);
    assert gs[1..] == fs[1..];
    assert PrintField(gs[0]) == CRLF + LineText(second) + CRLF + PrintField(fs[0]);
  }

  lemma SwallowedPrinted(second: RequestLine, fs: seq<Field>)
    requires Sendable(second, fs) && fs != [] && Lacks(LineText(second), ':')
    ensures Printed(Swallowed(second, fs))
  {
    assert Lacks(CRLF + LineText(second) + CRLF + fs[0].name, ':');
  }

  lemma SwallowedEnd(second: RequestLine, fs: seq<Field>, rest: string)
    requires NoCrlf(LineText(second)) && fs != [] && BreakFree(fs)
    ensures var block := CRLF + LineText(second) + CRLF + PrintFields(fs);
            FindHeadEnd(block + CRLF + rest) == Some(|block| - 2)
  {
    var first, l, tail := fs[0].name + ": " + fs[0].content, LineText(second), PrintFields(fs) + CRLF + rest;
    FieldsEnd(fs, rest);
    FieldLine(fs[0]);
    FirstFieldLine(fs, first, rest);
    EndAfterTwo(l, first, tail);
    assert CRLF + (l + CRLF + tail) == CRLF + l + CRLF + PrintFields(fs) + CRLF + rest;
  }

  lemma FirstFieldLine(fs: seq<Field>, first: string, rest: string)
    requires fs != [] && PrintField(fs[0]) == first + CRLF
    ensures first <= PrintFields(fs) + CRLF + rest
  {
  }

  lemma EndAfterTwo(l: string, first: string, tail: string)
    requires NoCrlf(l) && |l| >= 2 && NoCrlf(first) && |first| >= 2 && first <= tail && FindHeadEnd(tail).Some?
    ensures FindHeadEnd(CRLF + (l + CRLF + tail)) == Some(|l| + 4 + FindHeadEnd(tail).value)
  {
    NotAfterLine(l, first, tail);
    var after := l + CRLF + tail;
    assert l <= after;
    NotAfterLine("", l, after);
    assert "" + CRLF + after == CRLF + after;
  }

  // ---------------------------------------------------------------- read, hence printed

  /** Whatever one chunk carries to Body was a request: the text is the line the reader holds, well-formed field lines
      that give its header map, an empty line, and a rest; and these fields do not refuse it. */
  lemma ReadRequestWasPrinted(x: string, v: Version) returns (gs: seq<Segment>, rest: string)
    requires OneShot(x, v).status.Body?
    ensures var r := OneShot(x, v);
            && x == RequestText(r.lineView, Join(gs), rest) && AllWellFormed(gs, v.skip)
            && Lacks(r.lineView.method_, ' ') && Lacks(r.lineView.path, ' ')
            && r == Holding(r.lineView, Join(gs), FieldMap(FieldsOf(gs))) && !Refused(FieldMap(FieldsOf(gs)))
  {
    var i, j := OneShotIs(x, v);
    var line, block := ParseRequestLine(x[..i]).value, x[i + 2..i + 4 + j];
    var r := FRESH.(status := Header, requestLine := x[..i], requestHeader := block, lineView := line);
    RequestLineExact(x[..i], line);
    gs := BlockLines(r, v.skip);
    DecideIs(r, FieldMap(FieldsOf(gs)));
    rest := x[i + 6 + j..];
    Pieces(x, i, j);
  }

  lemma BlockLines(r: Reader, skip: nat) returns (gs: seq<Segment>)
    requires skip <= 1 && Settle(r, skip).next.status.Body?
    ensures Join(gs) == r.requestHeader && AllWellFormed(gs, skip)
    ensures Settle(r, skip) == Decide(r, Some(FieldMap(FieldsOf(gs))))
  {
    gs := Segments(r.requestHeader, skip).value;
    Lossless(r.requestHeader, skip, gs);
  }

  lemma Pieces(x: string, i: nat, j: nat)
    requires Marks(x, i, j)
    ensures x == x[..i] + CRLF + x[i + 2..i + 4 + j] + CRLF + x[i + 6 + j..]
  {
    LineBreakSplits(x, i);
    var sv := x[i + 2..];
    LineBreakSplits(sv, j + 2);
    assert sv[..j + 2] == x[i + 2..i + 4 + j] && sv[j + 4..] == x[i + 6 + j..];
  }
}
