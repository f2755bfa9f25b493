/** The HTTP server on the completion engine: the reader plugged into the engine, and the reply to a parsed request. */
module Server {
  import opened Basics
  import opened Text
  import opened Engine
  import opened EngineInvariant
  import opened EngineSteps
  import opened EngineSafety
  import opened EngineRuns
  import Reader
  import Chunks
  import BadCuts
  import HeaderFields
  import ContentLength
  import RequestTarget
  import Requests
  import RouteTable
  import ResponseWriter

  // ---------------------------------------------------------------- the reader on the engine

  function ReaderCallbacks(v: Reader.Version): Callbacks<Reader.Reader> {
    Callbacks(Reader.FRESH, (r: Reader.Reader, chunk: string) => Reader.OnChunk(r, chunk, v))
  }

  lemma {:induction false} FoldIsAfter(chunks: seq<string>, v: Reader.Version)
    ensures Fold(ReaderCallbacks(v), chunks) == Reader.After(chunks, v)
  {
    if |chunks| > 0 {
      FoldIsAfter(chunks[..|chunks| - 1], v);
    }
  }

  /** However many workers run and however they interleave, a connection's parser fields are what the reader makes of
      the data of the connection's reads, in the order these were issued. */
  lemma ParserState(s: State<Reader.Reader>, c: nat, v: Reader.Version)
    requires Reachable(ReaderCallbacks(v), s) && c < |s.conns|
    ensures var conn := s.conns[c];
            && conn.reader == Reader.After(conn.chunks, v)
            && forall k | 0 <= k < |conn.chunks| ::
                 && k < |conn.started| && StartedRead(s, c, conn.started[k])
                 && conn.chunks[k] == s.tasks[conn.started[k]].data
  {
    SequentialParsing(ReaderCallbacks(v), s, c);
    FoldIsAfter(s.conns[c].chunks, v);
  }

  /** As meant: on every schedule the request parsed depends only on the bytes that arrived, not on how the kernel cut
      them into completions. */
  lemma ParsedAsMeant(s: State<Reader.Reader>, c: nat, v: Reader.Version)
    requires Reachable(ReaderCallbacks(v), s) && c < |s.conns| && v.cuts
    ensures s.conns[c].reader == Chunks.OneShot(Concat(s.conns[c].chunks), v)
  {
    ParserState(s, c, v);
    Chunks.ChunkIndependenceAsMeant(s.conns[c].chunks, v);
  }

  /** As written: on every schedule, a text that one piece would carry past its request line is read as that piece
      exactly when no completion ended at a bad cut. */
  lemma ParsedAsWritten(s: State<Reader.Reader>, c: nat, v: Reader.Version)
    requires Reachable(ReaderCallbacks(v), s) && c < |s.conns| && !v.cuts
    requires var r := Chunks.OneShot(Concat(s.conns[c].chunks), v); r.status.Body? || r.status.Header?
    ensures s.conns[c].reader == Chunks.OneShot(Concat(s.conns[c].chunks), v)
       <==> Chunks.CleanCuts(s.conns[c].chunks, Concat(s.conns[c].chunks))
  {
    ParserState(s, c, v);
    BadCuts.ChunkIndependenceAsWritten(s.conns[c].chunks, v);
  }

  /** End to end: if the bytes that arrived on a connection are a request that a client printed, then on every schedule
      the connection's callback holds that request with the map `m` exactly when `m` is what is read of its fields and,
      as the code is written, no completion ended at a bad cut. */
  lemma RequestDelivered(s: State<Reader.Reader>, c: nat, v: Reader.Version, line: RequestTarget.RequestLine,
                         fs: seq<HeaderFields.Field>, rest: string, m: map<string, string>)
    requires Reachable(ReaderCallbacks(v), s) && c < |s.conns| && Requests.Sendable(line, fs)
    requires Concat(s.conns[c].chunks) == Requests.RequestText(line, HeaderFields.PrintFields(fs), rest)
    ensures s.conns[c].reader == Requests.Holding(line, HeaderFields.PrintFields(fs), m)
       <==> Requests.Reads(fs, m, v.skip)
            && (v.cuts || Chunks.CleanCuts(s.conns[c].chunks, Concat(s.conns[c].chunks)))
  {
    ParserState(s, c, v);
    Requests.PrintedRequestInChunks(line, fs, rest, s.conns[c].chunks, m, v);
  }

  /** With distinct names, the callback holds the client's own line and fields, each value less its first `skip`
      characters, exactly when there is a field, no value is too short for that or starts with a space, the code does
      not refuse these fields, and, as it is written, no completion ended at a bad cut. */
  lemma IntendedRequestDelivered(s: State<Reader.Reader>, c: nat, v: Reader.Version, line: RequestTarget.RequestLine,
                                 fs: seq<HeaderFields.Field>, rest: string)
    requires Reachable(ReaderCallbacks(v), s) && c < |s.conns|
    requires Requests.Sendable(line, fs) && HeaderFields.Distinct(fs)
    requires Concat(s.conns[c].chunks) == Requests.RequestText(line, HeaderFields.PrintFields(fs), rest)
    ensures var m := Requests.Intended(fs, v.skip);
            s.conns[c].reader == Requests.Holding(line, HeaderFields.PrintFields(fs), m) <==>
            && fs != [] && Requests.Whole(fs, v.skip) && !Requests.Refused(m)
            && (v.cuts || Chunks.CleanCuts(s.conns[c].chunks, Concat(s.conns[c].chunks)))
  {
    RequestDelivered(s, c, v, line, fs, rest, Requests.Intended(fs, v.skip));
    Requests.ReadsIntended(line, fs, v.skip);
  }

  // ---------------------------------------------------------------- progress over runs

  /** Over every run, parseStatus only advances, and from Body on the parser fields stay as they are. */
  lemma {:induction false} StatusAdvances(s: State<Reader.Reader>, acts: seq<Action>, c: nat, v: Reader.Version)
    requires Inv(ReaderCallbacks(v), s) && Runs(ReaderCallbacks(v), s, acts) && c < |s.conns|
    ensures c < |Exec(ReaderCallbacks(v), s, acts).conns|
    ensures var r, r' := s.conns[c].reader, Exec(ReaderCallbacks(v), s, acts).conns[c].reader;
            && Reader.Rank(r.status) <= Reader.Rank(r'.status)
            && (r.status.Body? || r.status.Terminated? ==> r' == r)
  {
    var p := ReaderCallbacks(v);
    ChunksOnlyGrow(p, s, acts, c);
    KeepRun(p, s, acts);
    FoldOf(p, s, c);
    FoldOf(p, Exec(p, s, acts), c);
    var before, after := s.conns[c].chunks, Exec(p, s, acts).conns[c].chunks;
    FoldIsAfter(before, v);
    FoldIsAfter(after, v);
    assert after[..|before|] == before;
    Reader.AfterAdvances(after, |before|, v);
  }

  lemma FoldOf<R>(p: Callbacks<R>, s: State<R>, c: nat)
    requires Inv(p, s) && c < |s.conns|
    ensures s.conns[c].reader == Fold(p, s.conns[c].chunks)
  {
    assert ConnInv(p, s, c);
  }

  // ---------------------------------------------------------------- when the response is issued

  lemma VerdictOf(chunks: seq<string>, k: nat, v: Reader.Version)
    requires k < |chunks|
    ensures var r, next := Reader.After(chunks[..k], v), Reader.After(chunks[..k + 1], v);
            VerdictOn(ReaderCallbacks(v), chunks, k) == Reader.VerdictIn(r.status.Body?, next)
  {
    FoldIsAfter(chunks[..k], v);
    assert chunks[..k + 1][..k] == chunks[..k];
    Reader.OnlyAdvances(Reader.After(chunks[..k], v), chunks[k], v);
  }

  /** On every schedule, a read after the first was asked for because the request was incomplete, or because it had just
      been completed and announces a body. */
  lemma ReadWhenShort(s: State<Reader.Reader>, c: nat, k: nat, v: Reader.Version)
    requires Reachable(ReaderCallbacks(v), s) && c < |s.conns| && 0 < k < |s.conns[c].started|
    ensures k <= |s.conns[c].chunks|
    ensures var before := Reader.After(s.conns[c].chunks[..k - 1], v);
            var after := Reader.After(s.conns[c].chunks[..k], v);
            && !after.status.Terminated?
            && (after.status.Body? ==> !before.status.Body? && after.expectedBodySize > 0)
  {
    ReachableInv(ReaderCallbacks(v), s);
    assert ConnInv(ReaderCallbacks(v), s, c);
    assert s.conns[c].verdicts[k - 1] == ReadMore;
    VerdictOf(s.conns[c].chunks, k - 1, v);
  }

  /** The reader was ready to be answered when it got its last chunk: that one completed a request without a body, or it
      was the next one after a request that announces a body. */
  ghost predicate Ready(chunks: seq<string>, v: Reader.Version) {
    && |chunks| > 0 && Reader.After(chunks, v).status.Body?
    && if Reader.After(chunks, v).expectedBodySize == 0 then
         !Reader.After(chunks[..|chunks| - 1], v).status.Body?
       else
         && |chunks| > 1 && Reader.After(chunks[..|chunks| - 1], v) == Reader.After(chunks, v)
         && !Reader.After(chunks[..|chunks| - 2], v).status.Body?
  }

  /** On every schedule, a response is issued only then. */
  lemma ResponseWhenReady(s: State<Reader.Reader>, c: nat, t: nat, v: Reader.Version)
    requires Reachable(ReaderCallbacks(v), s) && c < |s.conns| && t < |s.tasks|
    requires s.tasks[t].kind == Write && s.tasks[t].conn == c && s.tasks[t].stage != Unissued
    ensures Ready(s.conns[c].chunks, v) && s.conns[c].reader == Reader.After(s.conns[c].chunks, v)
  {
    var chunks, n := s.conns[c].chunks, |s.conns[c].chunks|;
    VerdictsDecide(ReaderCallbacks(v), s, c, t);
    ParserState(s, c, v);
    VerdictOf(chunks, n - 1, v);
    LastTwo(chunks, v);
    if n > 1 {
      ReadWhenShort(s, c, n - 1, v);
    }
  }

  lemma LastTwo(chunks: seq<string>, v: Reader.Version)
    requires |chunks| > 0
    ensures var n := |chunks|;
            && chunks[..n] == chunks
            && (Reader.After(chunks[..n - 1], v).status.Body? ==>
                  n > 1 && Reader.After(chunks, v) == Reader.After(chunks[..n - 1], v))
  {
    assert chunks[..|chunks|] == chunks;
    Reader.AfterAdvances(chunks, |chunks| - 1, v);
  }

  // ---------------------------------------------------------------- the reply

  datatype Answer = BadRequest | Routed(reply: RouteTable.Reply)

  /** The status text of the answers that the server writes itself. */
  function StatusText(a: Answer): Option<string> {
    match a
    case BadRequest => Some("400 Bad Request")
    case Routed(MethodNotAllowed) => Some("405 Method Not Allowed")
    case Routed(NotFound) => Some("404 Not Found")
    case Routed(Handled(_)) => None
  }

  /** What follows the status line of such an answer. */
  const NO_CONTENT: string := "Content-Type: text/plain\r\n" + "Content-Length: 0\r\n" + "\r\n" + "\r\n"

  /** The beginning of `text`, and all of it if there is room for its 14 string operations. */
  predicate Sent(data: string, room: nat, text: string) {
    data <= text && (room >= 14 ==> data == text)
  }

  /** `u` is the one way to split the target. */
  ghost predicate Target(raw: string, u: RequestTarget.Url) {
    RequestTarget.IsSplit(raw, u) && !RequestTarget.FragmentFirst(raw)
  }

  /** The handler of the first successful registration for the path and the method; 405 if there is none, but one for
      the path and another method; 404 if there is none for the path. */
  ghost predicate RoutedFor(history: seq<RouteTable.Attempt>, path: string, m: string, answer: Answer) {
    && (forall h :: answer == Routed(RouteTable.Handled(h)) <==>
                    exists k: nat :: RouteTable.FirstSuccess(history, k, path, m) && history[k].handler == h)
    && (answer == Routed(RouteTable.MethodNotAllowed) <==>
          && (forall k: nat :: !RouteTable.FirstSuccess(history, k, path, m))
          && exists k: nat, m' :: RouteTable.FirstSuccess(history, k, path, m'))
    && (answer == Routed(RouteTable.NotFound) <==> forall k: nat, m' :: !RouteTable.FirstSuccess(history, k, path, m'))
  }

  lemma TypeLine()
    ensures "Content-Type" + ": " + "text/plain" + "\r\n" == "Content-Type: text/plain\r\n"
  {
  }

  lemma LengthLine()
    ensures "Content-Length" + ": " + ContentLength.Decimal(0) + "\r\n" == "Content-Length: 0\r\n"
  {
    assert ContentLength.Decimal(0) == "0";
  }

  lemma EmptyBody(head: string, x: string, y: string)
    ensures head + x + y + CRLF + "" + CRLF == head + (x + y + CRLF + CRLF)
  {
  }

  lemma PlainText(message: string)
    ensures ResponseWriter.Print(ResponseWriter.SimpleResponse(message, "text/plain", ""))
         == "HTTP/1,1 " + message + "\r\n" + NO_CONTENT
  {
    hide ContentLength.Decimal, ResponseWriter.Print, ResponseWriter.SimpleResponse;
    ResponseWriter.SimpleText(message, "text/plain", "");
    EmptyBody("HTTP/1,1 " + message + "\r\n", "Content-Type" + ": " + "text/plain" + "\r\n",
              "Content-Length" + ": " + ContentLength.Decimal(0) + "\r\n");
    TypeLine();
    LengthLine();
  }

  /** Which answer it is: 400 if a '#' precedes the first '?' of the target; otherwise the path in front of the query
      and the fragment is looked up. */
  method Route(server: RouteTable.HttpServer, line: RequestTarget.RequestLine) returns (answer: Answer)
    requires server.Valid()
    ensures answer == BadRequest <==> RequestTarget.FragmentFirst(line.path)
    ensures forall u | Target(line.path, u) :: RoutedFor(server.history, u.path, line.method_, answer)
  {
    var url := RequestTarget.SplitTarget(line.path);
    RequestTarget.RefusedIff(line.path);
    if url.None? { return BadRequest; }
    var reply := server.Dispatch(url.value.path, line.method_);
    answer := Routed(reply);
    forall u | Target(line.path, u) ensures u == url.value {
      RequestTarget.SplitExact(line.path, u);
    }
  }

  /** The answer in Body: the reply that `Route` finds, and the text of those the server writes itself.  A handler
      writes its own response.  The result of writeResponse is ignored, so what is sent is in any case the beginning of
      the response, and all of it if there is room for it. */
  method AnswerRequest(server: RouteTable.HttpServer, line: RequestTarget.RequestLine,
                       state: ResponseWriter.HttpURLHandlerState) returns (answer: Answer)
    requires server.Valid() && state.View() == ResponseWriter.Fresh(state.room)
    modifies state
    ensures answer == BadRequest <==> RequestTarget.FragmentFirst(line.path)
    ensures forall u | Target(line.path, u) :: RoutedFor(server.history, u.path, line.method_, answer)
    ensures answer == BadRequest ==>
              Sent(state.responseData, old(state.room), "HTTP/1,1 400 Bad Request\r\n" + NO_CONTENT)
    ensures answer == Routed(RouteTable.MethodNotAllowed) ==>
              Sent(state.responseData, old(state.room), "HTTP/1,1 405 Method Not Allowed\r\n" + NO_CONTENT)
    ensures answer == Routed(RouteTable.NotFound) ==>
              Sent(state.responseData, old(state.room), "HTTP/1,1 404 Not Found\r\n" + NO_CONTENT)
    ensures answer.Routed? && answer.reply.Handled? ==> state.View() == old(state.View())
  {
    answer := Route(server, line);
    var message := StatusText(answer);
    if message.Some? {
      SendSimple(state, message.value);
      StatusLines(message.value);
    }
  }

  lemma StatusLines(message: string)
    ensures message == "400 Bad Request" ==> "HTTP/1,1 " + message + "\r\n" == "HTTP/1,1 400 Bad Request\r\n"
    ensures message == "405 Method Not Allowed" ==>
              "HTTP/1,1 " + message + "\r\n" == "HTTP/1,1 405 Method Not Allowed\r\n"
    ensures message == "404 Not Found" ==> "HTTP/1,1 " + message + "\r\n" == "HTTP/1,1 404 Not Found\r\n"
  {
  }

  method SendSimple(state: ResponseWriter.HttpURLHandlerState, message: string)
    requires state.View() == ResponseWriter.Fresh(state.room)
    modifies state
    ensures Sent(state.responseData, old(state.room), "HTTP/1,1 " + message + "\r\n" + NO_CONTENT)
  {
    PlainText(message);
    ResponseWriter.SimpleIsWritten(state.room, message, "text/plain", "");
    var result := state.WriteResponse(message, "text/plain", "");
  }

  // ---------------------------------------------------------------- reading a response back

  lemma DigitsNoBreaks(s: string)
    requires ContentLength.AllDigits(s)
    ensures NoCrlf(s) && (s != "" ==> s[0] != ' ')
  {
    forall k: nat | k < |s| ensures !CrlfAt(s, k) {
      assert ContentLength.IsDigit(s[k]);
    }
  }

  lemma LengthDigits(n: nat, skip: nat)
    requires skip <= 1 && n <= SIZE_MAX
    ensures var digits := ContentLength.Decimal(n);
            && |digits| >= skip && NoCrlf(digits[skip..]) && digits[0] != ' '
            && ContentLength.ParseLength(digits[skip..]) == Some(ContentLength.LengthRead(n, skip))
  {
    ContentLength.ReadBack(n, skip);
    DigitsNoBreaks(ContentLength.Decimal(n));
    DigitsNoBreaks(ContentLength.Decimal(n)[skip..]);
  }

  lemma NoColons()
    ensures Lacks("Content-Type", ':') && Lacks("Content-Length", ':') && "Content-Type" != "Content-Length"
  {
    assert |"Content-Type"| != |"Content-Length"|;
  }

  /** The reader's field parser on a simple response finds its content type and its length: all of them as meant, and as
      written without the first character of each, which takes the length modulo its leading power of ten. */
  lemma {:induction false} LengthReadBack(message: string, contentType: string, body: string, skip: nat)
    requires skip <= 1 && |body| <= SIZE_MAX
    requires |contentType| >= skip && NoCrlf(contentType[skip..]) && (contentType == "" || contentType[0] != ' ')
    ensures var fs := ResponseWriter.SimpleResponse(message, contentType, body).fields;
            var m := HeaderFields.ParseMap(HeaderFields.PrintFields(fs), skip);
            && m.Some? && m.value.Keys == {"Content-Type", "Content-Length"}
            && m.value["Content-Type"] == contentType[skip..]
            && ContentLength.ParseLength(m.value["Content-Length"]) == Some(ContentLength.LengthRead(|body|, skip))
  {
    var digits := ContentLength.Decimal(|body|);
    LengthDigits(|body|, skip);
    NoColons();
    TwoFields(HeaderFields.Field("Content-Type", contentType), HeaderFields.Field("Content-Length", digits), skip);
  }

  lemma TwoFields(f: HeaderFields.Field, g: HeaderFields.Field, skip: nat)
    requires skip <= 1 && HeaderFields.Printable(f, skip) && HeaderFields.Printable(g, skip) && f.name != g.name
    ensures var m := HeaderFields.ParseMap(HeaderFields.PrintFields([f, g]), skip);
            && m.Some? && m.value.Keys == {f.name, g.name}
            && m.value[f.name] == f.content[skip..] && m.value[g.name] == g.content[skip..]
  {
    var fs := [f, g];
    HeaderFields.HeaderRoundTrip(fs, skip, 0);
    HeaderFields.HeaderRoundTrip(fs, skip, 1);
    assert HeaderFields.Names(fs) == {fs[0].name, fs[1].name};
  }
}
