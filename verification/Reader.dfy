/** The incremental request reader: its parser fields and its reaction to one completed read. */
module Reader {
  import opened Basics
  import opened Text
  import Engine
  import HeaderFields
  import ContentLength
  import opened RequestTarget

  /** `Terminated` stands for std::terminate. */
  datatype ParseStatus = Initial | Header | Body | Terminated

  datatype Reader = Reader(
    status: ParseStatus,
    requestLine: string,
    requestHeader: string,
    lineView: RequestLine,
    headers: map<string, string>,
    transferEncoding: string,
    isChunked: bool,
    expectedBodySize: nat)

  const FRESH: Reader := Reader(Initial, "", "", RequestLine("", "", ""), map[], "", false, 0)

  type Outcome = Engine.Outcome<Reader>

  function More(r: Reader): Outcome {
    Engine.Outcome(r, Engine.ReadMore)
  }

  function Terminate(r: Reader): Outcome {
    Engine.Outcome(r.(status := Terminated), Engine.Abort)
  }

  /** Which version of the code: how many characters the field parser drops after the spaces, and whether accumulated
      text is cut at its separator with the rest carried over. */
  datatype VersionBase = Version(skip: nat, cuts: bool)

  /** As written `Version(1, false)`, as meant `Version(0, true)`. */
  type Version = v: VersionBase | v.skip <= 1 witness Version(1, false)

  // ---------------------------------------------------------------- the reaction

  /** The header text is complete: read the fields, then decide how much body to wait for. */
  function Settle(r: Reader, skip: nat): Outcome
    requires skip <= 1
  {
    Decide(r, HeaderFields.ParseMap(r.requestHeader, skip))
  }

  function Decide(r: Reader, fields: Option<map<string, string>>): Outcome {
    match fields
    case None => Terminate(r)
    case Some(headers) =>
      var r := r.(headers := headers);
      var r := if "Transfer-Encoding" in headers then r.(transferEncoding := headers["Transfer-Encoding"]) else r;
      if "Transfer-Encoding" in headers && headers["Transfer-Encoding"] == "chunked" then
        Terminate(r.(isChunked := true))
      else if "Content-Length" in headers then
        match ContentLength.ParseLength(headers["Content-Length"])
        case None => Terminate(r)
        case Some(n) => Settled(r.(expectedBodySize := n))
      else Settled(r)
  }

  function Settled(r: Reader): Outcome {
    Engine.Outcome(r.(status := Body), if r.expectedBodySize > 0 then Engine.ReadMore else Engine.Respond)
  }

  /** The header text after a chunk, and whether it is complete.  As written, a separator found only in the accumulated
      text is not cut out of it. */
  function AppendHeader(h: string, sv: string, cuts: bool): (string, bool) {
    if cuts then
      match FindHeadEnd(h + sv)
      case Some(off) => ((h + sv)[..off + 2], true)
      case None => (h + sv, false)
    else
      match FindHeadEnd(sv)
      case Some(off) => (h + sv[..off + 2], true)
      case None => (h + sv, FindHeadEnd(h + sv).Some?)
  }

  /** The request line after a chunk and, if it is complete, what of the chunk goes to the header.  As written, a chunk
      that ends right after the line break leaves the line open, and a separator found only in the accumulated text is
      not cut out of it. */
  function AppendLine(l: string, sv: string, cuts: bool): (string, Option<string>) {
    if cuts then
      match FindCrlf(l + sv)
      case Some(off) => ((l + sv)[..off], Some((l + sv)[off + 2..]))
      case None => (l + sv, None)
    else
      match FindCrlf(sv)
      case Some(off) => (l + sv[..off], if off + 2 >= |sv| then None else Some(sv[off + 2..]))
      case None => (l + sv, if FindCrlf(l + sv).None? then None else Some(sv))
  }

  /** The Header case, once the text has been taken over. */
  function HeaderTaken(r: Reader, text: string, complete: bool, skip: nat): Outcome
    requires skip <= 1
  {
    var r := r.(requestHeader := text);
    if complete then Settle(r, skip) else More(r)
  }

  function InHeader(r: Reader, sv: string, v: Version): Outcome {
    var (text, complete) := AppendHeader(r.requestHeader, sv, v.cuts);
    HeaderTaken(r, text, complete, v.skip)
  }

  function EnterHeader(r: Reader, sv: string, v: Version): Outcome {
    match ParseRequestLine(r.requestLine)
    case None => Terminate(r)
    case Some(line) => InHeader(r.(status := Header, lineView := line), sv, v)
  }

  /** The Initial case, once the text has been taken over. */
  function LineTaken(r: Reader, text: string, rest: Option<string>, v: Version): Outcome {
    var r := r.(requestLine := text);
    match rest
    case None => More(r)
    case Some(sv) => EnterHeader(r, sv, v)
  }

  function InInitial(r: Reader, sv: string, v: Version): Outcome {
    var (text, rest) := AppendLine(r.requestLine, sv, v.cuts);
    LineTaken(r, text, rest, v)
  }

  /** onStatusChanged on a completed read that brought `sv`. */
  function OnChunk(r: Reader, sv: string, v: Version): Outcome {
    match r.status
    case Initial => InInitial(r, sv, v)
    case Header => InHeader(r, sv, v)
    case Body => Engine.Outcome(r, Engine.Respond)
    case Terminated => Engine.Outcome(r, Engine.Abort)
  }

  // ---------------------------------------------------------------- progress

  function Rank(s: ParseStatus): nat {
    match s
    case Initial => 0
    case Header => 1
    case Body => 2
    case Terminated => 3
  }

  /** The verdict that leaves the reader in `next`: terminated, or ready to answer because no body is announced or
      it has just been read, or still short of something. */
  function VerdictIn(bodyRead: bool, next: Reader): Engine.Verdict {
    if next.status.Terminated? then Engine.Abort
    else if next.status.Body? && (bodyRead || next.expectedBodySize == 0) then Engine.Respond
    else Engine.ReadMore
  }

  /** What one reaction may change before the header is complete. */
  predicate Advances(r: Reader, o: Outcome) {
    var next := o.next;
    && Rank(r.status) <= Rank(next.status)
    && (!r.status.Initial? ==> next.requestLine == r.requestLine && next.lineView == r.lineView)
    && o.verdict == VerdictIn(false, next)
    && (next.isChunked ==> r.isChunked || next.status.Terminated?)
  }

  lemma SettleAdvances(r: Reader, skip: nat)
    requires skip <= 1 && r.status.Header?
    ensures Advances(r, Settle(r, skip)) && Rank(Settle(r, skip).next.status) >= 2
    ensures Settle(r, skip).next.requestHeader == r.requestHeader
  {
    DecideAdvances(r, HeaderFields.ParseMap(r.requestHeader, skip));
  }

  lemma DecideAdvances(r: Reader, fields: Option<map<string, string>>)
    requires r.status.Header?
    ensures var o := Decide(r, fields);
            Advances(r, o) && Rank(o.next.status) >= 2 && o.next.requestHeader == r.requestHeader
  {
  }

  lemma HeaderTakenAdvances(r: Reader, text: string, complete: bool, skip: nat)
    requires skip <= 1 && r.status.Header?
    ensures var o := HeaderTaken(r, text, complete, skip);
            Advances(r, o) && o.next.requestHeader == text && (complete <==> !o.next.status.Header?)
  {
    SettleAdvances(r.(requestHeader := text), skip);
  }

  lemma EnterHeaderAdvances(r: Reader, sv: string, v: Version)
    requires r.status.Initial?
    ensures var o := EnterHeader(r, sv, v);
            Advances(r, o) && o.next.requestLine == r.requestLine && !o.next.status.Initial?
  {
    var line := ParseRequestLine(r.requestLine);
    if line.Some? {
      var (text, complete) := AppendHeader(r.requestHeader, sv, v.cuts);
      HeaderTakenAdvances(r.(status := Header, lineView := line.value), text, complete, v.skip);
    }
  }

  lemma LineTakenAdvances(r: Reader, text: string, rest: Option<string>, v: Version)
    requires r.status.Initial?
    ensures var o := LineTaken(r, text, rest, v);
            Advances(r, o) && o.next.requestLine == text && (rest.None? <==> o.next.status.Initial?)
  {
    if rest.Some? {
      EnterHeaderAdvances(r.(requestLine := text), rest.value, v);
    }
  }

  /** parseStatus only advances, and once a stage is left what it gathered stays as it is.  std::terminate is called
      exactly on the way to Terminated; a response is asked for exactly when Body is reached with no body announced, and
      by every chunk in Body; otherwise another read is. */
  lemma OnlyAdvances(r: Reader, sv: string, v: Version)
    ensures var o := OnChunk(r, sv, v);
            (r.status.Initial? || r.status.Header? ==> Advances(r, o)) &&
            (r.status.Body? || r.status.Terminated? ==> o.next == r) &&
            o.verdict == VerdictIn(r.status.Body?, o.next)
  {
    if r.status.Header? {
      var (text, complete) := AppendHeader(r.requestHeader, sv, v.cuts);
      HeaderTakenAdvances(r, text, complete, v.skip);
    } else if r.status.Initial? {
      var (text, rest) := AppendLine(r.requestLine, sv, v.cuts);
      LineTakenAdvances(r, text, rest, v);
    }
  }

  /** The reader after a run of chunks. */
  function After(chunks: seq<string>, v: Version): Reader {
    if |chunks| == 0 then FRESH else OnChunk(After(chunks[..|chunks| - 1], v), chunks[|chunks| - 1], v).next
  }

  /** From Body on, nothing changes any more. */
  lemma {:induction false} AfterAdvances(chunks: seq<string>, n: nat, v: Version)
    requires n <= |chunks|
    ensures var r, r' := After(chunks[..n], v), After(chunks, v);
            && Rank(r.status) <= Rank(r'.status)
            && (r.status.Body? || r.status.Terminated? ==> r' == r)
    decreases |chunks|
  {
    if n == |chunks| {
      assert chunks[..n] == chunks;
    } else {
      var m := |chunks| - 1;
      assert chunks[..m][..n] == chunks[..n];
      AfterAdvances(chunks[..m], n, v);
      OnlyAdvances(After(chunks[..m], v), chunks[m], v);
    }
  }

  // ---------------------------------------------------------------- the callback object

  /** The read callback of one connection. */
  class HttpReadAsyncCallback {
    var parseStatus: ParseStatus
    var requestLine: string
    var requestHeader: string
    var requestLineView: RequestLine
    var requestHeaderView: map<string, string>
    var transferEncoding: string
    var isChunked: bool
    var expectedBodySize: nat
    const skip: nat
    ghost var received: seq<string>

    ghost function View(): Reader
      reads this
    {
      Reader(parseStatus, requestLine, requestHeader, requestLineView, requestHeaderView, transferEncoding, isChunked,
             expectedBodySize)
    }

    ghost predicate Valid()
      reads this
    {
      skip <= 1 && (isChunked ==> parseStatus == Terminated) && View() == After(received, Version(skip, false))
    }

    constructor (skip: nat)
      requires skip <= 1
      ensures Valid() && this.skip == skip && received == []
    {
      parseStatus := Initial;
      requestLine, requestHeader := "", "";
      requestLineView, requestHeaderView := RequestLine("", "", ""), map[];
      transferEncoding, isChunked, expectedBodySize := "", false, 0;
      this.skip := skip;
      received := [];
    }

    /** One completed read: the fields change as `OnChunk` says, and the verdict is the call that ends the callback. */
    method OnStatusChanged(chunk: string) returns (verdict: Engine.Verdict)
      requires Valid()
      modifies this
      ensures Valid() && received == old(received) + [chunk]
      ensures OnChunk(old(View()), chunk, Version(skip, false)) == Engine.Outcome(View(), verdict)
    {
      OnlyAdvances(View(), chunk, Version(skip, false));
      verdict := Switch(chunk);
      received := received + [chunk];
      assert received[..|received| - 1] == old(received);
    }

    /** The switch on parseStatus. */
    method Switch(chunk: string) returns (verdict: Engine.Verdict)
      requires skip <= 1 && (isChunked ==> parseStatus == Terminated)
      modifies this
      ensures received == old(received)
      ensures OnChunk(old(View()), chunk, Version(skip, false)) == Engine.Outcome(View(), verdict)
    {
      var sv := chunk;
      if parseStatus == Terminated { return Engine.Abort; }
      if parseStatus == Body {
        assert !isChunked;
        return Engine.Respond;
      }
      if parseStatus == Initial {
        var entered;
        entered, sv, verdict := TakeLine(chunk);
        if !entered { return verdict; }
      }
      verdict := TakeHeader(sv);
    }

    /** The Initial case; `entered` says whether it falls through to the Header case, with `rest` of the chunk. */
    method TakeLine(chunk: string) returns (entered: bool, rest: string, verdict: Engine.Verdict)
      requires skip <= 1 && parseStatus == Initial
      modifies this`requestLine, this`requestLineView, this`parseStatus
      ensures InInitial(old(View()), chunk, Version(skip, false))
           == if entered then InHeader(View(), rest, Version(skip, false)) else Engine.Outcome(View(), verdict)
      ensures entered ==> parseStatus == Header
    {
      entered, rest, verdict := false, chunk, Engine.ReadMore;
      var offSeparator := FindCrlf(rest);
      if offSeparator.Some? {
        requestLine := requestLine + rest[..offSeparator.value];
        var offNext := offSeparator.value + 2;
        if offNext >= |rest| { return; }
        rest := rest[offNext..];
      } else {
        requestLine := requestLine + rest;
        offSeparator := FindCrlf(requestLine);
        if offSeparator.None? { return; }
      }
      var line := ParseHttpRequestLine(requestLine);
      if line.None? {
        parseStatus := Terminated;
        verdict := Engine.Abort;
        return;
      }
      requestLineView := line.value;
      parseStatus := Header;
      entered := true;
    }

    /** The Header case. */
    method TakeHeader(sv: string) returns (verdict: Engine.Verdict)
      requires skip <= 1 && parseStatus == Header && !isChunked
      modifies this
      ensures received == old(received)
      ensures InHeader(old(View()), sv, Version(skip, false)) == Engine.Outcome(View(), verdict)
    {
      var complete := ExtendHeader(sv);
      if !complete { return Engine.ReadMore; }
      verdict := FinishHeader();
    }

    /** Append what belongs to the header; `complete` says whether the empty line has been seen. */
    method ExtendHeader(sv: string) returns (complete: bool)
      requires skip <= 1 && parseStatus == Header
      modifies this`requestHeader
      ensures AppendHeader(old(requestHeader), sv, false) == (requestHeader, complete)
    {
      var offSeparator := FindHeadEnd(sv);
      if offSeparator.Some? {
        requestHeader := requestHeader + sv[..offSeparator.value + 2];
        return true;
      }
      requestHeader := requestHeader + sv;
      offSeparator := FindHeadEnd(requestHeader);
      complete := offSeparator.Some?;
    }

    method FinishHeader() returns (verdict: Engine.Verdict)
      requires skip <= 1 && parseStatus == Header && !isChunked
      modifies this`requestHeaderView, this`transferEncoding, this`isChunked, this`expectedBodySize, this`parseStatus
      ensures Settle(old(View()), skip) == Engine.Outcome(View(), verdict)
    {
      var fields := HeaderFields.ParseHttpRequestHeader(requestHeader, skip);
      if fields.None? {
        parseStatus := Terminated;
        return Engine.Abort;
      }
      requestHeaderView := fields.value;
      if "Transfer-Encoding" in requestHeaderView {
        transferEncoding := requestHeaderView["Transfer-Encoding"];
        if transferEncoding == "chunked" {
          isChunked := true;
        }
      }
      if !isChunked && "Content-Length" in requestHeaderView {
        var contentLength := ContentLength.ParseContentLength(requestHeaderView["Content-Length"]);
        if contentLength.None? {
          parseStatus := Terminated;
          return Engine.Abort;
        }
        expectedBodySize := contentLength.value as nat;
      }
      parseStatus := Body;
      if isChunked {
        parseStatus := Terminated;
        return Engine.Abort;
      }
      verdict := if expectedBodySize > 0 then Engine.ReadMore else Engine.Respond;
    }
  }
}
