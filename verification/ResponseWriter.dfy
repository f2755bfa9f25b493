/** The staged response writer, the grammar of what it writes, and reading it back with the reader's own parts. */
module ResponseWriter {
  import opened Basics
  import opened Text
  import opened HeaderFields
  import ContentLength

  datatype Stage = StatusLine | ResponseHeaders | ResponseBody | End

  /** How a call ends; `Terminated` stands for std::terminate. */
  datatype Result = Ok | OutOfMemory | Terminated

  /** One call of a writer method. */
  datatype Op = WriteStatusLine(message: string) | WriteHeader(field: Field) | EndHeader | WriteBody(data: string)

  const VERSION: string := "HTTP/1,1 "

  /** `room` is the number of string operations that still succeed. */
  datatype State = State(data: string, stage: Stage, room: nat)

  function Fresh(room: nat): State {
    State("", StatusLine, room)
  }

  // ---------------------------------------------------------------- one call

  /** The pieces that a call appends, in order. */
  function Pieces(op: Op): seq<string> {
    match op
    case WriteStatusLine(message) => [VERSION, message, CRLF]
    case WriteHeader(f) => [f.name, ": ", f.content, CRLF]
    case EndHeader => [CRLF]
    case WriteBody(data) => [data, CRLF]
  }

  function StageFor(op: Op): Stage {
    match op
    case WriteStatusLine(_) => StatusLine
    case WriteHeader(_) => ResponseHeaders
    case EndHeader => ResponseHeaders
    case WriteBody(_) => ResponseBody
  }

  function StageAfter(op: Op): Stage {
    match op
    case WriteStatusLine(_) => ResponseHeaders
    case WriteHeader(_) => ResponseHeaders
    case EndHeader => ResponseBody
    case WriteBody(_) => ResponseBody
  }

  /** What the pieces are appended to: writeStatusLine starts the text anew. */
  function Base(s: State, op: Op): string {
    if op.WriteStatusLine? && s.room > 0 then "" else s.data
  }

  /** One call: in the wrong stage it terminates, without room it leaves what it has appended so far. */
  function Apply(s: State, op: Op): (State, Result) {
    var n := |Pieces(op)|;
    if s.stage != StageFor(op) then (s, Terminated)
    else if s.room < n then (State(Base(s, op) + Concat(Pieces(op)[..s.room]), s.stage, 0), OutOfMemory)
    else (State(Base(s, op) + Concat(Pieces(op)), StageAfter(op), s.room - n), Ok)
  }

  /** Calls in sequence, up to the first that does not succeed. */
  function Run(s: State, ops: seq<Op>): (State, Result) {
    if |ops| == 0 then (s, Ok)
    else
      var (t, r) := Run(s, ops[..|ops| - 1]);
      if r.Ok? then Apply(t, ops[|ops| - 1]) else (t, r)
  }

  // ---------------------------------------------------------------- the grammar

  /** A response as far as it has been written. */
  datatype Response = Response(message: string, fields: seq<Field>, ended: bool, bodies: seq<string>)

  predicate Grammatical(d: Response) {
    d.ended || d.bodies == []
  }

  function PrintBodies(bodies: seq<string>): string {
    if |bodies| == 0 then "" else PrintBodies(bodies[..|bodies| - 1]) + (bodies[|bodies| - 1] + CRLF)
  }

  /** Status line, fields, blank line, bodies. */
  function Print(d: Response): string {
    VERSION + d.message + CRLF + PrintFields(d.fields) + if d.ended then CRLF + PrintBodies(d.bodies) else ""
  }

  function StageOf(d: Response): Stage {
    if d.ended then ResponseBody else ResponseHeaders
  }

  function FieldOps(fs: seq<Field>): seq<Op> {
    seq(|fs|, i requires 0 <= i < |fs| => WriteHeader(fs[i]))
  }

  function BodyOps(bodies: seq<string>): seq<Op> {
    seq(|bodies|, i requires 0 <= i < |bodies| => WriteBody(bodies[i]))
  }

  /** The calls that write a response. */
  function Calls(d: Response): seq<Op> {
    [WriteStatusLine(d.message)] + FieldOps(d.fields) + if d.ended then [EndHeader] + BodyOps(d.bodies) else []
  }

  /** The number of string operations that the calls need. */
  function Need(ops: seq<Op>): nat {
    if |ops| == 0 then 0 else Need(ops[..|ops| - 1]) + |Pieces(ops[|ops| - 1])|
  }

  /** All pieces of all calls. */
  function AllPieces(ops: seq<Op>): string {
    if |ops| == 0 then "" else AllPieces(ops[..|ops| - 1]) + Concat(Pieces(ops[|ops| - 1]))
  }

  /** What a run has written is the beginning of what its calls would write, and all of it when it succeeds. */
  lemma {:induction false} WrittenSoFar(room: nat, ops: seq<Op>)
    ensures var (s, r) := Run(Fresh(room), ops);
            && s.data <= AllPieces(ops)
            && (r.Ok? ==> s.data == AllPieces(ops) && s.room + Need(ops) == room)
            && (r.Ok? && s.stage.StatusLine? ==> ops == [])
            && (r.OutOfMemory? ==> room < Need(ops))
  {
    if |ops| > 0 {
      var n := |ops| - 1;
      WrittenSoFar(room, ops[..n]);
      var (s, r) := Run(Fresh(room), ops[..n]);
      if r.Ok? {
        CallWrites(s, ops[n], ops[..n]);
      }
    }
  }

  lemma CallWrites(s: State, op: Op, before: seq<Op>)
    requires s.data == AllPieces(before) && (s.stage.StatusLine? ==> before == [])
    ensures var (t, r) := Apply(s, op);
            && t.data <= AllPieces(before) + Concat(Pieces(op))
            && (r.Ok? ==> t.data == AllPieces(before) + Concat(Pieces(op)) && t.room + |Pieces(op)| == s.room)
            && (r.OutOfMemory? ==> s.room < |Pieces(op)|)
            && (r.Ok? ==> t.stage == StageAfter(op))
  {
    if s.stage == StageFor(op) {
      assert Base(s, op) == AllPieces(before);
      if s.room < |Pieces(op)| { ConcatPrefix(Pieces(op), s.room); }
    }
  }

  // ---------------------------------------------------------------- the calls of a response

  /** The response that one more call makes of `d`. */
  function Extend(d: Response, op: Op): Response {
    match op
    case WriteStatusLine(_) => d
    case WriteHeader(f) => d.(fields := d.fields + [f])
    case EndHeader => d.(ended := true)
    case WriteBody(b) => d.(bodies := d.bodies + [b])
  }

  lemma ExtendCalls(d: Response, op: Op)
    requires Grammatical(d) && StageOf(d) == StageFor(op)
    ensures Grammatical(Extend(d, op)) && StageOf(Extend(d, op)) == StageAfter(op)
    ensures Calls(Extend(d, op)) == Calls(d) + [op]
  {
    match op
    case WriteHeader(f) => assert FieldOps(d.fields + [f]) == FieldOps(d.fields) + [op];
    case EndHeader =>
    case WriteBody(b) =>
      assert BodyOps(d.bodies + [b]) == BodyOps(d.bodies) + [op];
      assert Calls(d) + [op]
          == [WriteStatusLine(d.message)] + FieldOps(d.fields) + ([EndHeader] + BodyOps(d.bodies) + [op]);
  }

  /** The last call of a response, and the response before it. */
  function Shorten(d: Response): (Response, Op)
    requires d.ended || d.fields != []
  {
    if d.ended && d.bodies != [] then
      (d.(bodies := d.bodies[..|d.bodies| - 1]), WriteBody(d.bodies[|d.bodies| - 1]))
    else if d.ended then (d.(ended := false), EndHeader)
    else (d.(fields := d.fields[..|d.fields| - 1]), WriteHeader(d.fields[|d.fields| - 1]))
  }

  lemma ShortenExtends(d: Response)
    requires Grammatical(d) && (d.ended || d.fields != [])
    ensures var (e, op) := Shorten(d);
            Grammatical(e) && StageOf(e) == StageFor(op) && Extend(e, op) == d && |Calls(e)| < |Calls(d)|
  {
    var (e, op) := Shorten(d);
    assert Extend(e, op) == d;
    ExtendCalls(e, op);
  }

  lemma {:induction false} PrintIsPieces(d: Response)
    requires Grammatical(d)
    ensures AllPieces(Calls(d)) == Print(d)
    decreases |Calls(d)|
  {
    if d.ended || d.fields != [] {
      ShortenExtends(d);
      var (e, op) := Shorten(d);
      PrintIsPieces(e);
      ExtendCalls(e, op);
      assert (Calls(e) + [op])[..|Calls(e)|] == Calls(e);
      PrintExtends(e, op);
    } else {
      var op := WriteStatusLine(d.message);
      assert Calls(d) == [op] && [op][..0] == [];
      PiecesOf(op);
      assert AllPieces([op]) == AllPieces([]) + Concat(Pieces(op));
    }
  }

  lemma PiecesOf(op: Op)
    ensures Concat(Pieces(op)) == match op
            case WriteStatusLine(message) => VERSION + message + CRLF
            case WriteHeader(f) => PrintField(f)
            case EndHeader => CRLF
            case WriteBody(data) => data + CRLF
  {
    ConcatTakes(Pieces(op));
  }

  lemma ConcatTakes(p: seq<string>)
    requires |p| <= 4
    ensures Concat(p[..0]) == "" && p[..|p|] == p
    ensures |p| > 0 ==> Concat(p[..1]) == p[0]
    ensures |p| > 1 ==> Concat(p[..2]) == p[0] + p[1]
    ensures |p| > 2 ==> Concat(p[..3]) == p[0] + p[1] + p[2]
    ensures |p| > 3 ==> Concat(p[..4]) == p[0] + p[1] + p[2] + p[3]
  {
    assert |p| > 0 ==> p[..1][..0] == p[..0];
    assert |p| > 1 ==> p[..2][..1] == p[..1];
    assert |p| > 2 ==> p[..3][..2] == p[..2];
    assert |p| > 3 ==> p[..4][..3] == p[..3];
  }

  lemma AppendTakes(base: string, p: seq<string>)
    requires |p| <= 4
    ensures base + Concat(p[..0]) == base && p[..|p|] == p
    ensures |p| > 0 ==> base + Concat(p[..1]) == base + p[0]
    ensures |p| > 1 ==> base + Concat(p[..2]) == base + p[0] + p[1]
    ensures |p| > 2 ==> base + Concat(p[..3]) == base + p[0] + p[1] + p[2]
    ensures |p| > 3 ==> base + Concat(p[..4]) == base + p[0] + p[1] + p[2] + p[3]
  {
    ConcatTakes(p);
  }

  lemma {:induction false} PrintFieldsAppend(fs: seq<Field>, f: Field)
    ensures PrintFields(fs + [f]) == PrintFields(fs) + PrintField(f)
  {
    if |fs| == 0 {
      assert fs + [f] == [f] && [f][1..] == [];
      Regroup(PrintField(f), "", "");
    } else {
      PrintFieldsAppend(fs[1..], f);
      assert (fs + [f])[1..] == fs[1..] + [f] && (fs + [f])[0] == fs[0];
      Regroup(PrintField(fs[0]), PrintFields(fs[1..]), PrintField(f));
    }
  }

  lemma PrintExtends(d: Response, op: Op)
    requires Grammatical(d) && StageOf(d) == StageFor(op)
    ensures Print(Extend(d, op)) == Print(d) + Concat(Pieces(op))
  {
    PiecesOf(op);
    match op
    case WriteHeader(f) =>
      PrintFieldsAppend(d.fields, f);
      Regroup(VERSION + d.message + CRLF, PrintFields(d.fields), PrintField(f));
    case EndHeader => Regroup(VERSION + d.message + CRLF + PrintFields(d.fields), "", CRLF);
    case WriteBody(b) =>
      PrintBodiesAppend(d.bodies, b);
      Regroup(VERSION + d.message + CRLF + PrintFields(d.fields), CRLF + PrintBodies(d.bodies), b + CRLF);
      Regroup(CRLF, PrintBodies(d.bodies), b + CRLF);
  }

  lemma Regroup(a: string, b: string, c: string)
    ensures a + (b + c) == a + b + c && a + b + c + "" == a + b + c && a + "" + c == a + c
    ensures a + (c + "") == a + c && a + "" == a
  {
  }

  lemma PrintBodiesAppend(bodies: seq<string>, b: string)
    ensures PrintBodies(bodies + [b]) == PrintBodies(bodies) + (b + CRLF)
  {
    assert (bodies + [b])[..|bodies|] == bodies;
  }

  /** Every response of the grammar can be written: its calls run through whenever there is room for them. */
  lemma {:induction false} CallsRunThrough(room: nat, d: Response)
    requires Grammatical(d) && Need(Calls(d)) <= room
    ensures var (s, r) := Run(Fresh(room), Calls(d));
            r.Ok? && s.stage == StageOf(d)
    decreases |Calls(d)|
  {
    WrittenSoFar(room, Calls(d));
    if d.ended || d.fields != [] {
      ShortenExtends(d);
      var (e, op) := Shorten(d);
      ExtendCalls(e, op);
      assert (Calls(e) + [op])[..|Calls(e)|] == Calls(e);
      CallsRunThrough(room, e);
    } else {
      var op := WriteStatusLine(d.message);
      assert Calls(d) == [op] && [op][..0] == [];
      assert Run(Fresh(room), [op]) == Apply(Fresh(room), op);
    }
  }

  /** Nothing else can: calls that run through are the calls of a response. */
  lemma {:induction false} OnlyResponses(room: nat, ops: seq<Op>) returns (d: Response)
    requires |ops| > 0 && Run(Fresh(room), ops).1.Ok?
    ensures Grammatical(d) && ops == Calls(d) && StageOf(d) == Run(Fresh(room), ops).0.stage
  {
    var n := |ops| - 1;
    LastCall(room, ops);
    if n == 0 {
      d := OneCall(ops);
    } else {
      d := OnlyResponses(room, ops[..n]);
      OneMore(d, ops);
      d := Extend(d, ops[n]);
    }
  }

  lemma OneCall(ops: seq<Op>) returns (d: Response)
    requires |ops| == 1 && ops[0].WriteStatusLine?
    ensures Grammatical(d) && ops == Calls(d) && StageOf(d) == ResponseHeaders
  {
    d := Response(ops[0].message, [], false, []);
  }

  lemma OneMore(d: Response, ops: seq<Op>)
    requires |ops| > 0 && Grammatical(d) && ops[..|ops| - 1] == Calls(d) && StageOf(d) == StageFor(ops[|ops| - 1])
    ensures var e := Extend(d, ops[|ops| - 1]);
            Grammatical(e) && ops == Calls(e) && StageOf(e) == StageAfter(ops[|ops| - 1])
  {
    ExtendCalls(d, ops[|ops| - 1]);
  }

  lemma LastCall(room: nat, ops: seq<Op>)
    requires |ops| > 0 && Run(Fresh(room), ops).1.Ok?
    ensures var n := |ops| - 1;
            && Run(Fresh(room), ops[..n]).1.Ok? && Run(Fresh(room), ops[..n]).0.stage == StageFor(ops[n])
            && Run(Fresh(room), ops).0.stage == StageAfter(ops[n])
            && (n == 0 ==> ops[0].WriteStatusLine?)
  {
  }

  /** The writer is a grammar: a sequence of calls runs through exactly when it is the calls of a response and there is
      room for them, and then the text is that response printed. */
  lemma {:induction false} WriterIsGrammar(room: nat, ops: seq<Op>)
    requires |ops| > 0
    ensures Run(Fresh(room), ops).1.Ok? <==> Need(ops) <= room && exists d :: Grammatical(d) && ops == Calls(d)
    ensures forall d :: Grammatical(d) && ops == Calls(d) ==>
              var (s, r) := Run(Fresh(room), ops);
              s.data <= Print(d) && (r.Ok? ==> s.data == Print(d) && s.stage == StageOf(d))
  {
    WrittenSoFar(room, ops);
    if Run(Fresh(room), ops).1.Ok? {
      var d := OnlyResponses(room, ops);
      assert Grammatical(d) && ops == Calls(d);
    }
    forall d | Grammatical(d) && ops == Calls(d)
      ensures AllPieces(ops) == Print(d)
      ensures Need(ops) <= room ==> Run(Fresh(room), ops).1.Ok? && Run(Fresh(room), ops).0.stage == StageOf(d)
    {
      PrintIsPieces(d);
      if Need(ops) <= room { CallsRunThrough(room, d); }
    }
  }

  // ---------------------------------------------------------------- the writer object

  /** The response that writeResponse writes. */
  function SimpleResponse(message: string, contentType: string, body: string): Response {
    Response(message,
             [Field("Content-Type", contentType), Field("Content-Length", ContentLength.Decimal(|body|))],
             true, [body])
  }

  /** The next call of a run, if nothing has failed yet. */
  function Next(p: (State, Result), op: Op): (State, Result) {
    if p.1.Ok? then Apply(p.0, op) else p
  }

  lemma RunNext(s: State, ops: seq<Op>, k: nat)
    requires k < |ops|
    ensures Run(s, ops[..k + 1]) == Next(Run(s, ops[..k]), ops[k])
  {
    assert ops[..k + 1][..k] == ops[..k];
  }

  lemma FiveSteps(s: State, ops: seq<Op>)
    returns (p1: (State, Result), p2: (State, Result), p3: (State, Result), p4: (State, Result), p5: (State, Result))
    requires |ops| == 5
    ensures p1 == Apply(s, ops[0]) && p2 == Next(p1, ops[1]) && p3 == Next(p2, ops[2]) && p4 == Next(p3, ops[3])
    ensures p5 == Next(p4, ops[4]) && Run(s, ops) == p5
  {
    p1, p2, p3, p4, p5 := Run(s, ops[..1]), Run(s, ops[..2]), Run(s, ops[..3]), Run(s, ops[..4]), Run(s, ops[..5]);
    RunNext(s, ops, 0);
    RunNext(s, ops, 1);
    RunNext(s, ops, 2);
    RunNext(s, ops, 3);
    RunNext(s, ops, 4);
    assert ops[..5] == ops && ops[..0] == [];
  }

  /** One call, piece by piece. */
  lemma ApplyIs(s: State, op: Op)
    requires s.stage == StageFor(op)
    ensures var p, base, o := Pieces(op), Base(s, op), Apply(s, op);
            && (s.room < |p| ==> o.0.stage == s.stage && o.0.room == 0 && o.1.OutOfMemory?)
            && (s.room >= |p| ==> o.0.stage == StageAfter(op) && o.0.room == s.room - |p| && o.1.Ok?)
            && (s.room == 0 ==> o.0.data == s.data)
            && (|p| > 0 && (s.room == 1 || (s.room > 1 && |p| == 1)) ==> o.0.data == base + p[0])
            && (|p| > 1 && (s.room == 2 || (s.room > 2 && |p| == 2)) ==> o.0.data == base + p[0] + p[1])
            && (|p| > 2 && (s.room == 3 || (s.room > 3 && |p| == 3)) ==> o.0.data == base + p[0] + p[1] + p[2])
            && (|p| > 3 && s.room >= 4 ==> o.0.data == base + p[0] + p[1] + p[2] + p[3])
  {
    AppendTakes(Base(s, op), Pieces(op));
  }

  lemma StatusLineIs(s: State, message: string, version: string)
    requires s.stage.StatusLine? && version == VERSION
    ensures Apply(s, Op.WriteStatusLine(message)) ==
              if s.room == 0 then (State(s.data, StatusLine, 0), OutOfMemory)
              else if s.room == 1 then (State(version, StatusLine, 0), OutOfMemory)
              else if s.room == 2 then (State(version + message, StatusLine, 0), OutOfMemory)
              else (State(version + message + CRLF, ResponseHeaders, s.room - 3), Ok)
  {
    ApplyIs(s, Op.WriteStatusLine(message));
    assert "" + version == version;
    hide Apply;
  }

  class HttpURLHandlerState {
    var responseData: string
    var stage: Stage
    var room: nat

    function View(): State
      reads this
    {
      State(responseData, stage, room)
    }

    constructor (room: nat)
      ensures View() == Fresh(room)
    {
      responseData, stage, this.room := "", StatusLine, room;
    }

    method Build(text: string) returns (ok: bool)
      modifies this`responseData, this`room
      ensures ok == (old(room) > 0)
      ensures room == if ok then old(room) - 1 else 0
      ensures responseData == if ok then text else old(responseData)
    {
      if room == 0 { return false; }
      room, responseData := room - 1, text;
      ok := true;
    }

    method Append(text: string) returns (ok: bool)
      modifies this`responseData, this`room
      ensures ok == (old(room) > 0)
      ensures room == if ok then old(room) - 1 else 0
      ensures responseData == if ok then old(responseData) + text else old(responseData)
    {
      if room == 0 { return false; }
      room, responseData := room - 1, responseData + text;
      ok := true;
    }

    method WriteStatusLine(message: string) returns (r: Result)
      modifies this
      ensures (View(), r) == Apply(old(View()), Op.WriteStatusLine(message))
    {
      if stage != StatusLine { return Terminated; }
      StatusLineIs(View(), message, VERSION);
      hide Apply;
      var ok := BuildLine(VERSION, message);
      if !ok { return OutOfMemory; }
      stage := ResponseHeaders;
      r := Ok;
    }

    method BuildLine(version: string, message: string) returns (ok: bool)
      modifies this`responseData, this`room
      ensures ok == (old(room) >= 3) && room == if ok then old(room) - 3 else 0
      ensures responseData == if old(room) == 0 then old(responseData)
                              else if old(room) == 1 then version
                              else if old(room) == 2 then version + message
                              else version + message + CRLF
    {
      ok := Build(version);
      if !ok { return; }
      ok := Append(message);
      if !ok { return; }
      ok := Append(CRLF);
    }

    method WriteHeader(name: string, value: string) returns (r: Result)
      modifies this
      ensures (View(), r) == Apply(old(View()), Op.WriteHeader(Field(name, value)))
    {
      if stage != ResponseHeaders { return Terminated; }
      ApplyIs(View(), Op.WriteHeader(Field(name, value)));
      var ok := Append(name);
      if !ok { return OutOfMemory; }
      ok := Append(": ");
      if !ok { return OutOfMemory; }
      ok := Append(value);
      if !ok { return OutOfMemory; }
      ok := Append(CRLF);
      r := if ok then Ok else OutOfMemory;
    }

    method EndHeader() returns (r: Result)
      modifies this
      ensures (View(), r) == Apply(old(View()), Op.EndHeader)
    {
      if stage != ResponseHeaders { return Terminated; }
      ApplyIs(View(), Op.EndHeader);
      var ok := Append(CRLF);
      if !ok { return OutOfMemory; }
      stage := ResponseBody;
      r := Ok;
    }

    method WriteBody(data: string) returns (r: Result)
      modifies this
      ensures (View(), r) == Apply(old(View()), Op.WriteBody(data))
    {
      if stage != ResponseBody { return Terminated; }
      ApplyIs(View(), Op.WriteBody(data));
      var ok := Append(data);
      if !ok { return OutOfMemory; }
      ok := Append(CRLF);
      r := if ok then Ok else OutOfMemory;
    }

    /** The calls of a simple response, up to the first that fails; a failure leaves the beginning of that response. */
    method WriteResponse(message: string, contentType: string, body: string) returns (r: Result)
      modifies this
      ensures var (s, result) := Run(old(View()), Calls(SimpleResponse(message, contentType, body)));
              r == result && View() == if r.Ok? then s.(stage := End) else s
    {
      ghost var ops := SimpleCalls(message, contentType, body);
      ghost var p1, p2, p3, p4, p5 := FiveSteps(View(), ops);
      r := WriteStatusLine(message);
      if !r.Ok? { return; }
      r := WriteHeader("Content-Type", contentType);
      if !r.Ok? { return; }
      r := WriteHeader("Content-Length", ContentLength.Decimal(|body|));
      if !r.Ok? { return; }
      r := EndHeader();
      if !r.Ok? { return; }
      r := WriteBody(body);
      if !r.Ok? { return; }
      stage := End;
    }
  }

  lemma SimpleCalls(message: string, contentType: string, body: string) returns (ops: seq<Op>)
    ensures ops == Calls(SimpleResponse(message, contentType, body)) && |ops| == 5
    ensures ops[0] == Op.WriteStatusLine(message) && ops[1] == Op.WriteHeader(Field("Content-Type", contentType))
    ensures ops[2] == Op.WriteHeader(Field("Content-Length", ContentLength.Decimal(|body|)))
    ensures ops[3] == Op.EndHeader && ops[4] == Op.WriteBody(body)
  {
    ops := FiveCalls(message, Field("Content-Type", contentType),
                     Field("Content-Length", ContentLength.Decimal(|body|)), body);
  }

  lemma FiveCalls(message: string, f: Field, g: Field, body: string) returns (ops: seq<Op>)
    ensures ops == Calls(Response(message, [f, g], true, [body])) && |ops| == 5
    ensures ops[0] == Op.WriteStatusLine(message) && ops[1] == Op.WriteHeader(f) && ops[2] == Op.WriteHeader(g)
    ensures ops[3] == Op.EndHeader && ops[4] == Op.WriteBody(body)
  {
    ops := Calls(Response(message, [f, g], true, [body]));
    assert FieldOps([f, g]) == [Op.WriteHeader(f), Op.WriteHeader(g)];
    assert BodyOps([body]) == [Op.WriteBody(body)];
  }

  /** From a fresh writer, writeResponse leaves the beginning of the response, and all of it when there is room. */
  lemma SimpleIsWritten(room: nat, message: string, contentType: string, body: string)
    ensures var d := SimpleResponse(message, contentType, body);
            var (s, r) := Run(Fresh(room), Calls(d));
            && s.data <= Print(d) && (r.Ok? <==> room >= 14) && (r.Ok? ==> s.data == Print(d))
  {
    var d := SimpleResponse(message, contentType, body);
    var ops := SimpleCalls(message, contentType, body);
    NeedOfFive(ops);
    WriterIsGrammar(room, ops);
    assert Grammatical(d) && ops == Calls(d);
  }

  lemma PrintedPair(f: Field, g: Field)
    ensures PrintFields([f, g]) == PrintField(f) + PrintField(g)
  {
    assert [f, g][1..] == [g] && [g][1..] == [];
    assert PrintFields([g]) == PrintField(g) + PrintFields([]);
  }

  lemma SixPieces(head: string, x: string, y: string, body: string)
    ensures head + (x + y) + (CRLF + ("" + (body + CRLF))) == head + x + y + CRLF + body + CRLF
  {
    assert "" + (body + CRLF) == body + CRLF;
  }

  lemma TwoFieldText(message: string, f: Field, g: Field, body: string)
    ensures Print(Response(message, [f, g], true, [body]))
         == VERSION + message + CRLF + PrintField(f) + PrintField(g) + CRLF + body + CRLF
  {
    assert [body][..0] == [] && PrintBodies([body]) == "" + (body + CRLF);
    PrintedPair(f, g);
    SixPieces(VERSION + message + CRLF, PrintField(f), PrintField(g), body);
  }

  /** The text of a simple response. */
  lemma SimpleText(message: string, contentType: string, body: string)
    ensures Print(SimpleResponse(message, contentType, body))
         == "HTTP/1,1 " + message + "\r\n" + ("Content-Type" + ": " + contentType + "\r\n")
            + ("Content-Length" + ": " + ContentLength.Decimal(|body|) + "\r\n") + "\r\n" + body + "\r\n"
  {
    hide Print, ContentLength.Decimal;
    TwoFieldText(message, Field("Content-Type", contentType),
                 Field("Content-Length", ContentLength.Decimal(|body|)), body);
  }

  lemma NeedOfFive(ops: seq<Op>)
    requires |ops| == 5 && ops[0].WriteStatusLine? && ops[1].WriteHeader? && ops[2].WriteHeader?
    requires ops[3].EndHeader? && ops[4].WriteBody?
    ensures Need(ops) == 14
  {
    assert ops[..1][..0] == [] && Need(ops[..1]) == 3;
    assert ops[..2][..1] == ops[..1] && Need(ops[..2]) == 7;
    assert ops[..3][..2] == ops[..2] && Need(ops[..3]) == 11;
    assert ops[..4][..3] == ops[..3] && Need(ops[..4]) == 12;
  }

  // ---------------------------------------------------------------- cutting it again

  /** Nothing written into the header block holds a line break. */
  predicate NoBreaks(d: Response) {
    && NoCrlf(d.message)
    && BreakFree(d.fields)
  }

  lemma StatusLineText(message: string)
    requires NoCrlf(message)
    ensures NoCrlf(VERSION + message)
  {
    JoinNoCrlf(VERSION, message);
  }

  /** Cutting a response at the reader's two separators recovers the printed status line, the printed fields and the
      bodies, exactly when there is at least one field. */
  lemma CutRecovers(d: Response)
    requires d.ended && NoBreaks(d)
    ensures var i := FindCrlf(Print(d)); i.Some? && Print(d)[..i.value] == VERSION + d.message
    ensures var sv := Print(d)[FindCrlf(Print(d)).value + 2..];
            var j := FindHeadEnd(sv);
            d.fields != [] <==>
            j.Some? && sv[..j.value + 2] == PrintFields(d.fields) && sv[j.value + 4..] == PrintBodies(d.bodies)
  {
    var line, sv := VERSION + d.message, PrintFields(d.fields) + CRLF + PrintBodies(d.bodies);
    StatusLineText(d.message);
    LineEnd(line, sv);
    assert Print(d) == line + CRLF + sv;
    assert Print(d)[..|line|] == line && Print(d)[|line| + 2..] == sv;
    if d.fields != [] {
      FieldsEnd(d.fields, PrintBodies(d.bodies));
      CutFields(PrintFields(d.fields), PrintBodies(d.bodies));
    }
  }

  lemma CutFields(fields: string, bodies: string)
    ensures (fields + CRLF + bodies)[..|fields|] == fields && (fields + CRLF + bodies)[|fields| + 2..] == bodies
  {
  }
}
