/** Header fields: the parsing loop of the request reader, the grammar it accepts, and its relation to the response
    writer's printer.

    The parser skips the spaces after the colon and then drops `skip` more characters.  The code as written has
    `skip == 1`: it drops the first character of the value itself.  With `skip == 0` it does what was meant. */
module HeaderFields {
  import opened Basics
  import opened Text

  datatype Field = Field(name: string, content: string)

  // ---------------------------------------------------------------- the grammar

  /** One accepted line: name, colon, spaces, the characters dropped by `skip`, the content, and a line break. */
  datatype Segment = Segment(name: string, spaces: nat, skipped: string, content: string)

  function SegText(g: Segment): string {
    g.name + ":" + Spaces(g.spaces) + g.skipped + g.content + CRLF
  }

  predicate WellFormed(g: Segment, skip: nat) {
    && Lacks(g.name, ':') && |g.skipped| == skip && NoCrlf(g.content)
    && (g.skipped + g.content + CRLF)[0] != ' '
  }

  function Join(gs: seq<Segment>): string {
    if |gs| == 0 then "" else SegText(gs[0]) + Join(gs[1..])
  }

  // ---------------------------------------------------------------- the parser

  /** The rest of a line whose name has been read. */
  function ParseValue(name: string, sv: string, skip: nat): (r: Option<(Segment, string)>)
    requires skip <= 1
    ensures r.Some? ==> |r.value.1| < |sv|
  {
    match FirstNonSpace(sv)
    case None => None
    case Some(k) =>
      var value := sv[k + skip..];
      match FindCrlf(value)
      case None => None
      case Some(e) => Some((Segment(name, k, sv[k..k + skip], value[..e]), value[e + 2..]))
  }

  /** One round of the loop: the line read and the text that remains. */
  function ParseOne(text: string, skip: nat): (r: Option<(Segment, string)>)
    requires skip <= 1
    ensures r.Some? ==> |r.value.1| < |text|
  {
    match FindChar(text, ':')
    case None => None
    case Some(c) => ParseValue(text[..c], text[c + 1..], skip)
  }

  function Segments(text: string, skip: nat): Option<seq<Segment>>
    requires skip <= 1
    decreases |text|
  {
    if |text| == 0 then Some([])
    else match ParseOne(text, skip)
         case None => None
         case Some((g, rest)) =>
           match Segments(rest, skip)
           case None => None
           case Some(gs) => Some([g] + gs)
  }

  function FieldOf(g: Segment): Field {
    Field(g.name, g.content)
  }

  function FieldsOf(gs: seq<Segment>): seq<Field> {
    seq(|gs|, i requires 0 <= i < |gs| => FieldOf(gs[i]))
  }

  /** The fields in the order of their lines. */
  function ParseFields(text: string, skip: nat): Option<seq<Field>>
    requires skip <= 1
  {
    match Segments(text, skip)
    case None => None
    case Some(gs) => Some(FieldsOf(gs))
  }

  /** Inserting into the header map: an entry that is already there stays. */
  function Insert(m: map<string, string>, f: Field): map<string, string> {
    if f.name in m then m else m[f.name := f.content]
  }

  function FieldMap(fs: seq<Field>): map<string, string> {
    if |fs| == 0 then map[] else Insert(FieldMap(fs[..|fs| - 1]), fs[|fs| - 1])
  }

  /** The header map, or nothing if some line cannot be read. */
  function ParseMap(text: string, skip: nat): Option<map<string, string>>
    requires skip <= 1
  {
    match ParseFields(text, skip)
    case None => None
    case Some(fs) => Some(FieldMap(fs))
  }

  /** The loop of parseHttpRequestHeader.  The remaining text strictly shrinks, so it ends on every input. */
  method ParseHttpRequestHeader(requestHeader: string, skip: nat) returns (r: Option<map<string, string>>)
    requires skip <= 1
    ensures r == ParseMap(requestHeader, skip)
  {
    var sv := requestHeader;
    var headers: map<string, string> := map[];
    ghost var done: seq<Segment> := [];
    PrependNothing(Segments(sv, skip));
    while |sv| > 0
      invariant headers == FieldMap(FieldsOf(done))
      invariant Segments(requestHeader, skip) == Prepend(done, Segments(sv, skip))
      decreases |sv|
    {
      ghost var before := sv;
      var separator := FindChar(sv, ':');
      if separator.None? { return None; }
      var name := sv[..separator.value];
      sv := sv[separator.value + 1..];
      ghost var afterColon := sv;
      var nonSpace := FirstNonSpace(sv);
      if nonSpace.None? { return None; }
      sv := sv[nonSpace.value + skip..];
      ghost var value := sv;
      var endOfLine := FindCrlf(sv);
      if endOfLine.None? { return None; }
      var content := sv[..endOfLine.value];
      sv := sv[endOfLine.value + 2..];
      headers := if name in headers then headers else headers[name := content];
      LineRead(before, skip, afterColon, value, name, content, sv);
      ghost var g := ParseOne(before, skip).value.0;
      SegmentsStep(before, skip, g, sv, done);
      FieldsStep(done, g);
      done := done + [g];
    }
    assert done + [] == done;
    r := Some(headers);
  }

  lemma LineRead(before: string, skip: nat, afterColon: string, value: string,
                 name: string, content: string, rest: string)
    requires skip <= 1
    requires var c := FindChar(before, ':'); c.Some? && name == before[..c.value] && afterColon == before[c.value + 1..]
    requires var k := FirstNonSpace(afterColon); k.Some? && value == afterColon[k.value + skip..]
    requires var e := FindCrlf(value); e.Some? && content == value[..e.value] && rest == value[e.value + 2..]
    ensures var r := ParseOne(before, skip);
            r.Some? && r.value.1 == rest && FieldOf(r.value.0) == Field(name, content)
  {
    assert ParseOne(before, skip) == ParseValue(name, afterColon, skip);
    var k := FirstNonSpace(afterColon).value;
    assert ParseValue(name, afterColon, skip) == Some((Segment(name, k, afterColon[k..k + skip], content), rest));
  }

  lemma SegmentsStep(before: string, skip: nat, g: Segment, rest: string, done: seq<Segment>)
    requires skip <= 1 && ParseOne(before, skip) == Some((g, rest))
    ensures Prepend(done, Segments(before, skip)) == Prepend(done + [g], Segments(rest, skip))
  {
    PrependStep(done, g, Segments(rest, skip));
  }

  lemma FieldsStep(done: seq<Segment>, g: Segment)
    ensures FieldMap(FieldsOf(done + [g])) == Insert(FieldMap(FieldsOf(done)), FieldOf(g))
  {
    assert FieldsOf(done + [g]) == FieldsOf(done) + [FieldOf(g)];
    assert (FieldsOf(done) + [FieldOf(g)])[..|done|] == FieldsOf(done);
  }

  lemma PrependNothing(r: Option<seq<Segment>>)
    ensures Prepend([], r) == r
  {
    if r.Some? { assert [] + r.value == r.value; }
  }

  lemma PrependStep(done: seq<Segment>, g: Segment, r: Option<seq<Segment>>)
    ensures Prepend(done, match r case None => None case Some(gs) => Some([g] + gs)) == Prepend(done + [g], r)
  {
    if r.Some? { assert done + ([g] + r.value) == done + [g] + r.value; }
  }

  ghost function Prepend(done: seq<Segment>, r: Option<seq<Segment>>): Option<seq<Segment>> {
    match r
    case None => None
    case Some(gs) => Some(done + gs)
  }

  // ---------------------------------------------------------------- nothing is lost

  lemma ParseOneText(text: string, skip: nat)
    requires skip <= 1 && ParseOne(text, skip).Some?
    ensures var (g, rest) := ParseOne(text, skip).value; text == SegText(g) + rest && WellFormed(g, skip)
  {
    var c := FindChar(text, ':').value;
    ValueText(text[..c], text[c + 1..], skip);
    var r := ParseValue(text[..c], text[c + 1..], skip).value;
    LineJoins(text, c, r.0, r.1, skip);
  }

  /** What the rest of a line gives. */
  predicate ValueOf(sv: string, g: Segment, rest: string, skip: nat) {
    && sv == Spaces(g.spaces) + g.skipped + (g.content + CRLF + rest)
    && |g.skipped| == skip && NoCrlf(g.content) && (g.skipped + g.content + CRLF)[0] != ' '
  }

  lemma LineJoins(text: string, c: nat, g: Segment, rest: string, skip: nat)
    requires FindChar(text, ':') == Some(c) && g.name == text[..c] && ValueOf(text[c + 1..], g, rest, skip)
    ensures text == SegText(g) + rest && WellFormed(g, skip)
  {
    FindCharFirst(text, ':');
    Assemble(text, c, text[c + 1..], Spaces(g.spaces), g.skipped, g.content, rest);
  }

  lemma ValueText(name: string, sv: string, skip: nat)
    requires skip <= 1 && ParseValue(name, sv, skip).Some?
    ensures var (g, rest) := ParseValue(name, sv, skip).value;
            g.name == name && ValueOf(sv, g, rest, skip)
  {
    var k := FirstNonSpace(sv).value;
    var value := sv[k + skip..];
    var e := FindCrlf(value).value;
    FirstLineOf(value, e);
    SplitValue(sv, k, skip, value[..e], value[e + 2..]);
  }

  lemma Assemble(text: string, c: nat, sv: string, spaces: string, skipped: string, content: string, rest: string)
    requires c < |text| && text[c] == ':' && sv == text[c + 1..] == spaces + skipped + (content + CRLF + rest)
    ensures text == text[..c] + ":" + spaces + skipped + content + CRLF + rest
  {
    assert text == text[..c] + ":" + sv;
    Reassociate(text[..c], spaces, skipped, content, rest);
  }

  lemma SplitValue(sv: string, k: nat, skip: nat, content: string, rest: string)
    requires skip <= 1 && FirstNonSpace(sv) == Some(k) && sv[k + skip..] == content + CRLF + rest
    ensures sv == Spaces(k) + sv[k..k + skip] + (content + CRLF + rest)
    ensures (sv[k..k + skip] + content + CRLF)[0] != ' '
  {
    var skipped := sv[k..k + skip];
    OnlySpacesBefore(sv);
    CutTwice(sv, k, skip);
    if skip == 0 {
      assert sv[k] == (content + CRLF + rest)[0] == (content + CRLF)[0];
      assert skipped + content + CRLF == content + CRLF;
    } else {
      assert sv[k] == skipped[0] == (skipped + content + CRLF)[0];
    }
  }

  lemma CutTwice(sv: string, k: nat, skip: nat)
    requires k + skip <= |sv| && sv[..k] == Spaces(k)
    ensures sv == Spaces(k) + sv[k..k + skip] + sv[k + skip..]
  {
  }

  lemma FirstLineOf(value: string, e: nat)
    requires FindCrlf(value) == Some(e)
    ensures value == value[..e] + CRLF + value[e + 2..] && NoCrlf(value[..e])
  {
    assert value[e..e + 2] == CRLF;
    forall i: nat | i < |value[..e]| ensures !CrlfAt(value[..e], i) {
      assert !CrlfAt(value, i);
    }
  }

  lemma Reassociate(name: string, spaces: string, skipped: string, content: string, rest: string)
    ensures name + ":" + (spaces + skipped + (content + CRLF + rest))
         == name + ":" + spaces + skipped + content + CRLF + rest
  {
  }

  lemma ParseOneOf(g: Segment, skip: nat, rest: string)
    requires skip <= 1 && WellFormed(g, skip)
    ensures ParseOne(SegText(g) + rest, skip) == Some((g, rest))
  {
    var value := g.content + CRLF + rest;
    var sv := Spaces(g.spaces) + g.skipped + value;
    Reassociate(g.name, Spaces(g.spaces), g.skipped, g.content, rest);
    FindName(SegText(g) + rest, g.name, sv);
    FindValue(g, skip, value, rest);
    LineEnd(g.content, rest);
    assert value[..|g.content|] == g.content && value[|g.content| + 2..] == rest;
  }

  lemma FindName(text: string, name: string, sv: string)
    requires Lacks(name, ':') && text == name + ":" + sv
    ensures FindChar(text, ':') == Some(|name|) && text[..|name|] == name && text[|name| + 1..] == sv
  {
    FindCharIs(text, ':', |name|);
  }

  lemma FindValue(g: Segment, skip: nat, value: string, rest: string)
    requires skip <= 1 && WellFormed(g, skip) && value == g.content + CRLF + rest
    ensures var sv := Spaces(g.spaces) + g.skipped + value;
            && FirstNonSpace(sv) == Some(g.spaces)
            && sv[g.spaces..g.spaces + skip] == g.skipped && sv[g.spaces + skip..] == value
  {
    var sv := Spaces(g.spaces) + g.skipped + value;
    assert sv[g.spaces] == (g.skipped + g.content + CRLF)[0];
    FirstNonSpaceIs(sv, g.spaces);
  }

  predicate AllWellFormed(gs: seq<Segment>, skip: nat) {
    forall i | 0 <= i < |gs| :: WellFormed(gs[i], skip)
  }

  /** Header parsing loses nothing: the accepted texts are exactly the concatenations of well-formed lines, and the
      lines read are the ones concatenated. */
  lemma Lossless(text: string, skip: nat, gs: seq<Segment>)
    requires skip <= 1
    ensures Segments(text, skip) == Some(gs) <==> Join(gs) == text && AllWellFormed(gs, skip)
  {
    if Segments(text, skip) == Some(gs) {
      ReadJoins(text, skip, gs);
    }
    if AllWellFormed(gs, skip) {
      JoinedIsRead(gs, skip);
    }
  }

  lemma {:induction false} ReadJoins(text: string, skip: nat, gs: seq<Segment>)
    requires skip <= 1 && Segments(text, skip) == Some(gs)
    ensures Join(gs) == text && AllWellFormed(gs, skip)
    decreases |text|
  {
    if |text| > 0 {
      var (g, rest) := ParseOne(text, skip).value;
      ParseOneText(text, skip);
      ReadJoins(rest, skip, Segments(rest, skip).value);
      assert gs == [g] + gs[1..] && gs[1..] == Segments(rest, skip).value;
      ConsWellFormed(gs, skip);
    }
  }

  lemma ConsWellFormed(gs: seq<Segment>, skip: nat)
    requires |gs| > 0 && WellFormed(gs[0], skip) && AllWellFormed(gs[1..], skip)
    ensures AllWellFormed(gs, skip)
  {
    forall i | 0 <= i < |gs| ensures WellFormed(gs[i], skip) {
      if i > 0 { assert gs[i] == gs[1..][i - 1]; }
    }
  }

  lemma {:induction false} JoinedIsRead(gs: seq<Segment>, skip: nat)
    requires skip <= 1 && AllWellFormed(gs, skip)
    ensures Segments(Join(gs), skip) == Some(gs)
  {
    if |gs| > 0 {
      ParseOneOf(gs[0], skip, Join(gs[1..]));
      JoinedIsRead(gs[1..], skip);
      OneMoreLine(Join(gs), gs[0], Join(gs[1..]), gs[1..], skip);
      assert [gs[0]] + gs[1..] == gs;
    }
  }

  lemma OneMoreLine(text: string, g: Segment, rest: string, gs: seq<Segment>, skip: nat)
    requires skip <= 1 && ParseOne(text, skip) == Some((g, rest)) && Segments(rest, skip) == Some(gs)
    ensures Segments(text, skip) == Some([g] + gs)
  {
  }

  // ---------------------------------------------------------------- printing and parsing back

  function PrintField(f: Field): string {
    f.name + ": " + f.content + CRLF
  }

  /** What repeated writeHeader calls append. */
  function PrintFields(fs: seq<Field>): string {
    if |fs| == 0 then "" else PrintField(fs[0]) + PrintFields(fs[1..])
  }

  /** A field that survives: no colon in the name, and a value that does not start with a space, is long enough for the
      dropped characters, and has no line break after them. */
  predicate Printable(f: Field, skip: nat) {
    && Lacks(f.name, ':') && |f.content| >= skip && NoCrlf(f.content[skip..])
    && (f.content == "" || f.content[0] != ' ')
  }

  function PrintedSegment(f: Field, skip: nat): Segment {
    Segment(f.name, 1, Take(f.content, skip), Drop(f.content, skip))
  }

  lemma PrintedWellFormed(f: Field, skip: nat)
    requires skip <= 1 && Printable(f, skip)
    ensures SegText(PrintedSegment(f, skip)) == PrintField(f) && WellFormed(PrintedSegment(f, skip), skip)
  {
    var g := PrintedSegment(f, skip);
    assert g.skipped + g.content == f.content;
    assert Spaces(1) == " ";
    assert SegText(g) == g.name + ":" + Spaces(1) + (g.skipped + g.content) + CRLF;
    assert ":" + " " == ": ";
    assert PrintField(f) == f.name + (":" + " ") + f.content + CRLF;
    assert (g.skipped + g.content + CRLF)[0] == (f.content + CRLF)[0];
  }

  function PrintedSegments(fs: seq<Field>, skip: nat): seq<Segment> {
    seq(|fs|, i requires 0 <= i < |fs| => PrintedSegment(fs[i], skip))
  }

  predicate AllPrintable(fs: seq<Field>, skip: nat) {
    forall i | 0 <= i < |fs| :: Printable(fs[i], skip)
  }

  lemma {:induction false} PrintJoin(fs: seq<Field>, skip: nat)
    requires skip <= 1 && AllPrintable(fs, skip)
    ensures Join(PrintedSegments(fs, skip)) == PrintFields(fs)
    ensures AllWellFormed(PrintedSegments(fs, skip), skip)
  {
    if |fs| > 0 {
      PrintedWellFormed(fs[0], skip);
      PrintJoin(fs[1..], skip);
      assert PrintedSegments(fs, skip)[1..] == PrintedSegments(fs[1..], skip);
      forall i | 0 <= i < |fs| ensures WellFormed(PrintedSegments(fs, skip)[i], skip) {
        PrintedWellFormed(fs[i], skip);
      }
    }
  }

  /** The fields without the first `skip` characters of their values. */
  function Shortened(fs: seq<Field>, skip: nat): seq<Field> {
    seq(|fs|, i requires 0 <= i < |fs| => Field(fs[i].name, Drop(fs[i].content, skip)))
  }

  /** Parsing what was printed returns every field, without the first `skip` characters of its value. */
  lemma ParsePrinted(fs: seq<Field>, skip: nat)
    requires skip <= 1 && AllPrintable(fs, skip)
    ensures ParseFields(PrintFields(fs), skip) == Some(Shortened(fs, skip))
  {
    PrintJoin(fs, skip);
    Lossless(PrintFields(fs), skip, PrintedSegments(fs, skip));
    assert FieldsOf(PrintedSegments(fs, skip)) == Shortened(fs, skip);
  }

  /** A printed line that is read back up to the dropped characters was printable, and exactly it was read. */
  lemma FirstLine(f: Field, rest: string, g: Segment, rest': string, skip: nat)
    requires skip <= 1 && WellFormed(g, skip) && FieldOf(g) == Field(f.name, Drop(f.content, skip))
    requires PrintField(f) + rest == SegText(g) + rest'
    ensures Printable(f, skip) && rest == rest'
  {
    var c := f.content;
    var value := g.content + CRLF + rest';
    var a, b := " " + (c + CRLF + rest), Spaces(g.spaces) + g.skipped + value;
    SameTail(f, rest, g, rest', a, b);
    Reached(c, rest, g, skip, rest', a);
    assert c == g.skipped + g.content && rest == rest' by {
      assert Spaces(1) == " ";
      assert a == " " + c + CRLF + rest && a == " " + (g.skipped + g.content) + CRLF + rest';
      SameParts(" ", c, g.skipped + g.content, rest, rest');
    }
    assert c != "" ==> c[0] == (g.skipped + g.content + CRLF)[0];
    assert c[skip..] == g.content;
  }

  lemma SameParts(p: string, c: string, c': string, rest: string, rest': string)
    requires |c| == |c'| && p + c + CRLF + rest == p + c' + CRLF + rest'
    ensures c == c' && rest == rest'
  {
    var a, b := p + c + CRLF + rest, p + c' + CRLF + rest';
    assert c == a[|p|..|p| + |c|] && c' == b[|p|..|p| + |c|];
    assert rest == a[|p| + |c| + 2..] && rest' == b[|p| + |c| + 2..];
  }

  lemma SameTail(f: Field, rest: string, g: Segment, rest': string, a: string, b: string)
    requires g.name == f.name && PrintField(f) + rest == SegText(g) + rest'
    requires a == " " + (f.content + CRLF + rest) && b == Spaces(g.spaces) + g.skipped + (g.content + CRLF + rest')
    ensures a == b
  {
    assert PrintField(f) + rest == (f.name + ":") + a by {
      assert ": " == ":" + " ";
      assert PrintField(f) + rest == f.name + (":" + " ") + f.content + CRLF + rest;
    }
    assert SegText(g) + rest' == (f.name + ":") + b by {
      Reassociate(g.name, Spaces(g.spaces), g.skipped, g.content, rest');
      assert SegText(g) + rest' == g.name + ":" + b;
    }
    assert ((f.name + ":") + a)[|f.name| + 1..] == a && ((f.name + ":") + b)[|f.name| + 1..] == b;
  }

  /** Exactly one space was skipped: the line break after the printed value bounds what can be read. */
  lemma Reached(c: string, rest: string, g: Segment, skip: nat, rest': string, a: string)
    requires skip <= 1 && WellFormed(g, skip) && g.content == Drop(c, skip)
    requires a == " " + (c + CRLF + rest) == Spaces(g.spaces) + g.skipped + (g.content + CRLF + rest')
    ensures g.spaces == 1 && |c| >= skip
  {
    var value := g.content + CRLF + rest';
    LineEnd(g.content, rest');
    var k, e := g.spaces, |c| + 1;
    assert k >= 1 by {
      assert a[k] == (g.skipped + g.content + CRLF)[0];
    }
    assert a[e] == '\r' && a[e + 1] == '\n';
    assert forall i | 0 <= i < k :: a[i] == ' ';
    assert k <= e;
    NotPastEnd(c, rest, g, skip, rest', a);
    assert value[e - k - skip] == a[e] && value[e - k - skip + 1] == a[e + 1];
    assert CrlfAt(value, e - k - skip);
  }

  lemma NotPastEnd(c: string, rest: string, g: Segment, skip: nat, rest': string, a: string)
    requires skip <= 1 && g.content == Drop(c, skip) && |g.skipped| == skip && g.spaces <= |c| + 1
    requires a == " " + (c + CRLF + rest) == Spaces(g.spaces) + g.skipped + (g.content + CRLF + rest')
    ensures g.spaces + skip <= |c| + 1
  {
    var k := g.spaces;
    assert a[|c| + 2] == '\n';
    assert a[k + skip] == (g.content + CRLF)[0];
    assert |c| >= 2 ==> c[1] == a[2];
  }

  lemma {:induction false} PrintableBack(fs: seq<Field>, gs: seq<Segment>, skip: nat)
    requires skip <= 1 && FieldsOf(gs) == Shortened(fs, skip) && Join(gs) == PrintFields(fs)
    requires AllWellFormed(gs, skip)
    ensures AllPrintable(fs, skip)
  {
    assert |gs| == |fs|;
    if |fs| > 0 {
      assert FieldOf(gs[0]) == FieldsOf(gs)[0] == Shortened(fs, skip)[0];
      FirstLine(fs[0], PrintFields(fs[1..]), gs[0], Join(gs[1..]), skip);
      assert FieldsOf(gs[1..]) == FieldsOf(gs)[1..] == Shortened(fs, skip)[1..] == Shortened(fs[1..], skip);
      PrintableBack(fs[1..], gs[1..], skip);
      forall i | 0 <= i < |fs| ensures Printable(fs[i], skip) {
        if i > 0 { assert fs[i] == fs[1..][i - 1]; }
      }
    }
  }

  /** Reading back a printed list: every field returns, less the first `skip` characters of its value, exactly when
      every field is printable. */
  lemma RoundTrip(fs: seq<Field>, skip: nat)
    requires skip <= 1
    ensures ParseFields(PrintFields(fs), skip) == Some(Shortened(fs, skip)) <==> AllPrintable(fs, skip)
  {
    if AllPrintable(fs, skip) {
      ParsePrinted(fs, skip);
    }
    if ParseFields(PrintFields(fs), skip) == Some(Shortened(fs, skip)) {
      var gs := Segments(PrintFields(fs), skip).value;
      Lossless(PrintFields(fs), skip, gs);
      PrintableBack(fs, gs, skip);
    }
  }

  /** As meant: the parser inverts the printer. */
  lemma RoundTripMeant(fs: seq<Field>)
    ensures ParseFields(PrintFields(fs), 0) == Some(fs) <==> AllPrintable(fs, 0)
  {
    assert Shortened(fs, 0) == fs;
    RoundTrip(fs, 0);
  }

  function Size(gs: seq<Segment>): nat {
    if |gs| == 0 then 0 else |gs[0].name| + |gs[0].content| + 4 + gs[0].spaces + Size(gs[1..])
  }

  lemma {:induction false} SizeIs(gs: seq<Segment>)
    requires AllWellFormed(gs, 1)
    ensures |Join(gs)| == Size(gs)
  {
    if |gs| > 0 { SizeIs(gs[1..]); }
  }

  lemma {:induction false} SizePrinted(fs: seq<Field>, gs: seq<Segment>)
    requires FieldsOf(gs) == fs
    ensures Size(gs) >= |PrintFields(fs)|
    ensures |gs| > 0 && gs[0].spaces > 0 ==> Size(gs) > |PrintFields(fs)|
  {
    if |gs| > 0 {
      assert FieldOf(gs[0]) == fs[0];
      assert FieldsOf(gs[1..]) == fs[1..];
      SizePrinted(fs[1..], gs[1..]);
    }
  }

  /** As written, no list but the empty one is ever read back. */
  lemma RoundTripAsWritten(fs: seq<Field>)
    ensures ParseFields(PrintFields(fs), 1) == Some(fs) <==> fs == []
  {
    if ParseFields(PrintFields(fs), 1) == Some(fs) && |fs| > 0 {
      var text := PrintFields(fs);
      var gs := Segments(text, 1).value;
      Lossless(text, 1, gs);
      SizeIs(gs);
      SizePrinted(fs, gs);
      SpaceAfterColon(fs, gs);
      assert false;
    }
  }

  lemma SpaceAfterColon(fs: seq<Field>, gs: seq<Segment>)
    requires |fs| > 0 && |gs| > 0 && gs[0].name == fs[0].name && WellFormed(gs[0], 1) && Join(gs) == PrintFields(fs)
    ensures gs[0].spaces > 0
  {
    var n, g := |fs[0].name|, gs[0];
    assert PrintFields(fs)[n + 1] == PrintField(fs[0])[n + 1] == ' ';
    AfterColon(g, Join(gs[1..]));
  }

  lemma AfterColon(g: Segment, rest: string)
    ensures (SegText(g) + rest)[|g.name| + 1] == (Spaces(g.spaces) + (g.skipped + g.content + CRLF))[0]
    ensures g.spaces == 0 ==> Spaces(g.spaces) + (g.skipped + g.content + CRLF) == g.skipped + g.content + CRLF
  {
    assert SegText(g) == g.name + ":" + (Spaces(g.spaces) + (g.skipped + g.content + CRLF));
  }

  /** As written, an empty value swallows the line after it. */
  lemma EmptyValueSwallowsNextLine(n1: string, n2: string, v2: string)
    requires Lacks(n1, ':') && NoCrlf("\n" + n2 + ": " + v2)
    ensures ParseFields(PrintFields([Field(n1, ""), Field(n2, v2)]), 1) == Some([Field(n1, "\n" + n2 + ": " + v2)])
  {
    var f1, f2 := Field(n1, ""), Field(n2, v2);
    var g := Segment(n1, 1, "\r", "\n" + n2 + ": " + v2);
    assert PrintFields([f1, f2]) == PrintField(f1) + PrintField(f2) by {
      assert [f1, f2][1..] == [f2] && [f2][1..] == [];
      assert PrintFields([f2]) == PrintField(f2) + PrintFields([]) == PrintField(f2);
    }
    assert Join([g]) == SegText(g) == PrintField(f1) + PrintField(f2) by {
      assert [g][1..] == [];
      assert Spaces(1) == " " && ": " == ":" + " " && CRLF == "\r" + "\n";
      assert SegText(g) == n1 + (":" + " ") + ("\r" + "\n") + n2 + ": " + v2 + CRLF;
    }
    Lossless(Join([g]), 1, [g]);
    assert FieldsOf([g]) == [FieldOf(g)];
  }

  // ---------------------------------------------------------------- what is read of any printed list

  function LTrim(s: string): (r: string)
    ensures |r| <= |s|
  {
    if |s| > 0 && s[0] == ' ' then LTrim(s[1..]) else s
  }

  lemma {:induction false} LTrimIs(s: string)
    ensures s == Spaces(|s| - |LTrim(s)|) + LTrim(s)
    ensures LTrim(s) != "" ==> LTrim(s)[0] != ' '
  {
    if |s| > 0 && s[0] == ' ' {
      LTrimIs(s[1..]);
      OneSpaceMore(s, LTrim(s[1..]));
    } else {
      assert Spaces(0) + s == s;
    }
  }

  lemma OneSpaceMore(s: string, r: string)
    requires |s| > 0 && s[0] == ' ' && |r| < |s| && s[1..] == Spaces(|s| - 1 - |r|) + r
    ensures s == Spaces(|s| - |r|) + r
  {
    assert s == [s[0]] + s[1..];
  }

  function Cons<T>(x: T, rest: Option<seq<T>>): Option<seq<T>> {
    match rest
    case None => None
    case Some(xs) => Some([x] + xs)
  }

  /** The fields that the parser reads of a printed list.  Leading spaces of a value are lost.  As written, a value
      without any other character takes the whole next line, and the list is refused if there is none. */
  function ReadBack(fs: seq<Field>, skip: nat): Option<seq<Field>> {
    if |fs| == 0 then Some([])
    else
      var t := LTrim(fs[0].content);
      if |t| >= skip then Cons(Field(fs[0].name, t[skip..]), ReadBack(fs[1..], skip))
      else if |fs| == 1 then None
      else Cons(Field(fs[0].name, "\n" + fs[1].name + ": " + fs[1].content), ReadBack(fs[2..], skip))
  }

  /** Names without colons, and no line breaks where a line could be swallowed. */
  predicate Printed(fs: seq<Field>) {
    forall i | 0 <= i < |fs| :: Lacks(fs[i].name, ':') && NoCrlf(fs[i].content) && (i > 0 ==> NoCrlf(fs[i].name))
  }

  lemma SegmentsCons(text: string, skip: nat, g: Segment, rest: string)
    requires skip <= 1 && ParseOne(text, skip) == Some((g, rest))
    ensures Segments(text, skip) == Cons(g, Segments(rest, skip))
  {
  }

  lemma FieldsOfCons(g: Segment, gs: seq<Segment>)
    ensures FieldsOf([g] + gs) == [FieldOf(g)] + FieldsOf(gs)
  {
  }

  lemma ParseStep(text: string, skip: nat, g: Segment, rest: string)
    requires skip <= 1 && ParseOne(text, skip) == Some((g, rest))
    ensures ParseFields(text, skip) == Cons(FieldOf(g), ParseFields(rest, skip))
  {
    SegmentsCons(text, skip, g, rest);
    var r := Segments(rest, skip);
    if r.Some? { FieldsOfCons(g, r.value); }
  }

  lemma DropNoCrlf(s: string, n: nat)
    requires n <= |s| && NoCrlf(s)
    ensures NoCrlf(s[n..])
  {
    forall k: nat | k < |s[n..]| ensures !CrlfAt(s[n..], k) {
      assert !CrlfAt(s, n + k);
    }
  }

  function OwnSegment(f: Field, skip: nat): Segment {
    var t := LTrim(f.content);
    Segment(f.name, |f.content| - |t| + 1, Take(t, skip), Drop(t, skip))
  }

  lemma OwnText(f: Field, skip: nat)
    requires |LTrim(f.content)| >= skip
    ensures SegText(OwnSegment(f, skip)) == PrintField(f)
  {
    var t := LTrim(f.content);
    var n := |f.content| - |t|;
    LTrimIs(f.content);
    SpacedLine(f.name, n, t, f.content);
    JoinTake(f.name + ":" + Spaces(n + 1), t, skip);
  }

  lemma JoinTake(head: string, t: string, n: nat)
    requires n <= |t|
    ensures head + Take(t, n) + Drop(t, n) == head + t
  {
  }

  lemma OwnWellFormed(f: Field, skip: nat)
    requires skip <= 1 && Lacks(f.name, ':') && NoCrlf(f.content) && |LTrim(f.content)| >= skip
    ensures WellFormed(OwnSegment(f, skip), skip)
  {
    var t := LTrim(f.content);
    LTrimIs(f.content);
    SuffixNoCrlf(f.content, t, |f.content| - |t|, skip);
    assert t[..skip] + t[skip..] == t;
    StartsLike(t);
  }

  lemma SuffixNoCrlf(content: string, t: string, n: nat, skip: nat)
    requires content == Spaces(n) + t && skip <= |t| && NoCrlf(content)
    ensures NoCrlf(t[skip..])
  {
    DropNoCrlf(content, n + skip);
    assert content[n + skip..] == t[skip..];
  }

  lemma StartsLike(t: string)
    requires t != "" ==> t[0] != ' '
    ensures (t + CRLF)[0] != ' '
  {
  }

  /** A value that is long enough is read from its first character that is not a space. */
  lemma OwnLine(f: Field, rest: string, skip: nat)
    requires skip <= 1 && Lacks(f.name, ':') && NoCrlf(f.content) && |LTrim(f.content)| >= skip
    ensures ParseFields(PrintField(f) + rest, skip)
         == Cons(Field(f.name, LTrim(f.content)[skip..]), ParseFields(rest, skip))
  {
    OwnText(f, skip);
    OwnWellFormed(f, skip);
    ParseOneOf(OwnSegment(f, skip), skip, rest);
    ParseStep(PrintField(f) + rest, skip, OwnSegment(f, skip), rest);
  }

  lemma SpacedLine(name: string, n: nat, t: string, content: string)
    requires content == Spaces(n) + t
    ensures name + ":" + Spaces(n + 1) + t + CRLF == name + ": " + content + CRLF
  {
    assert Spaces(n + 1) == " " + Spaces(n);
    assert ": " == ":" + " ";
  }

  /** As written, a value without such a character is read from the line break on. */
  lemma SwallowLine(f: Field, h: Field, rest: string)
    requires Lacks(f.name, ':') && LTrim(f.content) == "" && NoCrlf(h.name) && NoCrlf(h.content)
    ensures ParseFields(PrintField(f) + (PrintField(h) + rest), 1)
         == Cons(Field(f.name, "\n" + h.name + ": " + h.content), ParseFields(rest, 1))
  {
    var g := Segment(f.name, |f.content| + 1, "\r", "\n" + (h.name + ": " + h.content));
    OnlySpaces(f.content);
    FieldLine(h);
    SwallowWellFormed(g, h);
    SwallowText(f, h, |f.content|, h.name + ": " + h.content, rest);
    ParseOneOf(g, 1, rest);
    ParseStep(PrintField(f) + (PrintField(h) + rest), 1, g, rest);
    LineOf(h);
  }

  lemma OnlySpaces(s: string)
    requires LTrim(s) == ""
    ensures s == Spaces(|s|)
  {
    LTrimIs(s);
  }

  lemma LineOf(h: Field)
    ensures "\n" + (h.name + ": " + h.content) == "\n" + h.name + ": " + h.content
  {
  }

  lemma SwallowWellFormed(g: Segment, h: Field)
    requires Lacks(g.name, ':') && g.skipped == "\r" && g.content == "\n" + (h.name + ": " + h.content)
    requires NoCrlf(h.name + ": " + h.content)
    ensures WellFormed(g, 1)
  {
    JoinNoCrlf("\n", h.name + ": " + h.content);
    assert (g.skipped + g.content + CRLF)[0] == '\r';
  }

  lemma SwallowText(f: Field, h: Field, n: nat, line: string, rest: string)
    requires f.content == Spaces(n) && PrintField(h) == line + CRLF
    ensures SegText(Segment(f.name, n + 1, "\r", "\n" + line)) + rest == PrintField(f) + (PrintField(h) + rest)
  {
    SpacedLine(f.name, n, "", f.content);
    var head := f.name + ":" + Spaces(n + 1);
    assert head + "" == head && CRLF == "\r" + "\n";
    assert PrintField(f) == head + CRLF;
    assert head + "\r" + ("\n" + line) + CRLF == head + ("\r" + "\n") + line + CRLF;
    assert head + CRLF + line + CRLF + rest == head + CRLF + (line + CRLF + rest);
  }

  /** ... which ends the parse if it is the last one. */
  lemma LastLine(f: Field)
    requires Lacks(f.name, ':') && LTrim(f.content) == ""
    ensures ParseFields(PrintField(f), 1).None?
  {
    var n := |f.content|;
    var sv := Spaces(n + 1) + CRLF;
    OnlySpaces(f.content);
    SpacedLine(f.name, n, "", f.content);
    var head := f.name + ":" + Spaces(n + 1);
    assert head + "" == head;
    assert PrintField(f) == f.name + ":" + sv;
    FindName(PrintField(f), f.name, sv);
    FirstNonSpaceIs(sv, n + 1);
    assert sv[n + 2..] == "\n";
    assert FindCrlf("\n").None?;
  }

  lemma PrintedTail(fs: seq<Field>, n: nat)
    requires Printed(fs) && n <= |fs|
    ensures Printed(fs[n..])
  {
    forall i | 0 <= i < |fs[n..]|
      ensures Lacks(fs[n..][i].name, ':') && NoCrlf(fs[n..][i].content) && (i > 0 ==> NoCrlf(fs[n..][i].name))
    {
      assert fs[n..][i] == fs[n + i];
    }
  }

  lemma PrintTwo(fs: seq<Field>)
    requires |fs| >= 2
    ensures PrintFields(fs) == PrintField(fs[0]) + (PrintField(fs[1]) + PrintFields(fs[2..]))
  {
    assert fs[1..][0] == fs[1] && fs[1..][1..] == fs[2..];
  }

  predicate ReadExactly(fs: seq<Field>, skip: nat)
    requires skip <= 1
  {
    ParseFields(PrintFields(fs), skip) == ReadBack(fs, skip)
  }

  lemma NothingIsRead(skip: nat)
    requires skip <= 1
    ensures ReadExactly([], skip)
  {
    assert FieldsOf([]) == [];
  }

  /** What is read of a printed list, exactly and for every list. */
  lemma {:induction false} PrintedIsRead(fs: seq<Field>, skip: nat)
    requires skip <= 1 && Printed(fs)
    ensures ReadExactly(fs, skip)
    decreases |fs|
  {
    if |fs| == 0 {
      NothingIsRead(skip);
    } else {
      PrintedTail(fs, 1);
      PrintedIsRead(fs[1..], skip);
      if |fs| > 1 {
        PrintedTail(fs, 2);
        PrintedIsRead(fs[2..], skip);
      }
      FirstIsRead(fs, skip);
    }
  }

  lemma FirstIsRead(fs: seq<Field>, skip: nat)
    requires skip <= 1 && |fs| > 0 && Printed(fs)
    requires ReadExactly(fs[1..], skip) && (|fs| > 1 ==> ReadExactly(fs[2..], skip))
    ensures ReadExactly(fs, skip)
  {
    if |LTrim(fs[0].content)| >= skip {
      OwnFirst(fs, skip);
    } else {
      EmptyFirst(fs);
    }
  }

  lemma EmptyFirst(fs: seq<Field>)
    requires |fs| > 0 && Printed(fs) && LTrim(fs[0].content) == "" && (|fs| > 1 ==> ReadExactly(fs[2..], 1))
    ensures ReadExactly(fs, 1)
  {
    if |fs| == 1 { OnlyEmpty(fs); } else { SwallowFirst(fs); }
  }

  lemma OwnFirst(fs: seq<Field>, skip: nat)
    requires skip <= 1 && |fs| > 0 && Printed(fs) && |LTrim(fs[0].content)| >= skip
    requires ReadExactly(fs[1..], skip)
    ensures ReadExactly(fs, skip)
  {
    OwnLine(fs[0], PrintFields(fs[1..]), skip);
  }

  lemma OnlyEmpty(fs: seq<Field>)
    requires |fs| == 1 && Printed(fs) && LTrim(fs[0].content) == ""
    ensures ReadExactly(fs, 1)
  {
    assert PrintFields(fs[1..]) == "" && PrintField(fs[0]) + "" == PrintField(fs[0]);
    LastLine(fs[0]);
  }

  lemma SwallowFirst(fs: seq<Field>)
    requires |fs| >= 2 && Printed(fs) && LTrim(fs[0].content) == ""
    requires ReadExactly(fs[2..], 1)
    ensures ReadExactly(fs, 1)
  {
    PrintTwo(fs);
    SwallowLine(fs[0], fs[1], PrintFields(fs[2..]));
  }

  /** Walking over the list, an empty value takes the next field along; the last one is left without. */
  predicate Dangling(fs: seq<Field>) {
    |fs| > 0 &&
    if LTrim(fs[0].content) != "" then Dangling(fs[1..]) else |fs| == 1 || Dangling(fs[2..])
  }

  /** As written, the parse of a printed list ends in nothing exactly for such lists. */
  lemma {:induction false} RefusedIffDangling(fs: seq<Field>)
    ensures ReadBack(fs, 1).None? <==> Dangling(fs)
    decreases |fs|
  {
    if |fs| > 0 {
      RefusedIffDangling(fs[1..]);
      if |fs| > 1 { RefusedIffDangling(fs[2..]); }
    }
  }

  /** An empty last value ends the parse, unless it is taken along itself. */
  lemma {:induction false} EmptyLast(fs: seq<Field>, n: string)
    ensures Dangling(fs + [Field(n, "")]) <==> !Dangling(fs)
    decreases |fs|
  {
    var gs := fs + [Field(n, "")];
    if |fs| == 0 {
      assert gs == [Field(n, "")];
    } else {
      assert gs[0] == fs[0] && gs[1..] == fs[1..] + [Field(n, "")];
      EmptyLast(fs[1..], n);
      if |fs| > 1 {
        assert gs[2..] == fs[2..] + [Field(n, "")];
        EmptyLast(fs[2..], n);
      }
    }
  }

  // ---------------------------------------------------------------- the map

  function Names(fs: seq<Field>): set<string> {
    set i | 0 <= i < |fs| :: fs[i].name
  }

  /** The map holds the first field of each name. */
  lemma {:induction false} FirstWins(fs: seq<Field>, i: nat)
    requires i < |fs| && forall k | 0 <= k < i :: fs[k].name != fs[i].name
    ensures FieldMap(fs).Keys == Names(fs) && FieldMap(fs)[fs[i].name] == fs[i].content
  {
    KeysAreNames(fs);
    var n := |fs| - 1;
    KeysAreNames(fs[..n]);
    if i < n {
      FirstWins(fs[..n], i);
    }
  }

  lemma {:induction false} KeysAreNames(fs: seq<Field>)
    ensures FieldMap(fs).Keys == Names(fs)
  {
    if |fs| > 0 {
      var n := |fs| - 1;
      KeysAreNames(fs[..n]);
      assert Names(fs) == Names(fs[..n]) + {fs[n].name};
    }
  }

  /** The header map read back from printed fields: the same names, each with the first value printed under it, less
      the first `skip` characters. */
  lemma {:induction false} HeaderRoundTrip(fs: seq<Field>, skip: nat, i: nat)
    requires skip <= 1 && AllPrintable(fs, skip)
    requires i < |fs| && forall k | 0 <= k < i :: fs[k].name != fs[i].name
    ensures var r := ParseMap(PrintFields(fs), skip);
            r.Some? && r.value.Keys == Names(fs) && r.value[fs[i].name] == Drop(fs[i].content, skip)
  {
    MapOfPrinted(fs, skip);
    ShortenedMap(fs, skip, i);
  }

  lemma MapOfPrinted(fs: seq<Field>, skip: nat)
    requires skip <= 1 && AllPrintable(fs, skip)
    ensures ParseMap(PrintFields(fs), skip) == Some(FieldMap(Shortened(fs, skip)))
  {
    ParsePrinted(fs, skip);
  }

  lemma ShortenedMap(fs: seq<Field>, skip: nat, i: nat)
    requires i < |fs| && forall k | 0 <= k < i :: fs[k].name != fs[i].name
    ensures var m := FieldMap(Shortened(fs, skip));
            m.Keys == Names(fs) && m[fs[i].name] == Drop(fs[i].content, skip)
  {
    var out := Shortened(fs, skip);
    assert forall k | 0 <= k < |fs| :: out[k].name == fs[k].name;
    FirstWins(out, i);
  }

  predicate Distinct(fs: seq<Field>) {
    forall i, k | 0 <= i < k < |fs| :: fs[i].name != fs[k].name
  }

  lemma {:induction false} NamesCount(fs: seq<Field>)
    ensures |Names(fs)| <= |fs|
    ensures Distinct(fs) ==> |Names(fs)| == |fs|
  {
    if |fs| > 0 {
      var n := |fs| - 1;
      NamesCount(fs[..n]);
      assert Names(fs) == Names(fs[..n]) + {fs[n].name};
    }
  }

  /** Each line read is a field of its own, or there are fewer of them. */
  lemma {:induction false} OwnOrFewer(fs: seq<Field>, skip: nat)
    requires ReadBack(fs, skip).Some?
    ensures var gs := ReadBack(fs, skip).value;
            |gs| < |fs| ||
            (|gs| == |fs| && forall i | 0 <= i < |fs| :: |LTrim(fs[i].content)| >= skip
                              && gs[i] == Field(fs[i].name, LTrim(fs[i].content)[skip..]))
    decreases |fs|
  {
    if |fs| > 0 {
      var gs := ReadBack(fs, skip).value;
      if |LTrim(fs[0].content)| >= skip {
        OwnOrFewer(fs[1..], skip);
        assert gs[1..] == ReadBack(fs[1..], skip).value;
        assert forall i | 0 < i < |fs| :: fs[i] == fs[1..][i - 1];
        assert forall i | 0 < i < |gs| :: gs[i] == gs[1..][i - 1];
      } else {
        OwnOrFewer(fs[2..], skip);
      }
    }
  }

  /** With distinct names, the map read back is the client's, less the first `skip` characters of each value, exactly
      when every field is printable. */
  lemma ClientsMap(fs: seq<Field>, skip: nat)
    requires skip <= 1 && Printed(fs) && Distinct(fs)
    ensures var r := ReadBack(fs, skip);
            r.Some? && FieldMap(r.value) == FieldMap(Shortened(fs, skip)) <==> AllPrintable(fs, skip)
  {
    PrintedIsRead(fs, skip);
    RoundTrip(fs, skip);
    var r := ReadBack(fs, skip);
    if r.Some? && FieldMap(r.value) == FieldMap(Shortened(fs, skip)) {
      SameCount(fs, r.value, skip);
      OwnOrFewer(fs, skip);
      forall i | 0 <= i < |fs| ensures Printable(fs[i], skip) {
        SameValue(fs, r.value, skip, i);
      }
    }
  }

  lemma SameCount(fs: seq<Field>, gs: seq<Field>, skip: nat)
    requires Distinct(fs) && FieldMap(gs) == FieldMap(Shortened(fs, skip))
    ensures |gs| >= |fs|
  {
    var out := Shortened(fs, skip);
    assert Distinct(out) by {
      forall i, k | 0 <= i < k < |out| ensures out[i].name != out[k].name {
        assert out[i].name == fs[i].name && out[k].name == fs[k].name;
      }
    }
    KeysAreNames(gs);
    KeysAreNames(out);
    NamesCount(gs);
    NamesCount(out);
  }

  lemma SameValue(fs: seq<Field>, gs: seq<Field>, skip: nat, i: nat)
    requires skip <= 1 && Printed(fs) && Distinct(fs) && FieldMap(gs) == FieldMap(Shortened(fs, skip))
    requires |gs| == |fs| && i < |fs| && |LTrim(fs[i].content)| >= skip
    requires forall k | 0 <= k < |fs| :: gs[k].name == fs[k].name
    requires gs[i].content == LTrim(fs[i].content)[skip..]
    ensures Printable(fs[i], skip)
  {
    ShortenedMap(fs, skip, i);
    FirstWins(gs, i);
    var c := fs[i].content;
    LTrimIs(c);
    assert LTrim(c)[skip..] == Drop(c, skip);
    assert LTrim(c) == c by {
      assert c[|c| - |LTrim(c)|..] == LTrim(c);
    }
    DropNoCrlf(c, skip);
  }

  // ---------------------------------------------------------------- where a printed block ends

  predicate BreakFree(fs: seq<Field>) {
    forall i | 0 <= i < |fs| :: NoCrlf(fs[i].name) && NoCrlf(fs[i].content)
  }

  lemma JoinNoCrlf(a: string, b: string)
    requires NoCrlf(a) && NoCrlf(b) && (a == "" || b == "" || a[|a| - 1] != '\r' || b[0] != '\n')
    ensures NoCrlf(a + b)
  {
    forall k: nat | k < |a + b| ensures !CrlfAt(a + b, k) {
      assert k < |a| ==> !CrlfAt(a, k);
      assert k >= |a| ==> !CrlfAt(b, k - |a|);
    }
  }

  lemma FieldLine(f: Field)
    requires NoCrlf(f.name) && NoCrlf(f.content)
    ensures NoCrlf(f.name + ": " + f.content) && |f.name + ": " + f.content| >= 2
    ensures PrintField(f) == f.name + ": " + f.content + CRLF
  {
    JoinNoCrlf(f.name, ": ");
    JoinNoCrlf(f.name + ": ", f.content);
  }

  /** The first empty line after printed fields is the one that ends them. */
  lemma {:induction false} FieldsEnd(fs: seq<Field>, rest: string)
    requires |fs| > 0 && BreakFree(fs)
    ensures |PrintFields(fs)| >= 2 && FindHeadEnd(PrintFields(fs) + CRLF + rest) == Some(|PrintFields(fs)| - 2)
  {
    var line := fs[0].name + ": " + fs[0].content;
    FieldLine(fs[0]);
    var after := PrintFields(fs[1..]) + CRLF + rest;
    assert PrintFields(fs) + CRLF + rest == line + CRLF + after;
    if |fs| == 1 {
      assert PrintFields(fs[1..]) == "";
      EndAfterLine(line, after);
    } else {
      var next := fs[1].name + ": " + fs[1].content;
      FieldLine(fs[1]);
      FieldsEnd(fs[1..], rest);
      assert after == next + CRLF + (PrintFields(fs[1..][1..]) + CRLF + rest);
      NotAfterLine(line, next, after);
    }
  }

  lemma EndAfterLine(line: string, after: string)
    requires NoCrlf(line) && CrlfAt(after, 0)
    ensures FindHeadEnd(line + CRLF + after) == Some(|line|)
  {
    var s := line + CRLF + after;
    LineEnd(line, after);
    FindHeadEndIs(s, |line|);
  }

  lemma NotAfterLine(line: string, next: string, after: string)
    requires NoCrlf(line) && NoCrlf(next) && |next| >= 2 && next <= after && FindHeadEnd(after).Some?
    ensures FindHeadEnd(line + CRLF + after) == Some(|line| + 2 + FindHeadEnd(after).value)
  {
    var s, n, m := line + CRLF + after, |line|, FindHeadEnd(after).value;
    LineEnd(line, after);
    assert !CrlfAt(next, 0);
    assert !CrlfAt(s, n + 2);
    assert s[n + 1] == '\n';
    assert forall k: nat :: CrlfAt(s, n + 2 + k) == CrlfAt(after, k);
    forall k: nat | k < n + 2 + m ensures !HeadEndAt(s, k) {
      if k >= n + 2 { assert !HeadEndAt(after, k - n - 2); }
    }
    FindHeadEndIs(s, n + 2 + m);
  }
}
