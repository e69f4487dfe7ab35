/** What a line says about its record: every field read back from its columns. */
module Records {
  import opened Wrappers
  import opened Digits
  import opened Durations
  import opened Sizes
  import opened Values
  import opened Kinds
  import opened Lines

  // ----- fields by their columns

  predicate TextAt(line: string, from: nat, text: string) {
    from + |text| <= |line| && line[from..from + |text|] == text
  }

  predicate IsDots(s: string) {
    forall i | 0 <= i < |s| :: s[i] == '.'
  }

  /** A text that is cut or filled with dots to eighteen columns, and a blank. */
  ghost predicate FittedAt(line: string, from: nat, text: string) {
    && from + 19 <= |line| && line[from + 18] == ' '
    && if |text| >= 18 then TextAt(line, from, text[..18])
       else TextAt(line, from, text) && IsDots(line[from + |text|..from + 18])
  }

  /** A status code of three digits, or dashes for none, and a blank. */
  predicate CodeAt(line: string, from: nat, code: int) {
    if code <= 0 then TextAt(line, from, "--- ")
    else
      && from + 4 <= |line| && line[from + 3] == ' '
      && IsNumeral(line[from..from + 3]) && Value(line[from..from + 3]) == code
  }

  /** A duration, and a blank. */
  predicate DurationAt(line: string, from: nat, d: nat) {
    && from + 9 <= |line| && line[from + 8] == ' '
    && if d < 10_000 * DAY then ReadDuration(line[from..from + 8]) == Some(RoundedDown(d))
       else TextAt(line, from, "TOO_LONG")
  }

  /** A size, and a blank. */
  predicate SizeAt(line: string, from: nat, n: nat) {
    from + 6 <= |line| && line[from + 5] == ' ' && ReadsAsSize(line[from..from + 5], n)
  }

  /** Status code, duration and size in front of the method bar. */
  predicate OutcomeAt(line: string, code: int, elapsed: nat, body: Option<nat>) {
    && CodeAt(line, 43, code) && DurationAt(line, 47, elapsed)
    && match body
       case Some(n) => SizeAt(line, 56, n)
       case None => TextAt(line, 56, "----B ")
  }

  function Ending(status: string): string {
    if status == "" then "\n" else " - " + status + "\n"
  }

  /** The method bar, what follows it and the status message, to the end of the line. */
  predicate BarToEnd(line: string, verb: string, url: string, status: string) {
    |line| >= 62 && line[62..] == "|" + HttpMethodAbbr(verb) + "| " + url + Ending(status)
  }

  predicate ServiceToEnd(line: string, service: string, verb: string, status: string) {
    |line| >= 68 && line[68..] == service + "/" + verb + Ending(status)
  }

  /** Title, time, symbol and ids in front of all else. */
  ghost predicate HeaderAt(line: string, title: string, r: Record)
    requires RecordFits(r)
  {
    var k := if |title| < 8 then |title| else 8;
    && |line| >= 40
    && line[0] == '|' && IsDots(line[1..9 - k]) && TextAt(line, 9 - k, title[..k])
    && TextAt(line, 9, "| ") && TextAt(line, 11, r.clock) && TextAt(line, 23, Symbol(r.severity))
    && TextAt(line, 26, r.traceId[..6]) && line[32] == ' ' && TextAt(line, 33, r.spanId[..6]) && line[39] == ' '
  }

  // ----- reading the pieces of a line

  lemma Piece(line: string, s: string, part: string)
    requires s + part <= line
    ensures s <= line && TextAt(line, |s|, part)
  {
    assert line[..|s + part|] == s + part;
  }

  lemma OutcomePieces(line: string, s: string, c: string, d: string, b: string)
    requires s + c + d + " " + b + " " <= line
    ensures TextAt(line, |s|, c) && TextAt(line, |s| + |c|, d + " ") && TextAt(line, |s| + |c| + |d| + 1, b + " ")
  {
    Piece(line, s + c + d + " " + b, " ");
    Regroup(s + c + d + " ", b, " ");
    Piece(line, s + c + d + " ", b + " ");
    Regroup(s + c, d, " ");
    Piece(line, s + c, d + " ");
    Piece(line, s, c);
  }

  lemma CodeReads(line: string, from: nat, code: Int64)
    requires CodeAligns(code) && TextAt(line, from, CodeText(code))
    ensures CodeAt(line, from, code)
  {
    if code > 0 {
      var t := CodeText(code);
      CodeWidth(code);
      DecimalReadsBack(code);
      assert t[..3] == Decimal(code) && line[from..from + 3] == t[..3] && line[from + 3] == t[3];
    }
  }

  /** A status code reads as itself, however wide. */
  lemma CodeTextReads(code: Int64)
    ensures code <= 0 ==> CodeText(code) == "--- "
    ensures code > 0 ==>
              var t := CodeText(code);
              var n := |t| - 1;
              n > 0 && t[n] == ' ' && IsNumeral(t[..n]) && Value(t[..n]) == code
  {
    if code > 0 {
      DecimalReadsBack(code);
      assert CodeText(code)[..|CodeText(code)| - 1] == Decimal(code);
    }
  }

  lemma DurationReads(line: string, from: nat, d: Int64)
    requires d >= 0 && TextAt(line, from, DurationText(d) + " ")
    ensures DurationAt(line, from, d)
  {
    EightWideIff(d);
    var t := DurationText(d) + " ";
    assert line[from..from + 8] == t[..8] == DurationText(d) && line[from + 8] == t[8];
    DurationReadsBack(d);
  }

  lemma SizeReadsAt(line: string, from: nat, n: Int64)
    requires n >= 0 && TextAt(line, from, SizeText(n) + " ")
    ensures SizeAt(line, from, n)
  {
    FiveWideIff(n);
    var t := SizeText(n) + " ";
    assert line[from..from + 5] == t[..5] == SizeText(n) && line[from + 5] == t[5];
    SizeReads(n);
  }

  /** The values that the columns are meant for. */
  predicate OutcomeKnown(code: Int64, elapsed: Int64, body: Option<Int64>) {
    CodeAligns(code) && elapsed >= 0 && (body.Some? ==> body.value >= 0)
  }

  function BodyOf(a: HttpAttr): Option<Int64> { if a.hasBody then Some(a.bodySize) else None }

  lemma OutcomeReads(line: string, s: string, a: HttpAttr)
    requires |s| == 43 && Outcome(s, a) <= line && OutcomeKnown(a.code, a.elapsed, BodyOf(a))
    ensures OutcomeAt(line, a.code, a.elapsed, BodyOf(a))
  {
    OutcomePieces(line, s, CodeText(a.code), DurationText(a.elapsed), BodyText(a));
    CodeWidth(a.code);
    EightWideIff(a.elapsed);
    CodeReads(line, 43, a.code);
    DurationReads(line, 47, a.elapsed);
    if a.hasBody {
      SizeReadsAt(line, 56, a.bodySize);
    }
  }

  lemma FitReads(line: string, s: string, text: string)
    requires s + Fit18(text) + " " <= line
    ensures FittedAt(line, |s|, text)
  {
    var t := Fit18(text) + " ";
    Regroup(s, Fit18(text), " ");
    Piece(line, s, t);
    var k := |s|;
    assert line[k + 18] == t[18];
    if |text| >= 18 {
      assert line[k..k + 18] == t[..18] == text[..18];
    } else {
      assert line[k..k + |text|] == t[..|text|] == text;
      assert line[k + |text|..k + 18] == t[|text|..18] == Dots(18 - |text|);
    }
  }

  lemma EndingIs(s: string, status: string)
    ensures LineEnd(s, status) == s + Ending(status)
  {
    if status != "" {
      Regroup(s, " - ", status);
      Regroup(s, " - " + status, "\n");
    }
  }

  lemma BarIs(verb: string, url: string)
    ensures Bar("", verb, url) == "|" + HttpMethodAbbr(verb) + "| " + url
  {
    assert "" + "|" == "|" && "|" + " " == "| ";
    Regroup("|" + HttpMethodAbbr(verb), "|", " ");
  }

  lemma HttpLineHasPrefix(s: string, kind: bv8, a: HttpAttr)
    ensures s <= HttpPrefix(s, kind, a) <= HttpLine(s, kind, a)
  {
  }

  lemma GrpcLineHasPrefix(s: string, kind: bv8, a: GrpcAttr)
    ensures s <= GrpcPrefix(s, kind, a) <= GrpcLine(s, kind, a)
  {
  }

  function AttrText(a: Attr): string { " " + AttrName(a) + "=" + Show(a.value) }

  function AttrParts(attrs: seq<Attr>): seq<string> {
    seq(|attrs|, i requires 0 <= i < |attrs| => AttrText(attrs[i]))
  }

  /** The unknown attributes behind a message, in their order. */
  function AttrTexts(attrs: seq<Attr>): string {
    if attrs == [] then "" else " -" + Concat(AttrParts(attrs))
  }

  lemma AttrsLineNextIs(s: string, a: Attr)
    ensures s + " " + AttrName(a) + "=" + Flatten(Tokens(a.value)) == s + AttrText(a)
  {
    TokensShow(a.value);
    RegroupFour(s, " ", AttrName(a), "=", Show(a.value));
  }

  lemma AttrPartsNext(before: seq<Attr>, a: Attr)
    ensures Concat(AttrParts(before + [a])) == Concat(AttrParts(before)) + AttrText(a)
  {
    ConcatNext(AttrParts(before), AttrText(a));
    assert AttrParts(before + [a]) == AttrParts(before) + [AttrText(a)];
  }

  lemma {:induction false} AttrsLineIs(s: string, attrs: seq<Attr>)
    ensures AttrsLine(s, attrs) == s + Concat(AttrParts(attrs))
  {
    if attrs == [] {
    } else {
      var n := |attrs| - 1;
      AttrsLineIs(s, attrs[..n]);
      AttrsLineNextIs(AttrsLine(s, attrs[..n]), attrs[n]);
      AttrPartsNext(attrs[..n], attrs[n]);
      assert attrs == attrs[..n] + [attrs[n]];
      Regroup(s, Concat(AttrParts(attrs[..n])), AttrText(attrs[n]));
    }
  }

  lemma LogLineIs(s: string, msg: string, attrs: seq<Attr>)
    ensures LogLine(s, msg, attrs) == s + msg + AttrTexts(attrs)
  {
    if attrs != [] {
      AttrsLineIs(s + msg + " -", attrs);
      Regroup(s + msg, " -", Concat(AttrParts(attrs)));
    }
  }

  lemma LineHasPrefix(r: Record, w: Walk)
    requires RecordFits(r)
    ensures LineStart(r, w) <= LineMiddle(r, w) <= LineText(r, w)
  {
    EndingIs(LineMiddle(r, w), w.status);
    HttpLineHasPrefix(LineStart(r, w), w.kind, w.http);
    GrpcLineHasPrefix(LineStart(r, w), w.kind, w.grpc);
    LogLineIs(LineStart(r, w), r.body, w.rest);
  }

  lemma HttpPrefixShows(r: Record, w: Walk)
    requires RecordFits(r) && HttpKind(w.kind)
    ensures HttpPrefix(LineStart(r, w), w.kind, w.http) <= LineText(r, w)
  {
    LineHasPrefix(r, w);
    HttpLineHasPrefix(LineStart(r, w), w.kind, w.http);
  }

  lemma GrpcPrefixShows(r: Record, w: Walk)
    requires RecordFits(r) && GrpcKind(w.kind)
    ensures GrpcPrefix(LineStart(r, w), w.kind, w.grpc) <= LineText(r, w)
  {
    LineHasPrefix(r, w);
  }

  lemma StartIs(r: Record, w: Walk)
    requires RecordFits(r) && (HttpKind(w.kind) || GrpcKind(w.kind))
    ensures |LineStart(r, w)| == 43
  {
    HeaderIsForty(w.title, r.clock, r.severity, r.traceId, r.spanId);
    ArrowIsThree(w.kind);
  }

  // ----- what each kind of line shows, in terms of the attributes

  ghost predicate PeerFields(line: string, peer: string, verb: string, url: string, status: string) {
    TextAt(line, 40, "›» ") && FittedAt(line, 43, peer) && BarToEnd(line, verb, url, status)
  }

  ghost predicate RequestFields(line: string, verb: string, url: string, status: string) {
    TextAt(line, 40, " ⇗ ") && FittedAt(line, 43, DomainOf(url)) && BarToEnd(line, verb, PathOf(url), status)
  }

  ghost predicate OutcomeFields(line: string, arrow: string, code: Int64, elapsed: Int64, body: Option<Int64>,
                                verb: string, url: string, status: string)
  {
    OutcomeKnown(code, elapsed, body) ==>
      TextAt(line, 40, arrow) && OutcomeAt(line, code, elapsed, body) && BarToEnd(line, verb, url, status)
  }

  ghost predicate PeerServiceFields(line: string, peer: string, unary: bool, bytes: Int64,
                                    service: string, verb: string, status: string)
  {
    && TextAt(line, 40, "›» ") && FittedAt(line, 43, peer)
    && if unary then bytes >= 0 ==> SizeAt(line, 62, bytes) && ServiceToEnd(line, service, verb, status)
       else TextAt(line, 62, "..... ") && ServiceToEnd(line, service, verb, status)
  }

  ghost predicate UnaryFields(line: string, elapsed: Int64, bytes: Int64,
                              service: string, verb: string, status: string)
  {
    elapsed >= 0 && bytes >= 0 ==>
      && DurationAt(line, 47, elapsed) && TextAt(line, 56, "..... ") && SizeAt(line, 62, bytes)
      && ServiceToEnd(line, service, verb, status)
  }

  ghost predicate StreamFields(line: string, elapsed: Int64, req: Int64, res: Int64,
                               service: string, verb: string, status: string)
  {
    elapsed >= 0 && req >= 0 && res >= 0 ==>
      && DurationAt(line, 47, elapsed) && SizeAt(line, 56, req) && SizeAt(line, 62, res)
      && ServiceToEnd(line, service, verb, status)
  }

  ghost predicate ServiceCodeAt(line: string, code: Int64) {
    TextAt(line, 40, "«‹ ") && TextAt(line, 43, GrpcCodeAbbr(code) + " ")
  }

  ghost predicate Unary(attrs: seq<Attr>) { Has(attrs, {MessageCompressedSize, MessageUncompressedSize}) }

  ghost predicate HttpPeerShown(line: string, attrs: seq<Attr>) {
    PeerFields(line, LastString(attrs, PeerAddress, PeerAddress), LastString(attrs, HttpMethod, HttpMethod),
               LastString(attrs, UrlPath, UrlOriginal), LastString(attrs, ServerStatusMessage, ServerStatusMessage))
  }

  ghost predicate HttpRequestShown(line: string, attrs: seq<Attr>) {
    RequestFields(line, LastString(attrs, HttpMethod, HttpMethod), LastString(attrs, UrlPath, UrlOriginal),
                  LastString(attrs, ServerStatusMessage, ServerStatusMessage))
  }

  ghost predicate HttpOutcomeShown(line: string, attrs: seq<Attr>, arrow: string, url: string) {
    OutcomeFields(line, arrow, LastInt(attrs, HttpStatusCode, HttpStatusCode),
                  LastInt(attrs, ServerElapsed, ClientElapsed), BodySize(attrs),
                  LastString(attrs, HttpMethod, HttpMethod), url,
                  LastString(attrs, ServerStatusMessage, ServerStatusMessage))
  }

  ghost predicate GrpcPeerShown(line: string, attrs: seq<Attr>) {
    PeerServiceFields(line, LastString(attrs, PeerAddress, PeerAddress), Unary(attrs),
                      LastInt(attrs, MessageCompressedSize, MessageCompressedSize),
                      LastString(attrs, RpcService, RpcService), LastString(attrs, RpcMethod, RpcMethod),
                      LastString(attrs, ServerStatusMessage, ServerStatusMessage))
  }

  ghost predicate GrpcOutcomeShown(line: string, attrs: seq<Attr>) {
    && ServiceCodeAt(line, LastInt(attrs, GrpcStatusCode, GrpcStatusCode))
    && if Unary(attrs)
       then UnaryFields(line, LastInt(attrs, ServerElapsed, ClientElapsed),
                        LastInt(attrs, MessageCompressedSize, MessageCompressedSize),
                        LastString(attrs, RpcService, RpcService), LastString(attrs, RpcMethod, RpcMethod),
                        LastString(attrs, ServerStatusMessage, ServerStatusMessage))
       else StreamFields(line, LastInt(attrs, ServerElapsed, ClientElapsed),
                         LastInt(attrs, RequestCompressedSize, RequestCompressedSize),
                         LastInt(attrs, ResponseCompressedSize, ResponseCompressedSize),
                         LastString(attrs, RpcService, RpcService), LastString(attrs, RpcMethod, RpcMethod),
                         LastString(attrs, ServerStatusMessage, ServerStatusMessage))
  }

  /** Any other line shows the message and the unknown attributes. */
  ghost predicate MessageShown(line: string, r: Record, arrow: string) {
    && |line| >= 40
    && line[40..] == arrow + r.body + AttrTexts(Unrecognised(r.attrs))
                     + Ending(LastString(r.attrs, ServerStatusMessage, ServerStatusMessage))
  }

  // ----- that a line shows it

  lemma HeaderReads(r: Record, w: Walk)
    requires RecordFits(r)
    ensures HeaderAt(LineText(r, w), w.title, r)
    ensures TextAt(LineText(r, w), 40, Arrow(w.kind))
  {
    var line := LineText(r, w);
    var symbol, t, p := Symbol(r.severity), r.traceId[..6] + " ", r.spanId[..6] + " ";
    var title := "" + ("|" + Title(w.title) + "| ");
    LineHasPrefix(r, w);
    HeaderIsForty(w.title, r.clock, r.severity, r.traceId, r.spanId);
    Piece(line, title + r.clock + symbol + t + p, Arrow(w.kind));
    Piece(line, title + r.clock + symbol + t, p);
    Piece(line, title + r.clock + symbol, t);
    Piece(line, title + r.clock, symbol);
    Piece(line, title, r.clock);
    IdsRead(line, r);
    TitleReads(line, w.title);
  }

  lemma IdsRead(line: string, r: Record)
    requires RecordFits(r) && TextAt(line, 26, r.traceId[..6] + " ") && TextAt(line, 33, r.spanId[..6] + " ")
    ensures TextAt(line, 26, r.traceId[..6]) && line[32] == ' ' && TextAt(line, 33, r.spanId[..6]) && line[39] == ' '
  {
    var t, p := r.traceId[..6] + " ", r.spanId[..6] + " ";
    assert line[26..33][..6] == t[..6] && line[26..33][6] == t[6];
    assert line[33..40][..6] == p[..6] && line[33..40][6] == p[6];
  }

  lemma TitlePieces(line: string, dots: string, title: string)
    requires |dots| + |title| == 8 && "|" + (dots + title) + "| " <= line
    ensures line[0] == '|' && line[1..9 - |title|] == dots && TextAt(line, 9 - |title|, title) && TextAt(line, 9, "| ")
  {
    Piece(line, "|" + (dots + title), "| ");
    Regroup("|", dots, title);
    Piece(line, "|" + dots, title);
    Piece(line, "|", dots);
  }

  lemma TitleReads(line: string, title: string)
    requires "" + ("|" + Title(title) + "| ") <= line
    ensures var k := if |title| < 8 then |title| else 8;
            && line[0] == '|' && IsDots(line[1..9 - k]) && TextAt(line, 9 - k, title[..k]) && TextAt(line, 9, "| ")
  {
    var k := if |title| < 8 then |title| else 8;
    assert "" + ("|" + Title(title) + "| ") == "|" + (Dots(8 - k) + title[..k]) + "| ";
    TitlePieces(line, Dots(8 - k), title[..k]);
  }

  /** What the walk found, in terms of the attributes. */
  lemma WalkTells(w: Walk, attrs: seq<Attr>)
    requires Says(w, attrs)
    ensures w.http.verb == LastString(attrs, HttpMethod, HttpMethod)
    ensures w.http.url == LastString(attrs, UrlPath, UrlOriginal)
    ensures w.http.peer == w.grpc.peer == LastString(attrs, PeerAddress, PeerAddress)
    ensures w.http.code == LastInt(attrs, HttpStatusCode, HttpStatusCode)
    ensures w.http.elapsed == w.grpc.elapsed == LastInt(attrs, ServerElapsed, ClientElapsed)
    ensures BodyOf(w.http) == BodySize(attrs)
    ensures w.status == LastString(attrs, ServerStatusMessage, ServerStatusMessage)
  {
  }

  lemma BarReads(r: Record, w: Walk)
    requires RecordFits(r) && HttpKind(w.kind)
    requires ShowsOutcome(w.kind) ==> OutcomeFits(w.http) && CodeAligns(w.http.code)
    ensures BarToEnd(LineText(r, w), w.http.verb, HttpUrl(w.kind, w.http), w.status)
  {
    HttpRecordAligned(r, w);
    BarIs(w.http.verb, HttpUrl(w.kind, w.http));
    EndingIs(Bar("", w.http.verb, HttpUrl(w.kind, w.http)), w.status);
  }

  lemma PeerLineFields(r: Record, w: Walk)
    requires RecordFits(r) && w.kind == HTTP_INGRESS
    ensures PeerFields(LineText(r, w), w.http.peer, w.http.verb, w.http.url, w.status)
  {
    HeaderReads(r, w);
    StartIs(r, w);
    HttpPrefixShows(r, w);
    FitReads(LineText(r, w), LineStart(r, w), w.http.peer);
    BarReads(r, w);
  }

  lemma RequestLineFields(r: Record, w: Walk)
    requires RecordFits(r) && w.kind == HTTP_REQ
    ensures RequestFields(LineText(r, w), w.http.verb, w.http.url, w.status)
  {
    HeaderReads(r, w);
    StartIs(r, w);
    HttpPrefixShows(r, w);
    FitReads(LineText(r, w), LineStart(r, w), DomainOf(w.http.url));
    BarReads(r, w);
  }

  lemma OutcomeLineFields(r: Record, w: Walk)
    requires RecordFits(r) && ShowsOutcome(w.kind)
    ensures OutcomeFields(LineText(r, w), Arrow(w.kind), w.http.code, w.http.elapsed, BodyOf(w.http),
                          w.http.verb, HttpUrl(w.kind, w.http), w.status)
  {
    HeaderReads(r, w);
    StartIs(r, w);
    HttpPrefixShows(r, w);
    if OutcomeKnown(w.http.code, w.http.elapsed, BodyOf(w.http)) {
      OutcomeReads(LineText(r, w), LineStart(r, w), w.http);
      BarReads(r, w);
    }
  }

  lemma WalkTellsGrpc(w: Walk, attrs: seq<Attr>)
    requires Says(w, attrs)
    ensures w.grpc.verb == LastString(attrs, RpcMethod, RpcMethod)
    ensures w.grpc.service == LastString(attrs, RpcService, RpcService)
    ensures w.grpc.code == LastInt(attrs, GrpcStatusCode, GrpcStatusCode)
    ensures w.grpc.bytes == LastInt(attrs, MessageCompressedSize, MessageCompressedSize)
    ensures w.grpc.reqBytes == LastInt(attrs, RequestCompressedSize, RequestCompressedSize)
    ensures w.grpc.resBytes == LastInt(attrs, ResponseCompressedSize, ResponseCompressedSize)
  {
  }

  lemma {:induction false} LastSomeIff(attrs: seq<Attr>, k: AttrKey, l: AttrKey)
    ensures Last(attrs, k, l).Some? <==> Has(attrs, {k, l})
  {
    if attrs == [] {
    } else {
      var n := |attrs| - 1;
      LastSomeIff(attrs[..n], k, l);
      assert attrs == attrs[..n] + [attrs[n]];
      assert attrs[n] in attrs;
    }
  }

  lemma UnaryTells(w: Walk, attrs: seq<Attr>)
    requires Says(w, attrs)
    ensures w.grpc.notClientStream <==> Unary(attrs)
  {
    LastSomeIff(attrs, MessageCompressedSize, MessageUncompressedSize);
  }

  lemma ServiceReads(r: Record, w: Walk)
    requires RecordFits(r) && GrpcKind(w.kind) && GrpcFits(w.kind, w.grpc)
    ensures ServiceToEnd(LineText(r, w), w.grpc.service, w.grpc.verb, w.status)
  {
    GrpcRecordAligned(r, w);
    EndingIs(w.grpc.service + "/" + w.grpc.verb, w.status);
  }

  lemma GrpcPeerReads(line: string, s: string, a: GrpcAttr)
    requires |s| == 43 && GrpcPrefix(s, GRPC_INGRESS, a) <= line
    ensures FittedAt(line, 43, a.peer)
    ensures if a.notClientStream then a.bytes >= 0 ==> SizeAt(line, 62, a.bytes) else TextAt(line, 62, "..... ")
  {
    var peer := s + Fit18(a.peer) + " ";
    if a.notClientStream {
      Regroup(peer, SizeText(a.bytes), " ");
      Piece(line, peer, SizeText(a.bytes) + " ");
      if a.bytes >= 0 {
        SizeReadsAt(line, 62, a.bytes);
      }
    } else {
      Piece(line, peer, "..... ");
    }
    FitReads(line, s, a.peer);
  }

  lemma PeerServiceLineFields(r: Record, w: Walk)
    requires RecordFits(r) && w.kind == GRPC_INGRESS
    ensures PeerServiceFields(LineText(r, w), w.grpc.peer, w.grpc.notClientStream, w.grpc.bytes,
                              w.grpc.service, w.grpc.verb, w.status)
  {
    HeaderReads(r, w);
    StartIs(r, w);
    GrpcPrefixShows(r, w);
    GrpcPeerReads(LineText(r, w), LineStart(r, w), w.grpc);
    if GrpcFits(w.kind, w.grpc) {
      ServiceReads(r, w);
    }
  }

  /** The pieces of a gRPC outcome: code, duration and two sizes or what stands for one. */
  lemma GrpcPieces(line: string, s: string, c: string, d: string, x: string, y: string)
    requires s + c + " " + d + " " + x + y + " " <= line
    ensures TextAt(line, |s|, c + " ") && TextAt(line, |s| + |c| + 1, d + " ")
    ensures TextAt(line, |s| + |c| + |d| + 2, x) && TextAt(line, |s| + |c| + |d| + |x| + 2, y + " ")
  {
    var front := s + c + " " + d + " ";
    Regroup(front + x, y, " ");
    Piece(line, front + x, y + " ");
    Piece(line, front, x);
    Regroup(s + c + " ", d, " ");
    Piece(line, s + c + " ", d + " ");
    Regroup(s, c, " ");
    Piece(line, s, c + " ");
  }

  lemma GrpcUnaryReads(line: string, s: string, a: GrpcAttr)
    requires |s| == 43 && GrpcPrefix(s, GRPC_EGRESS, a) <= line && a.notClientStream
    ensures TextAt(line, 43, GrpcCodeAbbr(a.code) + " ")
    ensures a.elapsed >= 0 && a.bytes >= 0 ==>
              DurationAt(line, 47, a.elapsed) && TextAt(line, 56, "..... ") && SizeAt(line, 62, a.bytes)
  {
    GrpcPieces(line, s, GrpcCodeAbbr(a.code), DurationText(a.elapsed), "..... ", SizeText(a.bytes));
    EightWideIff(a.elapsed);
    if a.elapsed >= 0 && a.bytes >= 0 {
      DurationReads(line, 47, a.elapsed);
      SizeReadsAt(line, 62, a.bytes);
    }
  }

  lemma StreamPrefix(s: string, a: GrpcAttr)
    requires !a.notClientStream
    ensures GrpcPrefix(s, GRPC_EGRESS, a)
         == s + GrpcCodeAbbr(a.code) + " " + DurationText(a.elapsed) + " " + (SizeText(a.reqBytes) + " ")
            + SizeText(a.resBytes) + " "
  {
    Regroup(s + GrpcCodeAbbr(a.code) + " " + DurationText(a.elapsed) + " ", SizeText(a.reqBytes), " ");
  }

  lemma GrpcStreamReads(s: string, a: GrpcAttr, rest: string)
    requires |s| == 43 && !a.notClientStream
    ensures TextAt(GrpcPrefix(s, GRPC_EGRESS, a) + rest, 43, GrpcCodeAbbr(a.code) + " ")
    ensures var line := GrpcPrefix(s, GRPC_EGRESS, a) + rest;
            a.elapsed >= 0 && a.reqBytes >= 0 && a.resBytes >= 0 ==>
              DurationAt(line, 47, a.elapsed) && SizeAt(line, 56, a.reqBytes) && SizeAt(line, 62, a.resBytes)
  {
    var line := GrpcPrefix(s, GRPC_EGRESS, a) + rest;
    StreamPrefix(s, a);
    GrpcPieces(line, s, GrpcCodeAbbr(a.code), DurationText(a.elapsed), SizeText(a.reqBytes) + " ",
               SizeText(a.resBytes));
    EightWideIff(a.elapsed);
    FiveWideIff(a.reqBytes);
    if a.elapsed >= 0 && a.reqBytes >= 0 && a.resBytes >= 0 {
      DurationReads(line, 47, a.elapsed);
      SizeReadsAt(line, 56, a.reqBytes);
      SizeReadsAt(line, 62, a.resBytes);
    }
  }

  lemma SplitsAt(line: string, prefix: string)
    requires prefix <= line
    ensures line == prefix + line[|prefix|..]
  {
  }

  lemma UnaryLineFields(r: Record, w: Walk)
    requires RecordFits(r) && w.kind == GRPC_EGRESS && w.grpc.notClientStream
    ensures TextAt(LineText(r, w), 43, GrpcCodeAbbr(w.grpc.code) + " ")
    ensures UnaryFields(LineText(r, w), w.grpc.elapsed, w.grpc.bytes, w.grpc.service, w.grpc.verb, w.status)
  {
    StartIs(r, w);
    GrpcPrefixShows(r, w);
    GrpcUnaryReads(LineText(r, w), LineStart(r, w), w.grpc);
    if GrpcFits(w.kind, w.grpc) {
      ServiceReads(r, w);
    }
  }

  lemma StreamLineFields(r: Record, w: Walk)
    requires RecordFits(r) && w.kind == GRPC_EGRESS && !w.grpc.notClientStream
    ensures TextAt(LineText(r, w), 43, GrpcCodeAbbr(w.grpc.code) + " ")
    ensures StreamFields(LineText(r, w), w.grpc.elapsed, w.grpc.reqBytes, w.grpc.resBytes,
                         w.grpc.service, w.grpc.verb, w.status)
  {
    var prefix := GrpcPrefix(LineStart(r, w), GRPC_EGRESS, w.grpc);
    StartIs(r, w);
    GrpcPrefixShows(r, w);
    SplitsAt(LineText(r, w), prefix);
    GrpcStreamReads(LineStart(r, w), w.grpc, LineText(r, w)[|prefix|..]);
    if GrpcFits(w.kind, w.grpc) {
      ServiceReads(r, w);
    }
  }

  lemma OutcomeServiceLineFields(r: Record, w: Walk)
    requires RecordFits(r) && w.kind == GRPC_EGRESS
    ensures ServiceCodeAt(LineText(r, w), w.grpc.code)
    ensures var a := w.grpc;
            if a.notClientStream then UnaryFields(LineText(r, w), a.elapsed, a.bytes, a.service, a.verb, w.status)
            else StreamFields(LineText(r, w), a.elapsed, a.reqBytes, a.resBytes, a.service, a.verb, w.status)
  {
    HeaderReads(r, w);
    if w.grpc.notClientStream {
      UnaryLineFields(r, w);
    } else {
      StreamLineFields(r, w);
    }
  }

  lemma PeerLineShows(r: Record, w: Walk)
    requires RecordFits(r) && Says(w, r.attrs) && w.kind == HTTP_INGRESS
    ensures HttpPeerShown(LineText(r, w), r.attrs)
  {
    WalkTells(w, r.attrs);
    PeerLineFields(r, w);
  }

  lemma RequestLineShows(r: Record, w: Walk)
    requires RecordFits(r) && Says(w, r.attrs) && w.kind == HTTP_REQ
    ensures HttpRequestShown(LineText(r, w), r.attrs)
  {
    WalkTells(w, r.attrs);
    RequestLineFields(r, w);
  }

  lemma OutcomeLineShows(r: Record, w: Walk)
    requires RecordFits(r) && Says(w, r.attrs) && ShowsOutcome(w.kind)
    ensures HttpOutcomeShown(LineText(r, w), r.attrs, Arrow(w.kind), HttpUrl(w.kind, w.http))
  {
    WalkTells(w, r.attrs);
    OutcomeLineFields(r, w);
  }

  lemma HttpLineShows(r: Record, w: Walk)
    requires RecordFits(r) && Says(w, r.attrs)
    ensures w.kind == HTTP_INGRESS ==> HttpPeerShown(LineText(r, w), r.attrs)
    ensures w.kind == HTTP_REQ ==> HttpRequestShown(LineText(r, w), r.attrs)
    ensures ShowsOutcome(w.kind) ==>
              HttpOutcomeShown(LineText(r, w), r.attrs, Arrow(w.kind), HttpUrl(w.kind, w.http))
  {
    if w.kind == HTTP_INGRESS {
      PeerLineShows(r, w);
    } else if w.kind == HTTP_REQ {
      RequestLineShows(r, w);
    } else if ShowsOutcome(w.kind) {
      OutcomeLineShows(r, w);
    }
  }

  lemma GrpcLineShows(r: Record, w: Walk)
    requires RecordFits(r) && Says(w, r.attrs)
    ensures w.kind == GRPC_INGRESS ==> GrpcPeerShown(LineText(r, w), r.attrs)
    ensures w.kind == GRPC_EGRESS ==> GrpcOutcomeShown(LineText(r, w), r.attrs)
  {
    WalkTells(w, r.attrs);
    WalkTellsGrpc(w, r.attrs);
    UnaryTells(w, r.attrs);
    if w.kind == GRPC_INGRESS {
      PeerServiceLineFields(r, w);
    } else if w.kind == GRPC_EGRESS {
      OutcomeServiceLineFields(r, w);
    }
  }

  lemma MessageLineShows(r: Record, w: Walk)
    requires RecordFits(r) && Says(w, r.attrs) && !HttpKind(w.kind) && !GrpcKind(w.kind)
    ensures MessageShown(LineText(r, w), r, Arrow(w.kind))
  {
    var header := Header("", w.title, r.clock, Symbol(r.severity), r.traceId, r.spanId);
    HeaderIsForty(w.title, r.clock, r.severity, r.traceId, r.spanId);
    LogLineIs(LineStart(r, w), r.body, w.rest);
    EndingIs(LineMiddle(r, w), w.status);
    RegroupFour(header, Arrow(w.kind), r.body, AttrTexts(w.rest), Ending(w.status));
    assert LineText(r, w)[40..] == Arrow(w.kind) + r.body + AttrTexts(w.rest) + Ending(w.status);
  }

  // ----- every record

  /** The records whose keys make no HTTP line and no gRPC line of a server. */
  ghost predicate Plain(attrs: seq<Attr>) {
    && !HttpClient(attrs)
    && !(HttpServer(attrs) && (Begins(attrs) || Ends(attrs)))
    && !(GrpcServer(attrs) && (Begins(attrs) || Ends(attrs)))
  }

  /** What a line has to show of its record, by the keys of its attributes. */
  ghost predicate Shown(line: string, r: Record)
    requires RecordFits(r)
  {
    var attrs := r.attrs;
    var url := LastString(attrs, UrlPath, UrlOriginal);
    && HeaderAt(line, LastString(attrs, WidgetName, WidgetName), r)
    && (HttpServer(attrs) && Begins(attrs) ==> HttpPeerShown(line, attrs))
    && (HttpServer(attrs) && Ends(attrs) ==> HttpOutcomeShown(line, attrs, "«‹ ", url))
    && (HttpClient(attrs) && Begins(attrs) ==> HttpRequestShown(line, attrs))
    && (HttpClient(attrs) && !Begins(attrs) ==>
          HttpOutcomeShown(line, attrs, if Ends(attrs) then "⇙  " else "↙  ", PathOf(url)))
    && (GrpcServer(attrs) && Begins(attrs) ==> GrpcPeerShown(line, attrs))
    && (GrpcServer(attrs) && Ends(attrs) ==> GrpcOutcomeShown(line, attrs))
    && (Plain(attrs) ==>
          MessageShown(line, r, if !GrpcClient(attrs) then "" else if Begins(attrs) then " ⇗ "
                                else if Ends(attrs) then "⇙  " else ""))
  }

  lemma LineShows(r: Record, w: Walk)
    requires RecordFits(r) && Says(w, r.attrs)
    ensures Shown(LineText(r, w), r)
  {
    KindIffKeys(r.attrs);
    WalkTells(w, r.attrs);
    HeaderReads(r, w);
    HttpLineShows(r, w);
    GrpcLineShows(r, w);
    if !HttpKind(w.kind) && !GrpcKind(w.kind) {
      MessageLineShows(r, w);
    }
  }

  /** One line for one record, which shows what its attributes say. */
  method ExportRecord(r: Record) returns (line: string)
    requires RecordFits(r)
    ensures Shown(line, r)
    ensures exists w: Walk :: Says(w, r.attrs) && line == LineText(r, w)
  {
    var v := Classify(r.attrs);
    var b := new Buffer();
    WriteHeader(b, v.title, r.clock, Symbol(r.severity), r.traceId, r.spanId);
    b.WriteString(Arrow(v.kind));
    WriteLine(b, r, v);
    if v.status != "" {
      b.WriteString(" - ");
      b.WriteString(v.status);
    }
    b.WriteString("\n");
    line := b.text;
    LineShows(r, v);
  }
}
