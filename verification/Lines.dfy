/**
 The lines written for log records. Text is what shows: colours take no room, every character the
 program writes itself one column. Strings that come with a record are seen as their bytes, as Go
 pads and cuts them; a byte is a column of its own when the string is ASCII.

 What a writer adds to the buffer is given as the text after it, from the text before it.
 */
module Lines {
  import opened Wrappers
  import opened Digits
  import opened Durations
  import opened Sizes
  import opened Values
  import opened Kinds

  function Dots(n: nat): (s: string)
    ensures |s| == n
  {
    seq(n, i => '.')
  }

  /** Padded or cut to eighteen columns. */
  function Fit18(s: string): (r: string)
    ensures |r| == 18
  {
    if |s| < 18 then s + Dots(18 - |s|) else s[..18]
  }

  function HttpMethodAbbr(v: string): (r: string)
    ensures |r| == if |v| < 3 then |v| else 3
  {
    if v == "GET" then "GET"
    else if v == "HEAD" then "HED"
    else if v == "POST" then "PST"
    else if v == "PUT" then "PUT"
    else if v == "PATCH" then "PAT"
    else if v == "DELETE" then "DEL"
    else if v == "CONNECT" then "CON"
    else if v == "OPTIONS" then "OPT"
    else if v == "TRACE" then "TRC"
    else if |v| > 3 then v[..3] else v
  }

  /** An abbreviation is the beginning of the method, but for three methods. */
  lemma MethodAbbrs(v: string)
    ensures HttpMethodAbbr("HEAD") == "HED" && HttpMethodAbbr("POST") == "PST" && HttpMethodAbbr("TRACE") == "TRC"
    ensures v != "HEAD" && v != "POST" && v != "TRACE" ==> HttpMethodAbbr(v) <= v
  {
  }

  function GrpcCodeAbbr(code: int): (r: string)
    ensures |r| == 3
  {
    match code
    case 0 => ".OK"
    case 1 => ".CX"
    case 2 => "UNK"
    case 3 => "ARG"
    case 4 => "EXP"
    case 5 => "404"
    case 6 => "DUP"
    case 7 => "PDN"
    case 8 => "OOM"
    case 9 => "RJT"
    case 10 => "ABT"
    case 11 => "OOR"
    case 12 => "IMP"
    case 13 => "INT"
    case 14 => "OFF"
    case 15 => "DLS"
    case 16 => "ATH"
    case _ => "???"
  }

  const CODES: seq<string> :=
    [".OK", ".CX", "UNK", "ARG", "EXP", "404", "DUP", "PDN", "OOM",
     "RJT", "ABT", "OOR", "IMP", "INT", "OFF", "DLS", "ATH"]

  /** The abbreviations in the order of the codes. */
  lemma CodeAbbrs(code: nat)
    requires code <= 16
    ensures GrpcCodeAbbr(code) == CODES[code]
  {
  }

  /** The abbreviation tells which of the seventeen codes it is, and "???" that it is none of them. */
  lemma CodeAbbrTells(a: int, b: int)
    ensures 0 <= a <= 16 ==> (GrpcCodeAbbr(a) == GrpcCodeAbbr(b) <==> a == b)
    ensures GrpcCodeAbbr(a) == "???" <==> !(0 <= a <= 16)
  {
    var x, y := GrpcCodeAbbr(a), GrpcCodeAbbr(b);
    assert x == y ==> x[0] == y[0] && x[1] == y[1] && x[2] == y[2];
    assert "???"[0] == '?';
  }

  // ----- URLs

  /** strings.Index. */
  function Index(s: string, pattern: string): (r: Option<nat>)
    ensures r.Some? ==> r.value + |pattern| <= |s| && s[r.value..r.value + |pattern|] == pattern
    decreases |s|
  {
    if |s| < |pattern| then None
    else if s[..|pattern|] == pattern then Some(0)
    else if s == "" then None
    else
      match Index(s[1..], pattern)
      case None => None
      case Some(i) => Some(i + 1)
  }

  ghost predicate Occurs(s: string, pattern: string, i: nat) {
    i + |pattern| <= |s| && s[i..i + |pattern|] == pattern
  }

  lemma OccursLater(s: string, pattern: string, i: nat)
    requires s != ""
    ensures Occurs(s[1..], pattern, i) <==> Occurs(s, pattern, i + 1)
  {
    assert i + 1 + |pattern| <= |s| ==> s[1..][i..i + |pattern|] == s[i + 1..i + 1 + |pattern|];
  }

  /** Index is the first place where the pattern occurs. */
  lemma {:induction false} IndexIsFirst(s: string, pattern: string)
    requires pattern != ""
    ensures match Index(s, pattern)
            case Some(i) => Occurs(s, pattern, i) && forall j: nat | j < i :: !Occurs(s, pattern, j)
            case None => forall j: nat :: !Occurs(s, pattern, j)
    decreases |s|
  {
    if |s| < |pattern| {
    } else if s[..|pattern|] == pattern {
      assert Occurs(s, pattern, 0);
    } else {
      IndexIsFirst(s[1..], pattern);
      assert !Occurs(s, pattern, 0);
      forall j: nat | j > 0
        ensures Occurs(s[1..], pattern, j - 1) <==> Occurs(s, pattern, j)
      {
        OccursLater(s, pattern, j - 1);
      }
    }
  }

  function WithoutScheme(url: string): string {
    match Index(url, "://")
    case Some(i) => url[i + 3..]
    case None => url
  }

  /** The domain in front of the first slash, and the rest. */
  function SplitDomain(url: string): (string, string) {
    match Index(url, "/")
    case Some(i) => (url[..i], url[i..])
    case None => ("", url)
  }

  lemma IndexNext(s: string, pattern: string)
    requires pattern != "" && s != "" && s[0] != pattern[0] && Index(s[1..], pattern).Some?
    ensures Index(s, pattern) == Some(Index(s[1..], pattern).value + 1)
  {
    assert |pattern| <= |s| ==> s[..|pattern|][0] == s[0];
  }

  lemma {:induction false} IndexSkips(before: string, after: string, pattern: string)
    requires pattern != "" && pattern <= after
    requires forall i | 0 <= i < |before| :: before[i] != pattern[0]
    ensures Index(before + after, pattern) == Some(|before|)
  {
    if before == "" {
      assert before + after == after;
    } else {
      IndexSkips(before[1..], after, pattern);
      assert (before + after)[1..] == before[1..] + after;
      IndexNext(before + after, pattern);
    }
  }

  lemma SchemeGoes(scheme: string, rest: string)
    requires ':' !in scheme
    ensures WithoutScheme(scheme + ("://" + rest)) == rest
  {
    var tail := "://" + rest;
    assert tail[..3] == "://" && tail[3..] == rest;
    IndexSkips(scheme, tail, "://");
    assert (scheme + tail)[|scheme| + 3..] == tail[3..];
  }

  lemma DomainSplits(domain: string, path: string)
    requires '/' !in domain && path != "" && path[0] == '/'
    ensures SplitDomain(domain + path) == (domain, path)
  {
    assert path[..1] == "/";
    IndexSkips(domain, path, "/");
    assert (domain + path)[..|domain|] == domain && (domain + path)[|domain|..] == path;
  }

  /** A URL with scheme, domain and path comes apart into its domain and path. */
  lemma RequestUrlSplits(scheme: string, domain: string, path: string)
    requires ':' !in scheme && '/' !in domain && path != "" && path[0] == '/'
    ensures SplitDomain(WithoutScheme(scheme + ("://" + (domain + path)))) == (domain, path)
  {
    SchemeGoes(scheme, domain + path);
    DomainSplits(domain, path);
  }

  lemma SlashFound(url: string)
    requires Index(url, "/").Some?
    ensures '/' in url
  {
    var i := Index(url, "/").value;
    assert url[i] == url[i..i + 1][0];
  }

  /** A URL without a scheme stays whole, and one without a slash is all path. */
  lemma UrlWithout(url: string)
    ensures (forall i: nat :: !Occurs(url, "://", i)) ==> WithoutScheme(url) == url
    ensures '/' !in url ==> SplitDomain(url) == ("", url)
  {
    IndexIsFirst(url, "://");
    if Index(url, "/").Some? {
      SlashFound(url);
    }
  }

  // ----- header and parts of lines

  function Title(title: string): (r: string)
    ensures |r| == 8
  {
    var t := if |title| > 8 then title[..8] else title;
    Dots(8 - |t|) + t
  }

  /** `clock` is the time as 15:04:05.000, the ids are in hexadecimal. */
  function Header(s: string, title: string, clock: string, symbol: string, traceId: string, spanId: string): string
    requires |traceId| >= 6 && |spanId| >= 6
  {
    s + ("|" + Title(title) + "| ") + clock + symbol + (traceId[..6] + " ") + (spanId[..6] + " ")
  }

  function Symbol(severity: int): (r: string)
    ensures |r| == 3
  {
    match Quotient(severity - 1, 4)
    case 1 => " ? "
    case 2 => " ○ "
    case 3 => " ! "
    case 4 => " x "
    case 5 => "-x-"
    case _ => " • "
  }

  /** The symbols of the severities, four numbers each. */
  lemma Symbols(severity: int)
    ensures severity <= 4 || severity > 24 ==> Symbol(severity) == " • "
    ensures 5 <= severity <= 8 ==> Symbol(severity) == " ? "
    ensures 9 <= severity <= 12 ==> Symbol(severity) == " ○ "
    ensures 13 <= severity <= 16 ==> Symbol(severity) == " ! "
    ensures 17 <= severity <= 20 ==> Symbol(severity) == " x "
    ensures 21 <= severity <= 24 ==> Symbol(severity) == "-x-"
  {
  }

  function Arrow(kind: bv8): string {
    if kind == HTTP_INGRESS || kind == GRPC_INGRESS then "›» "
    else if kind == HTTP_EGRESS || kind == GRPC_EGRESS then "«‹ "
    else if kind == HTTP_REQ || kind == GRPC_REQ then " ⇗ "
    else if kind == HTTP_RES then "↙  "
    else if kind == HTTP_END || kind == GRPC_END then "⇙  "
    else ""
  }

  function CodeText(code: Int64): string {
    if code > 0 then DecimalInt(code) + " " else "--- "
  }

  function BodyText(a: HttpAttr): string {
    if a.hasBody then SizeText(a.bodySize) else "----B"
  }

  function Bar(s: string, verb: string, url: string): string {
    s + "|" + HttpMethodAbbr(verb) + "|" + " " + url
  }

  /** Status code, duration and size of a response. */
  function Outcome(s: string, a: HttpAttr): string {
    s + CodeText(a.code) + DurationText(a.elapsed) + " " + BodyText(a) + " "
  }

  function PathOf(url: string): string { SplitDomain(WithoutScheme(url)).1 }

  function DomainOf(url: string): string { SplitDomain(WithoutScheme(url)).0 }

  /** What an HTTP line shows in front of the method bar. */
  function HttpPrefix(s: string, kind: bv8, a: HttpAttr): string {
    if kind == HTTP_INGRESS then s + Fit18(a.peer) + " "
    else if kind == HTTP_REQ then s + Fit18(DomainOf(a.url)) + " "
    else Outcome(s, a)
  }

  function HttpUrl(kind: bv8, a: HttpAttr): string {
    if kind == HTTP_INGRESS || kind == HTTP_EGRESS then a.url else PathOf(a.url)
  }

  function HttpLine(s: string, kind: bv8, a: HttpAttr): string {
    Bar(HttpPrefix(s, kind, a), a.verb, HttpUrl(kind, a))
  }

  lemma ResponseLine(s: string, kind: bv8, a: HttpAttr)
    requires kind == HTTP_RES || kind == HTTP_END
    ensures HttpLine(s, kind, a) == Bar(Outcome(s, a), a.verb, PathOf(a.url))
  {
  }

  /** What a gRPC line shows in front of the service. */
  function GrpcPrefix(s: string, kind: bv8, a: GrpcAttr): string {
    if kind == GRPC_INGRESS then
      if a.notClientStream then s + Fit18(a.peer) + " " + SizeText(a.bytes) + " "
      else s + Fit18(a.peer) + " " + "..... "
    else
      var t := s + GrpcCodeAbbr(a.code) + " " + DurationText(a.elapsed) + " ";
      (if a.notClientStream then t + "..... " + SizeText(a.bytes)
       else t + SizeText(a.reqBytes) + " " + SizeText(a.resBytes))
      + " "
  }

  function GrpcLine(s: string, kind: bv8, a: GrpcAttr): string {
    GrpcPrefix(s, kind, a) + a.service + "/" + a.verb
  }

  /** The lines that have a method bar, and those that name a service. */
  predicate HttpKind(kind: bv8) {
    kind == HTTP_INGRESS || kind == HTTP_EGRESS || kind == HTTP_REQ || kind == HTTP_RES || kind == HTTP_END
  }

  predicate GrpcKind(kind: bv8) {
    kind == GRPC_INGRESS || kind == GRPC_EGRESS
  }

  // ----- columns

  lemma HeaderIsForty(title: string, clock: string, severity: int, traceId: string, spanId: string)
    requires |clock| == 12 && |traceId| >= 6 && |spanId| >= 6
    ensures |Header("", title, clock, Symbol(severity), traceId, spanId)| == 40
  {
  }

  lemma DecimalLength(n: nat)
    ensures |Decimal(n)| == 3 <==> 100 <= n <= 999
  {
    if n >= 1000 {
      assert |Decimal(n / 10 / 10 / 10)| >= 1;
      assert |Decimal(n / 10 / 10)| >= 2 && |Decimal(n / 10)| >= 3;
    } else {
      Padded3(n);
    }
  }

  /** The status codes that take exactly three columns. */
  predicate CodeAligns(code: Int64) { code <= 0 || 100 <= code <= 999 }

  lemma CodeWidth(code: Int64)
    ensures |CodeText(code)| == 4 <==> CodeAligns(code)
  {
    if code > 0 {
      DecimalLength(code);
    }
  }

  /** The lines that show a status code, a duration and a size. */
  predicate ShowsOutcome(kind: bv8) { kind == HTTP_EGRESS || kind == HTTP_RES || kind == HTTP_END }

  predicate ElapsedFits(d: int) { d >= 0 || ShowsAsZero(d) }

  /** Durations and sizes are meant to be non-negative. */
  predicate OutcomeFits(a: HttpAttr) { ElapsedFits(a.elapsed) && (a.hasBody ==> a.bodySize >= 0) }

  predicate SizesFit(a: GrpcAttr) {
    if a.notClientStream then a.bytes >= 0 else a.reqBytes >= 0 && a.resBytes >= 0
  }

  /** What a gRPC line shows is not negative, or a duration that shows as zero. */
  predicate GrpcFits(kind: bv8, a: GrpcAttr) {
    if kind == GRPC_INGRESS then a.notClientStream ==> a.bytes >= 0 else ElapsedFits(a.elapsed) && SizesFit(a)
  }

  lemma OutcomeWidth(s: string, a: HttpAttr)
    ensures |Outcome(s, a)| == |s| + |CodeText(a.code)| + |DurationText(a.elapsed)| + |BodyText(a)| + 2
    ensures |DurationText(a.elapsed)| >= 8 && |BodyText(a)| >= 5
    ensures OutcomeFits(a) <==> |DurationText(a.elapsed)| == 8 && |BodyText(a)| == 5
  {
    EightWideIff(a.elapsed);
    if a.hasBody {
      FiveWideIff(a.bodySize);
    }
  }

  /**
   The method bar starts at column 62 of every HTTP line without an outcome, and of one with an
   outcome exactly when code, duration and size make up their columns: for durations and sizes that
   are not negative, exactly when the status code is absent or has three digits.
   */
  lemma MethodBarColumn(s: string, kind: bv8, a: HttpAttr)
    requires HttpKind(kind) && |s| == 43
    ensures !ShowsOutcome(kind) ==> |HttpPrefix(s, kind, a)| == 62
    ensures ShowsOutcome(kind) ==>
              (|HttpPrefix(s, kind, a)| == 62 <==> |CodeText(a.code)| + |DurationText(a.elapsed)| + |BodyText(a)| == 17)
    ensures ShowsOutcome(kind) && OutcomeFits(a) ==> (|HttpPrefix(s, kind, a)| == 62 <==> CodeAligns(a.code))
  {
    OutcomeWidth(s, a);
    CodeWidth(a.code);
  }

  /** A four-digit status code moves the bar by one column. */
  lemma LongCodeMovesBar(s: string, a: HttpAttr)
    requires |s| == 43 && a.code == 1000 && OutcomeFits(a)
    ensures |HttpPrefix(s, HTTP_RES, a)| == 63
  {
    OutcomeWidth(s, a);
    Padded4(1000);
    assert Fixed(1000, 4) == Decimal(1000);
  }

  /** The service starts at column 68 of a gRPC line, unary or streaming, exactly when what it shows fits. */
  lemma ServiceColumn(s: string, kind: bv8, a: GrpcAttr)
    requires GrpcKind(kind) && |s| == 43
    ensures |GrpcPrefix(s, kind, a)| == 68 <==> GrpcFits(kind, a)
  {
    EightWideIff(a.elapsed);
    FiveWideIff(a.bytes);
    FiveWideIff(a.reqBytes);
    FiveWideIff(a.resBytes);
  }

  lemma ArrowIsThree(kind: bv8)
    requires HttpKind(kind) || GrpcKind(kind)
    ensures |Arrow(kind)| == 3
  {
  }

  // ----- whole records

  datatype Record = Record(
    attrs: seq<Attr>, body: string, severity: int, clock: string, traceId: string, spanId: string)

  function AttrName(a: Attr): string { if a.key.Other? then a.key.name else "" }

  function AttrsLine(s: string, attrs: seq<Attr>): string {
    if attrs == [] then s
    else
      var a := attrs[|attrs| - 1];
      AttrsLine(s, attrs[..|attrs| - 1]) + " " + AttrName(a) + "=" + Flatten(Tokens(a.value))
  }

  function LogLine(s: string, msg: string, attrs: seq<Attr>): string {
    if attrs == [] then s + msg else AttrsLine(s + msg + " -", attrs)
  }

  predicate RecordFits(r: Record) {
    |r.clock| == 12 && |r.traceId| == 32 && |r.spanId| == 16
  }

  function LineStart(r: Record, w: Walk): string
    requires RecordFits(r)
  {
    Header("", w.title, r.clock, Symbol(r.severity), r.traceId, r.spanId) + Arrow(w.kind)
  }

  function LineMiddle(r: Record, w: Walk): string
    requires RecordFits(r)
  {
    if HttpKind(w.kind) then HttpLine(LineStart(r, w), w.kind, w.http)
    else if GrpcKind(w.kind) then GrpcLine(LineStart(r, w), w.kind, w.grpc)
    else LogLine(LineStart(r, w), r.body, w.rest)
  }

  function LineEnd(s: string, status: string): string {
    (if status != "" then s + " - " + status else s) + "\n"
  }

  /** The line for a record whose attributes were walked. */
  function LineText(r: Record, w: Walk): string
    requires RecordFits(r)
  {
    LineEnd(LineMiddle(r, w), w.status)
  }

  lemma EndsWith(s: string, t: string, status: string)
    ensures LineEnd(s + t, status)[|s|..] == LineEnd(t, status)
  {
  }

  lemma BarIsSuffix(s: string, verb: string, url: string)
    ensures Bar(s, verb, url) == s + Bar("", verb, url)
  {
  }

  /** From column 62 on, an HTTP line is the method bar, the URL and the status message. */
  lemma HttpRecordAligned(r: Record, w: Walk)
    requires RecordFits(r) && HttpKind(w.kind)
    requires ShowsOutcome(w.kind) ==> OutcomeFits(w.http) && CodeAligns(w.http.code)
    ensures |LineText(r, w)| >= 62
    ensures LineText(r, w)[62..] == LineEnd(Bar("", w.http.verb, HttpUrl(w.kind, w.http)), w.status)
  {
    HeaderIsForty(w.title, r.clock, r.severity, r.traceId, r.spanId);
    ArrowIsThree(w.kind);
    MethodBarColumn(LineStart(r, w), w.kind, w.http);
    var prefix := HttpPrefix(LineStart(r, w), w.kind, w.http);
    BarIsSuffix(prefix, w.http.verb, HttpUrl(w.kind, w.http));
    EndsWith(prefix, Bar("", w.http.verb, HttpUrl(w.kind, w.http)), w.status);
  }

  /** From column 68 on, a gRPC line is the service, the method and the status message. */
  lemma GrpcRecordAligned(r: Record, w: Walk)
    requires RecordFits(r) && GrpcKind(w.kind) && GrpcFits(w.kind, w.grpc)
    ensures |LineText(r, w)| >= 68
    ensures LineText(r, w)[68..] == LineEnd(w.grpc.service + "/" + w.grpc.verb, w.status)
  {
    HeaderIsForty(w.title, r.clock, r.severity, r.traceId, r.spanId);
    ArrowIsThree(w.kind);
    ServiceColumn(LineStart(r, w), w.kind, w.grpc);
    var prefix := GrpcPrefix(LineStart(r, w), w.kind, w.grpc);
    assert prefix + w.grpc.service + "/" + w.grpc.verb == prefix + (w.grpc.service + "/" + w.grpc.verb);
    EndsWith(prefix, w.grpc.service + "/" + w.grpc.verb, w.status);
  }

  // ----- writing

  method WriteHeader(b: Buffer, title: string, clock: string, symbol: string, traceId: string, spanId: string)
    requires |traceId| >= 6 && |spanId| >= 6
    modifies b
    ensures b.text == Header(old(b.text), title, clock, symbol, traceId, spanId)
  {
    var t := title;
    if |t| > 8 {
      t := t[..8];
    }
    b.WriteString("|" + (Dots(8 - |t|) + t) + "| ");
    b.WriteString(clock);
    b.WriteString(symbol);
    b.WriteString(traceId[..6] + " ");
    b.WriteString(spanId[..6] + " ");
  }

  method WriteFit18(b: Buffer, s: string)
    modifies b
    ensures b.text == old(b.text) + Fit18(s)
  {
    var t := s;
    if |t| < 18 {
      t := t + Dots(18 - |t|);
    } else {
      t := t[..18];
    }
    b.WriteString(t);
  }

  method WriteBar(b: Buffer, verb: string, url: string)
    modifies b
    ensures b.text == Bar(old(b.text), verb, url)
  {
    b.WriteString("|");
    b.WriteString(HttpMethodAbbr(verb));
    b.WriteString("|");
    b.WriteString(" ");
    b.WriteString(url);
  }

  /** The status code; its ranges differ in colour only. */
  method WriteCode(b: Buffer, code: Int64)
    modifies b
    ensures b.text == old(b.text) + CodeText(code)
  {
    if code > 0 {
      b.WriteString(DecimalInt(code) + " ");
    } else {
      b.WriteString("--- ");
    }
  }

  method WriteBody(b: Buffer, a: HttpAttr)
    modifies b
    ensures b.text == old(b.text) + BodyText(a)
  {
    if a.hasBody {
      HumanizeBytes(b, a.bodySize);
    } else {
      b.WriteString("----");
      b.WriteString("B");
    }
  }

  /** Status code, duration and size of a response. */
  method WriteOutcome(b: Buffer, a: HttpAttr)
    modifies b
    ensures b.text == Outcome(old(b.text), a)
  {
    WriteCode(b, a.code);
    RenderDuration(b, a.elapsed);
    b.WriteString(" ");
    WriteBody(b, a);
    b.WriteString(" ");
  }

  method WriteHttpIngressLine(b: Buffer, a: HttpAttr)
    modifies b
    ensures b.text == HttpLine(old(b.text), HTTP_INGRESS, a)
  {
    WriteFit18(b, a.peer);
    b.WriteString(" ");
    WriteBar(b, a.verb, a.url);
  }

  method WriteHttpEgressLine(b: Buffer, a: HttpAttr)
    modifies b
    ensures b.text == HttpLine(old(b.text), HTTP_EGRESS, a)
  {
    WriteOutcome(b, a);
    WriteBar(b, a.verb, a.url);
  }

  /** The domain and the path of a URL. */
  method CutUrl(whole: string) returns (domain: string, url: string)
    ensures domain == DomainOf(whole) && url == PathOf(whole)
  {
    domain, url := "", whole;
    var i := Index(url, "://");
    if i.Some? {
      url := url[i.value + 3..];
    }
    i := Index(url, "/");
    if i.Some? {
      domain := url[..i.value];
      url := url[i.value..];
    }
  }

  method WriteHttpReqLine(b: Buffer, a: HttpAttr)
    modifies b
    ensures b.text == HttpLine(old(b.text), HTTP_REQ, a)
  {
    var domain, url := CutUrl(a.url);
    WriteFit18(b, domain);
    b.WriteString(" ");
    WriteBar(b, a.verb, url);
  }

  method WriteHttpResLine(b: Buffer, kind: bv8, a: HttpAttr)
    requires kind == HTTP_RES || kind == HTTP_END
    modifies b
    ensures b.text == HttpLine(old(b.text), kind, a)
  {
    var _, url := CutUrl(a.url);
    ResponseLine(b.text, kind, a);
    WriteOutcome(b, a);
    WriteBar(b, a.verb, url);
  }

  method WriteGrpcIngressLine(b: Buffer, a: GrpcAttr)
    modifies b
    ensures b.text == GrpcLine(old(b.text), GRPC_INGRESS, a)
  {
    WriteFit18(b, a.peer);
    b.WriteString(" ");
    if a.notClientStream {
      HumanizeBytes(b, a.bytes);
      b.WriteString(" ");
    } else {
      b.WriteString("..... ");
    }
    b.WriteString(a.service);
    b.WriteString("/");
    b.WriteString(a.verb);
  }

  method WriteGrpcEgressLine(b: Buffer, a: GrpcAttr)
    modifies b
    ensures b.text == GrpcLine(old(b.text), GRPC_EGRESS, a)
  {
    b.WriteString(GrpcCodeAbbr(a.code));
    b.WriteString(" ");
    RenderDuration(b, a.elapsed);
    b.WriteString(" ");
    if a.notClientStream {
      b.WriteString("..... ");
      HumanizeBytes(b, a.bytes);
    } else {
      HumanizeBytes(b, a.reqBytes);
      b.WriteString(" ");
      HumanizeBytes(b, a.resBytes);
    }
    b.WriteString(" ");
    b.WriteString(a.service);
    b.WriteString("/");
    b.WriteString(a.verb);
  }

  lemma AttrsLineNext(s: string, attrs: seq<Attr>, i: nat)
    requires i < |attrs|
    ensures AttrsLine(s, attrs[..i + 1]) ==
            AttrsLine(s, attrs[..i]) + " " + AttrName(attrs[i]) + "=" + Flatten(Tokens(attrs[i].value))
  {
    assert attrs[..i + 1][..i] == attrs[..i];
  }

  method WriteLogLine(b: Buffer, msg: string, attrs: seq<Attr>)
    modifies b
    ensures b.text == LogLine(old(b.text), msg, attrs)
  {
    b.WriteString(msg);
    if |attrs| == 0 {
      return;
    }
    b.WriteString(" -");
    ghost var before := b.text;
    for i := 0 to |attrs|
      invariant b.text == AttrsLine(before, attrs[..i])
    {
      AttrsLineNext(before, attrs, i);
      b.WriteString(" ");
      b.WriteString(AttrName(attrs[i]));
      b.WriteString("=");
      var o := new Output();
      Render(o, attrs[i].value);
      assert o.tokens == Tokens(attrs[i].value);
      b.WriteString(Flatten(o.tokens));
    }
    assert attrs[..|attrs|] == attrs;
  }

  method WriteLine(b: Buffer, r: Record, w: Walk)
    requires RecordFits(r) && b.text == LineStart(r, w)
    modifies b
    ensures b.text == LineMiddle(r, w)
  {
    if w.kind == HTTP_INGRESS {
      WriteHttpIngressLine(b, w.http);
    } else if w.kind == HTTP_EGRESS {
      WriteHttpEgressLine(b, w.http);
    } else if w.kind == HTTP_REQ {
      WriteHttpReqLine(b, w.http);
    } else if w.kind == HTTP_RES || w.kind == HTTP_END {
      WriteHttpResLine(b, w.kind, w.http);
    } else if w.kind == GRPC_INGRESS {
      WriteGrpcIngressLine(b, w.grpc);
    } else if w.kind == GRPC_EGRESS {
      WriteGrpcEgressLine(b, w.grpc);
    } else {
      WriteLogLine(b, r.body, w.rest);
    }
  }
}
