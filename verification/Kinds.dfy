/** Which kind of record the attributes of a log record make, and what they say about it. */
module Kinds {
  import opened Wrappers
  import opened Digits
  import opened Values

  /** The attribute keys that the exporter knows, and all others. */
  datatype AttrKey =
    | WidgetName | TraceId | SpanId
    | PeerAddress
    | HttpMethod | UrlPath | UrlOriginal | HttpStatusCode | ContentLength | HttpBodySize
    | RpcService | RpcMethod | GrpcStatusCode | MessageCompressedSize | MessageUncompressedSize
    | RequestCompressedSize | ResponseCompressedSize
    | ServerStatusMessage | ServerElapsed | ClientElapsed
    | Other(name: string)

  datatype Attr = Attr(key: AttrKey, value: LogValue)

  const HTTP: bv8 := 0x40
  const GRPC: bv8 := 0x80
  const SERVER: bv8 := 0x10
  const CLIENT: bv8 := 0x20
  const RECV: bv8 := 0x02
  const END: bv8 := 0x06

  const HTTP_INGRESS: bv8 := HTTP | SERVER
  const HTTP_EGRESS: bv8 := HTTP | SERVER | END
  const HTTP_REQ: bv8 := HTTP | CLIENT
  const HTTP_RES: bv8 := HTTP | CLIENT | RECV
  const HTTP_END: bv8 := HTTP | CLIENT | END
  const GRPC_INGRESS: bv8 := GRPC | SERVER
  const GRPC_EGRESS: bv8 := GRPC | SERVER | END
  const GRPC_REQ: bv8 := GRPC | CLIENT
  const GRPC_END: bv8 := GRPC | CLIENT | END

  function Mask(key: AttrKey): bv8 {
    match key
    case PeerAddress => SERVER
    case HttpMethod => HTTP
    case UrlPath => HTTP | SERVER
    case UrlOriginal => HTTP | CLIENT
    case HttpStatusCode => HTTP | RECV
    case ContentLength => HTTP | CLIENT | RECV
    case HttpBodySize => HTTP | END
    case RpcService => GRPC
    case RpcMethod => GRPC
    case GrpcStatusCode => GRPC | END
    case MessageCompressedSize => GRPC
    case MessageUncompressedSize => GRPC
    case RequestCompressedSize => GRPC | END
    case ResponseCompressedSize => GRPC | END
    case ServerStatusMessage => SERVER | END
    case ServerElapsed => SERVER | END
    case ClientElapsed => CLIENT | RECV
    case _ => 0
  }

  /** The union of the masks of all keys. */
  function KindOf(attrs: seq<Attr>): bv8 {
    if attrs == [] then 0 else KindOf(attrs[..|attrs| - 1]) | Mask(attrs[|attrs| - 1].key)
  }

  function Keys(attrs: seq<Attr>): set<AttrKey> {
    set a | a in attrs :: a.key
  }

  lemma {:induction false} KindBits(attrs: seq<Attr>, bits: bv8)
    ensures KindOf(attrs) & bits != 0 <==> exists k <- Keys(attrs) :: Mask(k) & bits != 0
  {
    if attrs == [] {
    } else {
      var before, last := attrs[..|attrs| - 1], attrs[|attrs| - 1];
      KindBits(before, bits);
      assert Keys(attrs) == Keys(before) + {last.key};
      UnionBits(KindOf(before), Mask(last.key), bits);
    }
  }

  lemma UnionBits(a: bv8, b: bv8, bits: bv8)
    ensures (a | b) & bits != 0 <==> a & bits != 0 || b & bits != 0
  {
  }

  predicate SingleBit(b: bv8) {
    b == 1 || b == 2 || b == 4 || b == 8 || b == 16 || b == 32 || b == 64 || b == 128
  }

  lemma SameBits(a: bv8, b: bv8)
    ensures a == b <==> forall bit | SingleBit(bit) :: a & bit != 0 <==> b & bit != 0
  {
    if forall bit | SingleBit(bit) :: a & bit != 0 <==> b & bit != 0 {
      assert SingleBit(1) && SingleBit(2) && SingleBit(4) && SingleBit(8);
      assert SingleBit(16) && SingleBit(32) && SingleBit(64) && SingleBit(128);
    }
  }

  /** A kind comes about exactly when each of its bits is contributed by some key and no other bit is. */
  lemma KindReachedIff(attrs: seq<Attr>, kind: bv8)
    ensures KindOf(attrs) == kind <==>
            forall bit | SingleBit(bit) :: kind & bit != 0 <==> exists k <- Keys(attrs) :: Mask(k) & bit != 0
  {
    forall bit | SingleBit(bit)
      ensures KindOf(attrs) & bit != 0 <==> exists k <- Keys(attrs) :: Mask(k) & bit != 0
    {
      KindBits(attrs, bit);
    }
    SameBits(KindOf(attrs), kind);
  }

  /** Order and repetition of attributes do not matter for the kind. */
  lemma KindIgnoresOrder(attrs: seq<Attr>, others: seq<Attr>)
    requires Keys(attrs) == Keys(others)
    ensures KindOf(attrs) == KindOf(others)
  {
    forall bit | SingleBit(bit)
      ensures KindOf(attrs) & bit != 0 <==> KindOf(others) & bit != 0
    {
      KindBits(attrs, bit);
      KindBits(others, bit);
    }
    SameBits(KindOf(attrs), KindOf(others));
  }

  // ----- kinds by the keys of the source, bit by bit

  const SERVER_KEYS: set<AttrKey> := {PeerAddress, UrlPath, ServerStatusMessage, ServerElapsed}
  const CLIENT_KEYS: set<AttrKey> := {UrlOriginal, ContentLength, ClientElapsed}
  const HTTP_KEYS: set<AttrKey> := {HttpMethod, UrlPath, UrlOriginal, HttpStatusCode, ContentLength, HttpBodySize}
  const GRPC_KEYS: set<AttrKey> :=
    {RpcService, RpcMethod, GrpcStatusCode, MessageCompressedSize, MessageUncompressedSize,
     RequestCompressedSize, ResponseCompressedSize}
  const END_KEYS: set<AttrKey> :=
    {HttpBodySize, GrpcStatusCode, RequestCompressedSize, ResponseCompressedSize, ServerStatusMessage, ServerElapsed}
  const RECV_KEYS: set<AttrKey> :=
    {HttpStatusCode, ContentLength, ClientElapsed, HttpBodySize, GrpcStatusCode, RequestCompressedSize,
     ResponseCompressedSize, ServerStatusMessage, ServerElapsed}

  ghost predicate Has(attrs: seq<Attr>, keys: set<AttrKey>) {
    exists a <- attrs :: a.key in keys
  }

  lemma HighBits(k: AttrKey)
    ensures Mask(k) & 0x10 != 0 <==> k in SERVER_KEYS
    ensures Mask(k) & 0x20 != 0 <==> k in CLIENT_KEYS
    ensures Mask(k) & 0x40 != 0 <==> k in HTTP_KEYS
    ensures Mask(k) & 0x80 != 0 <==> k in GRPC_KEYS
  {
  }

  lemma LowBits(k: AttrKey)
    ensures Mask(k) & 0x01 == 0 && Mask(k) & 0x08 == 0
    ensures Mask(k) & 0x02 != 0 <==> k in RECV_KEYS
    ensures Mask(k) & 0x04 != 0 <==> k in END_KEYS
  {
  }

  lemma HasIffContributed(attrs: seq<Attr>, keys: set<AttrKey>, bits: bv8)
    requires forall k: AttrKey :: Mask(k) & bits != 0 <==> k in keys
    ensures KindOf(attrs) & bits != 0 <==> Has(attrs, keys)
  {
    KindBits(attrs, bits);
    if Has(attrs, keys) {
      var a :| a in attrs && a.key in keys;
      assert a.key in Keys(attrs);
    }
  }

  /** Each bit of the kind is there exactly when one of its keys is; two bits never are. */
  lemma KindTellsKeys(attrs: seq<Attr>)
    ensures KindOf(attrs) & 0x10 != 0 <==> Has(attrs, SERVER_KEYS)
    ensures KindOf(attrs) & 0x20 != 0 <==> Has(attrs, CLIENT_KEYS)
    ensures KindOf(attrs) & 0x40 != 0 <==> Has(attrs, HTTP_KEYS)
    ensures KindOf(attrs) & 0x80 != 0 <==> Has(attrs, GRPC_KEYS)
    ensures KindOf(attrs) & 0x02 != 0 <==> Has(attrs, RECV_KEYS)
    ensures KindOf(attrs) & 0x04 != 0 <==> Has(attrs, END_KEYS)
    ensures KindOf(attrs) & 0x01 == 0 && KindOf(attrs) & 0x08 == 0
  {
    forall k: AttrKey
      ensures Mask(k) & 0x10 != 0 <==> k in SERVER_KEYS
      ensures Mask(k) & 0x20 != 0 <==> k in CLIENT_KEYS
      ensures Mask(k) & 0x40 != 0 <==> k in HTTP_KEYS
      ensures Mask(k) & 0x80 != 0 <==> k in GRPC_KEYS
    {
      HighBits(k);
    }
    forall k: AttrKey
      ensures Mask(k) & 0x01 == 0 && Mask(k) & 0x08 == 0
      ensures Mask(k) & 0x02 != 0 <==> k in RECV_KEYS
      ensures Mask(k) & 0x04 != 0 <==> k in END_KEYS
    {
      LowBits(k);
    }
    HasIffContributed(attrs, SERVER_KEYS, 0x10);
    HasIffContributed(attrs, CLIENT_KEYS, 0x20);
    HasIffContributed(attrs, HTTP_KEYS, 0x40);
    HasIffContributed(attrs, GRPC_KEYS, 0x80);
    HasIffContributed(attrs, RECV_KEYS, 0x02);
    HasIffContributed(attrs, END_KEYS, 0x04);
    KindBits(attrs, 0x01);
    KindBits(attrs, 0x08);
  }

  // The keys that make each kind.

  ghost predicate HttpServer(attrs: seq<Attr>) {
    Has(attrs, HTTP_KEYS) && Has(attrs, SERVER_KEYS) && !Has(attrs, GRPC_KEYS) && !Has(attrs, CLIENT_KEYS)
  }

  ghost predicate HttpClient(attrs: seq<Attr>) {
    Has(attrs, HTTP_KEYS) && Has(attrs, CLIENT_KEYS) && !Has(attrs, GRPC_KEYS) && !Has(attrs, SERVER_KEYS)
  }

  ghost predicate GrpcServer(attrs: seq<Attr>) {
    Has(attrs, GRPC_KEYS) && Has(attrs, SERVER_KEYS) && !Has(attrs, HTTP_KEYS) && !Has(attrs, CLIENT_KEYS)
  }

  ghost predicate GrpcClient(attrs: seq<Attr>) {
    Has(attrs, GRPC_KEYS) && Has(attrs, CLIENT_KEYS) && !Has(attrs, HTTP_KEYS) && !Has(attrs, SERVER_KEYS)
  }

  ghost predicate Begins(attrs: seq<Attr>) { !Has(attrs, RECV_KEYS) }

  ghost predicate Ends(attrs: seq<Attr>) { Has(attrs, END_KEYS) }

  lemma EndsHasRecv(attrs: seq<Attr>)
    ensures Ends(attrs) ==> !Begins(attrs)
  {
    if Ends(attrs) {
      var a :| a in attrs && a.key in END_KEYS;
      assert a.key in RECV_KEYS;
    }
  }

  predicate HasBits(kind: bv8, http: bool, grpc: bool, server: bool, client: bool, recv: bool, end: bool) {
    && (kind & 0x40 != 0 <==> http) && (kind & 0x80 != 0 <==> grpc)
    && (kind & 0x10 != 0 <==> server) && (kind & 0x20 != 0 <==> client)
    && (kind & 0x02 != 0 <==> recv) && (kind & 0x04 != 0 <==> end)
  }

  lemma KindFromBits(kind: bv8)
    requires kind & 0x01 == 0 && kind & 0x08 == 0
    ensures kind == HTTP_INGRESS <==> HasBits(kind, true, false, true, false, false, false)
    ensures kind == HTTP_EGRESS <==> HasBits(kind, true, false, true, false, true, true)
    ensures kind == HTTP_REQ <==> HasBits(kind, true, false, false, true, false, false)
    ensures kind == HTTP_RES <==> HasBits(kind, true, false, false, true, true, false)
    ensures kind == HTTP_END <==> HasBits(kind, true, false, false, true, true, true)
    ensures kind == GRPC_INGRESS <==> HasBits(kind, false, true, true, false, false, false)
    ensures kind == GRPC_EGRESS <==> HasBits(kind, false, true, true, false, true, true)
    ensures kind == GRPC_REQ <==> HasBits(kind, false, true, false, true, false, false)
    ensures kind == GRPC_END <==> HasBits(kind, false, true, false, true, true, true)
  {
  }

  /** Which keys make which kind. */
  lemma KindIffKeys(attrs: seq<Attr>)
    ensures KindOf(attrs) == HTTP_INGRESS <==> HttpServer(attrs) && Begins(attrs)
    ensures KindOf(attrs) == HTTP_EGRESS <==> HttpServer(attrs) && Ends(attrs)
    ensures KindOf(attrs) == HTTP_REQ <==> HttpClient(attrs) && Begins(attrs)
    ensures KindOf(attrs) == HTTP_RES <==> HttpClient(attrs) && !Begins(attrs) && !Ends(attrs)
    ensures KindOf(attrs) == HTTP_END <==> HttpClient(attrs) && Ends(attrs)
    ensures KindOf(attrs) == GRPC_INGRESS <==> GrpcServer(attrs) && Begins(attrs)
    ensures KindOf(attrs) == GRPC_EGRESS <==> GrpcServer(attrs) && Ends(attrs)
    ensures KindOf(attrs) == GRPC_REQ <==> GrpcClient(attrs) && Begins(attrs)
    ensures KindOf(attrs) == GRPC_END <==> GrpcClient(attrs) && Ends(attrs)
  {
    KindTellsKeys(attrs);
    KindFromBits(KindOf(attrs));
    EndsHasRecv(attrs);
  }

  // ----- the walk over the attributes

  datatype HttpAttr = HttpAttr(
    verb: string, url: string, peer: string, code: Int64, elapsed: Int64, hasBody: bool, bodySize: Int64)

  datatype GrpcAttr = GrpcAttr(
    verb: string, service: string, peer: string, code: Int64, elapsed: Int64, notClientStream: bool,
    size: Int64, bytes: Int64, reqBytes: Int64, resBytes: Int64)

  datatype Walk = Walk(
    title: string, kind: bv8, rest: seq<Attr>, http: HttpAttr, grpc: GrpcAttr, status: string)

  function AsString(v: LogValue): string { if v.Str? then v.s else "" }

  function AsInt64(v: LogValue): Int64 { if v.Int? then v.n else 0 }

  // What the walk does with one attribute.

  function HttpStep(h: HttpAttr, a: Attr): HttpAttr {
    var v := a.value;
    match a.key
    case PeerAddress => h.(peer := AsString(v))
    case HttpMethod => h.(verb := AsString(v))
    case UrlPath => h.(url := AsString(v))
    case UrlOriginal => h.(url := AsString(v))
    case HttpStatusCode => h.(code := AsInt64(v))
    case ContentLength =>
      (match ParseInt64(AsString(v))
       case Some(n) => h.(hasBody := true, bodySize := n)
       case None => h)
    case HttpBodySize => h.(hasBody := true, bodySize := AsInt64(v))
    case ServerElapsed => h.(elapsed := AsInt64(v))
    case ClientElapsed => h.(elapsed := AsInt64(v))
    case _ => h
  }

  function GrpcStep(g: GrpcAttr, a: Attr): GrpcAttr {
    var v := a.value;
    match a.key
    case PeerAddress => g.(peer := AsString(v))
    case RpcService => g.(service := AsString(v))
    case RpcMethod => g.(verb := AsString(v))
    case GrpcStatusCode => g.(code := AsInt64(v))
    case MessageCompressedSize => g.(notClientStream := true, bytes := AsInt64(v))
    case MessageUncompressedSize => g.(notClientStream := true, size := AsInt64(v))
    case RequestCompressedSize => g.(reqBytes := AsInt64(v))
    case ResponseCompressedSize => g.(resBytes := AsInt64(v))
    case ServerElapsed => g.(elapsed := AsInt64(v))
    case ClientElapsed => g.(elapsed := AsInt64(v))
    case _ => g
  }

  /** The attributes with unknown keys, in their order. */
  function Unrecognised(attrs: seq<Attr>): seq<Attr> {
    if attrs == [] then []
    else Unrecognised(attrs[..|attrs| - 1]) + (if attrs[|attrs| - 1].key.Other? then [attrs[|attrs| - 1]] else [])
  }

  ghost function OthersBefore(attrs: seq<Attr>, n: nat): set<nat> {
    set j: nat | j < n && j < |attrs| && attrs[j].key.Other?
  }

  lemma OthersNext(before: seq<Attr>, a: Attr, i: nat)
    requires i <= |before|
    ensures OthersBefore(before + [a], i) == OthersBefore(before, i)
    ensures OthersBefore(before + [a], |before| + 1)
         == OthersBefore(before, |before|) + if a.key.Other? then {|before|} else {}
  {
  }

  /** Attribute `i` comes after as many others as there are such before it. */
  ghost predicate InPlace(attrs: seq<Attr>, i: nat) {
    && i < |attrs| && |OthersBefore(attrs, i)| < |Unrecognised(attrs)|
    && Unrecognised(attrs)[|OthersBefore(attrs, i)|] == attrs[i]
  }

  lemma UnrecognisedNext(before: seq<Attr>, a: Attr)
    ensures Unrecognised(before + [a]) == Unrecognised(before) + if a.key.Other? then [a] else []
  {
    assert (before + [a])[..|before|] == before;
  }

  lemma StaysInPlace(before: seq<Attr>, a: Attr, i: nat)
    requires InPlace(before, i)
    ensures InPlace(before + [a], i)
  {
    UnrecognisedNext(before, a);
    OthersNext(before, a, i);
  }

  lemma ComesInPlace(before: seq<Attr>, a: Attr)
    requires a.key.Other? && |Unrecognised(before)| == |OthersBefore(before, |before|)|
    ensures InPlace(before + [a], |before|)
  {
    UnrecognisedNext(before, a);
    OthersNext(before, a, |before|);
  }

  ghost predicate AllInPlace(attrs: seq<Attr>) {
    && |Unrecognised(attrs)| == |OthersBefore(attrs, |attrs|)|
    && forall i: nat | i < |attrs| && attrs[i].key.Other? :: InPlace(attrs, i)
  }

  lemma OneMore(s: set<nat>, x: nat)
    requires x !in s
    ensures |s + {x}| == |s| + 1
  {
  }

  lemma OthersCount(before: seq<Attr>, a: Attr)
    ensures |OthersBefore(before + [a], |before| + 1)|
         == |OthersBefore(before, |before|)| + if a.key.Other? then 1 else 0
  {
    var others := OthersBefore(before, |before|);
    OthersNext(before, a, |before|);
    if a.key.Other? {
      OneMore(others, |before|);
    } else {
      assert others + {} == others;
    }
  }

  lemma CountStays(before: seq<Attr>, a: Attr)
    requires |Unrecognised(before)| == |OthersBefore(before, |before|)|
    ensures |Unrecognised(before + [a])| == |OthersBefore(before + [a], |before| + 1)|
  {
    UnrecognisedNext(before, a);
    OthersCount(before, a);
  }

  lemma OneInPlace(before: seq<Attr>, a: Attr, i: nat)
    requires AllInPlace(before) && i <= |before| && (before + [a])[i].key.Other?
    ensures InPlace(before + [a], i)
  {
    if i < |before| {
      assert before[i].key.Other?;
      StaysInPlace(before, a, i);
    } else {
      ComesInPlace(before, a);
    }
  }

  lemma AllStayInPlace(before: seq<Attr>, a: Attr)
    requires AllInPlace(before)
    ensures AllInPlace(before + [a])
  {
    CountStays(before, a);
    forall i: nat | i <= |before| && (before + [a])[i].key.Other?
      ensures InPlace(before + [a], i)
    {
      OneInPlace(before, a, i);
    }
  }

  /** Every attribute with an unknown key is in its place behind those before it, and there are no more. */
  lemma {:induction false} UnrecognisedInOrder(attrs: seq<Attr>)
    ensures |Unrecognised(attrs)| == |OthersBefore(attrs, |attrs|)|
    ensures forall i: nat | i < |attrs| && attrs[i].key.Other? :: InPlace(attrs, i)
  {
    if attrs == [] {
      assert OthersBefore(attrs, 0) == {};
    } else {
      var n := |attrs| - 1;
      UnrecognisedInOrder(attrs[..n]);
      AllStayInPlace(attrs[..n], attrs[n]);
      assert attrs == attrs[..n] + [attrs[n]];
    }
  }

  predicate HasKey(a: Attr, k: AttrKey, l: AttrKey) { a.key == k || a.key == l }

  /** The value of the last attribute with one of two keys. */
  function Last(attrs: seq<Attr>, k: AttrKey, l: AttrKey): Option<LogValue> {
    if attrs == [] then None
    else if HasKey(attrs[|attrs| - 1], k, l) then Some(attrs[|attrs| - 1].value)
    else Last(attrs[..|attrs| - 1], k, l)
  }

  lemma {:induction false} LastOfNone(attrs: seq<Attr>, k: AttrKey, l: AttrKey)
    requires forall i | 0 <= i < |attrs| :: !HasKey(attrs[i], k, l)
    ensures Last(attrs, k, l).None?
  {
    if attrs == [] {
    } else {
      LastOfNone(attrs[..|attrs| - 1], k, l);
    }
  }

  /** Last is the value at the last position with one of the keys, wherever that is. */
  lemma {:induction false} LastIsLast(attrs: seq<Attr>, i: nat, k: AttrKey, l: AttrKey)
    requires i < |attrs| && HasKey(attrs[i], k, l)
    requires forall j | i < j < |attrs| :: !HasKey(attrs[j], k, l)
    ensures Last(attrs, k, l) == Some(attrs[i].value)
  {
    var n := |attrs| - 1;
    if i == n {
    } else {
      assert !HasKey(attrs[n], k, l);
      LastIsLast(attrs[..n], i, k, l);
    }
  }

  function LastString(attrs: seq<Attr>, k: AttrKey, l: AttrKey): string {
    match Last(attrs, k, l)
    case Some(v) => AsString(v)
    case None => ""
  }

  function LastInt(attrs: seq<Attr>, k: AttrKey, l: AttrKey): Int64 {
    match Last(attrs, k, l)
    case Some(v) => AsInt64(v)
    case None => 0
  }

  // A field holds what the last attribute that sets it says.

  ghost predicate HttpTexts(h: HttpAttr, attrs: seq<Attr>) {
    && h.verb == LastString(attrs, HttpMethod, HttpMethod)
    && h.url == LastString(attrs, UrlPath, UrlOriginal)
    && h.peer == LastString(attrs, PeerAddress, PeerAddress)
  }

  ghost predicate HttpNumbers(h: HttpAttr, attrs: seq<Attr>) {
    && h.code == LastInt(attrs, HttpStatusCode, HttpStatusCode)
    && h.elapsed == LastInt(attrs, ServerElapsed, ClientElapsed)
  }

  ghost predicate GrpcTexts(g: GrpcAttr, attrs: seq<Attr>) {
    && g.verb == LastString(attrs, RpcMethod, RpcMethod)
    && g.service == LastString(attrs, RpcService, RpcService)
    && g.peer == LastString(attrs, PeerAddress, PeerAddress)
  }

  ghost predicate GrpcNumbers(g: GrpcAttr, attrs: seq<Attr>) {
    && g.code == LastInt(attrs, GrpcStatusCode, GrpcStatusCode)
    && g.elapsed == LastInt(attrs, ServerElapsed, ClientElapsed)
  }

  ghost predicate GrpcStream(g: GrpcAttr, attrs: seq<Attr>) {
    && g.reqBytes == LastInt(attrs, RequestCompressedSize, RequestCompressedSize)
    && g.resBytes == LastInt(attrs, ResponseCompressedSize, ResponseCompressedSize)
  }

  ghost predicate GrpcMessage(g: GrpcAttr, attrs: seq<Attr>) {
    && g.size == LastInt(attrs, MessageUncompressedSize, MessageUncompressedSize)
    && g.bytes == LastInt(attrs, MessageCompressedSize, MessageCompressedSize)
    && (g.notClientStream <==> Last(attrs, MessageCompressedSize, MessageUncompressedSize).Some?)
  }

  lemma LastGives(attrs: seq<Attr>, k: AttrKey, l: AttrKey, v: LogValue)
    requires Last(attrs, k, l) == Some(v)
    ensures LastString(attrs, k, l) == if v.Str? then v.s else ""
    ensures LastInt(attrs, k, l) == if v.Int? then v.n else 0
  {
  }

  /** Texts and numbers are taken from values of their own kind; any other value counts as empty or zero. */
  lemma LastReads(attrs: seq<Attr>, i: nat, k: AttrKey, l: AttrKey)
    requires i < |attrs| && HasKey(attrs[i], k, l)
    requires forall j | i < j < |attrs| :: !HasKey(attrs[j], k, l)
    ensures var v := attrs[i].value;
            && LastString(attrs, k, l) == (if v.Str? then v.s else "")
            && LastInt(attrs, k, l) == (if v.Int? then v.n else 0)
  {
    LastIsLast(attrs, i, k, l);
    LastGives(attrs, k, l, attrs[i].value);
  }

  /** The size of the response body that an attribute gives, if any. */
  function GivenSize(a: Attr): Option<Int64> {
    match a.key
    case HttpBodySize => Some(AsInt64(a.value))
    case ContentLength => ParseInt64(AsString(a.value))
    case _ => None
  }

  /** A body size counts as given, a content length as its text is parsed, and nothing else does. */
  lemma GivenSizes(n: Int64, s: string, a: Attr)
    ensures GivenSize(Attr(HttpBodySize, Int(n))) == Some(n)
    ensures GivenSize(Attr(ContentLength, Str(DecimalInt(n)))) == Some(n)
    ensures GivenSize(Attr(ContentLength, Str(s))) == ParseInt64(s)
    ensures GivenSize(a).Some? ==> a.key == HttpBodySize || a.key == ContentLength
  {
    ParseReadsBack(n);
  }

  function BodySize(attrs: seq<Attr>): Option<Int64> {
    if attrs == [] then None
    else if GivenSize(attrs[|attrs| - 1]).Some? then GivenSize(attrs[|attrs| - 1])
    else BodySize(attrs[..|attrs| - 1])
  }

  /** The size of the body is that of the last attribute that gives one, wherever that is. */
  lemma {:induction false} BodySizeIsLast(attrs: seq<Attr>, i: nat)
    requires i < |attrs| && GivenSize(attrs[i]).Some?
    requires forall j | i < j < |attrs| :: GivenSize(attrs[j]).None?
    ensures BodySize(attrs) == GivenSize(attrs[i])
  {
    var n := |attrs| - 1;
    if i == n {
    } else {
      assert GivenSize(attrs[n]).None?;
      BodySizeIsLast(attrs[..n], i);
    }
  }

  lemma {:induction false} BodySizeOfNone(attrs: seq<Attr>)
    requires forall i | 0 <= i < |attrs| :: GivenSize(attrs[i]).None?
    ensures BodySize(attrs).None?
  {
    if attrs == [] {
    } else {
      BodySizeOfNone(attrs[..|attrs| - 1]);
    }
  }

  ghost predicate BodySays(h: HttpAttr, attrs: seq<Attr>) {
    match BodySize(attrs)
    case Some(n) => h.hasBody && h.bodySize == n
    case None => !h.hasBody && h.bodySize == 0
  }

  ghost predicate RestSays(w: Walk, attrs: seq<Attr>) {
    && w.rest == Unrecognised(attrs)
    && w.title == LastString(attrs, WidgetName, WidgetName)
    && w.status == LastString(attrs, ServerStatusMessage, ServerStatusMessage)
  }

  /** The walk holds exactly what the attributes say. */
  ghost predicate Says(w: Walk, attrs: seq<Attr>) {
    && w.kind == KindOf(attrs) && RestSays(w, attrs)
    && HttpTexts(w.http, attrs) && HttpNumbers(w.http, attrs) && BodySays(w.http, attrs)
    && GrpcTexts(w.grpc, attrs) && GrpcNumbers(w.grpc, attrs)
    && GrpcStream(w.grpc, attrs) && GrpcMessage(w.grpc, attrs)
  }

  function RestStep(w: Walk, a: Attr): Walk {
    match a.key
    case WidgetName => w.(title := AsString(a.value))
    case ServerStatusMessage => w.(status := AsString(a.value))
    case Other(_) => w.(rest := w.rest + [a])
    case _ => w
  }

  lemma HttpTextStepSays(h: HttpAttr, attrs: seq<Attr>)
    requires attrs != [] && HttpTexts(h, attrs[..|attrs| - 1])
    ensures HttpTexts(HttpStep(h, attrs[|attrs| - 1]), attrs)
  {
  }

  lemma HttpNumberStepSays(h: HttpAttr, attrs: seq<Attr>)
    requires attrs != [] && HttpNumbers(h, attrs[..|attrs| - 1])
    ensures HttpNumbers(HttpStep(h, attrs[|attrs| - 1]), attrs)
  {
  }

  lemma BodyStepSays(h: HttpAttr, attrs: seq<Attr>)
    requires attrs != [] && BodySays(h, attrs[..|attrs| - 1])
    ensures BodySays(HttpStep(h, attrs[|attrs| - 1]), attrs)
  {
  }

  lemma GrpcTextStepSays(g: GrpcAttr, attrs: seq<Attr>)
    requires attrs != [] && GrpcTexts(g, attrs[..|attrs| - 1])
    ensures GrpcTexts(GrpcStep(g, attrs[|attrs| - 1]), attrs)
  {
  }

  lemma GrpcNumberStepSays(g: GrpcAttr, attrs: seq<Attr>)
    requires attrs != [] && GrpcNumbers(g, attrs[..|attrs| - 1])
    ensures GrpcNumbers(GrpcStep(g, attrs[|attrs| - 1]), attrs)
  {
  }

  lemma GrpcStreamStepSays(g: GrpcAttr, attrs: seq<Attr>)
    requires attrs != [] && GrpcStream(g, attrs[..|attrs| - 1])
    ensures GrpcStream(GrpcStep(g, attrs[|attrs| - 1]), attrs)
  {
  }

  lemma GrpcMessageStepSays(g: GrpcAttr, attrs: seq<Attr>)
    requires attrs != [] && GrpcMessage(g, attrs[..|attrs| - 1])
    ensures GrpcMessage(GrpcStep(g, attrs[|attrs| - 1]), attrs)
  {
  }

  lemma RestStepSays(w: Walk, attrs: seq<Attr>)
    requires attrs != [] && RestSays(w, attrs[..|attrs| - 1])
    ensures RestSays(RestStep(w, attrs[|attrs| - 1]), attrs)
  {
  }

  /** The callback that the walk gives each attribute to. */
  method Visit(w: Walk, a: Attr, ghost before: seq<Attr>) returns (r: Walk)
    requires Says(w, before)
    ensures Says(r, before + [a])
  {
    ghost var attrs := before + [a];
    assert attrs[..|attrs| - 1] == before;
    RestStepSays(w, attrs);
    HttpTextStepSays(w.http, attrs);
    HttpNumberStepSays(w.http, attrs);
    BodyStepSays(w.http, attrs);
    GrpcTextStepSays(w.grpc, attrs);
    GrpcNumberStepSays(w.grpc, attrs);
    GrpcStreamStepSays(w.grpc, attrs);
    GrpcMessageStepSays(w.grpc, attrs);
    r := RestStep(w, a).(kind := w.kind | Mask(a.key), http := HttpStep(w.http, a), grpc := GrpcStep(w.grpc, a));
  }

  /** The attributes leave nothing open. */
  lemma SaysDetermines(v: Walk, w: Walk, attrs: seq<Attr>)
    requires Says(v, attrs) && Says(w, attrs)
    ensures v == w
  {
  }

  const NOTHING: Walk :=
    Walk("", 0, [], HttpAttr("", "", "", 0, 0, false, 0), GrpcAttr("", "", "", 0, 0, false, 0, 0, 0, 0), "")

  lemma NothingSays()
    ensures Says(NOTHING, [])
  {
  }

  method Classify(attrs: seq<Attr>) returns (w: Walk)
    ensures Says(w, attrs)
  {
    NothingSays();
    w := NOTHING;
    ghost var seen: seq<Attr> := [];
    for i := 0 to |attrs|
      invariant |seen| == i && seen <= attrs
      invariant Says(w, seen)
    {
      w := Visit(w, attrs[i], seen);
      seen := seen + [attrs[i]];
    }
    assert seen == attrs;
  }
}
