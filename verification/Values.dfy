/** Rendering of nested log values, at most five elements of each container and eight bytes of a byte string. */
module Values {
  import opened Digits
  import opened Wrappers

  type Byte = b: nat | b < 256

  /** A log value. The text of a floating-point number is taken as given. */
  datatype LogValue =
    | Empty
    | Bool(b: bool)
    | Int(n: Int64)
    | Float(text: string)
    | Str(s: string)
    | Bytes(bytes: seq<Byte>)
    | Slice(vs: seq<LogValue>)
    | Map(kvs: seq<KeyValue>)

  datatype KeyValue = KeyValue(key: string, value: LogValue)

  /** One thing written: brackets are square or, for maps, curly; a key comes with its colon. */
  datatype Token =
    | Open(curly: bool)
    | Close(curly: bool)
    | Text(s: string)
    | Comma
    | Key(key: string)
    | Elided(count: nat)

  const MAX_BYTES: nat := 8
  const MAX_ELEMENTS: nat := 5

  function Shown<T>(s: seq<T>): (r: seq<T>)
    ensures |r| <= |s| && |r| <= MAX_ELEMENTS && (|r| < |s| ==> |r| == MAX_ELEMENTS)
    ensures r == s[..|r|]
  {
    if |s| > MAX_ELEMENTS then s[..MAX_ELEMENTS] else s
  }

  function Hidden<T>(s: seq<T>): nat {
    if |s| > MAX_ELEMENTS then |s| - MAX_ELEMENTS else 0
  }

  function HexDigit(d: nat): char
    requires d < 16
  {
    "0123456789abcdef"[d]
  }

  function HexText(bs: seq<Byte>): string {
    if bs == [] then ""
    else
      HexText(bs[..|bs| - 1]) + (if |bs| > 1 then "." else "")
      + [HexDigit(bs[|bs| - 1] / 16), HexDigit(bs[|bs| - 1] % 16)]
  }

  function BytesText(bs: seq<Byte>): string {
    if |bs| > MAX_BYTES then HexText(bs[..MAX_BYTES]) + "..(+" + Decimal(|bs| - MAX_BYTES) + ")" else HexText(bs)
  }

  // Reading the text of a byte string back.

  function HexValue(c: char): int {
    if '0' <= c <= '9' then c as int - '0' as int else if 'a' <= c <= 'f' then c as int - 'a' as int + 10 else -1
  }

  /** Two hexadecimal digits of a byte, the higher one first. */
  predicate ByteAt(s: string, k: nat, b: Byte) {
    && k + 1 < |s| && HexValue(s[k]) >= 0 && HexValue(s[k + 1]) >= 0
    && 16 * HexValue(s[k]) + HexValue(s[k + 1]) == b
  }

  /** The bytes in order, two digits each, with dots between them, and nothing else. */
  ghost predicate ReadsAsHex(s: string, bs: seq<Byte>) {
    && |s| == (if bs == [] then 0 else 3 * |bs| - 1)
    && forall i | 0 <= i < |bs| :: ByteAt(s, 3 * i, bs[i]) && (i + 1 < |bs| ==> s[3 * i + 2] == '.')
  }

  /** At most eight bytes, and behind them how many more there are. */
  ghost predicate ReadsAsBytes(s: string, bs: seq<Byte>) {
    if |bs| <= 8 then ReadsAsHex(s, bs)
    else
      && |s| >= 28 && ReadsAsHex(s[..23], bs[..8])
      && s[23..27] == "..(+" && s[|s| - 1] == ')'
      && IsNumeral(s[27..|s| - 1]) && Value(s[27..|s| - 1]) == |bs| - 8
  }

  lemma HexDigitReads(d: nat)
    requires d < 16
    ensures HexValue(HexDigit(d)) == d
  {
  }

  lemma ByteAtStays(s: string, more: string, k: nat, b: Byte)
    requires ByteAt(s, k, b)
    ensures ByteAt(s + more, k, b)
  {
  }

  lemma ReadsOneMore(s: string, bs: seq<Byte>, dot: string, b: Byte)
    requires ReadsAsHex(s, bs) && dot == if bs == [] then "" else "."
    ensures ReadsAsHex(s + dot + [HexDigit(b / 16), HexDigit(b % 16)], bs + [b])
  {
    var digits := [HexDigit(b / 16), HexDigit(b % 16)];
    var all, n := s + dot + digits, |bs|;
    HexDigitReads(b / 16);
    HexDigitReads(b % 16);
    Regroup(s, dot, digits);
    forall i | 0 <= i < n + 1
      ensures ByteAt(all, 3 * i, (bs + [b])[i]) && (i < n ==> all[3 * i + 2] == '.')
    {
      if i < n {
        assert ByteAt(s, 3 * i, bs[i]);
        ByteAtStays(s, dot + digits, 3 * i, bs[i]);
      } else {
        assert all[3 * n..] == digits;
        assert all[3 * n] == digits[0] && all[3 * n + 1] == digits[1];
      }
    }
  }

  lemma {:induction false} HexReads(bs: seq<Byte>)
    ensures ReadsAsHex(HexText(bs), bs)
  {
    if bs == [] {
    } else {
      var n := |bs| - 1;
      HexReads(bs[..n]);
      ReadsOneMore(HexText(bs[..n]), bs[..n], if |bs| > 1 then "." else "", bs[n]);
      assert bs == bs[..n] + [bs[n]];
    }
  }

  lemma TailReads(hex: string, num: string)
    requires |hex| == 23
    ensures var s := hex + "..(+" + num + ")";
            && |s| == 28 + |num| && s[..23] == hex && s[23..27] == "..(+"
            && s[27..|s| - 1] == num && s[|s| - 1] == ')'
  {
  }

  /** The text of a byte string tells its first eight bytes and how many follow. */
  lemma BytesReadBack(bs: seq<Byte>)
    ensures ReadsAsBytes(BytesText(bs), bs)
  {
    if |bs| <= MAX_BYTES {
      HexReads(bs);
    } else {
      HexReads(bs[..MAX_BYTES]);
      DecimalReadsBack(|bs| - MAX_BYTES);
      TailReads(HexText(bs[..MAX_BYTES]), Decimal(|bs| - MAX_BYTES));
    }
  }

  /** The text of a value that is not a container. */
  function LeafText(v: LogValue): string
    requires !v.Slice? && !v.Map?
  {
    match v
    case Empty => ""
    case Bool(b) => if b then "true" else "false"
    case Int(n) => DecimalInt(n)
    case Float(text) => text
    case Str(s) => s
    case Bytes(bs) => BytesText(bs)
  }

  function TextTokens(s: string): seq<Token> {
    if s == "" then [] else [Text(s)]
  }

  function ElidedTokens(k: nat): seq<Token> {
    if k == 0 then [] else [Elided(k)]
  }

  function Separator(first: bool): seq<Token> {
    if first then [] else [Comma]
  }

  /** Everything written for a value. */
  function Tokens(v: LogValue): seq<Token>
    decreases v, 1
  {
    match v
    case Slice(vs) => [Open(false)] + ItemTokens(Shown(vs), true) + ElidedTokens(Hidden(vs)) + [Close(false)]
    case Map(kvs) => [Open(true)] + EntryTokens(Shown(kvs), true) + ElidedTokens(Hidden(kvs)) + [Close(true)]
    case _ => TextTokens(LeafText(v))
  }

  function ItemTokens(vs: seq<LogValue>, first: bool): seq<Token>
    decreases vs, 0
  {
    if vs == [] then []
    else Separator(first) + Tokens(vs[0]) + ItemTokens(vs[1..], false)
  }

  function EntryTokens(kvs: seq<KeyValue>, first: bool): seq<Token>
    decreases kvs, 0
  {
    if kvs == [] then []
    else Separator(first) + [Key(kvs[0].key)] + Tokens(kvs[0].value) + EntryTokens(kvs[1..], false)
  }

  // ----- what a rendering shows

  /** What is left of a value when it is rendered. */
  datatype Shape =
    | Leaf(s: string)
    | List(items: seq<Shape>, hidden: nat)
    | Dict(entries: seq<Entry>, hidden: nat)

  datatype Entry = Entry(key: string, shape: Shape)

  const BLANK: Shape := Leaf("")

  /** A slice holding nothing but a blank value shows as an empty one. */
  function Visible(items: seq<Shape>): seq<Shape> {
    if items == [BLANK] then [] else items
  }

  function ShapeOf(v: LogValue): Shape
    decreases v, 1
  {
    match v
    case Slice(vs) => List(Visible(ShapesOf(Shown(vs))), Hidden(vs))
    case Map(kvs) => Dict(EntriesOf(Shown(kvs)), Hidden(kvs))
    case _ => Leaf(LeafText(v))
  }

  function ShapesOf(vs: seq<LogValue>): (r: seq<Shape>)
    ensures |r| == |vs|
    decreases vs, 0
  {
    if vs == [] then [] else [ShapeOf(vs[0])] + ShapesOf(vs[1..])
  }

  function EntriesOf(kvs: seq<KeyValue>): (r: seq<Entry>)
    ensures |r| == |kvs|
    decreases kvs, 0
  {
    if kvs == [] then [] else [Entry(kvs[0].key, ShapeOf(kvs[0].value))] + EntriesOf(kvs[1..])
  }

  // The tokens of a shape, in front of the tokens that follow it.

  function Before(sh: Shape, rest: seq<Token>): seq<Token>
    decreases sh, 1
  {
    match sh
    case Leaf(s) => if s == "" then rest else [Text(s)] + rest
    case List(items, hidden) => [Open(false)] + ItemsBefore(items, true, EndBefore(hidden, false, rest))
    case Dict(entries, hidden) => [Open(true)] + EntriesBefore(entries, true, EndBefore(hidden, true, rest))
  }

  function EndBefore(hidden: nat, curly: bool, rest: seq<Token>): seq<Token> {
    if hidden == 0 then [Close(curly)] + rest else [Elided(hidden)] + ([Close(curly)] + rest)
  }

  function CommaBefore(first: bool, rest: seq<Token>): seq<Token> {
    if first then rest else [Comma] + rest
  }

  function ItemsBefore(items: seq<Shape>, first: bool, end: seq<Token>): seq<Token>
    decreases items, 0
  {
    if items == [] then end
    else CommaBefore(first, Before(items[0], ItemsBefore(items[1..], false, end)))
  }

  function EntriesBefore(entries: seq<Entry>, first: bool, end: seq<Token>): seq<Token>
    decreases entries, 0
  {
    if entries == [] then end
    else
      CommaBefore(first,
        [Key(entries[0].key)] + Before(entries[0].shape, EntriesBefore(entries[1..], false, end)))
  }

  lemma EndIsBefore(hidden: nat, curly: bool, rest: seq<Token>)
    ensures ElidedTokens(hidden) + ([Close(curly)] + rest) == EndBefore(hidden, curly, rest)
  {
  }

  lemma BracketsAround(curly: bool, inner: seq<Token>, hidden: nat, rest: seq<Token>)
    ensures [Open(curly)] + inner + ElidedTokens(hidden) + [Close(curly)] + rest
         == [Open(curly)] + (inner + EndBefore(hidden, curly, rest))
  {
    var open, elided, close := [Open(curly)], ElidedTokens(hidden), [Close(curly)];
    EndIsBefore(hidden, curly, rest);
    Regroup(open + inner + elided, close, rest);
    Regroup(open + inner, elided, close + rest);
    Regroup(open, inner, elided + (close + rest));
  }

  /** A rendering depends on the shape of the value only. */
  lemma {:induction false} RendersShape(v: LogValue, rest: seq<Token>)
    ensures Tokens(v) + rest == Before(ShapeOf(v), rest)
    decreases v, 1
  {
    match v
    case Slice(vs) =>
      var end := EndBefore(Hidden(vs), false, rest);
      RendersItems(Shown(vs), true, end);
      BracketsAround(false, ItemTokens(Shown(vs), true), Hidden(vs), rest);
      assert ItemsBefore([BLANK], true, end) == end;
    case Map(kvs) =>
      RendersEntries(Shown(kvs), true, EndBefore(Hidden(kvs), true, rest));
      BracketsAround(true, EntryTokens(Shown(kvs), true), Hidden(kvs), rest);
    case _ =>
  }

  lemma {:induction false} RendersItems(vs: seq<LogValue>, first: bool, end: seq<Token>)
    ensures ItemTokens(vs, first) + end == ItemsBefore(ShapesOf(vs), first, end)
    decreases vs, 0
  {
    if vs == [] {
    } else {
      var item, items := Tokens(vs[0]), ItemTokens(vs[1..], false);
      RendersItems(vs[1..], false, end);
      RendersShape(vs[0], items + end);
      Regroup(Separator(first) + item, items, end);
      Regroup(Separator(first), item, items + end);
      assert ShapesOf(vs)[1..] == ShapesOf(vs[1..]);
    }
  }

  lemma {:induction false} RendersEntries(kvs: seq<KeyValue>, first: bool, end: seq<Token>)
    ensures EntryTokens(kvs, first) + end == EntriesBefore(EntriesOf(kvs), first, end)
    decreases kvs, 0
  {
    if kvs == [] {
    } else {
      var key := [Key(kvs[0].key)];
      var item, items := Tokens(kvs[0].value), EntryTokens(kvs[1..], false);
      RendersEntries(kvs[1..], false, end);
      RendersShape(kvs[0].value, items + end);
      Regroup(Separator(first) + key + item, items, end);
      Regroup(Separator(first) + key, item, items + end);
      Regroup(Separator(first), key, item + (items + end));
      assert EntriesOf(kvs)[1..] == EntriesOf(kvs[1..]);
    }
  }

  // ----- reading a rendering back

  /** Reads one value off the front of the tokens. */
  function Read(ts: seq<Token>): (r: (Shape, seq<Token>))
    ensures |r.1| <= |ts|
    decreases |ts|, 0
  {
    if ts == [] then (BLANK, ts)
    else
      match ts[0]
      case Text(s) => (Leaf(s), ts[1..])
      case Open(curly) =>
        if curly then
          var (entries, hidden, rest) := ReadEntries(ts[1..], true);
          (Dict(entries, hidden), rest)
        else
          var (items, hidden, rest) := ReadItems(ts[1..], true);
          (List(items, hidden), rest)
      case _ => (BLANK, ts)
  }

  /** Reads the rest of a container after its opening bracket or, later, after an element. */
  function ReadItems(ts: seq<Token>, first: bool): (r: (seq<Shape>, nat, seq<Token>))
    ensures |r.2| <= |ts|
    decreases |ts|, if first then 2 else 1
  {
    if ts == [] then ([], 0, [])
    else if ts[0].Close? then ([], 0, ts[1..])
    else if ts[0].Elided? then ([], ts[0].count, if |ts| > 1 then ts[2..] else [])
    else if !first && !ts[0].Comma? then ([], 0, ts)
    else
      var (item, rest) := Read(if first then ts else ts[1..]);
      var (items, hidden, after) := ReadItems(rest, false);
      ([item] + items, hidden, after)
  }

  function ReadEntries(ts: seq<Token>, first: bool): (r: (seq<Entry>, nat, seq<Token>))
    ensures |r.2| <= |ts|
    decreases |ts|, 1
  {
    if ts == [] then ([], 0, [])
    else if ts[0].Close? then ([], 0, ts[1..])
    else if ts[0].Elided? then ([], ts[0].count, if |ts| > 1 then ts[2..] else [])
    else
      var body := if first then ts else ts[1..];
      if body == [] || !body[0].Key? then ([], 0, [])
      else
        var (shape, rest) := Read(body[1..]);
        var (entries, hidden, after) := ReadEntries(rest, false);
        ([Entry(body[0].key, shape)] + entries, hidden, after)
  }

  /** No slice in the shape holds just a blank. */
  predicate Proper(sh: Shape)
    decreases sh
  {
    match sh
    case Leaf(_) => true
    case List(items, _) => items != [BLANK] && forall i | 0 <= i < |items| :: Proper(items[i])
    case Dict(entries, _) => forall i | 0 <= i < |entries| :: Proper(entries[i].shape)
  }

  /** Tokens that cannot be taken for part of a value before them. */
  predicate Stops(ts: seq<Token>) {
    ts == [] || (!ts[0].Text? && !ts[0].Open?)
  }

  lemma {:induction false} ReadsShape(sh: Shape, rest: seq<Token>)
    requires Proper(sh) && Stops(rest)
    ensures Read(Before(sh, rest)) == (sh, rest)
    decreases sh, 1
  {
    match sh
    case Leaf(s) =>
    case List(items, hidden) => ReadsItems(items, true, hidden, false, rest);
    case Dict(entries, hidden) => ReadsEntries(entries, true, hidden, true, rest);
  }

  lemma ReadsEnd(first: bool, hidden: nat, curly: bool, rest: seq<Token>)
    ensures ReadItems(EndBefore(hidden, curly, rest), first) == ([], hidden, rest)
    ensures ReadEntries(EndBefore(hidden, curly, rest), first) == ([], hidden, rest)
  {
    assert hidden > 0 ==> EndBefore(hidden, curly, rest)[2..] == rest;
  }

  lemma {:induction false} ReadsItems(items: seq<Shape>, first: bool, hidden: nat, curly: bool, rest: seq<Token>)
    requires first ==> items != [BLANK]
    requires forall i | 0 <= i < |items| :: Proper(items[i])
    ensures ReadItems(ItemsBefore(items, first, EndBefore(hidden, curly, rest)), first) == (items, hidden, rest)
    decreases items, 0
  {
    var end := EndBefore(hidden, curly, rest);
    if items != [] {
      var more := ItemsBefore(items[1..], false, end);
      ReadsShape(items[0], more);
      ReadsItems(items[1..], false, hidden, curly, rest);
      assert items == [items[0]] + items[1..];
    } else {
      ReadsEnd(first, hidden, curly, rest);
    }
  }

  /** Reading one entry and then the rest, which begins at `more`. */
  lemma ReadsHead(e: Entry, more: seq<Token>, first: bool)
    requires Read(Before(e.shape, more)) == (e.shape, more)
    ensures ReadEntries(CommaBefore(first, [Key(e.key)] + Before(e.shape, more)), first) ==
            var (entries, hidden, after) := ReadEntries(more, false);
            ([e] + entries, hidden, after)
  {
    var ts := Before(e.shape, more);
    var body := [Key(e.key)] + ts;
    assert body[1..] == ts && ([Comma] + body)[1..] == body;
  }

  lemma {:induction false} ReadsEntries(entries: seq<Entry>, first: bool, hidden: nat, curly: bool, rest: seq<Token>)
    requires forall i | 0 <= i < |entries| :: Proper(entries[i].shape)
    ensures ReadEntries(EntriesBefore(entries, first, EndBefore(hidden, curly, rest)), first) == (entries, hidden, rest)
    decreases entries, 0
  {
    if entries == [] {
      ReadsEnd(first, hidden, curly, rest);
    } else {
      var more := EntriesBefore(entries[1..], false, EndBefore(hidden, curly, rest));
      ReadsShape(entries[0].shape, more);
      ReadsEntries(entries[1..], false, hidden, curly, rest);
      ReadsHead(entries[0], more, first);
      assert entries == [entries[0]] + entries[1..];
    }
  }

  lemma {:induction false} ShapesAreProper(v: LogValue)
    ensures Proper(ShapeOf(v))
    decreases v
  {
    match v
    case Slice(vs) =>
      assert forall w <- Shown(vs) :: w in vs;
      ItemShapesAreProper(Shown(vs));
    case Map(kvs) => EntryShapesAreProper(Shown(kvs));
    case _ =>
  }

  lemma {:induction false} ItemShapesAreProper(vs: seq<LogValue>)
    ensures forall sh <- ShapesOf(vs) :: Proper(sh)
    decreases vs
  {
    if vs == [] {
    } else {
      ShapesAreProper(vs[0]);
      ItemShapesAreProper(vs[1..]);
    }
  }

  lemma {:induction false} EntryShapesAreProper(kvs: seq<KeyValue>)
    ensures forall e <- EntriesOf(kvs) :: Proper(e.shape)
    decreases kvs
  {
    if kvs == [] {
    } else {
      ShapesAreProper(kvs[0].value);
      EntryShapesAreProper(kvs[1..]);
    }
  }

  /** Reading a rendering back gives the shape of the value and leaves what follows. */
  lemma RenderingReadsBack(v: LogValue, rest: seq<Token>)
    requires Stops(rest)
    ensures Read(Tokens(v) + rest) == (ShapeOf(v), rest)
  {
    ShapesAreProper(v);
    RendersShape(v, rest);
    ReadsShape(ShapeOf(v), rest);
  }

  /**
   Two values render alike exactly when they have the same shape: what gets lost is the elements
   beyond the fifth, the bytes beyond the eighth, the kind of a text, and a lone blank in a slice.
   */
  lemma RenderAlikeIffSameShape(v: LogValue, w: LogValue)
    ensures Tokens(v) == Tokens(w) <==> ShapeOf(v) == ShapeOf(w)
  {
    RenderingReadsBack(v, []);
    RenderingReadsBack(w, []);
    RendersShape(v, []);
    RendersShape(w, []);
    assert Tokens(v) + [] == Tokens(v) && Tokens(w) + [] == Tokens(w);
  }

  /**
   What a shape says about a value holds at every depth: shown and hidden elements make up each
   container, shown ones are the first in order, and keys are those of the map. A lone blank in a
   slice may be missing.
   */
  ghost predicate Accounts(sh: Shape, v: LogValue)
    decreases sh
  {
    match sh
    case Leaf(s) => !v.Slice? && !v.Map? && s == LeafText(v)
    case List(items, hidden) =>
      && v.Slice?
      && if items == [] && |v.vs| == 1 then hidden == 0 && ShapeOf(v.vs[0]) == BLANK
         else |items| + hidden == |v.vs| && forall i | 0 <= i < |items| :: Accounts(items[i], v.vs[i])
    case Dict(entries, hidden) =>
      && v.Map? && |entries| + hidden == |v.kvs|
      && forall i | 0 <= i < |entries| :: entries[i].key == v.kvs[i].key && Accounts(entries[i].shape, v.kvs[i].value)
  }

  lemma {:induction false} ShapeAccounts(v: LogValue)
    ensures Accounts(ShapeOf(v), v)
    decreases v, 1
  {
    match v
    case Slice(vs) =>
      ItemsAccount(Shown(vs));
      assert |vs| == 1 ==> Shown(vs) == vs && ShapesOf(vs)[0] == ShapeOf(vs[0]);
    case Map(kvs) => EntriesAccount(Shown(kvs));
    case _ =>
  }

  lemma {:induction false} ItemsAccount(vs: seq<LogValue>)
    ensures forall i | 0 <= i < |vs| :: Accounts(ShapesOf(vs)[i], vs[i])
    decreases vs, 0
  {
    if vs == [] {
    } else {
      ShapeAccounts(vs[0]);
      ItemsAccount(vs[1..]);
      assert forall i | 0 < i < |vs| :: ShapesOf(vs)[i] == ShapesOf(vs[1..])[i - 1] && vs[i] == vs[1..][i - 1];
    }
  }

  lemma {:induction false} EntriesAccount(kvs: seq<KeyValue>)
    ensures forall i | 0 <= i < |kvs| ::
              EntriesOf(kvs)[i].key == kvs[i].key && Accounts(EntriesOf(kvs)[i].shape, kvs[i].value)
    decreases kvs, 0
  {
    if kvs == [] {
    } else {
      ShapeAccounts(kvs[0].value);
      EntriesAccount(kvs[1..]);
      assert forall i | 0 < i < |kvs| :: EntriesOf(kvs)[i] == EntriesOf(kvs[1..])[i - 1] && kvs[i] == kvs[1..][i - 1];
    }
  }

  /** A rendering tells how many elements each container in it has, at every depth. */
  lemma RenderingTellsSizes(v: LogValue)
    ensures Accounts(Read(Tokens(v)).0, v)
  {
    RenderingReadsBack(v, []);
    assert Tokens(v) + [] == Tokens(v);
    ShapeAccounts(v);
  }

  /** A slice holding one blank value shows as an empty one. */
  lemma LoneBlankDisappears()
    ensures Tokens(Slice([Empty])) == Tokens(Slice([]))
  {
    assert Shown([Empty]) == [Empty] && [Empty][1..] == [];
    assert ItemTokens([Empty], true) == ItemTokens([], true);
  }

  // ----- brackets

  /** The brackets still open after the tokens, innermost last; None when one closes that was not open. */
  function OpenAfter(ts: seq<Token>, open: seq<bool>): Option<seq<bool>>
    decreases |ts|
  {
    if ts == [] then Some(open)
    else
      match ts[0]
      case Open(curly) => OpenAfter(ts[1..], open + [curly])
      case Close(curly) =>
        if open != [] && open[|open| - 1] == curly then OpenAfter(ts[1..], open[..|open| - 1]) else None
      case _ => OpenAfter(ts[1..], open)
  }

  lemma EndCloses(hidden: nat, curly: bool, rest: seq<Token>, open: seq<bool>)
    ensures OpenAfter(EndBefore(hidden, curly, rest), open + [curly]) == OpenAfter(rest, open)
  {
    assert (open + [curly])[..|open|] == open;
    assert ([Close(curly)] + rest)[1..] == rest;
    assert hidden > 0 ==> EndBefore(hidden, curly, rest)[1..] == [Close(curly)] + rest;
  }

  lemma {:induction false} ShapeBalanced(sh: Shape, rest: seq<Token>, open: seq<bool>)
    ensures OpenAfter(Before(sh, rest), open) == OpenAfter(rest, open)
    decreases sh, 1
  {
    match sh
    case Leaf(s) =>
    case List(items, hidden) =>
      ItemsBalanced(items, true, EndBefore(hidden, false, rest), open + [false]);
      EndCloses(hidden, false, rest, open);
    case Dict(entries, hidden) =>
      EntriesBalanced(entries, true, EndBefore(hidden, true, rest), open + [true]);
      EndCloses(hidden, true, rest, open);
  }

  lemma {:induction false} ItemsBalanced(items: seq<Shape>, first: bool, end: seq<Token>, open: seq<bool>)
    ensures OpenAfter(ItemsBefore(items, first, end), open) == OpenAfter(end, open)
    decreases items, 0
  {
    if items == [] {
    } else {
      ItemsBalanced(items[1..], false, end, open);
      ShapeBalanced(items[0], ItemsBefore(items[1..], false, end), open);
    }
  }

  lemma {:induction false} EntriesBalanced(entries: seq<Entry>, first: bool, end: seq<Token>, open: seq<bool>)
    ensures OpenAfter(EntriesBefore(entries, first, end), open) == OpenAfter(end, open)
    decreases entries, 0
  {
    if entries == [] {
    } else {
      var more := EntriesBefore(entries[1..], false, end);
      EntriesBalanced(entries[1..], false, end, open);
      ShapeBalanced(entries[0].shape, more, open);
    }
  }

  /** Brackets nest: within a rendering none closes that it did not open, and at its end none is left open. */
  lemma RenderingBalanced(v: LogValue, rest: seq<Token>, open: seq<bool>)
    ensures OpenAfter(Tokens(v) + rest, open) == OpenAfter(rest, open)
  {
    RendersShape(v, rest);
    ShapeBalanced(ShapeOf(v), rest, open);
  }

  // ----- size

  function Max(a: nat, b: nat): nat { if a < b then b else a }

  /** How deep containers nest in the rendered part of a value. */
  function Height(v: LogValue): nat
    decreases v, 1
  {
    match v
    case Slice(vs) => 1 + ItemsHeight(Shown(vs))
    case Map(kvs) => 1 + EntriesHeight(Shown(kvs))
    case _ => 0
  }

  function ItemsHeight(vs: seq<LogValue>): nat
    decreases vs, 0
  {
    if vs == [] then 0 else Max(Height(vs[0]), ItemsHeight(vs[1..]))
  }

  function EntriesHeight(kvs: seq<KeyValue>): nat
    decreases kvs, 0
  {
    if kvs == [] then 0 else Max(Height(kvs[0].value), EntriesHeight(kvs[1..]))
  }

  /** How many values that are not containers get rendered. */
  function Leaves(v: LogValue): nat
    decreases v, 1
  {
    match v
    case Slice(vs) => ItemsLeaves(Shown(vs))
    case Map(kvs) => EntriesLeaves(Shown(kvs))
    case _ => 1
  }

  function ItemsLeaves(vs: seq<LogValue>): nat
    decreases vs, 0
  {
    if vs == [] then 0 else Leaves(vs[0]) + ItemsLeaves(vs[1..])
  }

  function EntriesLeaves(kvs: seq<KeyValue>): nat
    decreases kvs, 0
  {
    if kvs == [] then 0 else Leaves(kvs[0].value) + EntriesLeaves(kvs[1..])
  }

  function Pow5(h: nat): (p: nat)
    ensures p > 0
  {
    if h == 0 then 1 else 5 * Pow5(h - 1)
  }

  /** However large a value is, at most 5^height leaves get rendered. */
  lemma {:induction false} LeavesBounded(v: LogValue, h: nat)
    requires Height(v) <= h
    ensures Leaves(v) <= Pow5(h)
    decreases v, 1
  {
    match v
    case Slice(vs) =>
      ItemsLeavesBounded(Shown(vs), h - 1);
    case Map(kvs) =>
      EntriesLeavesBounded(Shown(kvs), h - 1);
    case _ =>
  }

  lemma {:induction false} ItemsLeavesBounded(vs: seq<LogValue>, h: nat)
    requires ItemsHeight(vs) <= h && |vs| <= MAX_ELEMENTS
    ensures ItemsLeaves(vs) <= |vs| * Pow5(h) <= 5 * Pow5(h)
    decreases vs, 0
  {
    if vs == [] {
    } else {
      LeavesBounded(vs[0], h);
      ItemsLeavesBounded(vs[1..], h);
    }
  }

  lemma {:induction false} EntriesLeavesBounded(kvs: seq<KeyValue>, h: nat)
    requires EntriesHeight(kvs) <= h && |kvs| <= MAX_ELEMENTS
    ensures EntriesLeaves(kvs) <= |kvs| * Pow5(h) <= 5 * Pow5(h)
    decreases kvs, 0
  {
    if kvs == [] {
    } else {
      LeavesBounded(kvs[0].value, h);
      EntriesLeavesBounded(kvs[1..], h);
    }
  }

  function Texts(ts: seq<Token>): nat {
    if ts == [] then 0 else (if ts[0].Text? then 1 else 0) + Texts(ts[1..])
  }

  lemma {:induction false} TextsAdd(a: seq<Token>, b: seq<Token>)
    ensures Texts(a + b) == Texts(a) + Texts(b)
  {
    if a == [] {
      assert a + b == b;
    } else {
      TextsAdd(a[1..], b);
      assert (a + b)[1..] == a[1..] + b;
    }
  }

  lemma {:induction false} TextsAreLeaves(v: LogValue)
    ensures Texts(Tokens(v)) <= Leaves(v)
    decreases v, 1
  {
    match v
    case Slice(vs) =>
      ItemTextsAreLeaves(Shown(vs), true);
      TextsInBrackets(false, ItemTokens(Shown(vs), true), Hidden(vs));
    case Map(kvs) =>
      EntryTextsAreLeaves(Shown(kvs), true);
      TextsInBrackets(true, EntryTokens(Shown(kvs), true), Hidden(kvs));
    case _ =>
  }

  lemma TextsInBrackets(curly: bool, inner: seq<Token>, hidden: nat)
    ensures Texts([Open(curly)] + inner + ElidedTokens(hidden) + [Close(curly)]) == Texts(inner)
  {
    TextsAdd([Open(curly)] + inner + ElidedTokens(hidden), [Close(curly)]);
    TextsAdd([Open(curly)] + inner, ElidedTokens(hidden));
    TextsAdd([Open(curly)], inner);
  }

  lemma {:induction false} ItemTextsAreLeaves(vs: seq<LogValue>, first: bool)
    ensures Texts(ItemTokens(vs, first)) <= ItemsLeaves(vs)
    decreases vs, 0
  {
    if vs == [] {
    } else {
      TextsAreLeaves(vs[0]);
      ItemTextsAreLeaves(vs[1..], false);
      TextsAdd(Separator(first) + Tokens(vs[0]), ItemTokens(vs[1..], false));
      TextsAdd(Separator(first), Tokens(vs[0]));
    }
  }

  lemma {:induction false} EntryTextsAreLeaves(kvs: seq<KeyValue>, first: bool)
    ensures Texts(EntryTokens(kvs, first)) <= EntriesLeaves(kvs)
    decreases kvs, 0
  {
    if kvs == [] {
    } else {
      var key, item := [Key(kvs[0].key)], Tokens(kvs[0].value);
      TextsAreLeaves(kvs[0].value);
      EntryTextsAreLeaves(kvs[1..], false);
      TextsAdd(Separator(first) + key + item, EntryTokens(kvs[1..], false));
      TextsAdd(Separator(first) + key, item);
      TextsAdd(Separator(first), key);
    }
  }

  /** The texts in a rendering are bounded by the nesting alone. */
  lemma TextsBounded(v: LogValue)
    ensures Texts(Tokens(v)) <= Leaves(v) <= Pow5(Height(v))
  {
    TextsAreLeaves(v);
    LeavesBounded(v, Height(v));
  }

  /** The characters of a rendering. */
  function Flatten(ts: seq<Token>): string {
    if ts == [] then "" else Flatten(ts[..|ts| - 1]) + TokenText(ts[|ts| - 1])
  }

  function TokenText(t: Token): string {
    match t
    case Open(curly) => if curly then "{" else "["
    case Close(curly) => if curly then "}" else "]"
    case Text(s) => s
    case Comma => ", "
    case Key(key) => key + ":"
    case Elided(count) => ", ...(+" + Decimal(count) + ")"
  }

  lemma FlattenNext(ts: seq<Token>, t: Token)
    ensures Flatten(ts + [t]) == Flatten(ts) + TokenText(t)
  {
    assert (ts + [t])[..|ts|] == ts;
  }

  lemma {:induction false} FlattenAdds(a: seq<Token>, b: seq<Token>)
    ensures Flatten(a + b) == Flatten(a) + Flatten(b)
    decreases |b|
  {
    if b == [] {
      assert a + b == a;
    } else {
      var n := |b| - 1;
      var before, t := b[..n], b[n];
      FlattenAdds(a, before);
      assert b == before + [t];
      Regroup(a, before, [t]);
      FlattenNext(a + before, t);
      FlattenNext(before, t);
      Regroup(Flatten(a), Flatten(before), TokenText(t));
    }
  }

  lemma FlattenThree(a: seq<Token>, b: seq<Token>, c: seq<Token>)
    ensures Flatten(a + b + c) == Flatten(a) + Flatten(b) + Flatten(c)
  {
    FlattenAdds(a + b, c);
    FlattenAdds(a, b);
  }

  // What shows of a value, character by character.

  function Show(v: LogValue): string
    decreases v, 0
  {
    match v
    case Empty => ""
    case Bool(b) => if b then "true" else "false"
    case Int(n) => DecimalInt(n)
    case Float(text) => text
    case Str(s) => s
    case Bytes(bs) => BytesText(bs)
    case Slice(vs) => "[" + ShowItems(vs, 0) + "]"
    case Map(kvs) => "{" + ShowEntries(kvs, 0) + "}"
  }

  /** From element `i` on; from the sixth on only how many there are. */
  function ShowItems(vs: seq<LogValue>, i: nat): string
    requires i <= |vs|
    decreases vs, |vs| - i
  {
    if i == |vs| then ""
    else if i == 5 then ", ...(+" + Decimal(|vs| - 5) + ")"
    else (if i == 0 then "" else ", ") + Show(vs[i]) + ShowItems(vs, i + 1)
  }

  function ShowEntries(kvs: seq<KeyValue>, i: nat): string
    requires i <= |kvs|
    decreases kvs, |kvs| - i
  {
    if i == |kvs| then ""
    else if i == 5 then ", ...(+" + Decimal(|kvs| - 5) + ")"
    else (if i == 0 then "" else ", ") + (kvs[i].key + ":") + Show(kvs[i].value) + ShowEntries(kvs, i + 1)
  }

  lemma FlattenOne(t: Token)
    ensures Flatten([t]) == TokenText(t)
  {
    assert [t][..0] == [];
  }

  lemma FlattenBrackets(curly: bool, inner: seq<Token>, hidden: nat)
    ensures Flatten([Open(curly)] + inner + ElidedTokens(hidden) + [Close(curly)])
         == TokenText(Open(curly)) + Flatten(inner + ElidedTokens(hidden)) + TokenText(Close(curly))
  {
    Regroup([Open(curly)], inner, ElidedTokens(hidden));
    FlattenAdds([Open(curly)] + (inner + ElidedTokens(hidden)), [Close(curly)]);
    FlattenAdds([Open(curly)], inner + ElidedTokens(hidden));
    FlattenOne(Open(curly));
    FlattenOne(Close(curly));
  }

  /** The tokens of a value come to the characters that show. */
  lemma {:induction false} TokensShow(v: LogValue)
    ensures Flatten(Tokens(v)) == Show(v)
    decreases v, 0
  {
    match v
    case Slice(vs) =>
      FlattenBrackets(false, ItemTokens(Shown(vs), true), Hidden(vs));
      ItemsShow(vs, 0);
      assert Shown(vs)[0..] == Shown(vs);
    case Map(kvs) =>
      FlattenBrackets(true, EntryTokens(Shown(kvs), true), Hidden(kvs));
      EntriesShow(kvs, 0);
      assert Shown(kvs)[0..] == Shown(kvs);
    case _ =>
      FlattenOne(Text(LeafText(v)));
  }

  lemma SeparatorShows(first: bool)
    ensures Flatten(Separator(first)) == if first then "" else ", "
  {
    FlattenOne(Comma);
  }

  lemma ElidedShows(hidden: nat)
    ensures Flatten(ElidedTokens(hidden)) == if hidden == 0 then "" else ", ...(+" + Decimal(hidden) + ")"
  {
    FlattenOne(Elided(hidden));
  }

  lemma ItemShows(first: bool, item: seq<Token>, more: seq<Token>, elided: seq<Token>)
    ensures Flatten(Separator(first) + item + more + elided)
         == (if first then "" else ", ") + Flatten(item) + Flatten(more + elided)
  {
    Regroup(Separator(first) + item, more, elided);
    FlattenThree(Separator(first), item, more + elided);
    SeparatorShows(first);
  }

  lemma EntryShows(first: bool, key: string, item: seq<Token>, more: seq<Token>, elided: seq<Token>)
    ensures Flatten(Separator(first) + [Key(key)] + item + more + elided)
         == (if first then "" else ", ") + (key + ":") + Flatten(item) + Flatten(more + elided)
  {
    Regroup(Separator(first) + [Key(key)] + item, more, elided);
    FlattenThree(Separator(first) + [Key(key)], item, more + elided);
    FlattenAdds(Separator(first), [Key(key)]);
    SeparatorShows(first);
    FlattenOne(Key(key));
  }

  lemma {:induction false} ItemsShow(vs: seq<LogValue>, i: nat)
    requires i <= |Shown(vs)|
    ensures Flatten(ItemTokens(Shown(vs)[i..], i == 0) + ElidedTokens(Hidden(vs))) == ShowItems(vs, i)
    decreases vs, |vs| - i
  {
    var elided := ElidedTokens(Hidden(vs));
    if i == |Shown(vs)| {
      ElidedShows(Hidden(vs));
      assert [] + elided == elided;
    } else {
      var item, more := Tokens(vs[i]), ItemTokens(Shown(vs)[i + 1..], false);
      TokensShow(vs[i]);
      ItemsShow(vs, i + 1);
      assert Shown(vs)[i..][0] == vs[i] && Shown(vs)[i..][1..] == Shown(vs)[i + 1..];
      ItemShows(i == 0, item, more, elided);
    }
  }

  lemma EntryTokensFrom(kvs: seq<KeyValue>, i: nat, first: bool)
    requires i < |kvs|
    ensures EntryTokens(kvs[i..], first)
         == Separator(first) + [Key(kvs[i].key)] + Tokens(kvs[i].value) + EntryTokens(kvs[i + 1..], false)
  {
    assert kvs[i..][0] == kvs[i] && kvs[i..][1..] == kvs[i + 1..];
  }

  lemma {:induction false} EntriesShow(kvs: seq<KeyValue>, i: nat)
    requires i <= |Shown(kvs)|
    ensures Flatten(EntryTokens(Shown(kvs)[i..], i == 0) + ElidedTokens(Hidden(kvs))) == ShowEntries(kvs, i)
    decreases kvs, |kvs| - i
  {
    var elided := ElidedTokens(Hidden(kvs));
    if i == |Shown(kvs)| {
      ElidedShows(Hidden(kvs));
      assert [] + elided == elided;
    } else {
      TokensShow(kvs[i].value);
      EntriesShow(kvs, i + 1);
      EntryTokensFrom(Shown(kvs), i, i == 0);
      EntryShows(i == 0, kvs[i].key, Tokens(kvs[i].value), EntryTokens(Shown(kvs)[i + 1..], false), elided);
    }
  }

  /** Texts are written without quotes, so tokens that differ can show as the same characters. */
  lemma CharactersAreAmbiguous()
    ensures Tokens(Str("[]")) != Tokens(Slice([]))
    ensures Flatten(Tokens(Str("[]"))) == Flatten(Tokens(Slice([])))
  {
    var ts := Tokens(Slice([]));
    assert ts == [Open(false), Close(false)];
    assert ts[..1] == [Open(false)] && ts[..1][..0] == [];
    assert Flatten(ts) == Flatten(ts[..1]) + "]" == "[" + "]";
    assert Tokens(Str("[]")) == [Text("[]")];
    assert Flatten([Text("[]")]) == Flatten([Text("[]")][..0]) + "[]";
  }

  // ----- rendering

  class Output {
    var tokens: seq<Token>

    constructor ()
      ensures tokens == []
    {
      tokens := [];
    }

    method Write(t: Token)
      modifies this
      ensures tokens == old(tokens) + [t]
    {
      tokens := tokens + [t];
    }

    method WriteText(s: string)
      modifies this
      ensures tokens == old(tokens) + TextTokens(s)
    {
      if s != "" {
        tokens := tokens + [Text(s)];
      }
    }
  }

  /** The text of a byte string, byte by byte. */
  method RenderBytes(bs: seq<Byte>) returns (s: string)
    ensures s == BytesText(bs) && ReadsAsBytes(s, bs)
  {
    BytesReadBack(bs);
    var n := |bs|;
    if n > MAX_BYTES {
      n := MAX_BYTES;
    }
    s := "";
    for i := 0 to n
      invariant s == HexText(bs[..i])
    {
      assert bs[..i + 1][..i] == bs[..i];
      if i > 0 {
        s := s + ".";
      }
      s := s + [HexDigit(bs[i] / 16), HexDigit(bs[i] % 16)];
    }
    assert n == |bs| ==> bs[..n] == bs;
    if |bs| > MAX_BYTES {
      s := s + "..(+" + Decimal(|bs| - MAX_BYTES) + ")";
    }
  }

  lemma {:induction false} ItemTokensNext(vs: seq<LogValue>, v: LogValue, first: bool)
    ensures ItemTokens(vs + [v], first) == ItemTokens(vs, first) + Separator(first && vs == []) + Tokens(v)
    decreases |vs|
  {
    var all := vs + [v];
    if vs == [] {
      assert all[1..] == [] && ItemTokens(all[1..], false) == [];
    } else {
      ItemTokensNext(vs[1..], v, false);
      assert all[1..] == vs[1..] + [v];
      Regroup(Separator(first) + Tokens(vs[0]), ItemTokens(vs[1..], false), [Comma]);
      Regroup(Separator(first) + Tokens(vs[0]), ItemTokens(vs[1..], false) + [Comma], Tokens(v));
    }
  }

  lemma {:induction false} EntryTokensNext(kvs: seq<KeyValue>, kv: KeyValue, first: bool)
    ensures EntryTokens(kvs + [kv], first)
         == EntryTokens(kvs, first) + Separator(first && kvs == []) + [Key(kv.key)] + Tokens(kv.value)
    decreases |kvs|
  {
    var all := kvs + [kv];
    var key := [Key(kv.key)];
    if kvs == [] {
      assert all[1..] == [] && EntryTokens(all[1..], false) == [];
    } else {
      var head := Separator(first) + [Key(kvs[0].key)] + Tokens(kvs[0].value);
      EntryTokensNext(kvs[1..], kv, false);
      assert all[1..] == kvs[1..] + [kv];
      Regroup(head, EntryTokens(kvs[1..], false), [Comma]);
      Regroup(head, EntryTokens(kvs[1..], false) + [Comma], key);
      Regroup(head, EntryTokens(kvs[1..], false) + [Comma] + key, Tokens(kv.value));
    }
  }

  method WriteSeparator(o: Output, first: bool)
    modifies o
    ensures o.tokens == old(o.tokens) + Separator(first)
  {
    if !first {
      o.Write(Comma);
    }
  }

  method WriteElided(o: Output, length: nat, shown: nat)
    requires shown <= length
    modifies o
    ensures o.tokens == old(o.tokens) + ElidedTokens(length - shown)
  {
    if length > shown {
      o.Write(Elided(length - shown));
    }
  }

  method Render(o: Output, v: LogValue)
    modifies o
    ensures o.tokens == old(o.tokens) + Tokens(v)
    decreases v, 1
  {
    ghost var before := o.tokens;
    match v
    case Slice(vs) =>
      ghost var items, elided := ItemTokens(Shown(vs), true), ElidedTokens(Hidden(vs));
      o.Write(Open(false));
      RenderItems(o, vs);
      o.Write(Close(false));
      RegroupFour(before, [Open(false)], items, elided, [Close(false)]);
    case Map(kvs) =>
      ghost var entries, elided := EntryTokens(Shown(kvs), true), ElidedTokens(Hidden(kvs));
      o.Write(Open(true));
      RenderEntries(o, kvs);
      o.Write(Close(true));
      RegroupFour(before, [Open(true)], entries, elided, [Close(true)]);
    case Bytes(bs) =>
      var s := RenderBytes(bs);
      o.WriteText(s);
    case _ => o.WriteText(LeafText(v));
  }

  method RenderItems(o: Output, vs: seq<LogValue>)
    modifies o
    ensures o.tokens == old(o.tokens) + ItemTokens(Shown(vs), true) + ElidedTokens(Hidden(vs))
    decreases vs, 0
  {
    ghost var before := o.tokens;
    var n := |vs|;
    if n > MAX_ELEMENTS {
      n := MAX_ELEMENTS;
    }
    for i := 0 to n
      invariant o.tokens == before + ItemTokens(vs[..i], true)
    {
      ghost var done := ItemTokens(vs[..i], true);
      WriteSeparator(o, i == 0);
      Render(o, vs[i]);
      assert vs[..i + 1] == vs[..i] + [vs[i]];
      ItemTokensNext(vs[..i], vs[i], true);
      Regroup(before, done, Separator(i == 0));
      Regroup(before, done + Separator(i == 0), Tokens(vs[i]));
    }
    assert vs[..n] == Shown(vs);
    WriteElided(o, |vs|, n);
  }

  method RenderEntries(o: Output, kvs: seq<KeyValue>)
    modifies o
    ensures o.tokens == old(o.tokens) + EntryTokens(Shown(kvs), true) + ElidedTokens(Hidden(kvs))
    decreases kvs, 0
  {
    ghost var before := o.tokens;
    var n := |kvs|;
    if n > MAX_ELEMENTS {
      n := MAX_ELEMENTS;
    }
    for i := 0 to n
      invariant o.tokens == before + EntryTokens(kvs[..i], true)
    {
      ghost var done := EntryTokens(kvs[..i], true);
      WriteSeparator(o, i == 0);
      o.Write(Key(kvs[i].key));
      Render(o, kvs[i].value);
      assert kvs[..i + 1] == kvs[..i] + [kvs[i]];
      EntryTokensNext(kvs[..i], kvs[i], true);
      Regroup(before, done, Separator(i == 0));
      Regroup(before, done + Separator(i == 0), [Key(kvs[i].key)]);
      Regroup(before, done + Separator(i == 0) + [Key(kvs[i].key)], Tokens(kvs[i].value));
    }
    assert kvs[..n] == Shown(kvs);
    WriteElided(o, |kvs|, n);
  }
}
