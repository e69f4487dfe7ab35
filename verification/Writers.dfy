/** A writer shared by several holders: opened by the first, closed with the last. */
module Writers {
  import opened Wrappers

  /** What reaches the underlying writers. */
  datatype Event = Opened | Wrote(data: string) | Closed

  /** What holders do; `fails` is what the underlying open would report if it were called. */
  datatype Op = Open(fails: bool) | Write(data: string) | Close

  datatype Shared = Shared(n: int, events: seq<Event>)

  /** Whether an Open hands out the writer. */
  predicate HandsOut(s: Shared, op: Op) {
    op.Open? && (s.n + 1 > 1 || !op.fails)
  }

  function Step(s: Shared, op: Op): Shared {
    match op
    case Open(fails) =>
      if s.n + 1 > 1 then Shared(s.n + 1, s.events)
      else if fails then s
      else Shared(s.n + 1, s.events + [Opened])
    case Write(data) => Shared(s.n, s.events + [Wrote(data)])
    case Close => Shared(s.n - 1, if s.n - 1 == 0 then s.events + [Closed] else s.events)
  }

  function Run(ops: seq<Op>): Shared {
    if ops == [] then Shared(0, []) else Step(Run(ops[..|ops| - 1]), ops[|ops| - 1])
  }

  /** Successful opens minus closes. */
  function Holders(ops: seq<Op>): int {
    if ops == [] then 0
    else
      var before, op := ops[..|ops| - 1], ops[|ops| - 1];
      Holders(before) + (if HandsOut(Run(before), op) then 1 else if op.Close? then -1 else 0)
  }

  /** Holders write and close only what they hold, and close each opening at most once. */
  ghost predicate Disciplined(ops: seq<Op>) {
    forall i | 0 <= i < |ops| && !ops[i].Open? :: Holders(ops[..i]) > 0
  }

  /**
   Whether the underlying writer is open after these events; None when an open met an open writer
   or a write or close met none.
   */
  function Underlying(events: seq<Event>): Option<bool> {
    if events == [] then Some(false)
    else
      var before := Underlying(events[..|events| - 1]);
      match events[|events| - 1]
      case Opened => if before == Some(false) then Some(true) else None
      case Wrote(_) => if before == Some(true) then before else None
      case Closed => if before == Some(true) then Some(false) else None
  }

  function Data(events: seq<Event>): string {
    if events == [] then ""
    else Data(events[..|events| - 1]) + (if events[|events| - 1].Wrote? then events[|events| - 1].data else "")
  }

  function WrittenBy(ops: seq<Op>): string {
    if ops == [] then ""
    else WrittenBy(ops[..|ops| - 1]) + (if ops[|ops| - 1].Write? then ops[|ops| - 1].data else "")
  }

  lemma Extended(events: seq<Event>, e: Event)
    ensures Underlying(events + [e]) ==
            match e
            case Opened => if Underlying(events) == Some(false) then Some(true) else None
            case Wrote(_) => if Underlying(events) == Some(true) then Some(true) else None
            case Closed => if Underlying(events) == Some(true) then Some(false) else None
    ensures Data(events + [e]) == Data(events) + (if e.Wrote? then e.data else "")
  {
    assert (events + [e])[..|events|] == events;
  }

  /**
   For every disciplined run the count is the number of holders, the underlying writer is open
   exactly while there are holders, its opens and closes alternate, no write or close meets a
   writer that is not open, and everything written gets through in order.
   */
  lemma {:induction false} RunIsSound(ops: seq<Op>)
    requires Disciplined(ops)
    ensures Run(ops).n == Holders(ops) >= 0
    ensures Underlying(Run(ops).events) == Some(Holders(ops) > 0)
    ensures Data(Run(ops).events) == WrittenBy(ops)
  {
    if ops == [] {
    } else {
      var before, op := ops[..|ops| - 1], ops[|ops| - 1];
      assert forall i | 0 <= i < |before| :: before[..i] == ops[..i];
      RunIsSound(before);
      var s := Run(before);
      Extended(s.events, Opened);
      Extended(s.events, Closed);
      if op.Write? {
        Extended(s.events, Wrote(op.data));
      }
    }
  }

  datatype Target = NoTarget | Live | Dead

  class SharedWriter {
    var n: int
    var w: Target
    ghost var events: seq<Event>

    ghost predicate Valid()
      reads this
    {
      n >= 0 && (w.Live? <==> n > 0) && Underlying(events) == Some(n > 0)
    }

    ghost function State(): Shared
      reads this
    {
      Shared(n, events)
    }

    constructor ()
      ensures Valid() && State() == Run([])
    {
      n, w, events := 0, NoTarget, [];
    }

    /** `fails` is the outcome of opening the underlying writer, should that be called. */
    method Open(fails: Option<string>) returns (err: Option<string>)
      requires Valid()
      modifies this
      ensures Valid()
      ensures State() == Step(old(State()), Op.Open(fails.Some?))
      ensures err == if HandsOut(old(State()), Op.Open(fails.Some?)) then None else fails
    {
      n := n + 1;
      if n > 1 {
        return None;
      }
      if fails.Some? {
        n := n - 1;
        return fails;
      }
      w := Live;
      Extended(events, Opened);
      events := events + [Opened];
      return None;
    }

    /** A holder writes; `written` and `reply` are what the underlying writer answers. */
    method Write(data: string, written: int, reply: Option<string>) returns (count: int, err: Option<string>)
      requires Valid() && n > 0
      modifies this
      ensures Valid() && n == old(n)
      ensures State() == Step(old(State()), Op.Write(data))
      ensures count == written && err == reply
    {
      assert w.Live?;
      Extended(events, Wrote(data));
      events := events + [Wrote(data)];
      return written, reply;
    }

    method Close(reply: Option<string>) returns (err: Option<string>)
      requires Valid() && n > 0
      modifies this
      ensures Valid()
      ensures State() == Step(old(State()), Op.Close)
      ensures err == if n == 0 then reply else None
    {
      n := n - 1;
      if n == 0 {
        w := Dead;
        Extended(events, Closed);
        events := events + [Closed];
        return reply;
      }
      return None;
    }
  }
}
