/** Opening several writers at once, all or nothing, where the same shared writer may be listed repeatedly. */
module Outputs {
  import opened Wrappers
  import opened Writers

  /** A file opened for one holder. */
  class File {
    const path: string
    var isOpen: bool
    ghost var closes: nat
    ghost var written: seq<string>

    constructor (path: string)
      ensures this.path == path && isOpen && closes == 0 && written == []
    {
      this.path := path;
      isOpen, closes, written := true, 0, [];
    }

    /** `reply` is what the operating system answers. */
    method Write(data: string, reply: (int, Option<string>)) returns (count: int, err: Option<string>)
      requires isOpen
      modifies this`written
      ensures written == old(written) + [data] && (count, err) == reply
    {
      written := written + [data];
      return reply.0, reply.1;
    }

    method Close(reply: Option<string>) returns (err: Option<string>)
      requires isOpen
      modifies this
      ensures !isOpen && closes == old(closes) + 1 && err == reply
    {
      isOpen := false;
      closes := closes + 1;
      return reply;
    }
  }

  /** What an open hands out. */
  datatype Handle = SharedHandle(s: SharedWriter) | FileHandle(f: File)

  /** A function that opens a writer. */
  datatype Opener = SharedOpener(s: SharedWriter) | FileOpener(path: string)

  type MultiWriter = seq<Handle>

  function Count(ws: MultiWriter, s: SharedWriter): nat {
    multiset(ws)[SharedHandle(s)]
  }

  lemma CountNext(ws: MultiWriter, i: nat)
    requires i < |ws|
    ensures multiset(ws[..i + 1]) == multiset(ws[..i]) + multiset{ws[i]}
    ensures multiset(ws[..i + 1]) <= multiset(ws)
  {
    assert ws[..i + 1] == ws[..i] + [ws[i]];
    assert ws == ws[..i + 1] + ws[i + 1..];
  }

  ghost function SharedIn(ws: MultiWriter): set<SharedWriter> {
    set h | h in ws && h.SharedHandle? :: h.s
  }

  ghost function FilesIn(ws: MultiWriter): set<File> {
    set h | h in ws && h.FileHandle? :: h.f
  }

  ghost predicate DistinctFiles(ws: MultiWriter) {
    forall i, j | 0 <= i < j < |ws| && ws[i].FileHandle? :: ws[i] != ws[j]
  }

  /** Every handle is an opening that was not closed yet. */
  ghost predicate Held(ws: MultiWriter)
    reads SharedIn(ws), FilesIn(ws)
  {
    && DistinctFiles(ws)
    && (forall s <- SharedIn(ws) :: s.Valid() && Count(ws, s) <= s.n)
    && (forall f <- FilesIn(ws) :: f.isOpen)
  }

  /** Whether closing in list order, from the state `before`, closes an underlying writer at position `i`. */
  ghost predicate ClosesAt(before: map<SharedWriter, Shared>, ws: MultiWriter, i: nat)
    requires i < |ws|
  {
    match ws[i]
    case FileHandle(_) => true
    case SharedHandle(s) => s in before && before[s].n - Count(ws[..i], s) == 1
  }

  /** The first error of a list, if any. */
  function First(errs: seq<Option<string>>): Option<string> {
    if errs == [] then None
    else
      var before := First(errs[..|errs| - 1]);
      if before.Some? then before else errs[|errs| - 1]
  }

  lemma FirstNext(errs: seq<Option<string>>, i: nat)
    requires i < |errs|
    ensures First(errs[..i + 1]) == if First(errs[..i]).Some? then First(errs[..i]) else errs[i]
  {
    assert errs[..i + 1][..i] == errs[..i];
  }

  lemma {:induction false} FirstIsFirst(errs: seq<Option<string>>)
    ensures match First(errs)
            case None => forall i | 0 <= i < |errs| :: errs[i].None?
            case Some(_) => exists i | 0 <= i < |errs| ::
                              errs[i] == First(errs) && forall j | 0 <= j < i :: errs[j].None?
  {
    if errs == [] {
    } else {
      var n := |errs| - 1;
      FirstIsFirst(errs[..n]);
      if First(errs[..n]).None? {
        assert forall j | 0 <= j < n :: errs[..n][j] == errs[j];
      } else {
        var i :| 0 <= i < n && errs[..n][i] == First(errs) && forall j | 0 <= j < i :: errs[..n][j].None?;
        assert errs[i] == First(errs) && forall j | 0 <= j < i :: errs[j] == errs[..n][j];
      }
    }
  }

  /** The error each Close in the list reports, given what the underlying writers would reply. */
  ghost function CloseErrors(before: map<SharedWriter, Shared>, ws: MultiWriter, reply: nat -> Option<string>)
    : seq<Option<string>>
  {
    seq(|ws|, i requires 0 <= i < |ws| => if ClosesAt(before, ws, i) then reply(i) else None)
  }

  ghost function Snapshot(all: set<SharedWriter>): map<SharedWriter, Shared>
    reads all
  {
    map s | s in all :: s.State()
  }

  ghost predicate ClosedTimes(s: SharedWriter, before: Shared, c: nat)
    reads s
  {
    && s.Valid() && s.n == before.n - c
    && s.events == before.events + (if s.n == 0 && c > 0 then [Closed] else [])
  }

  ghost function Closes(files: set<File>): map<File, nat>
    reads files
  {
    map f | f in files :: f.closes
  }

  ghost predicate ClosedFile(f: File, before: nat, done: bool)
    reads f
  {
    f.isOpen != done && f.closes == before + (if done then 1 else 0)
  }

  ghost predicate SharedClosed(before: map<SharedWriter, Shared>, ws: MultiWriter, i: nat)
    requires i <= |ws|
    reads before.Keys
  {
    forall s <- before.Keys :: ClosedTimes(s, before[s], Count(ws[..i], s))
  }

  ghost predicate FilesClosed(before: map<File, nat>, ws: MultiWriter, i: nat)
    requires i <= |ws|
    reads before.Keys
  {
    forall f <- before.Keys :: ClosedFile(f, before[f], FileHandle(f) in ws[..i])
  }

  method CloseShared(ghost before: map<SharedWriter, Shared>, ghost ws: MultiWriter, ghost i: nat,
                     s: SharedWriter, reply: Option<string>)
    returns (err: Option<string>)
    requires i < |ws| && ws[i] == SharedHandle(s)
    requires s in before && before[s].n >= Count(ws, s) && SharedClosed(before, ws, i)
    modifies s
    ensures SharedClosed(before, ws, i + 1)
    ensures err == if before[s].n - Count(ws[..i], s) == 1 then reply else None
  {
    CountNext(ws, i);
    assert ClosedTimes(s, before[s], Count(ws[..i], s));
    err := s.Close(reply);
    forall t <- before.Keys
      ensures ClosedTimes(t, before[t], Count(ws[..i + 1], t))
    {
      assert old(ClosedTimes(t, before[t], Count(ws[..i], t)));
    }
  }

  method CloseFile(ghost before: map<File, nat>, ghost ws: MultiWriter, ghost i: nat, f: File, reply: Option<string>)
    returns (err: Option<string>)
    requires i < |ws| && ws[i] == FileHandle(f) && DistinctFiles(ws)
    requires f in before && FilesClosed(before, ws, i)
    modifies f
    ensures FilesClosed(before, ws, i + 1)
    ensures err == reply
  {
    assert ws[..i + 1] == ws[..i] + [ws[i]];
    assert ClosedFile(f, before[f], false);
    err := f.Close(reply);
    forall g <- before.Keys
      ensures ClosedFile(g, before[g], FileHandle(g) in ws[..i + 1])
    {
      assert old(ClosedFile(g, before[g], FileHandle(g) in ws[..i]));
    }
  }

  /** The state before closing accounts for every handle of the list. */
  ghost predicate Accounts(before: map<SharedWriter, Shared>, closes: map<File, nat>, ws: MultiWriter) {
    && DistinctFiles(ws) && SharedIn(ws) <= before.Keys && FilesIn(ws) <= closes.Keys
    && forall s <- SharedIn(ws) :: before[s].n >= Count(ws, s)
  }

  /** One round of the closing loop. */
  method CloseNext(ghost before: map<SharedWriter, Shared>, ghost closes: map<File, nat>, ws: MultiWriter, i: nat,
                   reply: Option<string>)
    returns (err: Option<string>)
    requires i < |ws| && Accounts(before, closes, ws)
    requires SharedClosed(before, ws, i) && FilesClosed(closes, ws, i)
    modifies before.Keys, closes.Keys
    ensures SharedClosed(before, ws, i + 1) && FilesClosed(closes, ws, i + 1)
    ensures err == if ClosesAt(before, ws, i) then reply else None
  {
    assert ws[..i + 1] == ws[..i] + [ws[i]];
    match ws[i]
    case SharedHandle(s) =>
      assert s in SharedIn(ws);
      err := CloseShared(before, ws, i, s, reply);
    case FileHandle(f) =>
      assert f in FilesIn(ws);
      err := CloseFile(closes, ws, i, f, reply);
  }

  method CloseEach(ghost before: map<SharedWriter, Shared>, ghost closes: map<File, nat>, ws: MultiWriter,
                   reply: nat -> Option<string>)
    returns (err: Option<string>)
    requires Accounts(before, closes, ws)
    requires SharedClosed(before, ws, 0) && FilesClosed(closes, ws, 0)
    modifies before.Keys, closes.Keys
    ensures SharedClosed(before, ws, |ws|) && FilesClosed(closes, ws, |ws|)
    ensures err == First(CloseErrors(before, ws, reply))
  {
    err := None;
    ghost var errs := CloseErrors(before, ws, reply);
    for i := 0 to |ws|
      invariant SharedClosed(before, ws, i) && FilesClosed(closes, ws, i)
      invariant err == First(errs[..i])
    {
      FirstNext(errs, i);
      var e := CloseNext(before, closes, ws, i, reply(i));
      if e.Some? && err.None? {
        err := e;
      }
    }
    assert errs[..|ws|] == errs;
  }

  /** Closes every handle even when some closes fail, and reports the first failure. */
  method CloseAll(ws: MultiWriter, reply: nat -> Option<string>) returns (err: Option<string>)
    requires Held(ws)
    modifies SharedIn(ws), FilesIn(ws)
    ensures forall s <- SharedIn(ws) :: ClosedTimes(s, old(s.State()), Count(ws, s))
    ensures forall f <- FilesIn(ws) :: ClosedFile(f, old(f.closes), true)
    ensures err == First(CloseErrors(old(Snapshot(SharedIn(ws))), ws, reply))
  {
    ghost var before, closes := Snapshot(SharedIn(ws)), Closes(FilesIn(ws));
    err := CloseEach(before, closes, ws, reply);
    assert ws[..|ws|] == ws;
    assert forall s <- SharedIn(ws) :: ClosedTimes(s, before[s], Count(ws, s));
    assert forall f <- FilesIn(ws) :: ClosedFile(f, closes[f], FileHandle(f) in ws);
  }

  // ----- writing

  datatype WriteError = ShortWrite | Reported(message: string)

  function Repeated<T>(x: T, c: nat): seq<T> {
    if c == 0 then [] else Repeated(x, c - 1) + [x]
  }

  ghost predicate WrittenTimes(s: SharedWriter, before: Shared, data: string, c: nat)
    reads s
  {
    s.Valid() && s.n == before.n && s.events == before.events + Repeated(Wrote(data), c)
  }

  ghost predicate WrittenFile(f: File, before: seq<string>, data: string, done: bool)
    reads f
  {
    f.isOpen && f.written == before + (if done then [data] else [])
  }

  ghost predicate SharedWritten(before: map<SharedWriter, Shared>, data: string, ws: MultiWriter, i: nat)
    requires i <= |ws|
    reads before.Keys
  {
    forall s <- before.Keys :: WrittenTimes(s, before[s], data, Count(ws[..i], s))
  }

  ghost predicate FilesWritten(before: map<File, seq<string>>, data: string, ws: MultiWriter, i: nat)
    requires i <= |ws|
    reads before.Keys
  {
    forall f <- before.Keys :: WrittenFile(f, before[f], data, FileHandle(f) in ws[..i])
  }

  /** The state before writing knows every handle of the list, and every shared writer in it is held. */
  ghost predicate Covers(before: map<SharedWriter, Shared>, written: map<File, seq<string>>, ws: MultiWriter) {
    && DistinctFiles(ws) && SharedIn(ws) <= before.Keys && FilesIn(ws) <= written.Keys
    && forall s <- SharedIn(ws) :: before[s].n > 0
  }

  /** The first `k` writers take all of the data. */
  ghost predicate AllTake(reply: nat -> (int, Option<string>), data: string, k: nat) {
    forall i | 0 <= i < k :: reply(i) == (|data|, None)
  }

  method WriteOnce(s: SharedWriter, ghost before: Shared, ghost c: nat, data: string, reply: (int, Option<string>))
    returns (count: int, err: Option<string>)
    requires before.n > 0 && WrittenTimes(s, before, data, c)
    modifies s
    ensures WrittenTimes(s, before, data, c + 1)
    ensures (count, err) == reply
  {
    count, err := s.Write(data, reply.0, reply.1);
  }

  method WriteShared(ghost before: map<SharedWriter, Shared>, ghost ws: MultiWriter, ghost i: nat,
                     s: SharedWriter, data: string, reply: (int, Option<string>))
    returns (count: int, err: Option<string>)
    requires i < |ws| && ws[i] == SharedHandle(s)
    requires s in before && before[s].n > 0 && SharedWritten(before, data, ws, i)
    modifies s
    ensures SharedWritten(before, data, ws, i + 1)
    ensures (count, err) == reply
  {
    CountNext(ws, i);
    count, err := WriteOnce(s, before[s], Count(ws[..i], s), data, reply);
    forall t <- before.Keys
      ensures WrittenTimes(t, before[t], data, Count(ws[..i + 1], t))
    {
      if t != s {
        assert old(WrittenTimes(t, before[t], data, Count(ws[..i], t)));
        assert Count(ws[..i + 1], t) == Count(ws[..i], t);
      }
    }
  }

  method WriteFile(ghost before: map<File, seq<string>>, ghost ws: MultiWriter, ghost i: nat,
                   f: File, data: string, reply: (int, Option<string>))
    returns (count: int, err: Option<string>)
    requires i < |ws| && ws[i] == FileHandle(f) && DistinctFiles(ws)
    requires f in before && FilesWritten(before, data, ws, i)
    modifies f
    ensures FilesWritten(before, data, ws, i + 1)
    ensures (count, err) == reply
  {
    assert ws[..i + 1] == ws[..i] + [ws[i]];
    assert WrittenFile(f, before[f], data, false);
    count, err := f.Write(data, reply);
    forall g <- before.Keys
      ensures WrittenFile(g, before[g], data, FileHandle(g) in ws[..i + 1])
    {
      assert old(WrittenFile(g, before[g], data, FileHandle(g) in ws[..i]));
    }
  }

  lemma OnlyNext(ws: MultiWriter, i: nat, h: Handle)
    requires i < |ws| && h != ws[i]
    ensures h in ws[..i + 1] <==> h in ws[..i]
    ensures multiset(ws[..i + 1])[h] == multiset(ws[..i])[h]
  {
    assert ws[..i + 1] == ws[..i] + [ws[i]];
  }

  method WriteNextShared(ghost before: map<SharedWriter, Shared>, ghost written: map<File, seq<string>>,
                         ghost ws: MultiWriter, ghost i: nat, s: SharedWriter, data: string,
                         reply: (int, Option<string>))
    returns (count: int, err: Option<string>)
    requires i < |ws| && ws[i] == SharedHandle(s) && s in before && before[s].n > 0
    requires SharedWritten(before, data, ws, i) && FilesWritten(written, data, ws, i)
    modifies s
    ensures SharedWritten(before, data, ws, i + 1) && FilesWritten(written, data, ws, i + 1)
    ensures (count, err) == reply
  {
    count, err := WriteShared(before, ws, i, s, data, reply);
    forall f <- written.Keys
      ensures WrittenFile(f, written[f], data, FileHandle(f) in ws[..i + 1])
    {
      OnlyNext(ws, i, FileHandle(f));
      assert old(WrittenFile(f, written[f], data, FileHandle(f) in ws[..i]));
    }
  }

  method WriteNextFile(ghost before: map<SharedWriter, Shared>, ghost written: map<File, seq<string>>,
                       ghost ws: MultiWriter, ghost i: nat, f: File, data: string, reply: (int, Option<string>))
    returns (count: int, err: Option<string>)
    requires i < |ws| && ws[i] == FileHandle(f) && DistinctFiles(ws) && f in written
    requires SharedWritten(before, data, ws, i) && FilesWritten(written, data, ws, i)
    modifies f
    ensures SharedWritten(before, data, ws, i + 1) && FilesWritten(written, data, ws, i + 1)
    ensures (count, err) == reply
  {
    count, err := WriteFile(written, ws, i, f, data, reply);
    forall s <- before.Keys
      ensures WrittenTimes(s, before[s], data, Count(ws[..i + 1], s))
    {
      OnlyNext(ws, i, SharedHandle(s));
      assert old(WrittenTimes(s, before[s], data, Count(ws[..i], s)));
    }
  }

  method WriteNext(ghost before: map<SharedWriter, Shared>, ghost written: map<File, seq<string>>,
                   ws: MultiWriter, i: nat, data: string, reply: (int, Option<string>))
    returns (count: int, err: Option<string>)
    requires i < |ws| && Covers(before, written, ws)
    requires SharedWritten(before, data, ws, i) && FilesWritten(written, data, ws, i)
    modifies before.Keys, written.Keys
    ensures SharedWritten(before, data, ws, i + 1) && FilesWritten(written, data, ws, i + 1)
    ensures (count, err) == reply
  {
    match ws[i]
    case SharedHandle(s) =>
      assert s in SharedIn(ws);
      count, err := WriteNextShared(before, written, ws, i, s, data, reply);
    case FileHandle(f) =>
      assert f in FilesIn(ws);
      count, err := WriteNextFile(before, written, ws, i, f, data, reply);
  }

  /**
   Writes to every handle until one fails or writes less. `upto` handles were written to: each of
   them got the data once, so a writer listed twice got it twice, and nothing reached the others.
   */
  method WriteAll(ws: MultiWriter, data: string, reply: nat -> (int, Option<string>),
                  ghost before: map<SharedWriter, Shared>, ghost written: map<File, seq<string>>)
    returns (n: int, err: Option<WriteError>, ghost upto: nat)
    requires Covers(before, written, ws)
    requires SharedWritten(before, data, ws, 0) && FilesWritten(written, data, ws, 0)
    modifies before.Keys, written.Keys
    ensures upto <= |ws| && SharedWritten(before, data, ws, upto) && FilesWritten(written, data, ws, upto)
    ensures match err
            case None => upto == |ws| && n == |data| && AllTake(reply, data, |ws|)
            case Some(e) =>
              && 0 < upto && n == reply(upto - 1).0 && AllTake(reply, data, upto - 1)
              && match reply(upto - 1).1
                 case Some(message) => e == Reported(message)
                 case None => e == ShortWrite && n != |data|
  {
    for i := 0 to |ws|
      invariant SharedWritten(before, data, ws, i) && FilesWritten(written, data, ws, i)
      invariant AllTake(reply, data, i)
    {
      var count, e := WriteNext(before, written, ws, i, data, reply(i));
      if e.Some? {
        return count, Some(Reported(e.value)), i + 1;
      }
      if count != |data| {
        return count, Some(ShortWrite), i + 1;
      }
    }
    return |data|, None, |ws|;
  }

  // ----- opening

  ghost function SharedOf(os: seq<Opener>): set<SharedWriter> {
    set o | o in os && o.SharedOpener? :: o.s
  }

  /** Whether opening the list in order calls the underlying open at position `i`. */
  ghost predicate Asks(before: map<SharedWriter, Shared>, os: seq<Opener>, i: nat)
    requires i < |os|
  {
    os[i].SharedOpener? && os[i].s in before ==> before[os[i].s].n == 0 && os[i] !in os[..i]
  }

  ghost predicate Matches(o: Opener, h: Handle) {
    match o
    case SharedOpener(s) => h == SharedHandle(s)
    case FileOpener(path) => h.FileHandle? && h.f.path == path
  }

  /** The handles given out by the first openers of a list. */
  ghost predicate GivenBy(os: seq<Opener>, ws: MultiWriter) {
    |ws| <= |os| && (forall i | 0 <= i < |ws| :: Matches(os[i], ws[i])) && DistinctFiles(ws)
  }

  ghost predicate OpenedTimes(s: SharedWriter, before: Shared, c: nat)
    reads s
  {
    && s.Valid() && before.n >= 0 && s.n == before.n + c
    && s.events == before.events + (if before.n == 0 && c > 0 then [Opened] else [])
  }

  ghost predicate RestoredAfter(s: SharedWriter, before: Shared, c: nat)
    reads s
  {
    && s.Valid() && s.n == before.n
    && s.events == before.events + (if before.n == 0 && c > 0 then [Opened, Closed] else [])
  }

  ghost predicate SharedAcquired(before: map<SharedWriter, Shared>, ws: MultiWriter)
    reads before.Keys
  {
    forall s <- before.Keys :: OpenedTimes(s, before[s], Count(ws, s))
  }

  ghost predicate FilesOpen(files: set<File>)
    reads files
  {
    forall f <- files :: f.isOpen && f.closes == 0
  }

  /** Since `before`, exactly the handles `ws` were opened, and all are still open. */
  ghost predicate Acquired(before: map<SharedWriter, Shared>, ws: MultiWriter)
    reads before.Keys, FilesIn(ws)
  {
    && SharedIn(ws) <= before.Keys && SharedAcquired(before, ws)
    && FilesOpen(FilesIn(ws))
  }

  /** Since `before`, exactly the handles `ws` were opened, and each was closed once. */
  ghost predicate Released(before: map<SharedWriter, Shared>, ws: MultiWriter)
    reads before.Keys, FilesIn(ws)
  {
    && (forall s <- before.Keys :: RestoredAfter(s, before[s], Count(ws, s)))
    && (forall f <- FilesIn(ws) :: !f.isOpen && f.closes == 1)
  }

  lemma Appended(ws: MultiWriter, h: Handle)
    ensures SharedIn(ws + [h]) == SharedIn(ws) + (if h.SharedHandle? then {h.s} else {})
    ensures FilesIn(ws + [h]) == FilesIn(ws) + (if h.FileHandle? then {h.f} else {})
    ensures multiset(ws + [h]) == multiset(ws) + multiset{h}
  {
    forall x
      ensures x in ws + [h] <==> x in ws || x == h
    {
    }
  }

  lemma GivenNext(os: seq<Opener>, ws: MultiWriter, h: Handle)
    requires GivenBy(os, ws) && |ws| < |os| && Matches(os[|ws|], h)
    requires h.FileHandle? ==> h !in ws
    ensures GivenBy(os, ws + [h])
  {
  }

  lemma AsksIffFirst(before: map<SharedWriter, Shared>, os: seq<Opener>, ws: MultiWriter, s: SharedWriter)
    requires Acquired(before, ws) && GivenBy(os, ws) && |ws| < |os| && os[|ws|] == SharedOpener(s) && s in before
    ensures Asks(before, os, |ws|) <==> s.n == 0
  {
    assert OpenedTimes(s, before[s], Count(ws, s));
    assert SharedHandle(s) in ws <==> SharedOpener(s) in os[..|ws|];
  }

  method OpenOnce(s: SharedWriter, ghost before: Shared, ghost c: nat, fails: Option<string>)
    returns (err: Option<string>)
    requires OpenedTimes(s, before, c)
    modifies s
    ensures err == if old(s.n) == 0 then fails else None
    ensures OpenedTimes(s, before, if err.None? then c + 1 else c)
  {
    err := s.Open(fails);
  }

  method OpenShared(ghost before: map<SharedWriter, Shared>, ghost ws: MultiWriter,
                    s: SharedWriter, fails: Option<string>)
    returns (err: Option<string>)
    requires s in before && SharedAcquired(before, ws)
    modifies s
    ensures err == if old(s.n) == 0 then fails else None
    ensures SharedAcquired(before, if err.None? then ws + [SharedHandle(s)] else ws)
  {
    err := OpenOnce(s, before[s], Count(ws, s), fails);
    ghost var after := if err.None? then ws + [SharedHandle(s)] else ws;
    forall t <- before.Keys
      ensures OpenedTimes(t, before[t], Count(after, t))
    {
      if t != s {
        assert old(OpenedTimes(t, before[t], Count(ws, t)));
        assert Count(after, t) == Count(ws, t);
      }
    }
  }

  method OpenFile(ghost before: map<SharedWriter, Shared>, ghost ws: MultiWriter, path: string) returns (f: File)
    requires SharedAcquired(before, ws)
    ensures fresh(f) && f.path == path && FilesOpen({f}) && FileHandle(f) !in ws
    ensures SharedAcquired(before, ws + [FileHandle(f)])
  {
    f := new File(path);
    forall t <- before.Keys
      ensures OpenedTimes(t, before[t], Count(ws + [FileHandle(f)], t))
    {
      assert old(OpenedTimes(t, before[t], Count(ws, t)));
    }
  }

  /** The first `k` openers succeeded, whichever of them had to open something. */
  ghost predicate NoneFailed(before: map<SharedWriter, Shared>, os: seq<Opener>, fails: nat -> Option<string>, k: nat)
    requires k <= |os|
  {
    forall i | 0 <= i < k && Asks(before, os, i) :: fails(i).None?
  }

  lemma NoneFailedNext(before: map<SharedWriter, Shared>, os: seq<Opener>, fails: nat -> Option<string>, k: nat)
    requires k < |os| && NoneFailed(before, os, fails, k)
    requires Asks(before, os, k) ==> fails(k).None?
    ensures NoneFailed(before, os, fails, k + 1)
  {
  }

  /** The openers before position `|ws|` have given out `ws`, and none of them failed. */
  ghost predicate Opening(before: map<SharedWriter, Shared>, os: seq<Opener>, fails: nat -> Option<string>,
                          ws: MultiWriter)
    reads before.Keys, FilesIn(ws)
  {
    GivenBy(os, ws) && NoneFailed(before, os, fails, |ws|) && Acquired(before, ws)
  }

  lemma OpeningNone(before: map<SharedWriter, Shared>, os: seq<Opener>, fails: nat -> Option<string>)
    requires Acquired(before, [])
    ensures Opening(before, os, fails, [])
  {
  }

  /** One round of the opening loops. */
  method OpenNext(ghost before: map<SharedWriter, Shared>, ghost os: seq<Opener>, ws: MultiWriter,
                  o: Opener, fails: nat -> Option<string>)
    returns (r: Result<Handle, string>)
    requires Opening(before, os, fails, ws) && |ws| < |os| && os[|ws|] == o
    requires o.SharedOpener? ==> o.s in before
    modifies before.Keys
    ensures match r
            case Failure(e) => Opening(before, os, fails, ws) && fails(|ws|) == Some(e) && Asks(before, os, |ws|)
            case Success(h) => Opening(before, os, fails, ws + [h]) && (h.FileHandle? ==> fresh(h.f))
  {
    var fail := fails(|ws|);
    if o.SharedOpener? {
      AsksIffFirst(before, os, ws, o.s);
      var err := OpenShared(before, ws, o.s, fail);
      if err.Some? {
        return Failure(err.value);
      }
      r := Success(SharedHandle(o.s));
    } else {
      if fail.Some? {
        return Failure(fail.value);
      }
      var f := OpenFile(before, ws, o.path);
      r := Success(FileHandle(f));
    }
    Appended(ws, r.value);
    assert FilesOpen(FilesIn(ws));
    GivenNext(os, ws, r.value);
    NoneFailedNext(before, os, fails, |ws|);
  }

  lemma AcquiredIsHeld(before: map<SharedWriter, Shared>, ws: MultiWriter)
    requires Acquired(before, ws) && DistinctFiles(ws)
    ensures Held(ws)
    ensures forall s <- before.Keys :: Count(ws, s) > 0 <==> s in SharedIn(ws)
  {
    forall s <- before.Keys
      ensures Count(ws, s) > 0 <==> s in SharedIn(ws)
    {
    }
    assert forall s <- SharedIn(ws) :: OpenedTimes(s, before[s], Count(ws, s));
  }

  /** Closing what was opened restores every count, even if closes fail. */
  method RollBack(ghost before: map<SharedWriter, Shared>, ws: MultiWriter, reply: nat -> Option<string>)
    returns (err: Option<string>)
    requires Acquired(before, ws) && DistinctFiles(ws)
    modifies before.Keys, FilesIn(ws)
    ensures Released(before, ws)
    ensures err == First(CloseErrors(old(Snapshot(SharedIn(ws))), ws, reply))
  {
    AcquiredIsHeld(before, ws);
    err := CloseAll(ws, reply);
    forall s <- before.Keys
      ensures RestoredAfter(s, before[s], Count(ws, s))
    {
      assert old(OpenedTimes(s, before[s], Count(ws, s)));
    }
  }

  /** The opener at position `|ws|` was the first to fail, and what was opened before it was closed once each. */
  ghost predicate Undone(before: map<SharedWriter, Shared>, os: seq<Opener>, fails: nat -> Option<string>,
                         ws: MultiWriter)
    reads before.Keys, FilesIn(ws)
  {
    && |ws| < |os| && Asks(before, os, |ws|) && fails(|ws|).Some?
    && GivenBy(os, ws) && NoneFailed(before, os, fails, |ws|)
    && Released(before, ws)
  }

  /** Closes what was opened before the opener at position `|ws|` failed. */
  method Undo(ghost before: map<SharedWriter, Shared>, ghost os: seq<Opener>, ghost fails: nat -> Option<string>,
              ws: MultiWriter, reply: nat -> Option<string>)
    requires Opening(before, os, fails, ws) && |ws| < |os| && Asks(before, os, |ws|) && fails(|ws|).Some?
    modifies before.Keys, FilesIn(ws)
    ensures Undone(before, os, fails, ws)
  {
    var _ := RollBack(before, ws, reply);
  }

  datatype OpenError = AtPath(path: string, cause: string) | AtOutput(cause: string)

  /** The openers that a store has for these paths; a path without one gets one that opens the file. */
  ghost predicate OpenersOf(openers: map<string, Opener>, paths: seq<string>, os: seq<Opener>) {
    && |os| == |paths|
    && forall i | 0 <= i < |paths| :: os[i] == if paths[i] in openers then openers[paths[i]] else FileOpener(paths[i])
  }

  lemma OpenersStay(openers: map<string, Opener>, paths: seq<string>, os: seq<Opener>, p: string)
    requires OpenersOf(openers, paths, os)
    ensures OpenersOf(openers[p := if p in openers then openers[p] else FileOpener(p)], paths, os)
  {
  }

  class OutputStore {
    var openers: map<string, Opener>

    constructor (openers: map<string, Opener>)
      ensures this.openers == openers
    {
      this.openers := openers;
    }

    /** A path without an opener gets one that opens the file, for good. */
    method Lookup(p: string) returns (o: Opener)
      modifies this
      ensures p in old(openers) ==> o == old(openers)[p]
      ensures p !in old(openers) ==> o == FileOpener(p)
      ensures openers == old(openers)[p := o]
    {
      if p !in openers {
        openers := openers[p := FileOpener(p)];
      }
      o := openers[p];
    }

    /** Every path still gets the opener it had in `os`. */
    ghost predicate Opens(paths: seq<string>, os: seq<Opener>)
      reads this
    {
      OpenersOf(openers, paths, os)
    }

    method Open(ghost paths: seq<string>, ghost before: map<SharedWriter, Shared>, ghost os: seq<Opener>,
                ws: MultiWriter, p: string, fails: nat -> Option<string>)
      returns (r: Result<Handle, string>)
      requires Opens(paths, os) && SharedOf(os) <= before.Keys
      requires Opening(before, os, fails, ws) && |ws| < |os| && p == paths[|ws|]
      modifies this, before.Keys
      ensures Opens(paths, os)
      ensures match r
              case Failure(e) => Opening(before, os, fails, ws) && fails(|ws|) == Some(e) && Asks(before, os, |ws|)
              case Success(h) => Opening(before, os, fails, ws + [h]) && (h.FileHandle? ==> fresh(h.f))
    {
      OpenersStay(openers, paths, os, p);
      var o := Lookup(p);
      assert o == os[|ws|] && (o.SharedOpener? ==> o.s in SharedOf(os));
      r := OpenNext(before, os, ws, o, fails);
    }

    /** Opens one path after the other, up to the first that fails. */
    method OpenEach(paths: seq<string>, fails: nat -> Option<string>,
                    ghost before: map<SharedWriter, Shared>, ghost os: seq<Opener>)
      returns (ws: MultiWriter, err: Option<string>)
      requires Acquired(before, []) && Opens(paths, os) && SharedOf(os) <= before.Keys
      modifies this, before.Keys
      ensures Opens(paths, os) && fresh(FilesIn(ws)) && Opening(before, os, fails, ws)
      ensures match err
              case None => |ws| == |paths|
              case Some(_) => |ws| < |paths| && err == fails(|ws|) && Asks(before, os, |ws|)
    {
      ws := [];
      OpeningNone(before, os, fails);
      ghost var files: set<File> := {};
      for i := 0 to |paths|
        invariant |ws| == i && Opens(paths, os) && Opening(before, os, fails, ws)
        invariant files == FilesIn(ws) && fresh(files)
      {
        var h := Open(paths, before, os, ws, paths[i], fails);
        if h.Failure? {
          return ws, Some(h.error);
        }
        Appended(ws, h.value);
        ws := ws + [h.value];
        files := FilesIn(ws);
      }
      return ws, None;
    }

    /**
     Opens every path or nothing. `before` is the state of the shared writers in play and `os` the
     openers of the paths; `fails` and `reply` are what opening and closing underlying writers
     would report at each position, should it come to that.
     */
    method OpenAll(paths: seq<string>, fails: nat -> Option<string>, reply: nat -> Option<string>,
                   ghost before: map<SharedWriter, Shared>, ghost os: seq<Opener>)
      returns (r: Result<MultiWriter, OpenError>, ghost given: MultiWriter)
      requires Acquired(before, []) && Opens(paths, os) && SharedOf(os) <= before.Keys
      modifies this, before.Keys
      ensures Opens(paths, os) && fresh(FilesIn(given))
      ensures match r
              case Success(ws) => ws == given && |ws| == |paths| && Opening(before, os, fails, ws)
              case Failure(e) => Undone(before, os, fails, given) && e == AtPath(paths[|given|], fails(|given|).value)
    {
      var ws, err := OpenEach(paths, fails, before, os);
      if err.Some? {
        Undo(before, os, fails, ws, reply);
        return Failure(AtPath(paths[|ws|], err.value)), ws;
      }
      return Success(ws), ws;
    }
  }

  /** The stores that programs start with: standard output and error, each shared, and files for all else. */
  method StandardOutputs() returns (store: OutputStore, out: SharedWriter, err: SharedWriter)
    ensures fresh(store) && fresh(out) && fresh(err) && out != err && out.Valid() && err.Valid() && out.n == err.n == 0
    ensures store.openers == map["stdout" := SharedOpener(out), "stderr" := SharedOpener(err)]
  {
    out := new SharedWriter();
    err := new SharedWriter();
    store := new OutputStore(map["stdout" := SharedOpener(out), "stderr" := SharedOpener(err)]);
  }

  /** The handle that a store with these openers gives for a path: from its opener, or a file of that path. */
  ghost predicate HandleOf(openers: map<string, Opener>, p: string, h: Handle) {
    if p in openers then Matches(openers[p], h) else h.FileHandle? && h.f.path == p
  }

  /** The first handles are those for the paths, the others those of the opener functions. */
  ghost predicate HandlesFor(openers: map<string, Opener>, paths: seq<string>, outputs: seq<Opener>, ws: MultiWriter) {
    && |ws| == |paths| + |outputs|
    && (forall i | 0 <= i < |paths| :: HandleOf(openers, paths[i], ws[i]))
    && (forall j | 0 <= j < |outputs| :: Matches(outputs[j], ws[|paths| + j]))
  }

  lemma GivenForAll(openers: map<string, Opener>, paths: seq<string>, os: seq<Opener>, outputs: seq<Opener>,
                    ws: MultiWriter)
    requires OpenersOf(openers, paths, os) && GivenBy(os + outputs, ws) && |ws| == |os + outputs|
    ensures HandlesFor(openers, paths, outputs, ws)
  {
    assert forall i | 0 <= i < |os| :: (os + outputs)[i] == os[i];
    assert forall j | 0 <= j < |outputs| :: (os + outputs)[|os| + j] == outputs[j];
  }

  lemma OpeningMore(before: map<SharedWriter, Shared>, os: seq<Opener>, more: seq<Opener>,
                    fails: nat -> Option<string>, ws: MultiWriter)
    requires |ws| <= |os|
    ensures Opening(before, os, fails, ws) ==> Opening(before, os + more, fails, ws)
    ensures Undone(before, os, fails, ws) ==> Undone(before, os + more, fails, ws)
  {
    assert forall i | 0 <= i < |os| :: (os + more)[..i] == os[..i];
    assert forall i | 0 <= i < |os| :: Asks(before, os + more, i) == Asks(before, os, i);
  }

  /** Opens the configured opener functions on top of the handles of the paths, or undoes everything. */
  method OpenOutputs(outputs: seq<Opener>, opens: MultiWriter,
                     fails: nat -> Option<string>, reply: nat -> Option<string>,
                     ghost before: map<SharedWriter, Shared>, ghost os: seq<Opener>)
    returns (r: Result<MultiWriter, OpenError>, ghost given: MultiWriter)
    requires |opens| == |os| && Opening(before, os + outputs, fails, opens) && SharedOf(outputs) <= before.Keys
    modifies before.Keys, FilesIn(opens)
    ensures fresh(FilesIn(given) - FilesIn(opens)) && |given| >= |os|
    ensures match r
            case Success(ws) => ws == given && |ws| == |os + outputs| && Opening(before, os + outputs, fails, ws)
            case Failure(e) => Undone(before, os + outputs, fails, given) && e == AtOutput(fails(|given|).value)
  {
    var ws := opens;
    for j := 0 to |outputs|
      invariant |ws| == |os| + j && Opening(before, os + outputs, fails, ws) && fresh(FilesIn(ws) - FilesIn(opens))
    {
      assert (os + outputs)[|ws|] == outputs[j];
      assert outputs[j].SharedOpener? ==> outputs[j].s in SharedOf(outputs);
      var h := OpenNext(before, os + outputs, ws, outputs[j], fails);
      if h.Failure? {
        Undo(before, os + outputs, fails, ws, reply);
        return Failure(AtOutput(h.error)), ws;
      }
      Appended(ws, h.value);
      ws := ws + [h.value];
    }
    return Success(ws), ws;
  }

  /**
   ExporterConfig.open: the configured paths, or stderr, and then the configured opener functions.
   Positions count through both lists: `paths`, whose openers are `os`, and `outputs`.
   */
  method OpenConfigured(store: OutputStore, outputPaths: seq<string>, outputs: seq<Opener>,
                        fails: nat -> Option<string>, reply: nat -> Option<string>,
                        ghost before: map<SharedWriter, Shared>, ghost paths: seq<string>, ghost os: seq<Opener>)
    returns (r: Result<MultiWriter, OpenError>, ghost given: MultiWriter)
    requires paths == if outputPaths == [] then ["stderr"] else outputPaths
    requires Acquired(before, []) && store.Opens(paths, os)
    requires SharedOf(os) <= before.Keys && SharedOf(outputs) <= before.Keys
    modifies store, before.Keys
    ensures fresh(FilesIn(given))
    ensures match r
            case Success(ws) =>
              && ws == given && Opening(before, os + outputs, fails, ws)
              && HandlesFor(old(store.openers), paths, outputs, ws)
            case Failure(e) =>
              && Undone(before, os + outputs, fails, given)
              && e == if |given| < |paths|
                      then AtPath(paths[|given|], fails(|given|).value)
                      else AtOutput(fails(|given|).value)
  {
    var ps := outputPaths;
    if |ps| == 0 {
      ps := ["stderr"];
    }
    ghost var openers := store.openers;
    r, given := store.OpenAll(ps, fails, reply, before, os);
    OpeningMore(before, os, outputs, fails, given);
    if r.Failure? {
      return;
    }
    r, given := OpenOutputs(outputs, r.value, fails, reply, before, os);
    if r.Success? {
      GivenForAll(openers, paths, os, outputs, given);
    }
  }

  /** With nothing configured, it is the standard error that gets one more holder. */
  method OpenDefault(store: OutputStore, e: SharedWriter, fails: nat -> Option<string>, reply: nat -> Option<string>,
                     ghost before: map<SharedWriter, Shared>)
    returns (r: Result<MultiWriter, OpenError>)
    requires "stderr" in store.openers && store.openers["stderr"] == SharedOpener(e)
    requires Acquired(before, []) && e in before
    modifies store, before.Keys
    ensures match r
            case Success(ws) =>
              ws == [SharedHandle(e)] && forall s <- before.Keys :: s.n == before[s].n + if s == e then 1 else 0
            case Failure(err) =>
              && fails(0).Some? && err == AtPath("stderr", fails(0).value)
              && forall s <- before.Keys :: s.n == before[s].n
  {
    ghost var given;
    r, given := OpenConfigured(store, [], [], fails, reply, before, ["stderr"], [SharedOpener(e)]);
    if r.Success? {
      assert r.value == [SharedHandle(e)];
      assert forall s <- before.Keys :: OpenedTimes(s, before[s], Count(r.value, s));
    } else {
      assert forall s <- before.Keys :: RestoredAfter(s, before[s], Count(given, s));
    }
  }

  /** Opening and then closing once leaves every count as it was, whichever way either goes. */
  method OpenThenClose(store: OutputStore, outputPaths: seq<string>, outputs: seq<Opener>,
                       fails: nat -> Option<string>, reply: nat -> Option<string>,
                       ghost before: map<SharedWriter, Shared>, ghost paths: seq<string>, ghost os: seq<Opener>)
    returns (ghost given: MultiWriter)
    requires paths == if outputPaths == [] then ["stderr"] else outputPaths
    requires Acquired(before, []) && store.Opens(paths, os)
    requires SharedOf(os) <= before.Keys && SharedOf(outputs) <= before.Keys
    modifies store, before.Keys
    ensures Released(before, given)
    ensures |given| == |os + outputs| || Undone(before, os + outputs, fails, given)
  {
    var r;
    r, given := OpenConfigured(store, outputPaths, outputs, fails, reply, before, paths, os);
    if r.Success? {
      var _ := RollBack(before, r.value, reply);
    }
  }
}
