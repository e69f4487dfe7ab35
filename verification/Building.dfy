/**
 How the resolver builds a provider from its configuration.

 Builders and processors are code that this model does not see: what they would reply at each
 position of a list comes in as an environment, and which of them get called is recorded.
 */
module Building {
  import opened Wrappers
  import opened Ids

  datatype Signal = Tracer | Meter | Logger

  /** An option of the SDK. */
  type Opt = nat

  /** What a builder hands over for the resolver to start and shut down, if it supports either. */
  datatype Component = Component(serial: nat, canStart: bool, canShutdown: bool)

  datatype Cause = NotFound | NotForSignal | Reported(message: string, unimplemented: bool)

  const UNIMPLEMENTED: Cause := Reported("unimplemented", true)

  datatype Error = NotExist | AtProcessor(id: Id, cause: Cause) | AtExporter(id: Id, cause: Cause)

  /** Options(None) is a nil slice, which says that the processor is not for the signal. */
  datatype ProcessorReply = Refused(cause: Cause) | Options(opts: Option<seq<Opt>>)

  datatype BuilderReply = Failed(cause: Cause) | Built(component: Component, opts: seq<Opt>)

  /**
   Replies by position in the list of processors or exporters: whether the configured value has the
   interface asked for, and what its methods return. `builder` is SpanExporter or LogExporter.
   */
  datatype Env = Env(
    processorFits: nat -> bool, processor: nat -> ProcessorReply,
    exporterFits: nat -> bool, builder: nat -> BuilderReply,
    reader: nat -> BuilderReply, metricExporter: nat -> BuilderReply)

  datatype ProviderConfig = ProviderConfig(processors: seq<Id>, exporters: seq<Id>)

  datatype Config = Config(processors: set<Id>, exporters: set<Id>, providers: map<Id, ProviderConfig>)

  datatype Call =
    | AskOptions(signal: Signal, id: Id)
    | BuildExporter(signal: Signal, id: Id)
    | BuildReader(id: Id)
    | BuildMetricExporter(id: Id)

  predicate Unimplemented(c: Cause) { c.Reported? && c.unimplemented }

  // ----- one processor or exporter

  function ProcessorFault(cfg: Config, ids: seq<Id>, env: Env, i: nat): Option<Cause>
    requires i < |ids|
  {
    if ids[i] !in cfg.processors then Some(NotFound)
    else if !env.processorFits(i) then Some(NotForSignal)
    else
      match env.processor(i)
      case Refused(cause) => Some(cause)
      case Options(opts) => if opts.None? then Some(NotForSignal) else None
  }

  /** For meters the exporter is asked only when the reader is unimplemented. */
  function ExporterReply(cfg: Config, signal: Signal, ids: seq<Id>, env: Env, i: nat): BuilderReply
    requires i < |ids|
  {
    if ids[i] !in cfg.exporters then Failed(NotFound)
    else if signal.Meter? then
      var r, x := env.reader(i), env.metricExporter(i);
      if r.Built? || !Unimplemented(r.cause) then r
      else if x.Built? || !Unimplemented(x.cause) then x
      else Failed(UNIMPLEMENTED)
    else if !env.exporterFits(i) then Failed(NotForSignal)
    else env.builder(i)
  }

  function ProcessorCalls(cfg: Config, signal: Signal, ids: seq<Id>, env: Env, i: nat): seq<Call>
    requires i < |ids|
  {
    if ids[i] in cfg.processors && env.processorFits(i) then [AskOptions(signal, ids[i])] else []
  }

  function ExporterCalls(cfg: Config, signal: Signal, ids: seq<Id>, env: Env, i: nat): seq<Call>
    requires i < |ids|
  {
    if ids[i] !in cfg.exporters then []
    else if signal.Meter? then
      var r := env.reader(i);
      [BuildReader(ids[i])] + (if r.Failed? && Unimplemented(r.cause) then [BuildMetricExporter(ids[i])] else [])
    else if env.exporterFits(i) then [BuildExporter(signal, ids[i])] else []
  }

  // ----- the first `n` of a list

  /** The options one processor adds. */
  function ProcessorPart(env: Env, i: nat): seq<Opt> {
    match env.processor(i)
    case Options(Some(more)) => more
    case _ => []
  }

  function ProcessorOpts(opts: seq<Opt>, env: Env, n: nat): seq<Opt> {
    if n == 0 then opts else ProcessorOpts(opts, env, n - 1) + ProcessorPart(env, n - 1)
  }

  function AllProcessorCalls(cfg: Config, signal: Signal, ids: seq<Id>, env: Env, n: nat): seq<Call>
    requires n <= |ids|
  {
    if n == 0 then []
    else AllProcessorCalls(cfg, signal, ids, env, n - 1) + ProcessorCalls(cfg, signal, ids, env, n - 1)
  }

  /** What has come of the exporters so far: all options, the components by id and the calls made. */
  datatype Progress = Progress(opts: seq<Opt>, components: map<Id, Component>, calls: seq<Call>)

  function Advanced(p: Progress, id: Id, reply: BuilderReply, calls: seq<Call>): Progress {
    match reply
    case Built(c, more) => Progress(p.opts + more, p.components[id := c], p.calls + calls)
    case Failed(_) => Progress(p.opts, p.components, p.calls + calls)
  }

  function ExportersUpto(opts: seq<Opt>, cfg: Config, signal: Signal, ids: seq<Id>, env: Env, n: nat): Progress
    requires n <= |ids|
  {
    if n == 0 then Progress(opts, map[], [])
    else
      Advanced(ExportersUpto(opts, cfg, signal, ids, env, n - 1), ids[n - 1],
               ExporterReply(cfg, signal, ids, env, n - 1), ExporterCalls(cfg, signal, ids, env, n - 1))
  }

  /** The position of the first processor that does not resolve, or the length of the list. */
  function GoodProcessors(cfg: Config, ids: seq<Id>, env: Env, n: nat): (k: nat)
    requires n <= |ids|
    ensures k <= n
  {
    if n == 0 then 0
    else
      var k := GoodProcessors(cfg, ids, env, n - 1);
      if k == n - 1 && ProcessorFault(cfg, ids, env, n - 1).None? then n else k
  }

  function GoodExporters(cfg: Config, signal: Signal, ids: seq<Id>, env: Env, n: nat): (k: nat)
    requires n <= |ids|
    ensures k <= n
  {
    if n == 0 then 0
    else
      var k := GoodExporters(cfg, signal, ids, env, n - 1);
      if k == n - 1 && ExporterReply(cfg, signal, ids, env, n - 1).Built? then n else k
  }

  lemma {:induction false} GoodProcessorsAreFirst(cfg: Config, ids: seq<Id>, env: Env, n: nat)
    requires n <= |ids|
    ensures var k := GoodProcessors(cfg, ids, env, n);
            && (forall i | 0 <= i < k :: ProcessorFault(cfg, ids, env, i).None?)
            && (k < n ==> ProcessorFault(cfg, ids, env, k).Some?)
  {
    if n == 0 {
    } else {
      GoodProcessorsAreFirst(cfg, ids, env, n - 1);
    }
  }

  lemma {:induction false} GoodExportersAreFirst(cfg: Config, signal: Signal, ids: seq<Id>, env: Env, n: nat)
    requires n <= |ids|
    ensures var k := GoodExporters(cfg, signal, ids, env, n);
            && (forall i | 0 <= i < k :: ExporterReply(cfg, signal, ids, env, i).Built?)
            && (k < n ==> ExporterReply(cfg, signal, ids, env, k).Failed?)
  {
    if n == 0 {
    } else {
      GoodExportersAreFirst(cfg, signal, ids, env, n - 1);
    }
  }

  // ----- a whole provider

  datatype Product = Product(opts: seq<Opt>, components: map<Id, Component>)

  function Upto(k: nat, n: nat): nat { if k < n then k + 1 else n }

  /** The processors in order up to the first fault: the options with theirs added, and the calls made. */
  function ProcessorStage(cfg: Config, signal: Signal, ids: seq<Id>, opts: seq<Opt>, env: Env)
    : (Result<seq<Opt>, Error>, seq<Call>)
  {
    var k := GoodProcessors(cfg, ids, env, |ids|);
    GoodProcessorsAreFirst(cfg, ids, env, |ids|);
    (if k < |ids| then Failure(AtProcessor(ids[k], ProcessorFault(cfg, ids, env, k).value))
     else Success(ProcessorOpts(opts, env, |ids|)),
     AllProcessorCalls(cfg, signal, ids, env, Upto(k, |ids|)))
  }

  /** The exporters in order up to the first that does not resolve. */
  function ExporterStage(cfg: Config, signal: Signal, ids: seq<Id>, opts: seq<Opt>, env: Env)
    : (Result<Product, Error>, seq<Call>)
  {
    var m := GoodExporters(cfg, signal, ids, env, |ids|);
    GoodExportersAreFirst(cfg, signal, ids, env, |ids|);
    var p := ExportersUpto(opts, cfg, signal, ids, env, Upto(m, |ids|));
    (if m < |ids| then Failure(AtExporter(ids[m], ExporterReply(cfg, signal, ids, env, m).cause))
     else Success(Product(p.opts, p.components)),
     p.calls)
  }

  lemma FirstFaultAt(cfg: Config, ids: seq<Id>, env: Env, i: nat)
    requires i < |ids| && GoodProcessors(cfg, ids, env, i) == i && ProcessorFault(cfg, ids, env, i).Some?
    ensures GoodProcessors(cfg, ids, env, |ids|) == i
  {
    GoodProcessorsAreFirst(cfg, ids, env, i);
    GoodProcessorsAreFirst(cfg, ids, env, |ids|);
  }

  lemma FirstFailureAt(cfg: Config, signal: Signal, ids: seq<Id>, env: Env, i: nat)
    requires i < |ids| && GoodExporters(cfg, signal, ids, env, i) == i
    requires ExporterReply(cfg, signal, ids, env, i).Failed?
    ensures GoodExporters(cfg, signal, ids, env, |ids|) == i
  {
    GoodExportersAreFirst(cfg, signal, ids, env, i);
    GoodExportersAreFirst(cfg, signal, ids, env, |ids|);
  }

  lemma ProcessorStageFails(cfg: Config, signal: Signal, ids: seq<Id>, opts: seq<Opt>, env: Env, i: nat)
    requires i < |ids| && GoodProcessors(cfg, ids, env, i) == i && ProcessorFault(cfg, ids, env, i).Some?
    ensures ProcessorStage(cfg, signal, ids, opts, env) ==
            (Failure(AtProcessor(ids[i], ProcessorFault(cfg, ids, env, i).value)),
             AllProcessorCalls(cfg, signal, ids, env, i) + ProcessorCalls(cfg, signal, ids, env, i))
  {
    FirstFaultAt(cfg, ids, env, i);
  }

  lemma ExporterAdvances(opts: seq<Opt>, cfg: Config, signal: Signal, ids: seq<Id>, env: Env, i: nat,
                         all: seq<Opt>, components: map<Id, Component>, made: seq<Call>)
    requires i < |ids| && GoodExporters(cfg, signal, ids, env, i) == i && ExporterReply(cfg, signal, ids, env, i).Built?
    requires Progress(all, components, made) == ExportersUpto(opts, cfg, signal, ids, env, i)
    ensures GoodExporters(cfg, signal, ids, env, i + 1) == i + 1
    ensures var reply := ExporterReply(cfg, signal, ids, env, i);
            ExportersUpto(opts, cfg, signal, ids, env, i + 1)
            == Progress(all + reply.opts, components[ids[i] := reply.component],
                        made + ExporterCalls(cfg, signal, ids, env, i))
  {
  }

  lemma ExporterStageFails(cfg: Config, signal: Signal, ids: seq<Id>, opts: seq<Opt>, env: Env, i: nat)
    requires i < |ids| && GoodExporters(cfg, signal, ids, env, i) == i
    requires ExporterReply(cfg, signal, ids, env, i).Failed?
    ensures ExporterStage(cfg, signal, ids, opts, env) ==
            (Failure(AtExporter(ids[i], ExporterReply(cfg, signal, ids, env, i).cause)),
             ExportersUpto(opts, cfg, signal, ids, env, i).calls + ExporterCalls(cfg, signal, ids, env, i))
  {
    FirstFailureAt(cfg, signal, ids, env, i);
  }

  lemma ExporterStageEnds(cfg: Config, signal: Signal, ids: seq<Id>, opts: seq<Opt>, env: Env,
                          all: seq<Opt>, components: map<Id, Component>, made: seq<Call>)
    requires GoodExporters(cfg, signal, ids, env, |ids|) == |ids|
    requires Progress(all, components, made) == ExportersUpto(opts, cfg, signal, ids, env, |ids|)
    ensures ExporterStage(cfg, signal, ids, opts, env) == (Success(Product(all, components)), made)
  {
  }

  /** The outcome of a first-time build and the calls it makes: processors first, then exporters. */
  function Build(cfg: Config, signal: Signal, pc: ProviderConfig, opts: seq<Opt>, env: Env)
    : (Result<Product, Error>, seq<Call>)
  {
    var (r, calls) := ProcessorStage(cfg, signal, pc.processors, opts, env);
    match r
    case Failure(e) => (Failure(e), calls)
    case Success(all) =>
      var (product, more) := ExporterStage(cfg, signal, pc.exporters, all, env);
      (product, calls + more)
  }

  /** What a listed exporter must do to resolve. */
  predicate Resolves(cfg: Config, signal: Signal, id: Id, env: Env, i: nat) {
    id in cfg.exporters &&
    if signal.Meter? then
      env.reader(i).Built? || (Unimplemented(env.reader(i).cause) && env.metricExporter(i).Built?)
    else env.exporterFits(i) && env.builder(i).Built?
  }

  predicate Contributes(cfg: Config, id: Id, env: Env, i: nat) {
    id in cfg.processors && env.processorFits(i) && env.processor(i).Options? && env.processor(i).opts.Some?
  }

  /** A first-time build succeeds exactly when every processor contributes and every exporter resolves. */
  lemma BuildSucceedsIff(cfg: Config, signal: Signal, pc: ProviderConfig, opts: seq<Opt>, env: Env)
    ensures Build(cfg, signal, pc, opts, env).0.Success? <==>
            && (forall i | 0 <= i < |pc.processors| :: Contributes(cfg, pc.processors[i], env, i))
            && (forall i | 0 <= i < |pc.exporters| :: Resolves(cfg, signal, pc.exporters[i], env, i))
  {
    var ps, es := pc.processors, pc.exporters;
    GoodProcessorsAreFirst(cfg, ps, env, |ps|);
    GoodExportersAreFirst(cfg, signal, es, env, |es|);
    assert forall i | 0 <= i < |ps| :: Contributes(cfg, ps[i], env, i) <==> ProcessorFault(cfg, ps, env, i).None?;
    assert forall i | 0 <= i < |es| ::
        Resolves(cfg, signal, es[i], env, i) <==> ExporterReply(cfg, signal, es, env, i).Built?;
  }

  /** Why a processor does not contribute. */
  predicate ProcessorFails(cfg: Config, id: Id, env: Env, i: nat, cause: Cause) {
    if id !in cfg.processors then cause == NotFound
    else if !env.processorFits(i) then cause == NotForSignal
    else env.processor(i) == Refused(cause) || (env.processor(i) == Options(None) && cause == NotForSignal)
  }

  /** Why an exporter does not resolve. */
  predicate ExporterFails(cfg: Config, signal: Signal, id: Id, env: Env, i: nat, cause: Cause) {
    if id !in cfg.exporters then cause == NotFound
    else if !signal.Meter? then
      if env.exporterFits(i) then env.builder(i) == Failed(cause) else cause == NotForSignal
    else if env.reader(i).Failed? && !Unimplemented(env.reader(i).cause) then env.reader(i) == Failed(cause)
    else
      && env.reader(i).Failed? && env.metricExporter(i).Failed?
      && if Unimplemented(env.metricExporter(i).cause) then cause == UNIMPLEMENTED
         else env.metricExporter(i) == Failed(cause)
  }

  lemma FaultFails(cfg: Config, ids: seq<Id>, env: Env, i: nat)
    requires i < |ids| && ProcessorFault(cfg, ids, env, i).Some?
    ensures ProcessorFails(cfg, ids[i], env, i, ProcessorFault(cfg, ids, env, i).value)
  {
  }

  lemma ReplyFails(cfg: Config, signal: Signal, ids: seq<Id>, env: Env, i: nat)
    requires i < |ids| && ExporterReply(cfg, signal, ids, env, i).Failed?
    ensures ExporterFails(cfg, signal, ids[i], env, i, ExporterReply(cfg, signal, ids, env, i).cause)
  {
  }

  /** The error of a failed build names the first offender and its cause, processors before exporters. */
  lemma BuildNamesFirstOffender(cfg: Config, signal: Signal, pc: ProviderConfig, opts: seq<Opt>, env: Env)
    requires Build(cfg, signal, pc, opts, env).0.Failure?
    ensures match Build(cfg, signal, pc, opts, env).0.error
            case NotExist => false
            case AtProcessor(id, cause) =>
              exists k | 0 <= k < |pc.processors| ::
                && id == pc.processors[k] && ProcessorFails(cfg, id, env, k, cause)
                && forall i | 0 <= i < k :: Contributes(cfg, pc.processors[i], env, i)
            case AtExporter(id, cause) =>
              && (forall i | 0 <= i < |pc.processors| :: Contributes(cfg, pc.processors[i], env, i))
              && exists k | 0 <= k < |pc.exporters| ::
                && id == pc.exporters[k] && ExporterFails(cfg, signal, id, env, k, cause)
                && forall i | 0 <= i < k :: Resolves(cfg, signal, pc.exporters[i], env, i)
  {
    var ps, es := pc.processors, pc.exporters;
    GoodProcessorsAreFirst(cfg, ps, env, |ps|);
    GoodExportersAreFirst(cfg, signal, es, env, |es|);
    assert forall i | 0 <= i < |ps| :: Contributes(cfg, ps[i], env, i) <==> ProcessorFault(cfg, ps, env, i).None?;
    assert forall i | 0 <= i < |es| ::
        Resolves(cfg, signal, es[i], env, i) <==> ExporterReply(cfg, signal, es, env, i).Built?;
    var k, m := GoodProcessors(cfg, ps, env, |ps|), GoodExporters(cfg, signal, es, env, |es|);
    if k < |ps| {
      FaultFails(cfg, ps, env, k);
    } else {
      ReplyFails(cfg, signal, es, env, m);
    }
  }

  /** Components by id; a repeated id keeps the last one only. */
  function Track(ids: seq<Id>, cs: seq<Component>): map<Id, Component>
    requires |ids| == |cs|
  {
    if ids == [] then map[]
    else
      var n := |ids| - 1;
      Track(ids[..n], cs[..n])[ids[n] := cs[n]]
  }

  /** No later position has the same id. */
  predicate IsLast(ids: seq<Id>, i: nat)
    requires i < |ids|
  {
    forall j | i < j < |ids| :: ids[j] != ids[i]
  }

  predicate LastFor(ids: seq<Id>, id: Id, i: nat) {
    i < |ids| && ids[i] == id && IsLast(ids, i)
  }

  lemma LastForStays(ids: seq<Id>, id: Id, i: nat, other: Id)
    requires LastFor(ids, id, i) && other != id
    ensures LastFor(ids + [other], id, i)
  {
  }

  lemma {:induction false} TrackHoldsId(ids: seq<Id>, cs: seq<Component>, id: Id)
    requires |ids| == |cs|
    ensures id in ids ==> id in Track(ids, cs)
    ensures id in Track(ids, cs) ==> exists i: nat :: LastFor(ids, id, i) && Track(ids, cs)[id] == cs[i]
  {
    if ids == [] {
    } else {
      var n := |ids| - 1;
      var before := ids[..n];
      assert ids == before + [ids[n]];
      TrackHoldsId(before, cs[..n], id);
      if id == ids[n] {
        assert LastFor(ids, id, n);
      } else if id in Track(before, cs[..n]) {
        var i: nat :| LastFor(before, id, i) && Track(before, cs[..n])[id] == cs[..n][i];
        LastForStays(before, id, i, ids[n]);
      }
    }
  }

  /** Every id of the list is tracked, with the component of its last position. */
  lemma TrackHoldsLast(ids: seq<Id>, cs: seq<Component>)
    requires |ids| == |cs|
    ensures forall id :: id in Track(ids, cs) <==> id in ids
    ensures forall id <- Track(ids, cs) :: exists i: nat :: LastFor(ids, id, i) && Track(ids, cs)[id] == cs[i]
  {
    forall id
      ensures id in Track(ids, cs) <==> id in ids
      ensures id in Track(ids, cs) ==> exists i: nat :: LastFor(ids, id, i) && Track(ids, cs)[id] == cs[i]
    {
      TrackHoldsId(ids, cs, id);
    }
  }

  function ProcessorParts(env: Env, n: nat): seq<seq<Opt>> {
    seq(n, i requires 0 <= i < n => ProcessorPart(env, i))
  }

  /** The options one exporter comes with. */
  function ExporterPart(cfg: Config, signal: Signal, ids: seq<Id>, env: Env, i: nat): seq<Opt>
    requires i < |ids|
  {
    match ExporterReply(cfg, signal, ids, env, i)
    case Built(_, more) => more
    case Failed(_) => []
  }

  function ExporterParts(cfg: Config, signal: Signal, ids: seq<Id>, env: Env, n: nat): seq<seq<Opt>>
    requires n <= |ids|
  {
    seq(n, i requires 0 <= i < n => ExporterPart(cfg, signal, ids, env, i))
  }

  /** What the exporters built, in list order. */
  function Components(cfg: Config, signal: Signal, ids: seq<Id>, env: Env, n: nat): seq<Component>
    requires n <= |ids| && forall i | 0 <= i < n :: ExporterReply(cfg, signal, ids, env, i).Built?
  {
    seq(n, i requires 0 <= i < n => ExporterReply(cfg, signal, ids, env, i).component)
  }

  lemma {:induction false} ProcessorOptsInOrder(opts: seq<Opt>, env: Env, n: nat)
    ensures ProcessorOpts(opts, env, n) == opts + Concat(ProcessorParts(env, n))
  {
    if n == 0 {
    } else {
      ProcessorOptsInOrder(opts, env, n - 1);
      ConcatNext(ProcessorParts(env, n - 1), ProcessorPart(env, n - 1));
      assert ProcessorParts(env, n) == ProcessorParts(env, n - 1) + [ProcessorPart(env, n - 1)];
      Regroup(opts, Concat(ProcessorParts(env, n - 1)), ProcessorPart(env, n - 1));
    }
  }

  lemma ExporterPartsNext(cfg: Config, signal: Signal, ids: seq<Id>, env: Env, n: nat)
    requires n < |ids|
    ensures Concat(ExporterParts(cfg, signal, ids, env, n + 1))
         == Concat(ExporterParts(cfg, signal, ids, env, n)) + ExporterPart(cfg, signal, ids, env, n)
  {
    var before, part := ExporterParts(cfg, signal, ids, env, n), ExporterPart(cfg, signal, ids, env, n);
    ConcatNext(before, part);
    assert ExporterParts(cfg, signal, ids, env, n + 1) == before + [part];
  }

  lemma {:induction false} ExporterOptsInOrder(opts: seq<Opt>, cfg: Config, signal: Signal, ids: seq<Id>,
                                               env: Env, n: nat)
    requires n <= |ids|
    ensures ExportersUpto(opts, cfg, signal, ids, env, n).opts == opts + Concat(ExporterParts(cfg, signal, ids, env, n))
  {
    if n == 0 {
    } else {
      var part := ExporterPart(cfg, signal, ids, env, n - 1);
      var before := ExporterParts(cfg, signal, ids, env, n - 1);
      ExporterOptsInOrder(opts, cfg, signal, ids, env, n - 1);
      var all := ExportersUpto(opts, cfg, signal, ids, env, n - 1).opts;
      assert ExportersUpto(opts, cfg, signal, ids, env, n).opts == all + part;
      ExporterPartsNext(cfg, signal, ids, env, n - 1);
      Regroup(opts, Concat(before), part);
    }
  }

  lemma {:induction false} ExportersAreTracked(opts: seq<Opt>, cfg: Config, signal: Signal, ids: seq<Id>,
                                               env: Env, n: nat)
    requires n <= |ids| && forall i | 0 <= i < n :: ExporterReply(cfg, signal, ids, env, i).Built?
    ensures ExportersUpto(opts, cfg, signal, ids, env, n).components
         == Track(ids[..n], Components(cfg, signal, ids, env, n))
  {
    if n == 0 {
    } else {
      ExportersAreTracked(opts, cfg, signal, ids, env, n - 1);
      assert ids[..n][..n - 1] == ids[..n - 1];
      assert Components(cfg, signal, ids, env, n)[..n - 1] == Components(cfg, signal, ids, env, n - 1);
    }
  }

  /**
   A provider is built from the caller's options, then the processors', then the exporters', each in
   list order, and tracks the component of every exporter by id.
   */
  lemma BuildKeepsListOrder(cfg: Config, signal: Signal, pc: ProviderConfig, opts: seq<Opt>, env: Env)
    requires Build(cfg, signal, pc, opts, env).0.Success?
    ensures var n := |pc.exporters|;
            && (forall i | 0 <= i < n :: ExporterReply(cfg, signal, pc.exporters, env, i).Built?)
            && Build(cfg, signal, pc, opts, env).0.value ==
               Product(opts + Concat(ProcessorParts(env, |pc.processors|))
                       + Concat(ExporterParts(cfg, signal, pc.exporters, env, n)),
                       Track(pc.exporters, Components(cfg, signal, pc.exporters, env, n)))
  {
    var es := pc.exporters;
    GoodExportersAreFirst(cfg, signal, es, env, |es|);
    ProcessorOptsInOrder(opts, env, |pc.processors|);
    var all := ProcessorOpts(opts, env, |pc.processors|);
    ExporterOptsInOrder(all, cfg, signal, es, env, |es|);
    ExportersAreTracked(all, cfg, signal, es, env, |es|);
    assert es[..|es|] == es;
  }

  /** What the builder that counts for the signal handed over for position `i`. */
  predicate Gave(signal: Signal, env: Env, i: nat, c: Component, more: seq<Opt>) {
    Built(c, more) ==
      if !signal.Meter? then env.builder(i) else if env.reader(i).Built? then env.reader(i) else env.metricExporter(i)
  }

  /** `ps` are the options that the processors gave, `es` and `cs` the options and components of the exporters. */
  ghost predicate AllGave(signal: Signal, pc: ProviderConfig, env: Env, ps: seq<seq<Opt>>, es: seq<seq<Opt>>,
                          cs: seq<Component>)
  {
    && |ps| == |pc.processors| && |es| == |pc.exporters| == |cs|
    && (forall i | 0 <= i < |ps| :: env.processor(i) == Options(Some(ps[i])))
    && (forall i | 0 <= i < |es| :: Gave(signal, env, i, cs[i], es[i]))
  }

  /** Nothing that was given gets lost: all options are in the provider, in order, and so are the components. */
  lemma BuildTakesAll(cfg: Config, signal: Signal, pc: ProviderConfig, opts: seq<Opt>, env: Env)
    returns (ps: seq<seq<Opt>>, es: seq<seq<Opt>>, cs: seq<Component>)
    requires Build(cfg, signal, pc, opts, env).0.Success?
    ensures AllGave(signal, pc, env, ps, es, cs)
    ensures Build(cfg, signal, pc, opts, env).0.value
         == Product(opts + Concat(ps) + Concat(es), Track(pc.exporters, cs))
  {
    var n := |pc.exporters|;
    ps := ProcessorParts(env, |pc.processors|);
    BuildKeepsListOrder(cfg, signal, pc, opts, env);
    es := ExporterParts(cfg, signal, pc.exporters, env, n);
    cs := Components(cfg, signal, pc.exporters, env, n);
    BuildSucceedsIff(cfg, signal, pc, opts, env);
    forall i | 0 <= i < |ps|
      ensures env.processor(i) == Options(Some(ps[i]))
    {
      assert Contributes(cfg, pc.processors[i], env, i);
    }
    forall i | 0 <= i < n
      ensures Gave(signal, env, i, cs[i], es[i])
    {
      assert Resolves(cfg, signal, pc.exporters[i], env, i);
    }
  }

  lemma TrackedWhenLast(ids: seq<Id>, cs: seq<Component>, i: nat)
    requires i < |ids| == |cs| && Distinct(cs)
    ensures cs[i] in Track(ids, cs).Values <==> IsLast(ids, i)
  {
    TrackHoldsLast(ids, cs);
    var m := Track(ids, cs);
    if IsLast(ids, i) {
      assert ids[i] in m;
      var j: nat :| LastFor(ids, ids[i], j) && m[ids[i]] == cs[j];
      assert i == j;
    } else {
      forall id <- m
        ensures m[id] != cs[i]
      {
        var k: nat :| LastFor(ids, id, k) && m[id] == cs[k];
        assert k != i;
      }
    }
  }

  /** Of components that are all different, every one stays tracked exactly when no exporter is listed twice. */
  lemma TrackedIffDistinct(ids: seq<Id>, cs: seq<Component>)
    requires |ids| == |cs| && Distinct(cs)
    ensures Distinct(ids) <==> forall i | 0 <= i < |ids| :: cs[i] in Track(ids, cs).Values
  {
    forall i | 0 <= i < |ids|
      ensures cs[i] in Track(ids, cs).Values <==> IsLast(ids, i)
    {
      TrackedWhenLast(ids, cs, i);
    }
    if !Distinct(ids) {
      var i, j :| 0 <= i < j < |ids| && ids[i] == ids[j];
      assert !IsLast(ids, i);
    }
  }

  /** Listing one exporter twice loses the earlier component. */
  lemma RepeatedIdLoses(id: Id, c: Component, d: Component)
    ensures Track([id, id], [c, d]) == map[id := d]
  {
    assert [id, id][..1] == [id] && [c, d][..1] == [c];
    assert Track([id], [c]) == Track([], [])[id := c];
  }

  /** The components that exporters hand over before the build ends, in list order. */
  function Handed(cfg: Config, signal: Signal, pc: ProviderConfig, env: Env): seq<Component> {
    var ps, es := pc.processors, pc.exporters;
    GoodExportersAreFirst(cfg, signal, es, env, |es|);
    if GoodProcessors(cfg, ps, env, |ps|) < |ps| then []
    else Components(cfg, signal, es, env, GoodExporters(cfg, signal, es, env, |es|))
  }

  /** Some component is handed over exactly when every processor contributes and the first exporter resolves. */
  lemma HandedIff(cfg: Config, signal: Signal, pc: ProviderConfig, env: Env)
    ensures Handed(cfg, signal, pc, env) != [] <==>
            && (forall i | 0 <= i < |pc.processors| :: Contributes(cfg, pc.processors[i], env, i))
            && |pc.exporters| > 0 && Resolves(cfg, signal, pc.exporters[0], env, 0)
  {
    var ps, es := pc.processors, pc.exporters;
    GoodProcessorsAreFirst(cfg, ps, env, |ps|);
    GoodExportersAreFirst(cfg, signal, es, env, |es|);
    assert forall i | 0 <= i < |ps| :: Contributes(cfg, ps[i], env, i) <==> ProcessorFault(cfg, ps, env, i).None?;
    assert |es| > 0 ==> (Resolves(cfg, signal, es[0], env, 0) <==> ExporterReply(cfg, signal, es, env, 0).Built?);
  }

  /** A build that succeeds tracks by id what it was handed. */
  lemma BuiltTracksHanded(cfg: Config, signal: Signal, pc: ProviderConfig, opts: seq<Opt>, env: Env)
    requires Build(cfg, signal, pc, opts, env).0.Success?
    ensures |Handed(cfg, signal, pc, env)| == |pc.exporters|
    ensures Build(cfg, signal, pc, opts, env).0.value.components == Track(pc.exporters, Handed(cfg, signal, pc, env))
  {
    BuildKeepsListOrder(cfg, signal, pc, opts, env);
  }

  // ----- what a build asks, over both lists

  predicate ProcessorAsked(cfg: Config, ids: seq<Id>, env: Env, i: nat)
    requires i < |ids|
  {
    ids[i] in cfg.processors && env.processorFits(i)
  }

  predicate ExporterAsked(cfg: Config, signal: Signal, ids: seq<Id>, env: Env, i: nat)
    requires i < |ids|
  {
    ids[i] in cfg.exporters && (signal.Meter? || env.exporterFits(i))
  }

  /** Whether the reader of a meter's exporter sends the resolver on to the metric exporter. */
  predicate SentOn(signal: Signal, env: Env, i: nat) {
    signal.Meter? && env.reader(i).Failed? && Unimplemented(env.reader(i).cause)
  }

  /**
   Call `m` is for the id at position `at[m]` of the list. Positions go up; none is asked twice but
   by a reader's call and then the metric exporter's.
   */
  ghost predicate InListOrder(calls: seq<Call>, ids: seq<Id>, at: seq<nat>) {
    && |at| == |calls|
    && (forall m | 0 <= m < |at| :: at[m] < |ids| && calls[m].id == ids[at[m]])
    && forall m, n | 0 <= m < n < |at| ::
         at[m] < at[n] || (at[m] == at[n] && calls[m].BuildReader? && calls[n].BuildMetricExporter?)
  }

  /** An exporter's call is for the signal. */
  predicate ForExporter(signal: Signal, c: Call) {
    if signal.Meter? then c.BuildReader? || c.BuildMetricExporter? else c == BuildExporter(signal, c.id)
  }

  ghost predicate TriesMetric(calls: seq<Call>, at: seq<nat>, i: nat) {
    exists m | 0 <= m < |at| && m < |calls| :: at[m] == i && calls[m].BuildMetricExporter?
  }

  lemma OrderExtends(calls: seq<Call>, ids: seq<Id>, at: seq<nat>, c: Call, i: nat)
    requires InListOrder(calls, ids, at) && i < |ids| && c.id == ids[i]
    requires forall m | 0 <= m < |at| ::
               at[m] < i || (at[m] == i && calls[m].BuildReader? && c.BuildMetricExporter?)
    ensures InListOrder(calls + [c], ids, at + [i])
    ensures forall j :: j in at + [i] <==> j in at || j == i
    ensures forall j: nat :: TriesMetric(calls + [c], at + [i], j) <==>
                             TriesMetric(calls, at, j) || (j == i && c.BuildMetricExporter?)
  {
    forall j: nat
      ensures TriesMetric(calls + [c], at + [i], j) <==> TriesMetric(calls, at, j) || (j == i && c.BuildMetricExporter?)
    {
      assert (at + [i])[|at|] == i && (calls + [c])[|at|] == c;
      if TriesMetric(calls, at, j) {
        var m :| 0 <= m < |at| && m < |calls| && at[m] == j && calls[m].BuildMetricExporter?;
        assert (at + [i])[m] == j && (calls + [c])[m] == calls[m];
      }
    }
  }

  lemma {:induction false} ProcessorsInOrder(cfg: Config, signal: Signal, ids: seq<Id>, env: Env, n: nat)
    returns (at: seq<nat>)
    requires n <= |ids|
    ensures InListOrder(AllProcessorCalls(cfg, signal, ids, env, n), ids, at)
    ensures forall c <- AllProcessorCalls(cfg, signal, ids, env, n) :: c == AskOptions(signal, c.id)
    ensures forall i: nat :: i in at <==> i < n && ProcessorAsked(cfg, ids, env, i)
  {
    if n == 0 {
      at := [];
    } else {
      at := ProcessorsInOrder(cfg, signal, ids, env, n - 1);
      if ProcessorAsked(cfg, ids, env, n - 1) {
        var before := AllProcessorCalls(cfg, signal, ids, env, n - 1);
        assert forall m | 0 <= m < |at| :: at[m] in at;
        OrderExtends(before, ids, at, AskOptions(signal, ids[n - 1]), n - 1);
        at := at + [n - 1];
      }
    }
  }

  /** The calls for one exporter extend those for the exporters before it. */
  lemma ExporterInOrder(cfg: Config, signal: Signal, ids: seq<Id>, env: Env, i: nat, calls: seq<Call>, at: seq<nat>)
    returns (at': seq<nat>)
    requires i < |ids| && InListOrder(calls, ids, at) && forall j <- at :: j < i
    ensures InListOrder(calls + ExporterCalls(cfg, signal, ids, env, i), ids, at')
    ensures forall j :: j in at' <==> j in at || (j == i && ExporterAsked(cfg, signal, ids, env, i))
    ensures forall j: nat :: TriesMetric(calls + ExporterCalls(cfg, signal, ids, env, i), at', j) <==>
              TriesMetric(calls, at, j) || (j == i && ids[i] in cfg.exporters && SentOn(signal, env, i))
  {
    at' := at;
    var asked := ExporterCalls(cfg, signal, ids, env, i);
    assert forall m | 0 <= m < |at| :: at[m] in at;
    if ExporterAsked(cfg, signal, ids, env, i) {
      OrderExtends(calls, ids, at, asked[0], i);
      at' := at + [i];
      if SentOn(signal, env, i) {
        var more := calls + [asked[0]];
        assert calls + asked == more + [asked[1]];
        OrderExtends(more, ids, at', asked[1], i);
        at' := at' + [i];
      } else {
        assert asked == [asked[0]];
      }
    } else {
      assert calls + asked == calls;
    }
  }

  lemma CallsNext(opts: seq<Opt>, cfg: Config, signal: Signal, ids: seq<Id>, env: Env, n: nat)
    requires n < |ids|
    ensures ExportersUpto(opts, cfg, signal, ids, env, n + 1).calls
         == ExportersUpto(opts, cfg, signal, ids, env, n).calls + ExporterCalls(cfg, signal, ids, env, n)
  {
  }

  lemma {:induction false} CallsAreForSignal(opts: seq<Opt>, cfg: Config, signal: Signal, ids: seq<Id>, env: Env, n: nat)
    requires n <= |ids|
    ensures forall c <- ExportersUpto(opts, cfg, signal, ids, env, n).calls :: ForExporter(signal, c)
  {
    if n == 0 {
    } else {
      CallsAreForSignal(opts, cfg, signal, ids, env, n - 1);
      CallsNext(opts, cfg, signal, ids, env, n - 1);
      assert forall c <- ExporterCalls(cfg, signal, ids, env, n - 1) :: ForExporter(signal, c);
    }
  }

  /** The calls made for the first `n` exporters are at these positions. */
  ghost predicate AskedUpto(cfg: Config, signal: Signal, ids: seq<Id>, env: Env, n: nat, calls: seq<Call>, at: seq<nat>)
    requires n <= |ids|
  {
    && InListOrder(calls, ids, at)
    && (forall i: nat :: i in at <==> i < n && ExporterAsked(cfg, signal, ids, env, i))
    && (forall i: nat :: TriesMetric(calls, at, i) <==> i < n && ids[i] in cfg.exporters && SentOn(signal, env, i))
  }

  lemma AskedNone(cfg: Config, signal: Signal, ids: seq<Id>, env: Env)
    ensures AskedUpto(cfg, signal, ids, env, 0, [], [])
  {
  }

  lemma AskedNext(opts: seq<Opt>, cfg: Config, signal: Signal, ids: seq<Id>, env: Env, n: nat, at: seq<nat>)
    returns (at': seq<nat>)
    requires n < |ids| && AskedUpto(cfg, signal, ids, env, n, ExportersUpto(opts, cfg, signal, ids, env, n).calls, at)
    ensures AskedUpto(cfg, signal, ids, env, n + 1, ExportersUpto(opts, cfg, signal, ids, env, n + 1).calls, at')
  {
    CallsNext(opts, cfg, signal, ids, env, n);
    at' := ExporterInOrder(cfg, signal, ids, env, n, ExportersUpto(opts, cfg, signal, ids, env, n).calls, at);
  }

  lemma {:induction false} ExportersInOrder(opts: seq<Opt>, cfg: Config, signal: Signal, ids: seq<Id>, env: Env, n: nat)
    returns (at: seq<nat>)
    requires n <= |ids|
    ensures AskedUpto(cfg, signal, ids, env, n, ExportersUpto(opts, cfg, signal, ids, env, n).calls, at)
  {
    if n == 0 {
      AskedNone(cfg, signal, ids, env);
      at := [];
    } else {
      at := ExportersInOrder(opts, cfg, signal, ids, env, n - 1);
      at := AskedNext(opts, cfg, signal, ids, env, n - 1, at);
    }
  }

  /** The first `n` processors contribute. */
  ghost predicate Contribute(cfg: Config, ids: seq<Id>, env: Env, n: nat)
    requires n <= |ids|
  {
    forall i | 0 <= i < n :: Contributes(cfg, ids[i], env, i)
  }

  /** The first `n` exporters resolve. */
  ghost predicate Resolve(cfg: Config, signal: Signal, ids: seq<Id>, env: Env, n: nat)
    requires n <= |ids|
  {
    forall i | 0 <= i < n :: Resolves(cfg, signal, ids[i], env, i)
  }

  lemma ContributeIff(cfg: Config, ids: seq<Id>, env: Env, n: nat)
    requires n <= |ids|
    ensures Contribute(cfg, ids, env, n) <==> n <= GoodProcessors(cfg, ids, env, |ids|)
  {
    GoodProcessorsAreFirst(cfg, ids, env, |ids|);
    assert forall i | 0 <= i < |ids| :: Contributes(cfg, ids[i], env, i) <==> ProcessorFault(cfg, ids, env, i).None?;
  }

  lemma ResolveIff(cfg: Config, signal: Signal, ids: seq<Id>, env: Env, n: nat)
    requires n <= |ids|
    ensures Resolve(cfg, signal, ids, env, n) <==> n <= GoodExporters(cfg, signal, ids, env, |ids|)
  {
    GoodExportersAreFirst(cfg, signal, ids, env, |ids|);
    assert forall i | 0 <= i < |ids| ::
        Resolves(cfg, signal, ids[i], env, i) <==> ExporterReply(cfg, signal, ids, env, i).Built?;
  }

  lemma ProcessorStageAsks(cfg: Config, signal: Signal, ids: seq<Id>, opts: seq<Opt>, env: Env) returns (at: seq<nat>)
    ensures var calls := ProcessorStage(cfg, signal, ids, opts, env).1;
            InListOrder(calls, ids, at) && forall c <- calls :: c == AskOptions(signal, c.id)
    ensures forall i: nat :: i in at <==>
              i < |ids| && Contribute(cfg, ids, env, i) && ProcessorAsked(cfg, ids, env, i)
  {
    at := ProcessorsInOrder(cfg, signal, ids, env, Upto(GoodProcessors(cfg, ids, env, |ids|), |ids|));
    forall i: nat | i < |ids|
      ensures Contribute(cfg, ids, env, i) <==> i <= GoodProcessors(cfg, ids, env, |ids|)
    {
      ContributeIff(cfg, ids, env, i);
    }
  }

  lemma ExporterStageAsks(cfg: Config, signal: Signal, ids: seq<Id>, opts: seq<Opt>, env: Env) returns (at: seq<nat>)
    ensures InListOrder(ExporterStage(cfg, signal, ids, opts, env).1, ids, at)
    ensures forall c <- ExporterStage(cfg, signal, ids, opts, env).1 :: ForExporter(signal, c)
    ensures forall i: nat :: i in at <==>
              i < |ids| && Resolve(cfg, signal, ids, env, i) && ExporterAsked(cfg, signal, ids, env, i)
    ensures forall i <- at ::
              TriesMetric(ExporterStage(cfg, signal, ids, opts, env).1, at, i) <==> SentOn(signal, env, i)
  {
    at := ExportersInOrder(opts, cfg, signal, ids, env, Upto(GoodExporters(cfg, signal, ids, env, |ids|), |ids|));
    CallsAreForSignal(opts, cfg, signal, ids, env, Upto(GoodExporters(cfg, signal, ids, env, |ids|), |ids|));
    forall i: nat | i < |ids|
      ensures Resolve(cfg, signal, ids, env, i) <==> i <= GoodExporters(cfg, signal, ids, env, |ids|)
    {
      ResolveIff(cfg, signal, ids, env, i);
    }
  }

  /**
   A build asks processors and then exporters, each list in its order and each position at most once.
   It asks exactly those that exist, fit and have no offender before them, and a meter's metric
   exporter exactly when the reader is unimplemented.
   */
  lemma BuildAsksInOrder(cfg: Config, signal: Signal, pc: ProviderConfig, opts: seq<Opt>, env: Env)
    returns (ps: seq<nat>, es: seq<nat>)
    ensures |Build(cfg, signal, pc, opts, env).1| == |ps| + |es|
    ensures var calls := Build(cfg, signal, pc, opts, env).1;
            && InListOrder(calls[..|ps|], pc.processors, ps)
            && (forall c <- calls[..|ps|] :: c == AskOptions(signal, c.id))
            && InListOrder(calls[|ps|..], pc.exporters, es) && (forall c <- calls[|ps|..] :: ForExporter(signal, c))
            && (forall i <- es :: TriesMetric(calls[|ps|..], es, i) <==> SentOn(signal, env, i))
    ensures forall i: nat :: i in ps <==>
              && i < |pc.processors| && Contribute(cfg, pc.processors, env, i)
              && ProcessorAsked(cfg, pc.processors, env, i)
    ensures forall i: nat :: i in es <==>
              && Contribute(cfg, pc.processors, env, |pc.processors|)
              && i < |pc.exporters| && Resolve(cfg, signal, pc.exporters, env, i)
              && ExporterAsked(cfg, signal, pc.exporters, env, i)
  {
    ps := ProcessorStageAsks(cfg, signal, pc.processors, opts, env);
    ContributeIff(cfg, pc.processors, env, |pc.processors|);
    var (r, calls) := ProcessorStage(cfg, signal, pc.processors, opts, env);
    if r.Success? {
      es := ExporterStageAsks(cfg, signal, pc.exporters, r.value, env);
      var more := ExporterStage(cfg, signal, pc.exporters, r.value, env).1;
      assert (calls + more)[..|ps|] == calls && (calls + more)[|ps|..] == more;
    } else {
      es := [];
      assert calls[..|ps|] == calls && calls[|ps|..] == [];
    }
  }
}
