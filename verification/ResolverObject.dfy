/** The resolver as an object. */
module ResolverObject {
  import opened Wrappers
  import opened Ids
  import opened Building
  import opened Resolving
  import opened Lifecycle

  /** A configuration as a caller holds it; None is a nil pointer or map. */
  class ConfigObject {
    var enabled: Option<bool>
    var processors: Option<set<Id>>
    var exporters: Option<set<Id>>
    var providers: Option<map<Id, ProviderConfig>>

    constructor ()
      ensures enabled.None? && processors == Some({}) && exporters == Some({}) && providers == Some(map[])
    {
      enabled, processors, exporters, providers := None, Some({}), Some({}), Some(map[]);
    }

    function IsEnabled(): (b: bool)
      reads this
      ensures b <==> enabled != Some(false)
    {
      enabled.None? || enabled.value
    }

    /** What a lookup in the configuration finds; a nil map holds nothing. */
    function Value(): (c: Config)
      reads this
      ensures forall id :: id in c.processors <==> processors.Some? && id in processors.value
      ensures forall id :: id in c.exporters <==> exporters.Some? && id in exporters.value
      ensures forall id :: id in c.providers <==> providers.Some? && id in providers.value
      ensures providers.Some? ==> c.providers == providers.value
    {
      Config(
        if processors.Some? then processors.value else {},
        if exporters.Some? then exporters.value else {},
        if providers.Some? then providers.value else map[])
    }
  }

  /** A missing or disabled configuration counts as an empty one; the caller's gets its missing maps. */
  method Make(c: ConfigObject?) returns (r: Resolver)
    modifies c
    ensures fresh(r) && r.Valid() && r.Table() == EMPTY && r.calls == [] && r.events == []
    ensures r.config == if c != null && old(c.IsEnabled()) then old(c.Value()) else Config({}, {}, map[])
    ensures c != null ==> c.Value() == old(c.Value()) && c.enabled == old(c.enabled)
    ensures c != null && old(c.IsEnabled()) ==> c.processors.Some? && c.exporters.Some? && c.providers.Some?
    ensures c != null && !old(c.IsEnabled()) ==>
              c.processors == old(c.processors) && c.exporters == old(c.exporters) && c.providers == old(c.providers)
  {
    var d := c;
    if d == null || !d.IsEnabled() {
      d := new ConfigObject();
    }
    if d.processors.None? {
      d.processors := Some({});
    }
    if d.exporters.None? {
      d.exporters := Some({});
    }
    if d.providers.None? {
      d.providers := Some(map[]);
    }
    r := new Resolver(d.Value());
  }

  class Resolver {
    const config: Config
    var providers: map<Id, Provider>
    var built: nat
    ghost var calls: seq<Call>      // calls of processors and builders so far
    ghost var events: seq<Event>    // calls of Start and Shutdown of components so far

    ghost function Table(): State
      reads this
    {
      State(providers, built)
    }

    ghost predicate Valid()
      reads this
    {
      Sound(Table())
    }

    constructor (config: Config)
      ensures Valid() && Table() == EMPTY && calls == [] && events == []
      ensures this.config == config
    {
      this.config := config;
      providers, built, calls, events := map[], 0, [], [];
    }

    /** The options of one listed processor. */
    method AskProcessor(signal: Signal, ids: seq<Id>, i: nat, env: Env) returns (r: Result<seq<Opt>, Cause>)
      requires i < |ids|
      modifies this`calls
      ensures calls == old(calls) + ProcessorCalls(config, signal, ids, env, i)
      ensures match ProcessorFault(config, ids, env, i)
              case Some(cause) => r == Failure(cause)
              case None => r.Success? && env.processor(i).Options? && env.processor(i).opts == Some(r.value)
    {
      if ids[i] !in config.processors {
        return Failure(NotFound);
      }
      if !env.processorFits(i) {
        return Failure(NotForSignal);
      }
      calls := calls + [AskOptions(signal, ids[i])];
      var reply := env.processor(i);
      if reply.Refused? {
        return Failure(reply.cause);
      }
      if reply.opts.None? {
        return Failure(NotForSignal);
      }
      return Success(reply.opts.value);
    }

    /** The component and options of one listed exporter; a metric reader is preferred to an exporter. */
    method AskExporter(signal: Signal, ids: seq<Id>, i: nat, env: Env) returns (r: BuilderReply)
      requires i < |ids|
      modifies this`calls
      ensures calls == old(calls) + ExporterCalls(config, signal, ids, env, i)
      ensures r == ExporterReply(config, signal, ids, env, i)
    {
      if ids[i] !in config.exporters {
        return Failed(NotFound);
      }
      if signal.Meter? {
        calls := calls + [BuildReader(ids[i])];
        var reader := env.reader(i);
        if reader.Built? {
          return reader;
        } else if !Unimplemented(reader.cause) {
          return reader;
        }
        calls := calls + [BuildMetricExporter(ids[i])];
        var exporter := env.metricExporter(i);
        if exporter.Built? {
          return exporter;
        } else if !Unimplemented(exporter.cause) {
          return exporter;
        }
        return Failed(UNIMPLEMENTED);
      }
      if !env.exporterFits(i) {
        return Failed(NotForSignal);
      }
      calls := calls + [BuildExporter(signal, ids[i])];
      return env.builder(i);
    }

    method BuildProcessors(signal: Signal, ids: seq<Id>, opts: seq<Opt>, env: Env)
      returns (r: Result<seq<Opt>, Error>)
      modifies this`calls
      ensures r == ProcessorStage(config, signal, ids, opts, env).0
      ensures calls == old(calls) + ProcessorStage(config, signal, ids, opts, env).1
    {
      var all := opts;
      for i := 0 to |ids|
        invariant GoodProcessors(config, ids, env, i) == i
        invariant all == ProcessorOpts(opts, env, i)
        invariant calls == old(calls) + AllProcessorCalls(config, signal, ids, env, i)
      {
        var reply := AskProcessor(signal, ids, i, env);
        if reply.Failure? {
          ProcessorStageFails(config, signal, ids, opts, env, i);
          return Failure(AtProcessor(ids[i], reply.error));
        }
        all := all + reply.value;
      }
      return Success(all);
    }

    /** Adds one exporter to what came of those before it, after the calls `past`, or reports its cause. */
    method AddExporter(signal: Signal, ids: seq<Id>, i: nat, env: Env, ghost opts: seq<Opt>, ghost past: seq<Call>,
                       all: seq<Opt>, components: map<Id, Component>, ghost made: seq<Call>)
      returns (r: Result<Product, Error>, ghost made': seq<Call>)
      requires i < |ids| && GoodExporters(config, signal, ids, env, i) == i
      requires Progress(all, components, made) == ExportersUpto(opts, config, signal, ids, env, i)
      requires calls == past + made
      modifies this`calls
      ensures calls == past + made'
      ensures match r
              case Success(product) =>
                && GoodExporters(config, signal, ids, env, i + 1) == i + 1
                && Progress(product.opts, product.components, made')
                   == ExportersUpto(opts, config, signal, ids, env, i + 1)
              case Failure(_) => (r, made') == ExporterStage(config, signal, ids, opts, env)
    {
      made' := made + ExporterCalls(config, signal, ids, env, i);
      var reply := AskExporter(signal, ids, i, env);
      if reply.Failed? {
        ExporterStageFails(config, signal, ids, opts, env, i);
        return Failure(AtExporter(ids[i], reply.cause)), made';
      }
      ExporterAdvances(opts, config, signal, ids, env, i, all, components, made);
      return Success(Product(all + reply.opts, components[ids[i] := reply.component])), made';
    }

    method BuildExporters(signal: Signal, ids: seq<Id>, opts: seq<Opt>, env: Env)
      returns (r: Result<Product, Error>, ghost made: seq<Call>)
      modifies this`calls
      ensures (r, made) == ExporterStage(config, signal, ids, opts, env)
      ensures calls == old(calls) + made
    {
      var all := opts;
      var components: map<Id, Component> := map[];
      made := [];
      for i := 0 to |ids|
        invariant GoodExporters(config, signal, ids, env, i) == i
        invariant Progress(all, components, made) == ExportersUpto(opts, config, signal, ids, env, i)
        invariant calls == old(calls) + made
      {
        r, made := AddExporter(signal, ids, i, env, opts, old(calls), all, components, made);
        if r.Failure? {
          return;
        }
        all, components := r.value.opts, r.value.components;
      }
      ExporterStageEnds(config, signal, ids, opts, env, all, components, made);
      return Success(Product(all, components)), made;
    }

    /** Builds a provider that is configured but not in the table yet, and keeps it on success. */
    method BuildProvider(signal: Signal, name: string, opts: seq<Opt>, env: Env)
      returns (answer: Answer, err: Option<Error>, ghost made: seq<Call>)
      requires ProviderId(signal, name) !in providers && ProviderId(signal, name) in config.providers
      modifies this`providers, this`built, this`calls
      ensures calls == old(calls) + made
      ensures (Table(), Response(answer, err, made)) == Handle(config, old(Table()), Request(signal, name, opts, env))
    {
      var id := ProviderId(signal, name);
      var pc := config.providers[id];
      made := Build(config, signal, pc, opts, env).1;
      var all := BuildProcessors(signal, pc.processors, opts, env);
      if all.Failure? {
        return Noop, Some(all.error), made;
      }
      var product, asked := BuildExporters(signal, pc.exporters, all.value, env);
      if product.Failure? {
        return Noop, Some(product.error), made;
      }
      var v := ProviderValue(signal, built, product.value.opts);
      providers := providers[id := Provider(v, product.value.components)];
      built := built + 1;
      return Real(v), None, made;
    }

    /** A type assertion on the value of a provider; it must not fail. */
    function As(v: ProviderValue, signal: Signal): ProviderValue
      requires v.signal == signal
    {
      v
    }

    lemma EntryIsOfSignal(signal: Signal, name: string)
      requires Valid()
      ensures ProviderId(signal, name) in providers ==> providers[ProviderId(signal, name)].value.signal == signal
    {
      ProviderIdsDiffer(signal, name, signal, name);
      if ProviderId(signal, name) in providers {
        TypeNamesDiffer(signal, providers[ProviderId(signal, name)].value.signal);
      }
    }

    method TracerProvider(name: string, opts: seq<Opt>, env: Env)
      returns (answer: Answer, err: Option<Error>, ghost made: seq<Call>)
      requires Valid()
      modifies this`providers, this`built, this`calls
      ensures Valid() && calls == old(calls) + made && events == old(events)
      ensures (Table(), Response(answer, err, made)) == Handle(config, old(Table()), Request(Tracer, name, opts, env))
    {
      HandleKeepsSound(config, Table(), Request(Tracer, name, opts, env));
      var id := ProviderId(Tracer, name);
      if id in providers {
        EntryIsOfSignal(Tracer, name);
        return Real(As(providers[id].value, Tracer)), None, [];
      }
      if id !in config.providers {
        return Noop, Some(NotExist), [];
      }
      answer, err, made := BuildProvider(Tracer, name, opts, env);
    }

    method MeterProvider(name: string, opts: seq<Opt>, env: Env)
      returns (answer: Answer, err: Option<Error>, ghost made: seq<Call>)
      requires Valid()
      modifies this`providers, this`built, this`calls
      ensures Valid() && calls == old(calls) + made && events == old(events)
      ensures (Table(), Response(answer, err, made)) == Handle(config, old(Table()), Request(Meter, name, opts, env))
    {
      HandleKeepsSound(config, Table(), Request(Meter, name, opts, env));
      var id := ProviderId(Meter, name);
      if id in providers {
        EntryIsOfSignal(Meter, name);
        return Real(As(providers[id].value, Meter)), None, [];
      }
      if id !in config.providers {
        return Noop, Some(NotExist), [];
      }
      answer, err, made := BuildProvider(Meter, name, opts, env);
    }

    method LoggerProvider(name: string, opts: seq<Opt>, env: Env)
      returns (answer: Answer, err: Option<Error>, ghost made: seq<Call>)
      requires Valid()
      modifies this`providers, this`built, this`calls
      ensures Valid() && calls == old(calls) + made && events == old(events)
      ensures (Table(), Response(answer, err, made)) == Handle(config, old(Table()), Request(Logger, name, opts, env))
    {
      HandleKeepsSound(config, Table(), Request(Logger, name, opts, env));
      var id := ProviderId(Logger, name);
      if id in providers {
        EntryIsOfSignal(Logger, name);
        return Real(As(providers[id].value, Logger)), None, [];
      }
      if id !in config.providers {
        return Nil, Some(NotExist), [];
      }
      answer, err, made := BuildProvider(Logger, name, opts, env);
    }

    // ----- start and shutdown

    method RollBack(started: seq<Key>)
      modifies this`events
      ensures events == old(events) + Stops(providers, started)
    {
      for i := 0 to |started|
        invariant events == old(events) + Stops(providers, started[..i])
      {
        assert started[..i + 1][..i] == started[..i];
        if CanShutdown(providers, started[i]) {
          events := events + [ShutdownCalled(started[i])];
        }
      }
      assert started[..|started|] == started;
    }

    /**
     Starts every component that can be started, providers and their components in any order, until
     one fails; then shuts down those started. `startErr` is what each Start would return.
     */
    method Start(startErr: Key -> Option<string>) returns (err: Option<LifecycleError>, ghost order: seq<Key>)
      modifies this`events
      ensures StartedUp(providers, startErr, order, err)
      ensures events == old(events) + StartUpEvents(providers, order, err)
    {
      var started: seq<Key> := [];
      var pids := providers.Keys;
      while pids != {}
        invariant pids <= providers.Keys
        invariant StartedBut(providers, startErr, started, pids, "", {})
        invariant events == old(events) + Starts(started)
      {
        var pid :| pid in pids;
        StartsEnter(providers, startErr, started, pids, "", pid);
        pids := pids - {pid};
        var cids := providers[pid].components.Keys;
        while cids != {}
          invariant cids <= providers[pid].components.Keys
          invariant StartedBut(providers, startErr, started, pids, pid, cids)
          invariant events == old(events) + Starts(started)
        {
          var cid :| cid in cids;
          var key := Key(pid, cid);
          if !providers[pid].components[cid].canStart {
            StartsSkip(providers, startErr, started, pids, pid, cids, cid);
            cids := cids - {cid};
            continue;
          }
          StartsTake(providers, startErr, started, pids, pid, cids, cid);
          cids := cids - {cid};
          events := events + [StartCalled(key)];
          ghost var more := started + [key];
          assert Starts(more) == Starts(started) + [StartCalled(key)];
          if startErr(key).Some? {
            err := Some(LifecycleError(key, startErr(key).value));
            order := more;
            assert Survivors(order, err) == started;
            RollBack(started);
            return;
          }
          started := started + [key];
        }
      }
      return None, started;
    }

    /** Shuts down one component and collects its error. */
    method ShutdownComponent(pid: Id, cid: Id, shutErr: Key -> Option<string>, errs: seq<LifecycleError>,
                             ghost past: seq<Event>, ghost order: seq<Key>, ghost pids: set<Id>, ghost cids: set<Id>)
      returns (ghost order': seq<Key>, errs': seq<LifecycleError>)
      requires CanShutdown(providers, Key(pid, cid)) && pid !in pids && cid in cids
      requires ShutBut(providers, shutErr, order, errs, pids, pid, cids)
      requires events == past + Stops(providers, order)
      modifies this`events
      ensures ShutBut(providers, shutErr, order', errs', pids, pid, cids - {cid})
      ensures events == past + Stops(providers, order')
    {
      var key := Key(pid, cid);
      StopsTake(providers, shutErr, order, errs, pids, pid, cids, cid);
      events := events + [ShutdownCalled(key)];
      assert (order + [key])[..|order|] == order;
      order' := order + [key];
      errs' := errs;
      if shutErr(key).Some? {
        errs' := errs + [LifecycleError(key, shutErr(key).value)];
      }
    }

    /** Shuts down the components of one provider; `order` and `errs` are those so far, after the events `past`. */
    method ShutdownProvider(pid: Id, shutErr: Key -> Option<string>, errs: seq<LifecycleError>,
                            ghost past: seq<Event>, ghost order: seq<Key>, ghost pids: set<Id>)
      returns (ghost order': seq<Key>, errs': seq<LifecycleError>)
      requires pid in providers && pid !in pids
      requires ShutBut(providers, shutErr, order, errs, pids, pid, providers[pid].components.Keys)
      requires events == past + Stops(providers, order)
      modifies this`events
      ensures ShutBut(providers, shutErr, order', errs', pids, pid, {})
      ensures events == past + Stops(providers, order')
    {
      order', errs' := order, errs;
      var cids := providers[pid].components.Keys;
      while cids != {}
        invariant cids <= providers[pid].components.Keys
        invariant ShutBut(providers, shutErr, order', errs', pids, pid, cids)
        invariant events == past + Stops(providers, order')
      {
        var cid :| cid in cids;
        if providers[pid].components[cid].canShutdown {
          order', errs' := ShutdownComponent(pid, cid, shutErr, errs', past, order', pids, cids);
        } else {
          StopsSkip(providers, shutErr, order', errs', pids, pid, cids, cid);
        }
        cids := cids - {cid};
      }
    }

    /** Shuts down every component that supports it, however many fail; `shutErr` is what each returns. */
    method Shutdown(shutErr: Key -> Option<string>)
      returns (err: Option<seq<LifecycleError>>, ghost order: seq<Key>)
      modifies this`events
      ensures events == old(events) + Stops(providers, order)
      ensures ShutDown(providers, shutErr, order, if err.Some? then err.value else [])
      ensures err.Some? ==> err.value != []
    {
      var errs: seq<LifecycleError> := [];
      var pids := providers.Keys;
      order := [];
      while pids != {}
        invariant pids <= providers.Keys
        invariant ShutBut(providers, shutErr, order, errs, pids, "", {})
        invariant events == old(events) + Stops(providers, order)
      {
        var pid :| pid in pids;
        StopsEnter(providers, shutErr, order, errs, pids, "", pid);
        pids := pids - {pid};
        order, errs := ShutdownProvider(pid, shutErr, errs, old(events), order, pids);
        StopsLeave(providers, shutErr, order, errs, pids, pid);
      }
      return if errs == [] then None else Some(errs), order;
    }
  }
}
