/** The resolver: a table of providers, each built on first request and then kept. */
module Resolving {
  import opened Wrappers
  import opened Ids
  import opened Building

  function TypeName(signal: Signal): (s: string)
    ensures s != "" && forall i | 0 <= i < |s| :: s[i] != '/'
  {
    match signal
    case Tracer => "tracer"
    case Meter => "meter"
    case Logger => "logger"
  }

  /** The key under which the provider of a signal with a name is kept. */
  function ProviderId(signal: Signal, name: string): Id {
    WithName(TypeName(signal), name)
  }

  /** A provider of the SDK; its serial number stands for its identity. */
  datatype ProviderValue = ProviderValue(signal: Signal, serial: nat, opts: seq<Opt>)

  datatype Provider = Provider(value: ProviderValue, components: map<Id, Component>)

  datatype State = State(providers: map<Id, Provider>, built: nat)

  datatype Request = Request(signal: Signal, name: string, opts: seq<Opt>, env: Env)

  /** What a request returns besides its error: a provider, one that does nothing, or nil. */
  datatype Answer = Real(value: ProviderValue) | Noop | Nil

  datatype Response = Response(answer: Answer, err: Option<Error>, calls: seq<Call>)

  const EMPTY: State := State(map[], 0)

  function Keep(s: State, id: Id, p: Provider): State {
    State(s.providers[id := p], s.built + 1)
  }

  /** The response to one request, and the table after it. */
  function Handle(cfg: Config, s: State, q: Request): (State, Response) {
    var id := ProviderId(q.signal, q.name);
    if id in s.providers then (s, Response(Real(s.providers[id].value), None, []))
    else if id !in cfg.providers then
      (s, Response(if q.signal.Logger? then Nil else Noop, Some(NotExist), []))
    else
      var (r, calls) := Build(cfg, q.signal, cfg.providers[id], q.opts, q.env);
      match r
      case Failure(e) => (s, Response(Noop, Some(e), calls))
      case Success(product) =>
        var v := ProviderValue(q.signal, s.built, product.opts);
        (Keep(s, id, Provider(v, product.components)), Response(Real(v), None, calls))
  }

  function RunFrom(cfg: Config, s: State, qs: seq<Request>): State
    decreases |qs|
  {
    if qs == [] then s else RunFrom(cfg, Handle(cfg, s, qs[0]).0, qs[1..])
  }

  /** Whether the request builds a provider, for the first time. */
  predicate Builds(cfg: Config, s: State, q: Request) {
    ProviderId(q.signal, q.name) !in s.providers && ProviderId(q.signal, q.name) in cfg.providers
  }

  lemma TypeNameIsType(signal: Signal)
    ensures Type(TypeName(signal)) == TypeName(signal)
  {
    assert !Cut(TypeName(signal)).2;
  }

  lemma TypeNamesDiffer(a: Signal, b: Signal)
    ensures TypeName(a) == TypeName(b) <==> a == b
  {
    assert TypeName(Tracer)[0] != TypeName(Meter)[0] && TypeName(Meter)[0] != TypeName(Logger)[0];
  }

  /** The keys as they are written in a configuration. */
  lemma ProviderIds(name: string)
    ensures ProviderId(Tracer, name) == if name == "" then "tracer" else "tracer/" + name
    ensures ProviderId(Meter, name) == if name == "" then "meter" else "meter/" + name
    ensures ProviderId(Logger, name) == if name == "" then "logger" else "logger/" + name
  {
    TypeNameIsType(Tracer);
    TypeNameIsType(Meter);
    TypeNameIsType(Logger);
  }

  /** Different signals or names never share a key, whatever slashes the names contain. */
  lemma ProviderIdsDiffer(a: Signal, m: string, b: Signal, n: string)
    ensures Type(ProviderId(a, m)) == TypeName(a)
    ensures ProviderId(a, m) == ProviderId(b, n) <==> a == b && m == n
  {
    TypeNameIsType(a);
    TypeNameIsType(b);
    TypeNamesDiffer(a, b);
    WithNameReadsBack(TypeName(a), m);
    WithNameInjective(TypeName(a), TypeName(b), m, n);
  }

  /** Every entry is of the signal that its key is for, and no two entries are the same provider. */
  ghost predicate Sound(s: State) {
    && (forall id <- s.providers :: Type(id) == TypeName(s.providers[id].value.signal))
    && (forall id <- s.providers :: s.providers[id].value.serial < s.built)
    && (forall a <- s.providers, b <- s.providers ::
          a != b ==> s.providers[a].value.serial != s.providers[b].value.serial)
  }

  ghost predicate Extends(s: State, t: State) {
    forall id <- s.providers :: id in t.providers && t.providers[id] == s.providers[id]
  }

  lemma KeepIsSound(s: State, id: Id, p: Provider)
    requires Sound(s) && id !in s.providers
    requires Type(id) == TypeName(p.value.signal) && p.value.serial == s.built
    ensures Sound(Keep(s, id, p)) && Extends(s, Keep(s, id, p))
  {
  }

  lemma HandleKeepsSound(cfg: Config, s: State, q: Request)
    requires Sound(s)
    ensures Sound(Handle(cfg, s, q).0) && Extends(s, Handle(cfg, s, q).0)
  {
    var id := ProviderId(q.signal, q.name);
    if id !in s.providers && id in cfg.providers {
      match Build(cfg, q.signal, cfg.providers[id], q.opts, q.env).0
      case Failure(_) =>
      case Success(product) =>
        ProviderIdsDiffer(q.signal, q.name, q.signal, q.name);
        KeepIsSound(s, id, Provider(ProviderValue(q.signal, s.built, product.opts), product.components));
    }
  }

  lemma SerialsTell(s: State, i: Id, j: Id)
    requires Sound(s) && i in s.providers && j in s.providers
    ensures s.providers[i].value == s.providers[j].value <==> i == j
  {
  }

  /** Over any run entries stay as they are and the table stays sound. */
  lemma {:induction false} RunKeepsEntries(cfg: Config, s: State, qs: seq<Request>)
    requires Sound(s)
    ensures Sound(RunFrom(cfg, s, qs)) && Extends(s, RunFrom(cfg, s, qs))
    decreases |qs|
  {
    if qs == [] {
    } else {
      HandleKeepsSound(cfg, s, qs[0]);
      var t := Handle(cfg, s, qs[0]).0;
      RunKeepsEntries(cfg, t, qs[1..]);
    }
  }

  /** In every reachable table the entry for a signal and a name is of that signal: no type assertion fails. */
  lemma TypeAssertionsHold(cfg: Config, qs: seq<Request>, signal: Signal, name: string)
    ensures var s := RunFrom(cfg, EMPTY, qs);
            ProviderId(signal, name) in s.providers ==> s.providers[ProviderId(signal, name)].value.signal == signal
  {
    RunKeepsEntries(cfg, EMPTY, qs);
    ProviderIdsDiffer(signal, name, signal, name);
    var s := RunFrom(cfg, EMPTY, qs);
    if ProviderId(signal, name) in s.providers {
      TypeNamesDiffer(signal, s.providers[ProviderId(signal, name)].value.signal);
    }
  }

  /** A request that fails leaves the table as it was. */
  lemma FailedRequestKeepsTable(cfg: Config, s: State, q: Request)
    ensures Handle(cfg, s, q).1.err.Some? ==> Handle(cfg, s, q).0 == s && !Handle(cfg, s, q).1.answer.Real?
    ensures Handle(cfg, s, q).1.err.None? ==>
              && ProviderId(q.signal, q.name) in Handle(cfg, s, q).0.providers
              && Handle(cfg, s, q).1.answer == Real(Handle(cfg, s, q).0.providers[ProviderId(q.signal, q.name)].value)
  {
  }

  /**
   Once a request has succeeded, every later one for the same signal and name gets the same provider,
   calls no builder and changes nothing, whatever came between and whatever builders would reply now.
   */
  lemma LaterRequestsReuse(cfg: Config, before: seq<Request>, first: Request, between: seq<Request>, later: Request)
    requires later.signal == first.signal && later.name == first.name
    requires Handle(cfg, RunFrom(cfg, EMPTY, before), first).1.err.None?
    ensures var s := RunFrom(cfg, EMPTY, before);
            var t := RunFrom(cfg, Handle(cfg, s, first).0, between);
            Handle(cfg, t, later) == (t, Response(Handle(cfg, s, first).1.answer, None, []))
  {
    var s := RunFrom(cfg, EMPTY, before);
    RunKeepsEntries(cfg, EMPTY, before);
    HandleKeepsSound(cfg, s, first);
    FailedRequestKeepsTable(cfg, s, first);
    RunKeepsEntries(cfg, Handle(cfg, s, first).0, between);
  }

  /** Two successful requests of a run get the same provider exactly when they name the same signal and name. */
  lemma SameProviderIffSameRequest(cfg: Config, before: seq<Request>, a: Request, between: seq<Request>, b: Request)
    requires Handle(cfg, RunFrom(cfg, EMPTY, before), a).1.err.None?
    requires Handle(cfg, RunFrom(cfg, Handle(cfg, RunFrom(cfg, EMPTY, before), a).0, between), b).1.err.None?
    ensures var s := RunFrom(cfg, EMPTY, before);
            var t := RunFrom(cfg, Handle(cfg, s, a).0, between);
            Handle(cfg, s, a).1.answer == Handle(cfg, t, b).1.answer <==> a.signal == b.signal && a.name == b.name
  {
    var s := RunFrom(cfg, EMPTY, before);
    var s' := Handle(cfg, s, a).0;
    var t := RunFrom(cfg, s', between);
    var t' := Handle(cfg, t, b).0;
    var i, j := ProviderId(a.signal, a.name), ProviderId(b.signal, b.name);
    assert Sound(s') && Sound(t') && Extends(s', t) && Extends(t, t') by {
      RunKeepsEntries(cfg, EMPTY, before);
      HandleKeepsSound(cfg, s, a);
      RunKeepsEntries(cfg, s', between);
      HandleKeepsSound(cfg, t, b);
    }
    FailedRequestKeepsTable(cfg, s, a);
    FailedRequestKeepsTable(cfg, t, b);
    assert t'.providers[i] == s'.providers[i];
    SerialsTell(t', i, j);
    ProviderIdsDiffer(a.signal, a.name, b.signal, b.name);
  }

  /** The logger yields nil exactly for a name that is neither built nor configured. */
  lemma NilIffLoggerUnconfigured(cfg: Config, s: State, q: Request)
    ensures var id := ProviderId(q.signal, q.name);
            && (Handle(cfg, s, q).1.answer.Nil? <==> q.signal.Logger? && id !in s.providers && id !in cfg.providers)
            && (Handle(cfg, s, q).1.err == Some(NotExist) <==> id !in s.providers && id !in cfg.providers)
  {
  }

  /** For the same unconfigured name a tracer is a no-op provider and a logger is nil. */
  lemma UnconfiguredNamesDiffer(name: string, opts: seq<Opt>, env: Env)
    ensures var cfg := Config({}, {}, map[]);
            && Handle(cfg, EMPTY, Request(Tracer, name, opts, env)).1 == Response(Noop, Some(NotExist), [])
            && Handle(cfg, EMPTY, Request(Logger, name, opts, env)).1 == Response(Nil, Some(NotExist), [])
  {
  }

  /**
   A provider built for a request has the caller's options, then those each processor gave, then those
   each exporter came with, and tracks the components that came with them.
   */
  lemma ProviderHasAll(cfg: Config, s: State, q: Request)
    returns (ps: seq<seq<Opt>>, es: seq<seq<Opt>>, cs: seq<Component>)
    requires Builds(cfg, s, q) && Handle(cfg, s, q).1.err.None?
    ensures AllGave(q.signal, cfg.providers[ProviderId(q.signal, q.name)], q.env, ps, es, cs)
    ensures var id := ProviderId(q.signal, q.name);
            var v := ProviderValue(q.signal, s.built, q.opts + Concat(ps) + Concat(es));
            && Handle(cfg, s, q).1.answer == Real(v)
            && Handle(cfg, s, q).0.providers == s.providers[id := Provider(v, Track(cfg.providers[id].exporters, cs))]
  {
    ps, es, cs := BuildTakesAll(cfg, q.signal, cfg.providers[ProviderId(q.signal, q.name)], q.opts, q.env);
  }

  /** The error of a first-time request names the first offender and its cause. */
  lemma RequestNamesFirstOffender(cfg: Config, s: State, q: Request)
    requires Builds(cfg, s, q) && Handle(cfg, s, q).1.err.Some?
    ensures var pc := cfg.providers[ProviderId(q.signal, q.name)];
            match Handle(cfg, s, q).1.err.value
            case NotExist => false
            case AtProcessor(id, cause) =>
              exists k | 0 <= k < |pc.processors| ::
                && id == pc.processors[k] && ProcessorFails(cfg, id, q.env, k, cause)
                && forall i | 0 <= i < k :: Contributes(cfg, pc.processors[i], q.env, i)
            case AtExporter(id, cause) =>
              && (forall i | 0 <= i < |pc.processors| :: Contributes(cfg, pc.processors[i], q.env, i))
              && exists k | 0 <= k < |pc.exporters| ::
                && id == pc.exporters[k] && ExporterFails(cfg, q.signal, id, q.env, k, cause)
                && forall i | 0 <= i < k :: Resolves(cfg, q.signal, pc.exporters[i], q.env, i)
  {
    BuildNamesFirstOffender(cfg, q.signal, cfg.providers[ProviderId(q.signal, q.name)], q.opts, q.env);
  }

  // ----- components that nobody can shut down any more

  /** The components that Start and Shutdown get to see. */
  ghost function Tracked(s: State): set<Component> {
    set id, cid | id in s.providers && cid in s.providers[id].components :: s.providers[id].components[cid]
  }

  function HandedTo(cfg: Config, s: State, q: Request): seq<Component>
    requires Builds(cfg, s, q)
  {
    Handed(cfg, q.signal, cfg.providers[ProviderId(q.signal, q.name)], q.env)
  }

  /** Some component that the request was handed is in no entry afterwards. */
  ghost predicate Loses(cfg: Config, s: State, q: Request)
    requires Builds(cfg, s, q)
  {
    exists i | 0 <= i < |HandedTo(cfg, s, q)| :: HandedTo(cfg, s, q)[i] !in Tracked(Handle(cfg, s, q).0)
  }

  lemma TrackedAfterKeep(s: State, id: Id, p: Provider, c: Component)
    requires id !in s.providers
    ensures c in Tracked(Keep(s, id, p)) <==> c in Tracked(s) || c in p.components.Values
  {
    if c in Tracked(s) {
      var i, cid :| i in s.providers && cid in s.providers[i].components && s.providers[i].components[cid] == c;
      assert Keep(s, id, p).providers[i] == s.providers[i];
    }
    if c in p.components.Values {
      var cid :| cid in p.components && p.components[cid] == c;
      assert Keep(s, id, p).providers[id].components[cid] == c;
    }
  }

  /** A first-time request that fails changes nothing, so whatever it was handed is lost. */
  lemma FailedBuildLosesIff(cfg: Config, s: State, q: Request)
    requires Builds(cfg, s, q) && Handle(cfg, s, q).1.err.Some?
    requires forall c <- HandedTo(cfg, s, q) :: c !in Tracked(s)
    ensures Handle(cfg, s, q).0 == s
    ensures var pc := cfg.providers[ProviderId(q.signal, q.name)];
            Loses(cfg, s, q) <==>
            && (forall i | 0 <= i < |pc.processors| :: Contributes(cfg, pc.processors[i], q.env, i))
            && |pc.exporters| > 0 && Resolves(cfg, q.signal, pc.exporters[0], q.env, 0)
  {
    HandedIff(cfg, q.signal, cfg.providers[ProviderId(q.signal, q.name)], q.env);
    if HandedTo(cfg, s, q) != [] {
      assert HandedTo(cfg, s, q)[0] !in Tracked(s);
    }
  }

  /** A first-time request that succeeds loses a component exactly when an exporter is listed twice. */
  lemma SuccessfulBuildLosesIff(cfg: Config, s: State, q: Request)
    requires Builds(cfg, s, q) && Handle(cfg, s, q).1.err.None?
    requires Distinct(HandedTo(cfg, s, q)) && forall c <- HandedTo(cfg, s, q) :: c !in Tracked(s)
    ensures Loses(cfg, s, q) <==> !Distinct(cfg.providers[ProviderId(q.signal, q.name)].exporters)
  {
    var id := ProviderId(q.signal, q.name);
    var pc := cfg.providers[id];
    var handed := HandedTo(cfg, s, q);
    BuiltTracksHanded(cfg, q.signal, pc, q.opts, q.env);
    TrackedIffDistinct(pc.exporters, handed);
    var p := Handle(cfg, s, q).0.providers[id];
    assert Handle(cfg, s, q).0 == Keep(s, id, p);
    forall i | 0 <= i < |handed|
      ensures handed[i] in Tracked(Handle(cfg, s, q).0) <==> handed[i] in Track(pc.exporters, handed).Values
    {
      TrackedAfterKeep(s, id, p, handed[i]);
    }
  }

  /** A configuration whose second exporter does not exist loses the component of the first. */
  lemma FailedBuildLoses(c: Component) returns (cfg: Config, q: Request)
    ensures Builds(cfg, EMPTY, q) && HandedTo(cfg, EMPTY, q) == [c]
    ensures Handle(cfg, EMPTY, q).1.err == Some(AtExporter("b", NotFound)) && Handle(cfg, EMPTY, q).0 == EMPTY
    ensures Loses(cfg, EMPTY, q)
  {
    var id := ProviderId(Tracer, "");
    var pc := ProviderConfig([], ["a", "b"]);
    cfg := Config({}, {"a"}, map[id := pc]);
    var refused := Failed(UNIMPLEMENTED);
    var env := Env(i => false, i => Refused(UNIMPLEMENTED), i => true, i => Built(c, []), i => refused, i => refused);
    q := Request(Tracer, "", [], env);
    assert ExporterReply(cfg, Tracer, pc.exporters, env, 0) == Built(c, []);
    assert ExporterReply(cfg, Tracer, pc.exporters, env, 1) == Failed(NotFound);
    assert GoodExporters(cfg, Tracer, pc.exporters, env, 1) == 1;
    assert GoodExporters(cfg, Tracer, pc.exporters, env, 2) == 1;
    assert HandedTo(cfg, EMPTY, q)[0] == c;
  }
}
