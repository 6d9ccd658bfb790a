/** The time-limited cache in front of model discovery. */
module ModelCache {
  import opened Wrappers
  import opened Catalogue

  /** How an output is read under a configuration. */
  type Reading = (string, Config) -> seq<Model>

  /** filterCursorModels(parseModelLines(output)) */
  function Listing(text: string, cfg: Config): seq<Model> { Filter(Parse(text), cfg) }

  /** What running `agent models` gave. */
  datatype Agent = Failed | Output(text: string)

  datatype Error = Disabled | AgentFailed | ModelsEmpty

  datatype State = State(cfg: Config, cache: seq<Model>, expires: int)

  datatype Event = Configure(cfg: Config) | Shutdown | Discover(now: int, agent: Agent)

  predicate Hit(st: State, now: int) { st.cfg.ttl > 0 && st.cache != [] && now < st.expires }

  function Fetched(read: Reading, cfg: Config, agent: Agent): Result<seq<Model>, Error> {
    match agent
    case Failed => Err(AgentFailed)
    case Output(text) => var ms := read(text, cfg); if ms == [] then Err(ModelsEmpty) else Ok(ms)
  }

  function Returned(read: Reading, st: State, now: int, agent: Agent): Result<seq<Model>, Error> {
    if !st.cfg.enabled then Err(Disabled)
    else if Hit(st, now) then Ok(st.cache)
    else Fetched(read, st.cfg, agent)
  }

  function Step(read: Reading, st: State, e: Event): State {
    match e
    case Configure(cfg) => State(cfg, [], 0)
    case Shutdown => st.(cache := [], expires := 0)
    case Discover(now, agent) =>
      if !st.cfg.enabled || Hit(st, now) || Fetched(read, st.cfg, agent).Err? then st
      else State(st.cfg, Fetched(read, st.cfg, agent).value, now + st.cfg.ttl)
  }

  function Run(read: Reading, st: State, es: seq<Event>): State {
    if es == [] then st else Step(read, Run(read, st, es[..|es| - 1]), es[|es| - 1])
  }

  // ---------------------------------------------------------------- what a cached answer is worth

  /** The k-th event fetched an output that no reconfiguration or shutdown has come after. */
  ghost predicate Source(es: seq<Event>, k: int) {
    && 0 <= k < |es| && es[k].Discover? && es[k].agent.Output?
    && forall j :: k < j < |es| ==> es[j].Discover?
  }

  /** A non-empty cache is the filtered reading of such an output under the configuration
      in force, and expires one lifetime after it was asked for. */
  ghost predicate Founded(read: Reading, st: State, es: seq<Event>, k: int) {
    && Source(es, k) && st.cache == read(es[k].agent.text, st.cfg)
    && st.expires == es[k].now + st.cfg.ttl
  }

  lemma {:induction false} CacheIsFounded(read: Reading, cfg: Config, es: seq<Event>)
    ensures var st := Run(read, State(cfg, [], 0), es); st.cache != [] ==> exists k :: Founded(read, st, es, k)
    decreases |es|
  {
    if es != [] {
      var front, e := es[..|es| - 1], es[|es| - 1];
      CacheIsFounded(read, cfg, front);
      var was := Run(read, State(cfg, [], 0), front);
      var st := Step(read, was, e);
      if st.cache != [] {
        if st == was {
          var k :| Founded(read, was, front, k);
          assert es[k] == front[k];
          forall j | k < j < |es| ensures es[j].Discover? { if j < |front| { assert es[j] == front[j]; } }
          assert Founded(read, st, es, k);
        } else {
          assert Founded(read, st, es, |es| - 1);
        }
      }
    }
  }

  /** In every sequential run a list that discovery returns is filter(parse(output)) under
      the configuration in force, for this call's output or for one fetched since the last
      reconfiguration or shutdown and not yet expired; a failed discovery changes nothing. */
  lemma {:induction false} CacheAgrees(read: Reading, cfg: Config, es: seq<Event>, now: int, agent: Agent)
    ensures var st := Run(read, State(cfg, [], 0), es);
            match Returned(read, st, now, agent)
            case Err(_) => Step(read, st, Discover(now, agent)) == st
            case Ok(list) =>
              || (agent.Output? && list == read(agent.text, st.cfg))
              || exists k :: Source(es, k) && list == read(es[k].agent.text, st.cfg) && now < es[k].now + st.cfg.ttl
  {
    var st := Run(read, State(cfg, [], 0), es);
    CacheIsFounded(read, cfg, es);
    if st.cfg.enabled && Hit(st, now) {
      var k :| Founded(read, st, es, k);
    }
  }

  // ---------------------------------------------------------------- when the agent is asked

  /** Every error of a discovery, and when it comes. */
  lemma ErrorsExactly(read: Reading, st: State, now: int, agent: Agent)
    ensures var r := Returned(read, st, now, agent);
            && (r == Err(Disabled) <==> !st.cfg.enabled)
            && (r == Err(AgentFailed) <==> st.cfg.enabled && !Hit(st, now) && agent.Failed?)
            && (r == Err(ModelsEmpty) <==>
                  st.cfg.enabled && !Hit(st, now) && agent.Output? && read(agent.text, st.cfg) == [])
  {}

  /** After a discovery that succeeded by asking the agent, the next one is answered with the
      same list if and only if lists are kept and the time is not over; the agent is not
      asked then, so that it may as well fail. */
  lemma CachedWhileFresh(read: Reading, st: State, now: int, agent: Agent, later: int)
    requires st.cfg.enabled && !Hit(st, now) && Returned(read, st, now, agent).Ok?
    ensures var list := Returned(read, st, now, agent).value;
            var st1 := Step(read, st, Discover(now, agent));
            && (Returned(read, st1, later, Failed) == Ok(list) <==> st.cfg.ttl > 0 && later < now + st.cfg.ttl)
            && (Returned(read, st1, later, Failed).Err? <==> !(st.cfg.ttl > 0 && later < now + st.cfg.ttl))
  {}

  /** The configuration in force is the last one set. */
  function LastSet(cfg: Config, es: seq<Event>): Config {
    if es == [] then cfg
    else if es[|es| - 1].Configure? then es[|es| - 1].cfg
    else LastSet(cfg, es[..|es| - 1])
  }

  lemma {:induction false} InForceIsLastSet(read: Reading, cfg: Config, es: seq<Event>)
    ensures Run(read, State(cfg, [], 0), es).cfg == LastSet(cfg, es)
    decreases |es|
  {
    if es != [] { InForceIsLastSet(read, cfg, es[..|es| - 1]); }
  }

  /** Nothing is cached right after a reconfiguration or a shutdown. */
  lemma ResetForgets(read: Reading, st: State, cfg: Config)
    ensures Step(read, st, Configure(cfg)) == State(cfg, [], 0)
    ensures Step(read, st, Shutdown).cache == [] && Step(read, st, Shutdown).cfg == st.cfg
  {}

  // ---------------------------------------------------------------- the service's fields

  /** The part of Service that discovery works on. Slices are arrays here, so that what a
      caller is handed can be told apart from what is kept. */
  class Service {
    var cfg: Config
    var modelsCache: array<Model>
    var modelExpires: int

    function Abs(): State
      reads this, modelsCache
    {
      State(cfg, modelsCache[..], modelExpires)
    }

    constructor (cfg: Config)
      ensures Abs() == State(cfg, [], 0) && fresh(modelsCache)
    {
      this.cfg, modelExpires := cfg, 0;
      modelsCache := new Model[0];
    }

    method ApplyConfig(c: Config)
      modifies this
      ensures Abs() == Step(Listing, old(Abs()), Configure(c)) && fresh(modelsCache)
    {
      cfg, modelExpires := c, 0;
      modelsCache := new Model[0];
    }

    method ShutDown()
      modifies this
      ensures Abs() == Step(Listing, old(Abs()), Shutdown) && fresh(modelsCache)
    {
      modelExpires := 0;
      modelsCache := new Model[0];
    }

    /** discoverModels. The list handed out is never the array the cache keeps. */
    method DiscoverModels(now: int, agent: Agent) returns (r: Result<array<Model>, Error>)
      modifies this
      ensures Abs() == Step(Listing, old(Abs()), Discover(now, agent))
      ensures match Returned(Listing, old(Abs()), now, agent)
              case Ok(list) => r.Ok? && r.value[..] == list && fresh(r.value) && r.value != modelsCache
              case Err(e) => r == Err(e)
      ensures modelsCache == old(modelsCache) || fresh(modelsCache)
    {
      if !cfg.enabled { return Err(Disabled); }
      if cfg.ttl > 0 && modelsCache.Length > 0 && now < modelExpires {
        var cached := CopyOf(modelsCache[..]);
        return Ok(cached);
      }
      var fetched := Fetch(cfg, agent);
      if fetched.Err? { return Err(fetched.error); }
      var handed := Keep(fetched.value, now + cfg.ttl);
      return Ok(handed);
    }

    /** Caches one copy of a list and hands out another. */
    method Keep(models: seq<Model>, expires: int) returns (handed: array<Model>)
      modifies this
      ensures cfg == old(cfg) && modelExpires == expires && fresh(modelsCache) && fresh(handed)
      ensures modelsCache[..] == handed[..] == models && handed != modelsCache
    {
      modelsCache := CopyOf(models);
      handed := CopyOf(models);
      modelExpires := expires;
    }
  }

  method Fetch(cfg: Config, agent: Agent) returns (r: Result<seq<Model>, Error>)
    ensures r == Fetched(Listing, cfg, agent)
  {
    if agent.Failed? { return Err(AgentFailed); }
    var models := ReadListing(agent.text, cfg);
    if models == [] { return Err(ModelsEmpty); }
    return Ok(models);
  }

  method ReadListing(text: string, cfg: Config) returns (models: seq<Model>)
    ensures models == Listing(text, cfg)
  {
    var parsed := ParseModelLines(text);
    models := FilterCursorModels(parsed, cfg);
  }

  method CopyOf(ms: seq<Model>) returns (a: array<Model>)
    ensures fresh(a) && a[..] == ms
  {
    a := new Model[|ms|](i requires 0 <= i < |ms| => ms[i]);
  }
}
