/** Discoveries that overlap one another, reconfigurations and shutdowns. A discovery reads
    the configuration, looks at the cache, runs the agent and stores the list, each under a
    lock of its own; a reconfiguration sets the configuration and then clears the cache. */
module ModelRaces {
  import opened Wrappers
  import opened Text
  import opened Catalogue
  import ModelCache

  type Reading = ModelCache.Reading

  /** A discovery under way: what it read at its beginning, and whether it has found no use
      for the cache and runs the agent. */
  datatype Call = Call(cfg: Config, now: int, asking: bool)

  datatype State = State(cfg: Config, cache: seq<Model>, expires: int, calls: map<nat, Call>)

  datatype Event =
    | SetConfig(cfg: Config)                    // the first half of Configure
    | Clear                                     // its second half; also Shutdown
    | Begin(id: nat, now: int)                  // the configuration and the clock are read
    | Check(id: nat)                            // the cache is looked at
    | End(id: nat, agent: ModelCache.Agent)     // the agent has ended

  function New(cfg: Config): State { State(cfg, [], 0, map[]) }

  predicate Hit(s: State, call: Call) { call.cfg.ttl > 0 && s.cache != [] && call.now < s.expires }

  function Step(read: Reading, s: State, e: Event): State {
    match e
    case SetConfig(cfg) => s.(cfg := cfg)
    case Clear => s.(cache := [], expires := 0)
    case Begin(id, now) =>
      if id in s.calls || !s.cfg.enabled then s else s.(calls := s.calls[id := Call(s.cfg, now, false)])
    case Check(id) =>
      if id !in s.calls || s.calls[id].asking then s
      else if Hit(s, s.calls[id]) then s.(calls := s.calls - {id})
      else s.(calls := s.calls[id := s.calls[id].(asking := true)])
    case End(id, agent) =>
      if id !in s.calls || !s.calls[id].asking then s else Store(read, s, id, s.calls[id], agent)
  }

  function Store(read: Reading, s: State, id: nat, call: Call, agent: ModelCache.Agent): State {
    match ModelCache.Fetched(read, call.cfg, agent)
    case Err(_) => s.(calls := s.calls - {id})
    case Ok(list) => State(s.cfg, list, call.now + call.cfg.ttl, s.calls - {id})
  }

  /** The list a discovery takes from the cache, if it is at that point and does. */
  function Served(s: State, id: nat): Option<seq<Model>> {
    if id in s.calls && !s.calls[id].asking && Hit(s, s.calls[id]) then Some(s.cache) else None
  }

  function Run(read: Reading, cfg: Config, es: seq<Event>): State {
    if es == [] then New(cfg) else Step(read, Run(read, cfg, es[..|es| - 1]), es[|es| - 1])
  }

  // ---------------------------------------------------------------- one at a time

  /** With nothing in between, the steps are those of the sequential cache. */
  lemma SequentialRefines(read: Reading, s: State, id: nat, now: int, agent: ModelCache.Agent, cfg: Config)
    requires s.calls == map[]
    ensures var st := ModelCache.State(s.cfg, s.cache, s.expires);
            var after := ModelCache.Step(read, st, ModelCache.Discover(now, agent));
            && Step(read, Step(read, Step(read, s, Begin(id, now)), Check(id)), End(id, agent)) ==
               State(after.cfg, after.cache, after.expires, map[])
            && Step(read, Step(read, s, SetConfig(cfg)), Clear) == New(cfg)
  {
    if s.cfg.enabled {
      var call := Call(s.cfg, now, false);
      var s1 := s.(calls := map[id := call]);
      assert Step(read, s, Begin(id, now)) == s1;
      assert map[id := call] - {id} == map[] && map[id := call.(asking := true)] - {id} == map[];
      assert s1.calls[id := call.(asking := true)] == map[id := call.(asking := true)];
    }
  }

  // ---------------------------------------------------------------- where a cached list comes from

  ghost function Before(read: Reading, cfg: Config, es: seq<Event>, k: int): State
    requires 0 <= k <= |es|
  {
    Run(read, cfg, es[..k])
  }

  /** The discovery has been under way ever since. */
  ghost predicate Under(read: Reading, cfg: Config, es: seq<Event>, k: int, j: int, id: nat) {
    0 <= k < j <= |es| && forall m :: k < m <= j ==> id in Before(read, cfg, es, m).calls
  }

  ghost predicate Began(read: Reading, cfg: Config, es: seq<Event>, k: int, id: nat, call: Call) {
    && Under(read, cfg, es, k, |es|, id)
    && es[k] == Begin(id, call.now) && call.cfg == Before(read, cfg, es, k).cfg
  }

  /** A discovery that began at one event and ended at a later one with an output. */
  datatype Origin = Origin(begin: nat, end: nat, id: nat, now: int, text: string)

  /** That discovery's list went into the cache and has been there ever since. */
  ghost predicate Stored(read: Reading, cfg: Config, es: seq<Event>, o: Origin) {
    && o.end < |es| && Under(read, cfg, es, o.begin, o.end, o.id)
    && es[o.begin] == Begin(o.id, o.now) && es[o.end] == End(o.id, ModelCache.Output(o.text))
    && Before(read, cfg, es, o.end).calls[o.id].asking
    && (forall m :: o.end < m < |es| ==> !es[m].Clear?)
    && forall m :: o.end < m <= |es| ==>
         (Before(read, cfg, es, m).cache, Before(read, cfg, es, m).expires) == Kept(read, cfg, es, o)
  }

  ghost function Kept(read: Reading, cfg: Config, es: seq<Event>, o: Origin): (seq<Model>, int)
    requires 0 <= o.begin <= |es|
  {
    var began := Before(read, cfg, es, o.begin).cfg;
    (read(o.text, began), o.now + began.ttl)
  }

  ghost predicate Traced(read: Reading, cfg: Config, es: seq<Event>) {
    var s := Run(read, cfg, es);
    && (forall id :: id in s.calls ==> exists k :: Began(read, cfg, es, k, id, s.calls[id]))
    && (s.cache != [] ==> exists o :: Stored(read, cfg, es, o))
  }

  lemma SameBefore(read: Reading, cfg: Config, es: seq<Event>, e: Event)
    ensures forall k :: 0 <= k <= |es| ==> Before(read, cfg, es + [e], k) == Before(read, cfg, es, k)
    ensures Run(read, cfg, es + [e]) == Step(read, Run(read, cfg, es), e)
    ensures Before(read, cfg, es + [e], |es| + 1) == Run(read, cfg, es + [e])
  {
    var all := es + [e];
    forall k | 0 <= k <= |es| ensures Before(read, cfg, all, k) == Before(read, cfg, es, k) {
      assert all[..k] == es[..k];
    }
    assert all[..|es|] == es && all[..|all|] == all;
  }

  lemma BeganStays(read: Reading, cfg: Config, es: seq<Event>, e: Event, k: int, id: nat, call: Call, call': Call)
    requires Began(read, cfg, es, k, id, call) && id in Run(read, cfg, es + [e]).calls
    requires call'.cfg == call.cfg && call'.now == call.now
    ensures Began(read, cfg, es + [e], k, id, call')
  {
    SameBefore(read, cfg, es, e);
    assert (es + [e])[k] == es[k];
  }

  /** A call is there because it was, or because it begins. */
  lemma CallKept(read: Reading, s: State, e: Event, id: nat)
    requires id in Step(read, s, e).calls
    ensures var call := Step(read, s, e).calls[id];
            if id in s.calls then call.cfg == s.calls[id].cfg && call.now == s.calls[id].now
            else e == Begin(id, call.now) && call.cfg == s.cfg
  {}

  lemma BeganNow(read: Reading, cfg: Config, es: seq<Event>, id: nat, call: Call)
    requires var e := Begin(id, call.now); id in Run(read, cfg, es + [e]).calls && call.cfg == Run(read, cfg, es).cfg
    ensures Began(read, cfg, es + [Begin(id, call.now)], |es|, id, call)
  {
    var all := es + [Begin(id, call.now)];
    SameBefore(read, cfg, es, Begin(id, call.now));
    assert es[..|es|] == es && all[|es|] == Begin(id, call.now);
    assert Under(read, cfg, all, |es|, |all|, id) by {
      forall m | |es| < m <= |all| ensures id in Before(read, cfg, all, m).calls { assert m == |es| + 1; }
    }
  }

  lemma CallTraced(read: Reading, cfg: Config, es: seq<Event>, e: Event, id: nat)
    requires Traced(read, cfg, es) && id in Run(read, cfg, es + [e]).calls
    ensures exists k :: Began(read, cfg, es + [e], k, id, Run(read, cfg, es + [e]).calls[id])
  {
    var s, s' := Run(read, cfg, es), Run(read, cfg, es + [e]);
    SameBefore(read, cfg, es, e);
    CallKept(read, s, e, id);
    if id in s.calls {
      var k :| Began(read, cfg, es, k, id, s.calls[id]);
      BeganStays(read, cfg, es, e, k, id, s.calls[id], s'.calls[id]);
    } else {
      BeganNow(read, cfg, es, id, s'.calls[id]);
    }
  }

  lemma StoredStays(read: Reading, cfg: Config, es: seq<Event>, e: Event, o: Origin)
    requires Stored(read, cfg, es, o) && !e.Clear?
    requires Run(read, cfg, es + [e]).cache == Run(read, cfg, es).cache
    requires Run(read, cfg, es + [e]).expires == Run(read, cfg, es).expires
    ensures Stored(read, cfg, es + [e], o)
  {
    var all := es + [e];
    SameBefore(read, cfg, es, e);
    assert all[o.begin] == es[o.begin] && all[o.end] == es[o.end];
    assert Before(read, cfg, es, |es|) == Run(read, cfg, es) by { assert es[..|es|] == es; }
    assert Kept(read, cfg, all, o) == Kept(read, cfg, es, o);
    forall m | o.end < m <= |all|
      ensures (Before(read, cfg, all, m).cache, Before(read, cfg, all, m).expires) == Kept(read, cfg, all, o)
    {
      if m <= |es| { assert Before(read, cfg, all, m) == Before(read, cfg, es, m); }
    }
    forall m | o.end < m < |all| ensures !all[m].Clear? { if m < |es| { assert all[m] == es[m]; } }
  }

  lemma StoredNow(read: Reading, cfg: Config, es: seq<Event>, id: nat, text: string, k: int)
    requires var s := Run(read, cfg, es);
             id in s.calls && s.calls[id].asking && Began(read, cfg, es, k, id, s.calls[id])
    requires ModelCache.Fetched(read, Run(read, cfg, es).calls[id].cfg, ModelCache.Output(text)).Ok?
    ensures var e := End(id, ModelCache.Output(text));
            Stored(read, cfg, es + [e], Origin(k, |es|, id, Run(read, cfg, es).calls[id].now, text))
  {
    var e := End(id, ModelCache.Output(text));
    SameBefore(read, cfg, es, e);
    assert es[..|es|] == es;
    assert (es + [e])[k] == es[k] && (es + [e])[|es|] == e;
  }

  /** The cache is what it was, or a discovery has just stored its list. */
  lemma CacheKept(read: Reading, s: State, e: Event)
    requires Step(read, s, e).cache != []
    ensures var s' := Step(read, s, e);
            || (s'.cache == s.cache && s'.expires == s.expires && !e.Clear?)
            || (e.End? && e.id in s.calls && s.calls[e.id].asking && e.agent.Output? &&
                ModelCache.Fetched(read, s.calls[e.id].cfg, e.agent).Ok?)
  {}

  lemma CacheTraced(read: Reading, cfg: Config, es: seq<Event>, e: Event)
    requires Traced(read, cfg, es) && Run(read, cfg, es + [e]).cache != []
    ensures exists o :: Stored(read, cfg, es + [e], o)
  {
    var s, s' := Run(read, cfg, es), Run(read, cfg, es + [e]);
    SameBefore(read, cfg, es, e);
    CacheKept(read, s, e);
    if s'.cache == s.cache && s'.expires == s.expires {
      var o :| Stored(read, cfg, es, o);
      StoredStays(read, cfg, es, e, o);
    } else {
      var k :| Began(read, cfg, es, k, e.id, s.calls[e.id]);
      StoredNow(read, cfg, es, e.id, e.agent.text, k);
    }
  }

  /** In every interleaving, a cached list is the reading of the output of a discovery that has
      not been cleared since, under the configuration that discovery began with. */
  lemma {:induction false} AlwaysTraced(read: Reading, cfg: Config, es: seq<Event>)
    ensures Traced(read, cfg, es)
    decreases |es|
  {
    if es != [] {
      var front, e := es[..|es| - 1], es[|es| - 1];
      assert es == front + [e];
      AlwaysTraced(read, cfg, front);
      forall id | id in Run(read, cfg, es).calls
        ensures exists k :: Began(read, cfg, es, k, id, Run(read, cfg, es).calls[id])
      {
        CallTraced(read, cfg, front, e, id);
      }
      if Run(read, cfg, es).cache != [] { CacheTraced(read, cfg, front, e); }
    }
  }

  // ---------------------------------------------------------------- when a cached list is right

  ghost predicate Alike(read: Reading, text: string, a: Config, b: Config) {
    read(text, a) == read(text, b) && a.ttl == b.ttl
  }

  /** The cached list is what the configuration in force makes of the output, for as long as
      that configuration keeps it. */
  ghost predicate Right(read: Reading, s: State, text: string, now: int) {
    s.cache == read(text, s.cfg) && s.expires == now + s.cfg.ttl
  }

  ghost predicate NoneSet(es: seq<Event>, k: int) { forall m :: 0 <= k < m < |es| ==> !es[m].SetConfig? }

  lemma {:induction false} ConfigStays(read: Reading, cfg: Config, es: seq<Event>, k: nat)
    requires k < |es| && NoneSet(es, k) && !es[k].SetConfig?
    ensures Run(read, cfg, es).cfg == Before(read, cfg, es, k).cfg
    decreases |es|
  {
    var front, e := es[..|es| - 1], es[|es| - 1];
    assert es == front + [e];
    SameBefore(read, cfg, front, e);
    if k < |front| {
      assert NoneSet(front, k) && front[k] == es[k] by {
        forall m | k < m < |front| ensures !front[m].SetConfig? { assert front[m] == es[m]; }
      }
      ConfigStays(read, cfg, front, k);
    } else {
      assert es[..k] == front;
    }
  }

  /** In every interleaving, whatever is cached comes from a discovery, and is right for the
      configuration in force if and only if none has been set since that discovery began, or
      that one makes the same of its output and keeps it as long. It was asked for after the
      last clearing if and only if none fell between the discovery's beginning and its end. */
  lemma CachedExactly(read: Reading, cfg: Config, es: seq<Event>)
    requires Run(read, cfg, es).cache != []
    ensures exists o :: Stored(read, cfg, es, o) && RightExactly(read, cfg, es, o)
  {
    AlwaysTraced(read, cfg, es);
    var o :| Stored(read, cfg, es, o);
    StoredRight(read, cfg, es, o);
  }

  lemma StoredRight(read: Reading, cfg: Config, es: seq<Event>, o: Origin)
    requires Stored(read, cfg, es, o)
    ensures RightExactly(read, cfg, es, o)
  {
    assert Before(read, cfg, es, |es|) == Run(read, cfg, es) by { assert es[..|es|] == es; }
    if NoneSet(es, o.begin) { ConfigStays(read, cfg, es, o.begin); }
  }

  ghost predicate RightExactly(read: Reading, cfg: Config, es: seq<Event>, o: Origin)
    requires Stored(read, cfg, es, o)
  {
    var s, began := Run(read, cfg, es), Before(read, cfg, es, o.begin).cfg;
    && (Right(read, s, o.text, o.now) <==> NoneSet(es, o.begin) || Alike(read, o.text, began, s.cfg))
    && ((forall m :: o.begin < m < |es| ==> !es[m].Clear?) <==> (forall m :: o.begin < m < o.end ==> !es[m].Clear?))
  }

  function LastSet(cfg: Config, es: seq<Event>): Config {
    if es == [] then cfg
    else if es[|es| - 1].SetConfig? then es[|es| - 1].cfg
    else LastSet(cfg, es[..|es| - 1])
  }

  /** In every interleaving the configuration in force is the last one set. */
  lemma {:induction false} InForceIsLastSet(read: Reading, cfg: Config, es: seq<Event>)
    ensures Run(read, cfg, es).cfg == LastSet(cfg, es)
    decreases |es|
  {
    if es != [] { InForceIsLastSet(read, cfg, es[..|es| - 1]); }
  }

  // ---------------------------------------------------------------- when no output can tell

  /** What a model's name can be. */
  predicate ModelName(id: string) {
    id != "" && Trimmed(id) && ' ' !in id && '\t' !in id && '/' !in id && '\n' !in id
  }

  predicate KeepsName(cfg: Config, id: string) { Keeps(cfg, Model(id, "")) }

  lemma KeepsByName(cfg: Config, m: Model)
    ensures Keeps(cfg, m) <==> KeepsName(cfg, m.id)
  {
    assert Key(m) == Key(Model(m.id, ""));
  }

  /** No name is kept by the first configuration, or both keep the same names. Both sides
      can be read off the configurations. */
  ghost predicate SameFilter(a: Config, b: Config) {
    || LetsNothing(a)
    || (forall id :: ModelName(id) ==> (KeepsName(a, id) <==> KeepsName(b, id)))
  }

  /** Some label, long enough for no line to be mistaken for the heading. */
  function Label(): (l: string)
    ensures |l| > 16 && Trimmed(l) && '\n' !in l
  {
    seq(17, i => 'x')
  }

  /** A listing line for a name. */
  function LineOf(id: string): string { id + (" - " + Label()) }

  lemma {:induction false} IndexAfter(id: string, sub: string, rest: string)
    requires sub != "" && sub[0] !in id && sub <= rest
    ensures Index(id + rest, sub) == |id|
  {
    if id == "" {
      assert id + rest == rest;
    } else {
      IndexAfter(id[1..], sub, rest);
      assert (id + rest)[1..] == id[1..] + rest && (id + rest)[0] == id[0];
    }
  }

  lemma NotTheHeading(line: string)
    requires |line| > 16
    ensures !EqualFold(line, "available models")
  {
    assert |Lower(line)| != |Lower("available models")|;
  }

  lemma LineTrimmed(id: string, dash: string, name: string)
    requires id != "" && Trimmed(id) && name != "" && Trimmed(name)
    ensures var line := id + (dash + name);
            && TrimSpace(line) == line && TrimSpace(line[..|id|]) == id && TrimSpace(line[|id| + |dash|..]) == name
  {
    var line := id + (dash + name);
    assert line[0] == id[0] && line[|line| - 1] == name[|name| - 1];
    assert line[..|id|] == id && line[|id| + |dash|..] == name;
    TrimSpaceTrims(line);
    TrimSpaceTrims(id);
    TrimSpaceTrims(name);
  }

  lemma LineReads(id: string)
    requires ModelName(id)
    ensures ParseLine(LineOf(id)) == Some(Model(id, Label())) && '\n' !in LineOf(id)
  {
    LineTrimmed(id, " - ", Label());
    IndexAfter(id, " - ", " - " + Label());
    NotTheHeading(LineOf(id));
  }

  lemma SplitInTwo(a: string, b: string)
    requires '\n' !in a && '\n' !in b
    ensures SplitOn(a + "\n" + b, '\n') == [a, b]
  {
    SplitOnAt(a, '\n', b);
    SplitOnNone(a, '\n');
    SplitOnNone(b, '\n');
  }

  lemma TwoLines(a: string, b: string)
    requires ModelName(a) && ModelName(b)
    ensures var text := LineOf(a) + "\n" + LineOf(b);
            && Model(a, Label()) in Parse(text)
            && (Lower(a) != Lower(b) ==> Model(b, Label()) in Parse(text))
  {
    LineReads(a);
    LineReads(b);
    SplitInTwo(LineOf(a), LineOf(b));
    ParseExact(LineOf(a) + "\n" + LineOf(b));
    FirstOfTwo(LineOf(a), LineOf(b), Model(a, Label()), Model(b, Label()));
  }

  lemma FirstOfTwo(x: string, y: string, m: Model, n: Model)
    requires ParseLine(x) == Some(m) && ParseLine(y) == Some(n)
    ensures FirstIn([x, y], m) && (Key(m) != Key(n) ==> FirstIn([x, y], n))
  {
    assert FirstAt([x, y], 0, m);
    if Key(m) != Key(n) { assert FirstAt([x, y], 1, n); }
  }

  lemma ListedByName(text: string, cfg: Config, id: string)
    requires Model(id, Label()) in Parse(text)
    ensures Model(id, Label()) in ModelCache.Listing(text, cfg) <==> KeepsName(cfg, id)
  {
    FilterExact(Parse(text), cfg);
    KeepsByName(cfg, Model(id, Label()));
  }

  /** Names that are read are model names. */
  lemma ReadNames(text: string, m: Model)
    requires m in Parse(text)
    ensures ModelName(m.id)
  {
    ParseExact(text);
    var lines := SplitOn(text, '\n');
    var i :| 0 <= i < |lines| && FirstAt(lines, i, m);
    IdsAreTrimmed(lines[i]);
    TrimmedPart(lines[i]);
    TrimmedPart(TrimSpace(lines[i])[..Index(TrimSpace(lines[i]), " - ")]);
  }

  lemma {:induction false} TrimmedPart(s: string)
    ensures forall c :: c in TrimSpace(s) ==> c in s
  {
    TrimLeftPart(s);
    TrimRightEnds(TrimLeft(s));
  }

  lemma {:induction false} TrimLeftPart(s: string)
    ensures forall c :: c in TrimLeft(s) ==> c in s
  {
    if s != "" && IsSpace(s[0]) { TrimLeftPart(s[1..]); }
  }

  lemma {:induction false} FilterAlike(ms: seq<Model>, a: Config, b: Config)
    requires forall m :: m in ms ==> (Keeps(a, m) <==> Keeps(b, m))
    ensures Filter(ms, a) == Filter(ms, b)
  {
    if ms != [] { FilterAlike(ms[..|ms| - 1], a, b); }
  }

  /** Two configurations make the same of every output that the first makes something of, if
      and only if they filter alike. */
  lemma SameReadingExactly(a: Config, b: Config)
    ensures (forall text :: ModelCache.Listing(text, a) != [] ==>
               ModelCache.Listing(text, a) == ModelCache.Listing(text, b)) <==> SameFilter(a, b)
  {
    if SameFilter(a, b) {
      forall text | ModelCache.Listing(text, a) != []
        ensures ModelCache.Listing(text, a) == ModelCache.Listing(text, b)
      {
        AlikeOn(text, a, b);
      }
    } else {
      var x :| ModelName(x) && KeepsName(a, x);
      var y :| ModelName(y) && (KeepsName(a, y) != KeepsName(b, y));
      var text := Witness(a, b, x, y);
    }
  }

  lemma AlikeOn(text: string, a: Config, b: Config)
    requires SameFilter(a, b) && ModelCache.Listing(text, a) != []
    ensures ModelCache.Listing(text, a) == ModelCache.Listing(text, b)
  {
    var ms := Parse(text);
    var m := Filter(ms, a)[0];
    assert m in Filter(ms, a);
    FilterExact(ms, a);
    ReadNames(text, m);
    KeepsByName(a, m);
    forall k | k in ms ensures Keeps(a, k) <==> Keeps(b, k) {
      ReadNames(text, k);
      KeepsByName(a, k);
      KeepsByName(b, k);
    }
    FilterAlike(ms, a, b);
  }

  /** An output on which two configurations differ. */
  lemma Witness(a: Config, b: Config, x: string, y: string) returns (text: string)
    requires ModelName(x) && KeepsName(a, x) && ModelName(y) && KeepsName(a, y) != KeepsName(b, y)
    ensures ModelCache.Listing(text, a) != [] && ModelCache.Listing(text, a) != ModelCache.Listing(text, b)
  {
    text := LineOf(x) + "\n" + LineOf(y);
    TwoLines(x, y);
    ListedByName(text, a, x);
    ListedByName(text, b, x);
    if Lower(x) == Lower(y) {
      assert KeepsName(a, x) == KeepsName(a, y) && KeepsName(b, x) == KeepsName(b, y);
    } else {
      ListedByName(text, a, y);
      ListedByName(text, b, y);
    }
  }

  // ---------------------------------------------------------------- a discovery that is overtaken

  /** A discovery that began, and ended after a whole reconfiguration. */
  function Overtaken(now: int, b: Config, text: string): seq<Event> {
    [Begin(1, now), Check(1), SetConfig(b), Clear, End(1, ModelCache.Output(text))]
  }

  lemma Overtakes(read: Reading, a: Config, b: Config, now: int, text: string)
    requires a.enabled
    ensures Run(read, a, Overtaken(now, b, text)) ==
            if read(text, a) == [] then State(b, [], 0, map[]) else State(b, read(text, a), now + a.ttl, map[])
  {
    var es := Overtaken(now, b, text);
    var call := Call(a, now, false);
    var waiting := map[1 := call.(asking := true)];
    assert map[1 := call][1 := call.(asking := true)] == waiting && waiting - {1} == map[];
    RunTo(read, a, es, 0, State(a, [], 0, map[1 := call]));
    RunTo(read, a, es, 1, State(a, [], 0, waiting));
    RunTo(read, a, es, 2, State(b, [], 0, waiting));
    RunTo(read, a, es, 3, State(b, [], 0, waiting));
    RunTo(read, a, es, 4, Store(read, State(b, [], 0, waiting), 1, waiting[1], ModelCache.Output(text)));
    assert es[..5] == es;
  }

  /** One event further in a run. */
  lemma RunTo(read: Reading, cfg: Config, es: seq<Event>, k: nat, s: State)
    requires k < |es| && Step(read, Run(read, cfg, es[..k]), es[k]) == s
    ensures Run(read, cfg, es[..k + 1]) == s
  {
    assert es[..k + 1][..k] == es[..k];
  }

  /** A reconfiguration that overtakes a discovery leaves a right cache, whatever the agent
      lists, if and only if both configurations filter alike and keep lists as long, or the
      first one lets no model through at all. */
  lemma OverlapExactly(a: Config, b: Config, now: int)
    requires a.enabled
    ensures (forall text :: OvertakenRight(a, b, now, text)) <==> SameLists(a, b)
  {
    forall text ensures OvertakenRight(a, b, now, text) <==> ListedAlike(a, b, text) {
      Overtakes(ModelCache.Listing, a, b, now, text);
    }
    if SameLists(a, b) {
      forall text ensures OvertakenRight(a, b, now, text) { SameListsAlike(a, b, text); }
    } else {
      var text := OtherLists(a, b);
      assert !OvertakenRight(a, b, now, text);
    }
  }

  ghost predicate LetsNothing(a: Config) { forall id :: ModelName(id) ==> !KeepsName(a, id) }

  ghost predicate SameLists(a: Config, b: Config) { LetsNothing(a) || (SameFilter(a, b) && a.ttl == b.ttl) }

  lemma SameListsAlike(a: Config, b: Config, text: string)
    requires SameLists(a, b)
    ensures ListedAlike(a, b, text)
  {
    if LetsNothing(a) {
      NothingListed(text, a);
    } else if ModelCache.Listing(text, a) != [] {
      AlikeOn(text, a, b);
    }
  }

  lemma OtherLists(a: Config, b: Config) returns (text: string)
    requires !SameLists(a, b)
    ensures !ListedAlike(a, b, text)
  {
    var x :| ModelName(x) && KeepsName(a, x);
    if SameFilter(a, b) {
      text := LineOf(x) + "\n" + LineOf(x);
      TwoLines(x, x);
      ListedByName(text, a, x);
    } else {
      var y :| ModelName(y) && (KeepsName(a, y) != KeepsName(b, y));
      text := Witness(a, b, x, y);
    }
  }

  ghost predicate OvertakenRight(a: Config, b: Config, now: int, text: string) {
    var s := Run(ModelCache.Listing, a, Overtaken(now, b, text));
    s.cache != [] ==> Right(ModelCache.Listing, s, text, now)
  }

  ghost predicate ListedAlike(a: Config, b: Config, text: string) {
    ModelCache.Listing(text, a) != [] ==> Alike(ModelCache.Listing, text, a, b)
  }

  lemma NothingListed(text: string, a: Config)
    requires LetsNothing(a)
    ensures ModelCache.Listing(text, a) == []
  {
    var l := ModelCache.Listing(text, a);
    if l != [] {
      assert l[0] in l;
      FilterExact(Parse(text), a);
      ReadNames(text, l[0]);
      KeepsByName(a, l[0]);
    }
  }

  /** A model that the new configuration does not let through is served all the same: the
      next discovery takes it from the cache. */
  lemma DeniedIsServed(a: Config, b: Config, id: string, now: int, later: int)
    requires a.enabled && b.enabled && b.ttl > 0 && later < now + a.ttl
    requires ModelName(id) && KeepsName(a, id) && !KeepsName(b, id)
    ensures var text := LineOf(id) + "\n" + LineOf(id);
            var s := Run(ModelCache.Listing, a, Overtaken(now, b, text));
            var served := Served(Step(ModelCache.Listing, s, Begin(2, later)), 2);
            s.cfg == b && served.Some? && Model(id, Label()) in served.value && !Keeps(b, Model(id, Label()))
  {
    var text := LineOf(id) + "\n" + LineOf(id);
    Overtakes(ModelCache.Listing, a, b, now, text);
    TwoLines(id, id);
    ListedByName(text, a, id);
    KeepsByName(b, Model(id, Label()));
  }

  /** One such run: the model is called "a", and the new configuration denies it. */
  lemma DeniedIsServedOnce()
    ensures var a := Config(true, "", [], [], [], 60);
            var b := a.(denied := ["a"]);
            var text := LineOf("a") + "\n" + LineOf("a");
            var s := Run(ModelCache.Listing, a, Overtaken(0, b, text));
            var served := Served(Step(ModelCache.Listing, s, Begin(2, 1)), 2);
            served.Some? && Model("a", Label()) in served.value && !Keeps(b, Model("a", Label()))
  {
    var a := Config(true, "", [], [], [], 60);
    var b := a.(denied := ["a"]);
    assert ModelName("a") && KeepsName(a, "a");
    assert Stripped(b, "a") == Lower("a") by { assert "a"[0..] == "a"; }
    assert !KeepsName(b, "a") by { assert "a" in b.denied; }
    DeniedIsServed(a, b, "a", 0, 1);
  }

  /** Between the two halves of a reconfiguration the old list is served under the new
      configuration. */
  lemma HalfConfiguredServesOld(read: Reading, s: State, b: Config, id: nat, later: int)
    requires s.cache != [] && later < s.expires && b.enabled && b.ttl > 0 && id !in s.calls
    ensures Served(Step(read, Step(read, s, SetConfig(b)), Begin(id, later)), id) == Some(s.cache)
  {}

  /** A shutdown does not stop a discovery from filling the cache again. */
  lemma ShutdownIsOvertaken(read: Reading, s: State, id: nat, text: string)
    requires id in s.calls && s.calls[id].asking && read(text, s.calls[id].cfg) != []
    ensures Step(read, Step(read, s, Clear), End(id, ModelCache.Output(text))).cache == read(text, s.calls[id].cfg)
  {}
}
