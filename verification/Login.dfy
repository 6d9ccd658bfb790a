/** Login sessions: calls that start one, the two readers of the login process's output,
    its exit, shutdowns and polls, in every interleaving. */
module Login {
  /** loginSession; times are seconds. */
  datatype Session = Session(expires: int, url: string, err: string, done: bool)

  /** One login process: the session it reports to, and whether its sync.Once has fired. */
  datatype Process = Process(key: string, published: bool, exited: bool)

  datatype State = State(logins: map<string, Session>, processes: map<nat, Process>)

  datatype Event =
    | StartKnown(key: string, now: int)             // the CLI was already authenticated
    | StartLogin(run: nat, key: string, now: int)   // a login process was started
    | Line(run: nat, url: string)                   // a reader meets a line with an approval URL
    | Exit(run: nat, err: string)                   // the process ended; the empty text is no error
    | Shutdown

  predicate IsStart(e: Event) { e.StartKnown? || e.StartLogin? }

  const KNOWN_SECONDS: int := 60
  const LOGIN_SECONDS: int := 900

  function Step(s: State, e: Event): State {
    match e
    case StartKnown(key, now) => s.(logins := s.logins[key := Session(now + KNOWN_SECONDS, "", "", true)])
    case StartLogin(run, key, now) =>
      State(s.logins[key := Session(now + LOGIN_SECONDS, "", "", false)],
            s.processes[run := Process(key, false, false)])
    case Line(run, url) =>
      if run !in s.processes || s.processes[run].published || url == "" then s
      else
        var p := s.processes[run];
        State(if p.key in s.logins then s.logins[p.key := s.logins[p.key].(url := url)] else s.logins,
              s.processes[run := p.(published := true)])
    case Exit(run, err) =>
      if run !in s.processes || s.processes[run].exited then s
      else
        var p := s.processes[run];
        State(if p.key in s.logins
              then var sess := s.logins[p.key];
                   s.logins[p.key := sess.(err := if err != "" then err else sess.err, done := true)]
              else s.logins,
              s.processes[run := p.(exited := true)])
    case Shutdown => s.(logins := map[])
  }

  function Run(es: seq<Event>): State {
    if es == [] then State(map[], map[]) else Step(Run(es[..|es| - 1]), es[|es| - 1])
  }

  datatype Status = Unavailable | Status(known: bool, authenticated: bool)

  datatype Answer = Unknown | Expired | Pending(url: string) | Failed(err: string) | StatusFailed | Unconfirmed |
    Success

  /** PollLogin */
  function Poll(s: State, key: string, now: int, status: Status): Answer {
    if key !in s.logins then Unknown
    else
      var sess := s.logins[key];
      if now >= sess.expires then Expired
      else if !sess.done then Pending(sess.url)
      else if sess.err != "" then Failed(sess.err)
      else if status.Unavailable? then StatusFailed
      else if !status.known || !status.authenticated then Unconfirmed
      else Success
  }

  // ---------------------------------------------------------------- what a session rests on

  /** No two calls were given the same key, nor two processes the same identity. */
  ghost predicate Distinct(es: seq<Event>) {
    forall i, j :: 0 <= i < j < |es| && IsStart(es[i]) && IsStart(es[j]) ==>
      es[i].key != es[j].key && (es[i].StartLogin? && es[j].StartLogin? ==> es[i].run != es[j].run)
  }

  /** The call that opened a session which no shutdown has dropped. */
  ghost predicate Origin(es: seq<Event>, i: int, key: string) {
    0 <= i < |es| && IsStart(es[i]) && es[i].key == key && forall j :: i < j < |es| ==> !es[j].Shutdown?
  }

  ghost predicate ExitedCleanly(es: seq<Event>, i: int, run: nat) {
    exists j :: 0 <= i < j < |es| && es[j] == Exit(run, "")
  }

  ghost predicate Backed(es: seq<Event>, i: int, s: State, sess: Session)
    requires 0 <= i < |es| && IsStart(es[i])
  {
    match es[i]
    case StartKnown(_, t) => sess == Session(t + KNOWN_SECONDS, "", "", true)
    case StartLogin(run, key, t) =>
      && sess.expires == t + LOGIN_SECONDS && run in s.processes && s.processes[run].key == key
      && (sess.url != "" ==> s.processes[run].published)
      && (sess.done ==> s.processes[run].exited)
      && (sess.done && sess.err == "" ==> ExitedCleanly(es, i, run))
  }

  ghost predicate SessionOk(es: seq<Event>, s: State, key: string)
    requires key in s.logins
  {
    exists i :: Origin(es, i, key) && Backed(es, i, s, s.logins[key])
  }

  ghost predicate ProcessOk(es: seq<Event>, s: State, run: nat)
    requires run in s.processes
  {
    exists i :: 0 <= i < |es| && es[i].StartLogin? && es[i].run == run && es[i].key == s.processes[run].key
  }

  ghost predicate Inv(es: seq<Event>, s: State) {
    && (forall key :: key in s.logins ==> SessionOk(es, s, key))
    && (forall run :: run in s.processes ==> ProcessOk(es, s, run))
  }

  lemma ProcessStays(es: seq<Event>, e: Event, s: State, run: nat)
    requires Inv(es, s) && run in s.processes && Distinct(es + [e])
    ensures run in Step(s, e).processes && Step(s, e).processes[run].key == s.processes[run].key
    ensures ProcessOk(es + [e], Step(s, e), run)
    ensures s.processes[run].published ==> Step(s, e).processes[run].published
    ensures s.processes[run].exited ==> Step(s, e).processes[run].exited
  {
    var i :| 0 <= i < |es| && es[i].StartLogin? && es[i].run == run && es[i].key == s.processes[run].key;
    var all := es + [e];
    assert all[i] == es[i] && all[|es|] == e;
  }

  /** With distinct keys, only a session's own process writes to it. */
  lemma OwnProcess(es: seq<Event>, s: State, i: int, run: nat)
    requires Inv(es, s) && Distinct(es) && 0 <= i < |es| && IsStart(es[i]) && run in s.processes
    requires s.processes[run].key == es[i].key
    ensures es[i].StartLogin? && es[i].run == run
  {
    var k :| 0 <= k < |es| && es[k].StartLogin? && es[k].run == run && es[k].key == s.processes[run].key;
    assert k == i;
  }

  lemma ExitStays(es: seq<Event>, e: Event, i: int, run: nat)
    requires ExitedCleanly(es, i, run)
    ensures ExitedCleanly(es + [e], i, run)
  {
    var j :| 0 <= i < j < |es| && es[j] == Exit(run, "");
    assert (es + [e])[j] == es[j];
  }

  /** The session an event leaves alone. */
  lemma UntouchedBacked(es: seq<Event>, e: Event, s: State, s': State, i: int, sess: Session)
    requires 0 <= i < |es| && IsStart(es[i]) && Backed(es, i, s, sess)
    requires es[i].StartLogin? ==>
               && es[i].run in s'.processes && s'.processes[es[i].run].key == s.processes[es[i].run].key
               && (s.processes[es[i].run].published ==> s'.processes[es[i].run].published)
               && (s.processes[es[i].run].exited ==> s'.processes[es[i].run].exited)
    ensures (es + [e])[i] == es[i] && Backed(es + [e], i, s', sess)
  {
    if es[i].StartLogin? && ExitedCleanly(es, i, es[i].run) { ExitStays(es, e, i, es[i].run); }
  }

  lemma LineBacked(es: seq<Event>, s: State, i: int, key: string, run: nat, url: string)
    requires 0 <= i < |es| && key in s.logins && es[i].StartLogin? && es[i].run == run && es[i].key == key
    requires Backed(es, i, s, s.logins[key]) && !s.processes[run].published && url != ""
    ensures var s' := Step(s, Line(run, url)); key in s'.logins && Backed(es + [Line(run, url)], i, s', s'.logins[key])
    ensures s.logins[key].url == ""
  {
    if ExitedCleanly(es, i, run) { ExitStays(es, Line(run, url), i, run); }
  }

  lemma ExitBacked(es: seq<Event>, s: State, i: int, key: string, run: nat, err: string)
    requires 0 <= i < |es| && key in s.logins && es[i].StartLogin? && es[i].run == run && es[i].key == key
    requires Backed(es, i, s, s.logins[key]) && !s.processes[run].exited
    ensures var s' := Step(s, Exit(run, err));
            key in s'.logins && Backed(es + [Exit(run, err)], i, s', s'.logins[key]) &&
                s'.logins[key].url == s.logins[key].url
  {
    var all := es + [Exit(run, err)];
    assert all[|es|] == Exit(run, err);
  }

  lemma SessionStays(es: seq<Event>, e: Event, s: State, key: string)
    requires Inv(es, s) && Distinct(es + [e]) && key in s.logins && !e.Shutdown?
    requires !(IsStart(e) && e.key == key)
    ensures key in Step(s, e).logins && SessionOk(es + [e], Step(s, e), key)
    ensures s.logins[key].url != "" ==> Step(s, e).logins[key].url == s.logins[key].url
  {
    var i :| Origin(es, i, key) && Backed(es, i, s, s.logins[key]);
    OriginStays(es, e, i, key);
    DistinctPrefix(es, e);
    if es[i].StartLogin? { ProcessStays(es, e, s, es[i].run); }
    if e.Line? && e.run in s.processes && s.processes[e.run].key == key && !s.processes[e.run].published &&
        e.url != "" {
      OwnProcess(es, s, i, e.run);
      LineBacked(es, s, i, key, e.run, e.url);
    } else if e.Exit? && e.run in s.processes && s.processes[e.run].key == key && !s.processes[e.run].exited {
      OwnProcess(es, s, i, e.run);
      ExitBacked(es, s, i, key, e.run, e.err);
    } else {
      Untouched(s, e, key);
      UntouchedBacked(es, e, s, Step(s, e), i, s.logins[key]);
    }
  }

  lemma Untouched(s: State, e: Event, key: string)
    requires key in s.logins && !e.Shutdown? && !(IsStart(e) && e.key == key)
    requires e.Line? && e.run in s.processes && s.processes[e.run].key == key ==>
              s.processes[e.run].published || e.url == ""
    requires e.Exit? && e.run in s.processes && s.processes[e.run].key == key ==> s.processes[e.run].exited
    ensures key in Step(s, e).logins && Step(s, e).logins[key] == s.logins[key]
  {}

  lemma OriginStays(es: seq<Event>, e: Event, i: int, key: string)
    requires Origin(es, i, key) && !e.Shutdown?
    ensures Origin(es + [e], i, key) && (es + [e])[i] == es[i]
  {
    var all := es + [e];
    forall j | i < j < |all| ensures !all[j].Shutdown? { if j < |es| { assert all[j] == es[j]; } }
  }

  lemma DistinctPrefix(es: seq<Event>, e: Event)
    requires Distinct(es + [e])
    ensures Distinct(es)
  {
    var all := es + [e];
    assert forall i :: 0 <= i < |es| ==> all[i] == es[i];
  }

  lemma StepInv(es: seq<Event>, e: Event, s: State)
    requires Inv(es, s) && Distinct(es + [e])
    ensures Inv(es + [e], Step(s, e))
  {
    var all, s' := es + [e], Step(s, e);
    assert all[|es|] == e;
    forall run | run in s'.processes ensures ProcessOk(all, s', run) {
      if e.StartLogin? && e.run == run {
        assert all[|es|].run == run;
      } else {
        ProcessStays(es, e, s, run);
      }
    }
    forall key | key in s'.logins ensures SessionOk(all, s', key) {
      if IsStart(e) && e.key == key {
        assert Origin(all, |es|, key) && Backed(all, |es|, s', s'.logins[key]);
      } else {
        SessionStays(es, e, s, key);
      }
    }
  }

  lemma {:induction false} RunInv(es: seq<Event>)
    requires Distinct(es)
    ensures Inv(es, Run(es))
    decreases |es|
  {
    if es != [] {
      var front, e := es[..|es| - 1], es[|es| - 1];
      assert front + [e] == es;
      DistinctPrefix(front, e);
      RunInv(front);
      StepInv(front, e, Run(front));
    }
  }

  /** The call was made for an authenticated CLI, or its login process has ended without an
      error; and it has not expired. */
  ghost predicate InForce(es: seq<Event>, i: int, now: int)
    requires 0 <= i < |es| && IsStart(es[i])
  {
    if es[i].StartKnown? then now < es[i].now + KNOWN_SECONDS
    else now < es[i].now + LOGIN_SECONDS && ExitedCleanly(es, i, es[i].run)
  }

  /** Over every interleaving with distinct keys, a successful poll means that the status
      is known and authenticated now, that the session has not expired or been dropped, and
      that it was opened for an authenticated CLI or its own login process ended without an
      error. */
  lemma PollSuccessMeans(es: seq<Event>, key: string, now: int, status: Status)
    requires Distinct(es) && Poll(Run(es), key, now, status) == Success
    ensures status == Status(true, true)
    ensures exists i :: Origin(es, i, key) && InForce(es, i, now)
  {
    RunInv(es);
    var s := Run(es);
    var i :| Origin(es, i, key) && Backed(es, i, s, s.logins[key]);
  }

  /** Two readers, one URL: whatever they read, the approval URL of a session does not
      change once it is shown. */
  lemma UrlIsPublishedOnce(es: seq<Event>, e: Event, key: string)
    requires Distinct(es + [e]) && key in Run(es).logins && Run(es).logins[key].url != ""
    ensures !e.Shutdown? ==> key in Run(es + [e]).logins && Run(es + [e]).logins[key].url == Run(es).logins[key].url
  {
    DistinctPrefix(es, e);
    RunInv(es);
    var all := es + [e];
    assert all[..|es|] == es && all[|es|] == e;
    if !e.Shutdown? {
      var i :| Origin(es, i, key) && Backed(es, i, Run(es), Run(es).logins[key]);
      assert all[i] == es[i];
      SessionStays(es, e, Run(es), key);
    }
  }

  // ---------------------------------------------------------------- whatever the keys

  /** The call that a session goes back to: the last one with its key since the last
      shutdown. */
  ghost predicate Opener(es: seq<Event>, i: int, key: string) {
    Origin(es, i, key) && forall j :: i < j < |es| ==> !(IsStart(es[j]) && es[j].key == key)
  }

  /** The event ends a login process that reports to the key. */
  ghost predicate Ends(es: seq<Event>, j: int, key: string) {
    && 0 <= j < |es| && es[j].Exit?
    && EndsIn(Run(es[..j]), es[j].run, key)
  }

  ghost predicate EndsIn(s: State, run: nat, key: string) {
    run in s.processes && !s.processes[run].exited && s.processes[run].key == key
  }

  ghost predicate SomeEnded(es: seq<Event>, i: int, key: string) { exists j :: i < j && Ends(es, j, key) }

  ghost predicate NoneFailed(es: seq<Event>, i: int, key: string) {
    forall j :: i < j && Ends(es, j, key) ==> es[j].err == ""
  }

  function Expiry(e: Event): int
    requires IsStart(e)
  {
    e.now + if e.StartKnown? then 60 else 900
  }

  /** What a session says: it is done when any process under its key has ended since its
      opening, and without error when none of those failed. */
  ghost predicate Settled(es: seq<Event>, i: int, key: string, sess: Session)
    requires Opener(es, i, key)
  {
    && sess.expires == Expiry(es[i])
    && (sess.done <==> es[i].StartKnown? || SomeEnded(es, i, key))
    && (sess.err == "" <==> NoneFailed(es, i, key))
    && (sess.err != "" ==> LastFailure(es, i, key, sess.err))
  }

  /** The error of the last process under the key that has ended with one. */
  ghost predicate LastFailure(es: seq<Event>, i: int, key: string, err: string) {
    exists j :: i < j && Ends(es, j, key) && es[j].err == err && NoneFailed(es, j, key)
  }

  lemma LastFailureSnoc(es: seq<Event>, e: Event, i: int, key: string, err: string)
    requires 0 <= i < |es|
    ensures e.Exit? && EndsIn(Run(es), e.run, key) && e.err != "" ==> LastFailure(es + [e], i, key, e.err)
    ensures LastFailure(es, i, key, err) && !(e.Exit? && EndsIn(Run(es), e.run, key) && e.err != "") ==>
              LastFailure(es + [e], i, key, err)
  {
    var all := es + [e];
    assert all[|es|] == e;
    forall j ensures Ends(all, j, key) <==> Ends(es, j, key) || (j == |es| && e.Exit? && EndsIn(Run(es), e.run, key)) {
      EndsSnoc(es, e, j, key);
    }
    forall j | 0 <= j < |es| ensures all[j] == es[j] {}
    if e.Exit? && EndsIn(Run(es), e.run, key) && e.err != "" {
      assert Ends(all, |es|, key);
    } else if LastFailure(es, i, key, err) {
      var j :| i < j && Ends(es, j, key) && es[j].err == err && NoneFailed(es, j, key);
      assert Ends(all, j, key) && NoneFailed(all, j, key);
    }
  }

  ghost predicate Explained(es: seq<Event>, key: string) {
    if key in Run(es).logins then exists i :: Opener(es, i, key) && Settled(es, i, key, Run(es).logins[key])
    else forall i :: !Opener(es, i, key)
  }

  lemma RunSnoc(es: seq<Event>, e: Event)
    ensures Run(es + [e]) == Step(Run(es), e)
  {
    assert (es + [e])[..|es|] == es;
  }

  lemma EndsSnoc(es: seq<Event>, e: Event, j: int, key: string)
    ensures Ends(es + [e], j, key) <==> Ends(es, j, key) || (j == |es| && e.Exit? && EndsIn(Run(es), e.run, key))
  {
    var all := es + [e];
    if 0 <= j < |es| { assert all[..j] == es[..j] && all[j] == es[j]; }
    if j == |es| { assert all[..j] == es && all[j] == e; }
  }

  lemma OpenerSnoc(es: seq<Event>, e: Event, i: int, key: string)
    ensures i < |es| && !e.Shutdown? && !(IsStart(e) && e.key == key) ==> (Opener(es + [e], i, key) <==>
            Opener(es, i, key))
    ensures Opener(es + [e], |es|, key) <==> IsStart(e) && e.key == key
    ensures i < |es| && (e.Shutdown? || (IsStart(e) && e.key == key)) ==> !Opener(es + [e], i, key)
  {
    var all := es + [e];
    assert all[|es|] == e;
    assert forall j :: 0 <= j < |es| ==> all[j] == es[j];
  }

  /** What the end of a process under the key, or any other event, makes of a session. */
  lemma SettledSnoc(es: seq<Event>, e: Event, i: int, key: string)
    requires Opener(es, i, key) && Opener(es + [e], i, key) && key in Run(es).logins && !e.Shutdown? && !IsStart(e)
    requires Settled(es, i, key, Run(es).logins[key])
    ensures key in Run(es + [e]).logins && Settled(es + [e], i, key, Run(es + [e]).logins[key])
  {
    var all, s := es + [e], Run(es);
    RunSnoc(es, e);
    assert all[i] == es[i] && all[|es|] == e;
    forall j ensures Ends(all, j, key) <==> Ends(es, j, key) || (j == |es| && e.Exit? && EndsIn(s, e.run, key)) {
      EndsSnoc(es, e, j, key);
    }
    forall j | 0 <= j < |es| ensures all[j] == es[j] {}
    LastFailureSnoc(es, e, i, key, s.logins[key].err);
    if e.Exit? && EndsIn(s, e.run, key) {
      assert Ends(all, |es|, key);
      NoneFailedSnoc(es, e, i, key);
    } else {
      SameEnds(es, e, i, key);
    }
  }

  lemma NoneFailedSnoc(es: seq<Event>, e: Event, i: int, key: string)
    requires 0 <= i < |es| && e.Exit? && EndsIn(Run(es), e.run, key)
    ensures SomeEnded(es + [e], i, key)
    ensures NoneFailed(es + [e], i, key) <==> NoneFailed(es, i, key) && e.err == ""
  {
    var all := es + [e];
    assert all[|es|] == e;
    EndsSnoc(es, e, |es|, key);
    if NoneFailed(all, i, key) {
      forall j | i < j && Ends(es, j, key) ensures es[j].err == "" { EndsSnoc(es, e, j, key); assert all[j] == es[j]; }
    }
    if NoneFailed(es, i, key) && e.err == "" {
      forall j | i < j && Ends(all, j, key) ensures all[j].err == "" { EndsSnoc(es, e, j, key); }
    }
  }

  lemma SameEnds(es: seq<Event>, e: Event, i: int, key: string)
    requires 0 <= i < |es| && !(e.Exit? && EndsIn(Run(es), e.run, key))
    ensures SomeEnded(es + [e], i, key) <==> SomeEnded(es, i, key)
    ensures NoneFailed(es + [e], i, key) <==> NoneFailed(es, i, key)
  {
    var all := es + [e];
    forall j ensures Ends(all, j, key) <==> Ends(es, j, key) { EndsSnoc(es, e, j, key); }
    assert forall j :: 0 <= j < |es| ==> all[j] == es[j];
  }

  lemma {:induction false} AlwaysExplained(es: seq<Event>, key: string)
    ensures Explained(es, key)
    decreases |es|
  {
    if es != [] {
      var front, e := es[..|es| - 1], es[|es| - 1];
      assert es == front + [e];
      AlwaysExplained(front, key);
      ExplainedSnoc(front, e, key);
    }
  }

  lemma ExplainedSnoc(es: seq<Event>, e: Event, key: string)
    requires Explained(es, key)
    ensures Explained(es + [e], key)
  {
    RunSnoc(es, e);
    if IsStart(e) && e.key == key {
      JustOpened(es, e, key);
    } else if e.Shutdown? {
      forall i ensures !Opener(es + [e], i, key) { OpenerSnoc(es, e, i, key); }
    } else if key in Run(es).logins {
      var i :| Opener(es, i, key) && Settled(es, i, key, Run(es).logins[key]);
      OpenerSnoc(es, e, i, key);
      if IsStart(e) { OtherOpened(es, e, i, key); } else { SettledSnoc(es, e, i, key); }
    } else {
      forall i ensures !Opener(es + [e], i, key) { OpenerSnoc(es, e, i, key); }
    }
  }

  lemma JustOpened(es: seq<Event>, e: Event, key: string)
    requires IsStart(e) && e.key == key
    ensures Explained(es + [e], key)
  {
    RunSnoc(es, e);
    OpenerSnoc(es, e, |es|, key);
    assert Settled(es + [e], |es|, key, Run(es + [e]).logins[key]);
  }

  lemma OtherOpened(es: seq<Event>, e: Event, i: int, key: string)
    requires Opener(es, i, key) && Opener(es + [e], i, key) && key in Run(es).logins && IsStart(e) && e.key != key
    requires Settled(es, i, key, Run(es).logins[key])
    ensures key in Run(es + [e]).logins && Settled(es + [e], i, key, Run(es + [e]).logins[key])
  {
    RunSnoc(es, e);
    SameEnds(es, e, i, key);
    LastFailureSnoc(es, e, i, key, Run(es).logins[key].err);
    assert (es + [e])[i] == es[i];
  }

  lemma OneOpener(es: seq<Event>, i: int, j: int, key: string)
    requires Opener(es, i, key) && Opener(es, j, key)
    ensures i == j
  {}

  /** What a poll rests on: a session opened by one call, not expired; opened for an
      authenticated CLI, or some login process under its key has ended since; and no login
      process under its key has ended with an error since. */
  ghost predicate RestsOn(es: seq<Event>, i: int, key: string, now: int) {
    && Opener(es, i, key) && now < Expiry(es[i])
    && (es[i].StartKnown? || SomeEnded(es, i, key)) && NoneFailed(es, i, key)
  }

  /** Over every interleaving, whether keys are distinct or not: a poll succeeds if and only if
      the status is known and authenticated now and the poll rests on some such session. */
  lemma PollSuccessExactly(es: seq<Event>, key: string, now: int, status: Status)
    ensures Poll(Run(es), key, now, status) == Success <==>
            status == Status(true, true) && exists i :: RestsOn(es, i, key, now)
  {
    AlwaysExplained(es, key);
    if key in Run(es).logins {
      var i :| Opener(es, i, key) && Settled(es, i, key, Run(es).logins[key]);
      forall k | RestsOn(es, k, key, now) ensures k == i { OneOpener(es, i, k, key); }
      assert RestsOn(es, i, key, now) <==>
             var sess := Run(es).logins[key]; now < sess.expires && sess.done && sess.err == "";
    }
  }

  /** What a poll answers, for the session that a call opened. */
  function Verdict(known: bool, over: bool, done: bool, failed: bool, status: Status): string {
    if !known then "unknown"
    else if over then "expired"
    else if !done then "pending"
    else if failed then "failed"
    else
      match status
      case Unavailable => "status failed"
      case Status(k, a) => if k && a then "success" else "unconfirmed"
  }

  function VerdictOf(a: Answer): string {
    match a
    case Unknown => "unknown"
    case Expired => "expired"
    case Pending(_) => "pending"
    case Failed(_) => "failed"
    case StatusFailed => "status failed"
    case Unconfirmed => "unconfirmed"
    case Success => "success"
  }

  /** Over every interleaving, every answer of a poll: unknown without an opener; else by the
      opener's time, by whether a process under its key has ended since, by whether one of them
      ended with an error, which is then the last such error, and by the status now. */
  lemma PollExactly(es: seq<Event>, key: string, now: int, status: Status)
    ensures (forall i :: !Opener(es, i, key)) ==> Poll(Run(es), key, now, status) == Unknown
    ensures forall i :: Opener(es, i, key) ==>
              var a := Poll(Run(es), key, now, status);
              && VerdictOf(a) == Verdict(true, now >= Expiry(es[i]), es[i].StartKnown? || SomeEnded(es, i, key),
                                         !NoneFailed(es, i, key), status)
              && (a.Failed? ==> LastFailure(es, i, key, a.err))
  {
    AlwaysExplained(es, key);
    if key in Run(es).logins {
      var i :| Opener(es, i, key) && Settled(es, i, key, Run(es).logins[key]);
      forall k | Opener(es, k, key) ensures k == i { OneOpener(es, i, k, key); }
      PollOf(Run(es), key, now, status);
    }
  }

  /** What a poll makes of a session. */
  lemma PollOf(s: State, key: string, now: int, status: Status)
    requires key in s.logins
    ensures var a, sess := Poll(s, key, now, status), s.logins[key];
            && VerdictOf(a) == Verdict(true, now >= sess.expires, sess.done, sess.err != "", status)
            && (a.Failed? ==> a.err == sess.err && sess.err != "")
  {}

  // ---------------------------------------------------------------- the approval URL

  /** The first URL that a process has printed since some event. */
  function FirstUrl(es: seq<Event>, i: int, run: nat): string {
    if |es| == 0 || |es| - 1 <= i then ""
    else
      var before, last := FirstUrl(es[..|es| - 1], i, run), es[|es| - 1];
      if before != "" then before else if last.Line? && last.run == run then last.url else ""
  }

  ghost predicate UrlOk(es: seq<Event>, i: int)
    requires 0 <= i < |es| && es[i].StartLogin?
  {
    var s, run, key := Run(es), es[i].run, es[i].key;
    && key in s.logins && run in s.processes && s.processes[run].key == key
    && (s.processes[run].published <==> FirstUrl(es, i, run) != "")
    && s.logins[key].url == FirstUrl(es, i, run)
  }

  lemma {:induction false} UrlIsFirst(es: seq<Event>, i: int)
    requires Distinct(es) && 0 <= i < |es| && es[i].StartLogin? && Origin(es, i, es[i].key)
    ensures UrlOk(es, i)
    decreases |es|
  {
    var front, e := es[..|es| - 1], es[|es| - 1];
    assert es == front + [e];
    RunSnoc(front, e);
    if i < |front| {
      assert front[i] == es[i];
      DistinctPrefix(front, e);
      OriginPrefix(front, e, i, es[i].key);
      UrlIsFirst(front, i);
      UrlStep(front, e, i);
    }
  }

  lemma OriginPrefix(es: seq<Event>, e: Event, i: int, key: string)
    requires Origin(es + [e], i, key) && i < |es|
    ensures Origin(es, i, key) && !e.Shutdown?
  {
    var all := es + [e];
    assert all[|es|] == e && all[i] == es[i];
    forall j | i < j < |es| ensures !es[j].Shutdown? { assert all[j] == es[j]; }
  }

  lemma UrlStep(es: seq<Event>, e: Event, i: int)
    requires Distinct(es + [e]) && 0 <= i < |es| && es[i].StartLogin? && UrlOk(es, i) && !e.Shutdown?
    ensures UrlOk(es + [e], i)
  {
    var all, s := es + [e], Run(es);
    RunSnoc(es, e);
    DistinctPrefix(es, e);
    RunInv(es);
    assert all[i] == es[i] && all[|es|] == e && all[..|es|] == es;
    if e.Line? && e.run in s.processes && s.processes[e.run].key == es[i].key { OwnProcess(es, s, i, e.run); }
    UrlEvent(s, e, es[i].key, es[i].run);
  }

  /** Only the process's own first line with a URL changes what the session shows. */
  lemma UrlEvent(s: State, e: Event, key: string, run: nat)
    requires key in s.logins && run in s.processes && s.processes[run].key == key && !e.Shutdown?
    requires IsStart(e) ==> e.key != key && (e.StartLogin? ==> e.run != run)
    requires e.Line? && e.run in s.processes && s.processes[e.run].key == key ==> e.run == run
    ensures var s', shows := Step(s, e), e.Line? && e.run == run && e.url != "" && !s.processes[run].published;
            && key in s'.logins && run in s'.processes && s'.processes[run].key == key
            && s'.processes[run].published == (s.processes[run].published || shows)
            && s'.logins[key].url == if shows then e.url else s.logins[key].url
  {}

  /** While it is pending, a poll shows the first approval URL that the login process has
      printed, and none as long as it has printed none. */
  lemma PendingShowsFirst(es: seq<Event>, i: int, key: string, now: int, status: Status)
    requires Distinct(es) && Origin(es, i, key) && es[i].StartLogin?
    ensures var a := Poll(Run(es), key, now, status);
            a.Pending? ==> a.url == FirstUrl(es, i, es[i].run)
  {
    UrlIsFirst(es, i);
  }

  // ---------------------------------------------------------------- whose process ended

  /** No later call takes the key or the process's identity. */
  ghost predicate LeftAlone(later: seq<Event>, key: string, run: nat) {
    forall m :: 0 <= m < |later| && IsStart(later[m]) ==>
      later[m].key != key && (later[m].StartLogin? ==> later[m].run != run)
  }

  /** Every process under the key, other than one, has ended. */
  ghost predicate OnlyAlive(s: State, key: string, run: nat) {
    forall r :: r in s.processes && s.processes[r].key == key && r != run ==> s.processes[r].exited
  }

  lemma OnlyAliveStays(s: State, e: Event, key: string, run: nat)
    requires OnlyAlive(s, key, run) && LeftAlone([e], key, run)
    ensures OnlyAlive(Step(s, e), key, run)
  {
    assert [e][0] == e;
  }

  lemma {:induction false} OnlyAliveLater(es: seq<Event>, later: seq<Event>, key: string, run: nat)
    requires OnlyAlive(Run(es), key, run) && LeftAlone(later, key, run)
    ensures OnlyAlive(Run(es + later), key, run)
    decreases |later|
  {
    if later == [] {
      assert es + later == es;
    } else {
      var front, e := later[..|later| - 1], later[|later| - 1];
      assert LeftAlone(front, key, run) && LeftAlone([e], key, run);
      OnlyAliveLater(es, front, key, run);
      assert es + later == es + front + [e];
      RunSnoc(es + front, e);
      OnlyAliveStays(Run(es + front), e, key, run);
    }
  }

  /** Whether a successful poll of the session just opened will always mean that its own
      process ended without error. */
  ghost predicate OwnExitCounts(es: seq<Event>, run: nat, key: string) {
    forall later, now ::
      LeftAlone(later, key, run) && Poll(Run(es + later), key, now, Status(true, true)) == Success ==>
      Exit(run, "") in later
  }

  /** It will if and only if no other process under the key is still running when the session
      is opened. */
  lemma OwnExitExactly(before: seq<Event>, run: nat, key: string, t: int)
    requires run !in Run(before).processes
    ensures var es := before + [StartLogin(run, key, t)];
            OwnExitCounts(es, run, key) <==> OnlyAlive(Run(before), key, run)
  {
    var es := before + [StartLogin(run, key, t)];
    RunSnoc(before, StartLogin(run, key, t));
    if OnlyAlive(Run(before), key, run) {
      forall later, now |
        LeftAlone(later, key, run) && Poll(Run(es + later), key, now, Status(true, true)) == Success
        ensures Exit(run, "") in later
      {
        OwnEnded(before, run, key, t, later, now);
      }
    } else {
      var r :| r in Run(before).processes && Run(before).processes[r].key == key && r != run &&
               !Run(before).processes[r].exited;
      StrangerCompletes(before, run, key, t, r);
    }
  }

  lemma StrangerCompletes(before: seq<Event>, run: nat, key: string, t: int, r: nat)
    requires r != run && EndsIn(Run(before), r, key)
    ensures var es := before + [StartLogin(run, key, t)];
            LeftAlone([Exit(r, "")], key, run) && Exit(run, "") !in [Exit(r, "")] &&
            Poll(Run(es + [Exit(r, "")]), key, t, Status(true, true)) == Success
  {
    var es := before + [StartLogin(run, key, t)];
    RunSnoc(before, StartLogin(run, key, t));
    RunSnoc(es, Exit(r, ""));
  }

  lemma OwnEnded(before: seq<Event>, run: nat, key: string, t: int, later: seq<Event>, now: int)
    requires OnlyAlive(Run(before), key, run) && LeftAlone(later, key, run)
    requires Poll(Run(before + [StartLogin(run, key, t)] + later), key, now, Status(true, true)) == Success
    ensures Exit(run, "") in later
  {
    var es := before + [StartLogin(run, key, t)];
    var all := es + later;
    PollSuccessExactly(all, key, now, Status(true, true));
    var i :| RestsOn(all, i, key, now);
    OpenedHere(before, run, key, t, later, i);
    var j :| i < j && Ends(all, j, key);
    assert j >= |es| && all[j] == later[j - |es|] && all[j].err == "";
    RunSnoc(before, StartLogin(run, key, t));
    OpeningLeavesAlone(Run(before), run, key, t);
    EndedIsOwn(es, run, key, later, j - |es|);
  }

  /** Whatever process ends under the key later, it is the one that is alone alive. */
  lemma EndedIsOwn(es: seq<Event>, run: nat, key: string, later: seq<Event>, m: nat)
    requires OnlyAlive(Run(es), key, run) && LeftAlone(later, key, run) && m < |later|
    requires Ends(es + later, |es| + m, key)
    ensures later[m].Exit? && later[m].run == run
  {
    CutAt(es, later, m);
    PartLeftAlone(later, m, key, run);
    OnlyAliveLater(es, later[..m], key, run);
  }

  lemma OpeningLeavesAlone(s: State, run: nat, key: string, t: int)
    requires OnlyAlive(s, key, run)
    ensures OnlyAlive(Step(s, StartLogin(run, key, t)), key, run)
  {}

  lemma PartLeftAlone(later: seq<Event>, m: nat, key: string, run: nat)
    requires LeftAlone(later, key, run) && m <= |later|
    ensures LeftAlone(later[..m], key, run)
  {}

  lemma CutAt(es: seq<Event>, later: seq<Event>, m: nat)
    requires m < |later|
    ensures (es + later)[..|es| + m] == es + later[..m] && (es + later)[|es| + m] == later[m]
  {}

  lemma OpenedHere(before: seq<Event>, run: nat, key: string, t: int, later: seq<Event>, i: int)
    requires LeftAlone(later, key, run) && Opener(before + [StartLogin(run, key, t)] + later, i, key)
    ensures i == |before|
  {
    var all := before + [StartLogin(run, key, t)] + later;
    assert all[|before|] == StartLogin(run, key, t);
  }

  /** A run in which the conclusion of PollSuccessMeans fails: a state key given out again
      after a shutdown, while the first login process still runs. Its exit completes the
      second session. */
  lemma SharedKeyMisleads(key: string, t: int)
    ensures var es := [StartLogin(1, key, t), Shutdown, StartLogin(2, key, t), Exit(1, "")];
            && Poll(Run(es), key, t, Status(true, true)) == Success
            && !Distinct(es) && forall i :: Origin(es, i, key) ==> !InForce(es, i, t)
  {
    var before := [StartLogin(1, key, t), Shutdown];
    var es := before + [StartLogin(2, key, t)] + [Exit(1, "")];
    assert es == [StartLogin(1, key, t), Shutdown, StartLogin(2, key, t), Exit(1, "")];
    assert [] + [StartLogin(1, key, t)] == [StartLogin(1, key, t)];
    RunSnoc([], StartLogin(1, key, t));
    RunSnoc([StartLogin(1, key, t)], Shutdown);
    assert [StartLogin(1, key, t)] + [Shutdown] == before;
    StrangerCompletes(before, 2, key, t, 1);
    assert es[0].key == es[2].key;
    forall i | Origin(es, i, key) ensures !InForce(es, i, t) {
      assert es[1].Shutdown?;
    }
  }
}
