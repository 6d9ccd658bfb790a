/** Bounded capture of the agent's output, and one agent invocation from taking the
    semaphore to its outcome. */
module Capture {
  import opened Wrappers

  type Byte = bv8

  function Flat(chunks: seq<seq<Byte>>): seq<Byte> {
    if chunks == [] then [] else Flat(chunks[..|chunks| - 1]) + chunks[|chunks| - 1]
  }

  function Prefix(s: seq<Byte>, n: nat): seq<Byte> { if |s| <= n then s else s[..n] }

  /** The buffer holds the first bytes of everything written. The flag is raised by a byte
      that did not fit, and also by an empty write to a full buffer. */
  ghost predicate Captured(buf: seq<Byte>, truncated: bool, written: seq<seq<Byte>>, limit: int) {
    if limit <= 0 then buf == [] && !truncated
    else buf == Prefix(Flat(written), limit) && (truncated <==> Overflows(written, limit))
  }

  /** What a further write does to the captured bytes, case by case. */
  lemma CapturedMore(buf: seq<Byte>, truncated: bool, written: seq<seq<Byte>>, limit: nat, p: seq<Byte>)
    requires Captured(buf, truncated, written, limit) && limit > 0
    ensures |buf| <= limit
    ensures |buf| == limit ==> Captured(buf, true, written + [p], limit)
    ensures |buf| < limit && |p| > limit - |buf| ==> Captured(buf + p[..limit - |buf|], true, written + [p], limit)
    ensures |buf| < limit && |p| <= limit - |buf| ==> Captured(buf + p, truncated, written + [p], limit)
  {
    OverflowsSnoc(written, p, limit);
    assert (written + [p])[..|written|] == written;
    var w := Flat(written);
    assert Flat(written + [p]) == w + p;
    if |buf| == limit {
      assert |w| >= limit && (w + p)[..limit] == w[..limit] == buf;
    } else {
      assert buf == w;
    }
  }

  /** limitedBuffer */
  class LimitedBuffer {
    const limit: int
    var buf: seq<Byte>
    var truncated: bool
    ghost var written: seq<seq<Byte>>

    ghost predicate Valid()
      reads this
    {
      Captured(buf, truncated, written, limit)
    }

    constructor (limit: int)
      ensures Valid() && this.limit == limit && written == []
    {
      this.limit := limit;
      buf, truncated, written := [], false, [];
    }

    method Write(p: seq<Byte>) returns (n: nat)
      requires Valid()
      modifies this
      ensures Valid() && n == |p| && written == old(written) + [p]
    {
      n := |p|;
      ghost var was := written;
      written := written + [p];
      if limit <= 0 { return; }
      CapturedMore(buf, truncated, was, limit, p);
      var remain := limit - |buf|;
      if remain <= 0 {
        truncated := true;
        return;
      }
      if |p| > remain {
        buf := buf + p[..remain];
        truncated := true;
        return;
      }
      buf := buf + p;
    }
  }

  /** Some write came when the buffer was full, or did not fit whole. */
  ghost predicate Overflows(chunks: seq<seq<Byte>>, limit: nat) {
    exists i :: 0 <= i < |chunks| && OverflowsAt(Flat(chunks[..i]), chunks[i], limit)
  }

  ghost predicate OverflowsAt(before: seq<Byte>, chunk: seq<Byte>, limit: nat) {
    |before| >= limit || |before| + |chunk| > limit
  }

  lemma OverflowsSnoc(chunks: seq<seq<Byte>>, p: seq<Byte>, limit: nat)
    ensures Overflows(chunks + [p], limit) <==> Overflows(chunks, limit) || OverflowsAt(Flat(chunks), p, limit)
  {
    var all := chunks + [p];
    assert all[..|chunks|] == chunks && all[|chunks|] == p;
    if Overflows(chunks, limit) {
      var i :| 0 <= i < |chunks| && OverflowsAt(Flat(chunks[..i]), chunks[i], limit);
      assert all[..i] == chunks[..i] && all[i] == chunks[i];
    }
    if Overflows(all, limit) {
      var i :| 0 <= i < |all| && OverflowsAt(Flat(all[..i]), all[i], limit);
      if i < |chunks| { assert all[..i] == chunks[..i] && all[i] == chunks[i]; }
    }
  }

  /** An empty write that meets an exactly full buffer. */
  ghost predicate EmptyAtLimit(chunks: seq<seq<Byte>>, limit: nat) {
    exists i :: 0 <= i < |chunks| && chunks[i] == [] && |Flat(chunks[..i])| == limit
  }

  lemma EmptyAtLimitSnoc(chunks: seq<seq<Byte>>, p: seq<Byte>, limit: nat)
    ensures EmptyAtLimit(chunks + [p], limit) <==> EmptyAtLimit(chunks, limit) || (p == [] && |Flat(chunks)| == limit)
  {
    var all := chunks + [p];
    assert all[..|chunks|] == chunks && all[|chunks|] == p;
    if EmptyAtLimit(chunks, limit) {
      var i :| 0 <= i < |chunks| && chunks[i] == [] && |Flat(chunks[..i])| == limit;
      assert all[..i] == chunks[..i] && all[i] == chunks[i];
    }
    if EmptyAtLimit(all, limit) {
      var i :| 0 <= i < |all| && all[i] == [] && |Flat(all[..i])| == limit;
      if i < |chunks| { assert all[..i] == chunks[..i] && all[i] == chunks[i]; }
    }
  }

  /** However the bytes are cut up, the flag means that there were more bytes than fit, or that
      an empty write met an exactly full buffer. */
  lemma {:induction false} OverflowExactly(chunks: seq<seq<Byte>>, limit: nat)
    requires limit > 0
    ensures Overflows(chunks, limit) <==> |Flat(chunks)| > limit || EmptyAtLimit(chunks, limit)
    decreases |chunks|
  {
    if chunks != [] {
      var front, last := chunks[..|chunks| - 1], chunks[|chunks| - 1];
      OverflowExactly(front, limit);
      OverflowsSnoc(front, last, limit);
      EmptyAtLimitSnoc(front, last, limit);
      assert front + [last] == chunks;
    }
  }

  /** An empty write does raise the flag although nothing was lost. */
  lemma EmptyWriteOverflows(chunk: seq<Byte>)
    requires chunk != []
    ensures Overflows([chunk, []], |chunk|) && |Flat([chunk, []])| == |chunk|
  {
    var cs: seq<seq<Byte>> := [chunk, []];
    assert cs[..1] == [chunk] && [chunk][..0] == [];
    assert Flat([chunk]) == chunk;
    assert Flat(cs) == chunk + [];
    assert OverflowsAt(Flat(cs[..1]), cs[1], |chunk|);
  }

  // ---------------------------------------------------------------- one invocation

  /** The channel used as a counting semaphore. */
  class Semaphore {
    const capacity: nat
    var tokens: nat

    constructor (capacity: nat)
      ensures this.capacity == capacity && tokens == 0
    {
      this.capacity := capacity;
      tokens := 0;
    }
  }

  datatype Exit = Exited(ok: bool) | TimedOut(promptly: bool)

  /** Everything the invocation depends on from outside. `slot` says which branch the
      select takes when a slot is free; without one only cancellation ends the wait. */
  datatype Env = Env(
    enabled: bool, workspaceOk: bool, slot: bool, exeOk: bool, startOk: bool, exit: Exit,
    stdout: seq<seq<Byte>>, maxStdout: int)

  datatype AgentError = Disabled | NoWorkspace | Cancelled | SetupRequired | StartFailed | Timeout | StdoutLimit |
    AgentFailed

  ghost predicate Acquires(env: Env, tokens: nat, capacity: nat) {
    env.enabled && env.workspaceOk && env.slot && tokens < capacity
  }

  /** The process was started, and what its output did to the flag. */
  ghost predicate Ran(env: Env) { env.exeOk && env.startOk }

  ghost predicate Flagged(env: Env) { env.maxStdout > 0 && Overflows(env.stdout, env.maxStdout) }

  /** What the invocation answers once it has its token: the complete output of a process
      that exited cleanly, or an error; the limit is reported exactly when it was exceeded. */
  ghost predicate Answers(env: Env, r: Result<seq<Byte>, AgentError>) {
    && (r.Ok? <==> Ran(env) && env.exit == Exited(true) && !Flagged(env))
    && (r == Err(StdoutLimit) <==> Ran(env) && env.exit.Exited? && Flagged(env))
    && (r == Err(SetupRequired) <==> !env.exeOk)
    && (r == Err(StartFailed) <==> env.exeOk && !env.startOk)
    && (r == Err(Timeout) <==> Ran(env) && env.exit.TimedOut?)
    && (r == Err(AgentFailed) <==> Ran(env) && env.exit == Exited(false) && !Flagged(env))
    && (r.Ok? ==> r.value == if env.maxStdout > 0 then Flat(env.stdout) else [])
    && (env.maxStdout > 0 ==>
          (Flagged(env) <==> |Flat(env.stdout)| > env.maxStdout || EmptyAtLimit(env.stdout, env.maxStdout)))
  }

  /** runAgent. Every way out gives back exactly the token it took. */
  method RunAgent(sem: Semaphore, env: Env) returns (r: Result<seq<Byte>, AgentError>, ghost took: bool)
    modifies sem
    ensures sem.tokens == old(sem.tokens)
    ensures took <==> Acquires(env, old(sem.tokens), sem.capacity)
    ensures if took then Answers(env, r)
            else r == Err(if !env.enabled then Disabled else if !env.workspaceOk then NoWorkspace else Cancelled)
  {
    took := false;
    if !env.enabled { return Err(Disabled), took; }
    if !env.workspaceOk { return Err(NoWorkspace), took; }
    if !env.slot || sem.tokens >= sem.capacity { return Err(Cancelled), took; }
    sem.tokens := sem.tokens + 1;
    took := true;
    r := Invoke(env);
    sem.tokens := sem.tokens - 1;
  }

  /** The part of runAgent between taking and returning the token. */
  method Invoke(env: Env) returns (r: Result<seq<Byte>, AgentError>)
    ensures Answers(env, r)
  {
    if env.maxStdout > 0 { OverflowExactly(env.stdout, env.maxStdout); }
    if !env.exeOk { return Err(SetupRequired); }
    if !env.startOk { return Err(StartFailed); }
    var out := new LimitedBuffer(env.maxStdout);
    for i := 0 to |env.stdout|
      invariant out.Valid() && out.written == env.stdout[..i]
      invariant fresh(out)
    {
      var n := out.Write(env.stdout[i]);
      assert env.stdout[..i + 1] == env.stdout[..i] + [env.stdout[i]];
    }
    assert env.stdout[..|env.stdout|] == env.stdout;
    if env.exit.TimedOut? { return Err(Timeout); }
    if out.truncated { return Err(StdoutLimit); }
    if !env.exit.ok { return Err(AgentFailed); }
    return Ok(out.buf);
  }
}
