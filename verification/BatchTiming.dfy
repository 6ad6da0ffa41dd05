/** How long a batch may take when every transport call returns by its deadline. */
module BatchTiming {
  import opened Wrappers
  import opened BatchRunner

  const MAX_OVERALL_MS := 180000.0

  function Deadline(d: Dispatch): real {
    d.timeoutMs.GetOr(DEFAULT_DEADLINE_MS)
  }

  ghost predicate DeadlinesWithin(group: seq<Dispatch>, bound: real) {
    forall d :: d in group ==> Deadline(d) <= bound
  }

  ghost predicate ListsOnTime<W>(env: Env<W>, w: W, framed: bool) {
    env.clock(w) <= env.clock(env.list(w, framed).0) <= env.clock(w) + DEFAULT_DEADLINE_MS
  }

  // A call cannot be answered before it was made, so only a bound of at least zero is one.
  ghost predicate AnswersOnTime<W>(env: Env<W>, w: W, group: seq<Dispatch>, bound: real) {
    group != [] && 0.0 <= bound && DeadlinesWithin(group, bound) ==>
      env.clock(w) <= env.clock(env.dispatch(w, group).0) <= env.clock(w) + bound
  }

  // Time passes only while the transport works, and it answers by its deadlines.
  ghost predicate Punctual<W(!new)>(env: Env<W>) {
    && (forall w, framed :: ListsOnTime(env, w, framed))
    && (forall w, group, bound :: AnswersOnTime(env, w, group, bound))
  }

  // The latest deadline of a group, and never before the group left.
  function Longest(group: seq<Dispatch>): (ms: real)
    ensures 0.0 <= ms
    ensures forall d :: d in group ==> Deadline(d) <= ms
    ensures ms == 0.0 || exists d :: d in group && Deadline(d) == ms
  {
    if group == [] then 0.0
    else
      var last := group[|group| - 1];
      assert group == group[..|group| - 1] + [last];
      Max(Longest(group[..|group| - 1]), Deadline(last))
  }

  // The slowest transport allowed: every call takes all the time it has. The world is the clock.
  function Slowest(texts: Texts, reply: ListReply, answer: Answer): Env<real> {
    Env((now: real, framed: bool) => (now + DEFAULT_DEADLINE_MS, reply),
        (now: real, group: seq<Dispatch>) => (now + Longest(group), (k: nat) => (answer, Longest(group))),
        (now: real) => now, texts)
  }

  // The slowest transport is punctual, whatever it answers.
  lemma SlowestIsPunctual(texts: Texts, reply: ListReply, answer: Answer)
    ensures Punctual(Slowest(texts, reply, answer))
  {
    var env := Slowest(texts, reply, answer);
    forall now: real, group: seq<Dispatch>, bound: real
      ensures AnswersOnTime(env, now, group, bound)
    {
      assert 0.0 <= bound && DeadlinesWithin(group, bound) ==> Longest(group) <= bound;
    }
  }

  // A wait is over at most five seconds after the ceiling or, if later, its own dispatch.
  ghost predicate WaitBounded(cfg: Config, e: TraceEvent) {
    e.Sent? && (exists d :: d in e.group && d.step.action == WaitFor) ==>
      e.done <= Max(cfg.startedAt + MAX_BATCH_DURATION_MS, e.at) + WAIT_HEADROOM_MS
  }

  ghost predicate InTime<W>(env: Env<W>, cfg: Config, p: Progress<W>) {
    && cfg.startedAt <= env.clock(p.w) < cfg.startedAt + MAX_OVERALL_MS
    && forall e :: e in p.trace ==> WaitBounded(cfg, e)
  }

  // A group of more than one step holds reads only, so a wait leaves alone.
  lemma {:induction false} GroupDeadlines(cfg: Config, i: nat, budget: real)
    requires i < |cfg.steps| && 0.0 <= budget
    ensures var group := GroupOf(cfg, i, GroupEnd(cfg.steps, i), budget);
            && group != []
            && DeadlinesWithin(group, if cfg.steps[i].action == WaitFor then budget + WAIT_HEADROOM_MS else DEFAULT_DEADLINE_MS)
            && ((exists d :: d in group && d.step.action == WaitFor) ==> cfg.steps[i].action == WaitFor)
  {
    var end := GroupEnd(cfg.steps, i);
    var group := GroupOf(cfg, i, end, budget);
    forall d | d in group
      ensures d.step.action == WaitFor ==> cfg.steps[i].action == WaitFor
      ensures Deadline(d) <= if cfg.steps[i].action == WaitFor then budget + WAIT_HEADROOM_MS else DEFAULT_DEADLINE_MS
    {
      var k :| 0 <= k < |group| && group[k] == d;
      assert d == DispatchOf(cfg, cfg.steps[i + k], i + k, budget);
      if end != i + 1 {
        assert IsRead(cfg.steps[i + k]) && IsRead(cfg.steps[i]);
      }
    }
  }

  // What a dispatched group costs, and when its wait, if it is one, is over.
  lemma {:induction false} DispatchInTime<W(!new)>(env: Env<W>, cfg: Config, p: Progress<W>)
    requires Punctual(env) && p.index < |cfg.steps|
    requires cfg.startedAt <= env.clock(p.w) < cfg.startedAt + MAX_BATCH_DURATION_MS + DEFAULT_DEADLINE_MS
    ensures var (w, sent) := Dispatched(env, p.w, NextGroup(env, cfg, p, GroupEnd(cfg.steps, p.index)));
            cfg.startedAt <= env.clock(w) < cfg.startedAt + MAX_OVERALL_MS && WaitBounded(cfg, sent)
  {
    var at := env.clock(p.w);
    var budget := Max(0.0, MAX_BATCH_DURATION_MS - (at - cfg.startedAt));
    var bound := if cfg.steps[p.index].action == WaitFor then budget + WAIT_HEADROOM_MS else DEFAULT_DEADLINE_MS;
    var group := NextGroup(env, cfg, p, GroupEnd(cfg.steps, p.index));
    assert group == GroupOf(cfg, p.index, GroupEnd(cfg.steps, p.index), budget);
    GroupDeadlines(cfg, p.index, budget);
    assert AnswersOnTime(env, p.w, group, bound);
    var r := Dispatched(env, p.w, group);
    assert r.1.group == group && r.1.at == at && r.1.done == env.clock(r.0);
  }

  lemma {:induction false} SendInTime<W(!new)>(env: Env<W>, cfg: Config, p: Progress<W>)
    requires Punctual(env) && p.index < |cfg.steps|
    requires cfg.startedAt <= env.clock(p.w) < cfg.startedAt + MAX_BATCH_DURATION_MS + DEFAULT_DEADLINE_MS
    requires forall e :: e in p.trace ==> WaitBounded(cfg, e)
    ensures InTime(env, cfg, SendGroup(env, cfg, p, GroupEnd(cfg.steps, p.index)))
  {
    DispatchInTime(env, cfg, p);
  }

  lemma {:induction false} ReadInTime<W(!new)>(env: Env<W>, cfg: Config, opening: Reading, p: Progress<W>)
    requires Punctual(env) && InTime(env, cfg, p) && env.clock(p.w) - cfg.startedAt < MAX_BATCH_DURATION_MS
    ensures var q := ReadForTurn(env, cfg, opening, p).0;
            && cfg.startedAt <= env.clock(q.w) < cfg.startedAt + MAX_BATCH_DURATION_MS + DEFAULT_DEADLINE_MS
            && q.index == p.index && forall e :: e in q.trace ==> WaitBounded(cfg, e)
  {
    assert ListsOnTime(env, p.w, cfg.framed);
  }

  lemma {:induction false} TurnInTime<W(!new)>(env: Env<W>, cfg: Config, opening: Reading, p: Progress<W>)
    requires Punctual(env) && InTime(env, cfg, p) && !Over(cfg, p)
    ensures InTime(env, cfg, Turn(env, cfg, opening, p))
  {
    if env.clock(p.w) - cfg.startedAt < MAX_BATCH_DURATION_MS {
      ReadInTime(env, cfg, opening, p);
      var q := ReadForTurn(env, cfg, opening, p).0;
      SendInTime(env, cfg, q);
    }
  }

  lemma {:induction false} LoopInTime<W(!new)>(env: Env<W>, cfg: Config, opening: Reading, p: Progress<W>)
    requires Punctual(env) && InTime(env, cfg, p)
    ensures InTime(env, cfg, Loop(env, cfg, opening, p))
    decreases |cfg.steps| - p.index, if Over(cfg, p) then 0 else 1
  {
    if !Over(cfg, p) {
      TurnAdvances(env, cfg, opening, p);
      TurnInTime(env, cfg, opening, p);
      var q := Turn(env, cfg, opening, p);
      if !Over(cfg, q) {
        LoopInTime(env, cfg, opening, q);
      }
    }
  }

  // Every run is over before 180 seconds, however it ends, and no wait outlives
  // the 120-second ceiling or its own dispatch by more than five seconds.
  lemma BatchEndsInTime<W(!new)>(env: Env<W>, w0: W, steps: seq<Step>, approved: Option<string>,
      approvedFrames: Option<map<string, string>>)
    requires Punctual(env)
    ensures var r := Batch(env, w0, steps, approved, approvedFrames);
            && env.clock(w0) <= env.clock(r.w) < env.clock(w0) + MAX_OVERALL_MS
            && (Open(env, w0, steps, approved, approvedFrames).Opened? ==>
                  forall e :: e in r.trace ==> WaitBounded(Open(env, w0, steps, approved, approvedFrames).cfg, e))
  {
    assert ListsOnTime(env, w0, exists k :: 0 <= k < |steps| && steps[k].frame.Some?);
    match Open(env, w0, steps, approved, approvedFrames) {
      case Refused(_, _, _) =>
      case Opened(cfg, reading, p) => LoopInTime(env, cfg, reading, p);
    }
  }
}
