/**
 What a run sends and what it makes of the answers: every dispatch carries the deadline
 its step asked for within the run's budget, and every outcome says what was answered.
 */
module BatchAnswers {
  import opened Wrappers
  import opened BatchRunner
  import opened BatchSafety

  // A wait gets the shorter of its own timeout and what is left of the run, and five
  // seconds more; no other step has a deadline of its own.
  predicate DeadlineRight(startedAt: real, at: real, d: Dispatch) {
    var elapsed := at - startedAt;
    var left := if elapsed < MAX_BATCH_DURATION_MS then MAX_BATCH_DURATION_MS - elapsed else 0.0;
    if d.step.action != WaitFor then d.timeoutMs == None
    else
      && d.timeoutMs.Some?
      && var t, own := d.timeoutMs.value - 5000.0, d.step.timeout.GetOr(30000.0);
         t <= own && t <= left && (t == own || t == left)
  }

  // Outcome o of step d says what a answered: a result within bounds as it came, a larger
  // one replaced, an error within bounds as it came, a longer one cut; cuts are marked.
  predicate Says(texts: Texts, d: Dispatch, a: Answer, durationMs: real, o: Outcome) {
    && o.index == d.index && o.action == d.step.action && o.ok == a.ok && o.durationMs == durationMs
    && if a.ok then
         var large := a.result.Some? && texts.sizeOf(a.result.value) > MAX_BATCH_STEP_RESULT_CHARS;
         && o.error == None && o.resultTruncated == large
         && o.result == if large then Some(texts.cutNote(d.step.action)) else a.result
       else
         var long := |a.error| > MAX_BATCH_STEP_RESULT_CHARS;
         && o.result == None && o.resultTruncated == long
         && o.error == Some(if long then a.error[..MAX_BATCH_STEP_RESULT_CHARS] + texts.cutMark else a.error)
  }

  lemma OutcomeSays(texts: Texts, d: Dispatch, a: Answer, durationMs: real)
    ensures Says(texts, d, a, durationMs, OutcomeOf(texts, d, a, durationMs))
  {
  }

  lemma DeadlineIsRight(cfg: Config, step: Step, index: nat, at: real)
    ensures DeadlineRight(cfg.startedAt, at,
                          DispatchOf(cfg, step, index, Max(0.0, MAX_BATCH_DURATION_MS - (at - cfg.startedAt))))
  {
  }

  // The group left at one moment of some world, and its outcomes are that world's answers.
  ghost predicate AnsweredAs<W(!new)>(env: Env<W>, startedAt: real, e: TraceEvent, w: W)
    requires e.Sent?
  {
    var (u, answers) := env.dispatch(w, e.group);
    && e.at == env.clock(w) && e.done == env.clock(u) && |e.outcomes| == |e.group|
    && (forall k :: 0 <= k < |e.group| ==> DeadlineRight(startedAt, e.at, e.group[k]))
    && forall k :: 0 <= k < |e.group| ==> Says(env.texts, e.group[k], answers(k).0, answers(k).1, e.outcomes[k])
  }

  // The world goes from w0 to w by these events, one after the other: a listing that was
  // read, or a group that was sent and answered. Nothing else moves it.
  ghost predicate Unfolds<W(!new)>(env: Env<W>, framed: bool, startedAt: real, w0: W, trace: seq<TraceEvent>, w: W) {
    if trace == [] then w == w0
    else
      var e := trace[|trace| - 1];
      exists v :: Unfolds(env, framed, startedAt, w0, trace[..|trace| - 1], v) && Happened(env, framed, startedAt, v, e, w)
  }

  ghost predicate Happened<W(!new)>(env: Env<W>, framed: bool, startedAt: real, v: W, e: TraceEvent, w: W) {
    match e
    case Seen(reading) => env.list(v, framed) == (w, Listed(reading))
    case Sent(group, _, _, _) => AnsweredAs(env, startedAt, e, v) && w == env.dispatch(v, group).0
  }

  // A run that did not throw unfolds to where it ended; one that did, to a listing that threw.
  ghost predicate RunsFrom<W(!new)>(env: Env<W>, framed: bool, startedAt: real, w0: W, p: Progress<W>) {
    if !p.threw then Unfolds(env, framed, startedAt, w0, p.trace, p.w)
    else exists v :: Unfolds(env, framed, startedAt, w0, p.trace, v) && env.list(v, framed) == (p.w, Threw)
  }

  lemma SentIsAnswered<W(!new)>(env: Env<W>, cfg: Config, p: Progress<W>, end: nat)
    requires p.index <= end <= |cfg.steps|
    ensures AnsweredAs(env, cfg.startedAt, Dispatched(env, p.w, NextGroup(env, cfg, p, end)).1, p.w)
  {
    var group := NextGroup(env, cfg, p, end);
    var answers := env.dispatch(p.w, group).1;
    forall k | 0 <= k < |group|
      ensures Says(env.texts, group[k], answers(k).0, answers(k).1, Outcomes(env.texts, group, answers)[k])
      ensures DeadlineRight(cfg.startedAt, env.clock(p.w), group[k])
    {
      OutcomeSays(env.texts, group[k], answers(k).0, answers(k).1);
      DeadlineIsRight(cfg, cfg.steps[p.index + k], p.index + k, env.clock(p.w));
    }
  }

  lemma UnfoldsSnoc<W(!new)>(env: Env<W>, framed: bool, startedAt: real, w0: W, trace: seq<TraceEvent>, v: W,
                             e: TraceEvent, w: W)
    requires Unfolds(env, framed, startedAt, w0, trace, v) && Happened(env, framed, startedAt, v, e, w)
    ensures Unfolds(env, framed, startedAt, w0, trace + [e], w)
  {
    var more := trace + [e];
    assert more[..|more| - 1] == trace && more[|more| - 1] == e;
    assert Unfolds(env, framed, startedAt, w0, more[..|more| - 1], v)
           && Happened(env, framed, startedAt, v, more[|more| - 1], w);
  }

  lemma ReadUnfolds<W(!new)>(env: Env<W>, cfg: Config, opening: Reading, w0: W, p: Progress<W>)
    requires Unfolds(env, cfg.framed, cfg.startedAt, w0, p.trace, p.w) && !p.threw
    ensures RunsFrom(env, cfg.framed, cfg.startedAt, w0, ReadForTurn(env, cfg, opening, p).0)
  {
    var (q, reading) := ReadForTurn(env, cfg, opening, p);
    if p.index > 0 && !q.threw {
      UnfoldsSnoc(env, cfg.framed, cfg.startedAt, w0, p.trace, p.w, Seen(reading), q.w);
    }
  }

  lemma SendUnfolds<W(!new)>(env: Env<W>, cfg: Config, w0: W, p: Progress<W>, end: nat)
    requires Unfolds(env, cfg.framed, cfg.startedAt, w0, p.trace, p.w) && p.index <= end <= |cfg.steps|
    ensures RunsFrom(env, cfg.framed, cfg.startedAt, w0, SendGroup(env, cfg, p, end))
  {
    SentIsAnswered(env, cfg, p, end);
    var r := Dispatched(env, p.w, NextGroup(env, cfg, p, end));
    UnfoldsSnoc(env, cfg.framed, cfg.startedAt, w0, p.trace, p.w, r.1, r.0);
  }

  // A turn ends where its reading left it, or with its group sent.
  lemma TurnComesTo<W>(env: Env<W>, cfg: Config, opening: Reading, p: Progress<W>)
    requires !Over(cfg, p)
    ensures var q, r := ReadForTurn(env, cfg, opening, p).0, Turn(env, cfg, opening, p);
            || (r.trace == p.trace && r.w == p.w && !r.threw)
            || (r.trace == q.trace && r.w == q.w && r.threw == q.threw)
            || (!q.threw && q.index < |cfg.steps| && r == SendGroup(env, cfg, q, GroupEnd(cfg.steps, q.index)))
  {
  }

  lemma TurnUnfolds<W(!new)>(env: Env<W>, cfg: Config, opening: Reading, w0: W, p: Progress<W>)
    requires Unfolds(env, cfg.framed, cfg.startedAt, w0, p.trace, p.w) && !Over(cfg, p)
    ensures RunsFrom(env, cfg.framed, cfg.startedAt, w0, Turn(env, cfg, opening, p))
  {
    ReadUnfolds(env, cfg, opening, w0, p);
    TurnComesTo(env, cfg, opening, p);
    var q := ReadForTurn(env, cfg, opening, p).0;
    if !q.threw && q.index < |cfg.steps| {
      SendUnfolds(env, cfg, w0, q, GroupEnd(cfg.steps, q.index));
    }
  }

  lemma {:induction false} LoopUnfolds<W(!new)>(env: Env<W>, cfg: Config, opening: Reading, w0: W, p: Progress<W>)
    requires Unfolds(env, cfg.framed, cfg.startedAt, w0, p.trace, p.w) && !p.threw
    ensures RunsFrom(env, cfg.framed, cfg.startedAt, w0, Loop(env, cfg, opening, p))
    decreases |cfg.steps| - p.index, if Over(cfg, p) then 0 else 1
  {
    if !Over(cfg, p) {
      TurnAdvances(env, cfg, opening, p);
      TurnUnfolds(env, cfg, opening, w0, p);
      var q := Turn(env, cfg, opening, p);
      if !Over(cfg, q) {
        LoopUnfolds(env, cfg, opening, w0, q);
      }
    }
  }

  // A run is what its trace says: listings read and groups sent from one world to the next,
  // with the right deadlines, and outcomes, which the report is made of, that say what
  // the browser answered. It throws only where a listing threw.
  lemma RunUnfolds<W(!new)>(env: Env<W>, w0: W, steps: seq<Step>, approved: Option<string>,
                            approvedFrames: Option<map<string, string>>)
    ensures var framed := exists k :: 0 <= k < |steps| && steps[k].frame.Some?;
            RunsFrom(env, framed, env.clock(w0), w0, Batch(env, w0, steps, approved, approvedFrames))
  {
    var framed := exists k :: 0 <= k < |steps| && steps[k].frame.Some?;
    var (w, reply) := env.list(w0, framed);
    assert Unfolds(env, framed, env.clock(w0), w0, [], w0);
    if reply.Listed? {
      UnfoldsSnoc(env, framed, env.clock(w0), w0, [], w0, Seen(reply.reading), w);
      assert [] + [Seen(reply.reading)] == [Seen(reply.reading)];
    }
    match Open(env, w0, steps, approved, approvedFrames) {
      case Refused(_, _, _) =>
      case Opened(cfg, reading, p) => LoopUnfolds(env, cfg, reading, w0, p);
    }
  }
}
