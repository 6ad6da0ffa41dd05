/**
 The batch runner against a runner that sends one step at a time. The page is an
 arbitrary state with an arbitrary effect per step; reads leave it alone.
 */
module BatchRefinement {
  import opened Wrappers
  import opened BatchRunner

  type Exec<!P> = (P, nat, Step) -> (P, Answer)

  datatype Serial<!P> = Serial(page: P, completed: seq<Outcome>, failed: Option<Outcome>)

  function SerialOutcome(texts: Texts, step: Step, i: nat, a: Answer): Outcome {
    OutcomeOf(texts, Dispatch(i, step, None, None), a, 0.0)
  }

  // One step at a time, stopping at the first failure.
  function RunSerially<P>(texts: Texts, exec: Exec<P>, steps: seq<Step>, i: nat, page: P, completed: seq<Outcome>): Serial<P>
    decreases |steps| - i
  {
    if i >= |steps| then Serial(page, completed, None)
    else
      var (next, a) := exec(page, i, steps[i]);
      var o := SerialOutcome(texts, steps[i], i, a);
      if a.ok then RunSerially(texts, exec, steps, i + 1, next, completed + [o]) else Serial(next, completed, Some(o))
  }

  function Timeless(o: Outcome): Outcome {
    o.(durationMs := 0.0)
  }

  function AllTimeless(os: seq<Outcome>): (ts: seq<Outcome>)
    ensures |ts| == |os|
    ensures forall k :: 0 <= k < |os| ==> ts[k] == Timeless(os[k])
  {
    if os == [] then [] else [Timeless(os[0])] + AllTimeless(os[1..])
  }

  ghost predicate ListLooks<W, P>(env: Env<W>, page: W -> P, w: W, framed: bool) {
    page(env.list(w, framed).0) == page(w)
  }

  ghost predicate SingleActs<W, P>(env: Env<W>, page: W -> P, exec: Exec<P>, w: W, d: Dispatch) {
    var (u, answers) := env.dispatch(w, [d]);
    page(u) == exec(page(w), d.index, d.step).0 && answers(0).0 == exec(page(w), d.index, d.step).1
  }

  ghost predicate ReadsLook<W, P>(env: Env<W>, page: W -> P, exec: Exec<P>, w: W, group: seq<Dispatch>) {
    (forall k :: 0 <= k < |group| ==> IsRead(group[k].step)) ==>
      var (u, answers) := env.dispatch(w, group);
      && page(u) == page(w)
      && forall k :: 0 <= k < |group| ==> answers(k).0 == exec(page(w), group[k].index, group[k].step).1
  }

  ghost predicate ReadIsPure<P>(exec: Exec<P>, page: P, i: nat, step: Step) {
    IsRead(step) ==> exec(page, i, step).0 == page
  }

  // The environment acts on a page: a step alone does what `exec` says, reads and
  // listings only look.
  ghost predicate ActsOnPage<W(!new), P(!new)>(env: Env<W>, page: W -> P, exec: Exec<P>) {
    && (forall w, framed :: ListLooks(env, page, w, framed))
    && (forall w, d :: SingleActs(env, page, exec, w, d))
    && (forall w, group :: ReadsLook(env, page, exec, w, group))
    && (forall p, i, step :: ReadIsPure(exec, p, i, step))
  }

  // Runs a group in order, one step after the other.
  function PageAfter<P>(exec: Exec<P>, page: P, group: seq<Dispatch>): P {
    if group == [] then page
    else
      var last := group[|group| - 1];
      exec(PageAfter(exec, page, group[..|group| - 1]), last.index, last.step).0
  }

  function AnswerOf<P>(exec: Exec<P>, page: P, group: seq<Dispatch>, k: nat): (Answer, real) {
    if k < |group| then (exec(PageAfter(exec, page, group[..k]), group[k].index, group[k].step).1, 0.0)
    else (Answer(false, None, ""), 0.0)
  }

  // The browser that is nothing but a page: it shows one reading and runs what it is sent.
  function PageBrowser<P>(exec: Exec<P>, reading: Reading, texts: Texts): Env<P> {
    Env((page: P, framed: bool) => (page, Listed(reading)),
        (page: P, group: seq<Dispatch>) => (PageAfter(exec, page, group), (k: nat) => AnswerOf(exec, page, group, k)),
        (page: P) => 0.0, texts)
  }

  lemma {:induction false} OneAtATime<P>(exec: Exec<P>, page: P, d: Dispatch)
    ensures PageAfter(exec, page, [d]) == exec(page, d.index, d.step).0
    ensures AnswerOf(exec, page, [d], 0).0 == exec(page, d.index, d.step).1
  {
    var none: seq<Dispatch> := [];
    assert [d][..0] == none && PageAfter(exec, page, none) == page;
  }

  lemma {:induction false} ReadsLeaveThePage<P(!new)>(exec: Exec<P>, page: P, group: seq<Dispatch>)
    requires forall p, i, step :: ReadIsPure(exec, p, i, step)
    requires forall k :: 0 <= k < |group| ==> IsRead(group[k].step)
    ensures PageAfter(exec, page, group) == page
  {
    if group != [] {
      var init, last := group[..|group| - 1], group[|group| - 1];
      ReadsLeaveThePage(exec, page, init);
      assert ReadIsPure(exec, page, last.index, last.step);
    }
  }

  // Such browsers exist for every effect whose reads only look.
  lemma PageBrowserActs<P(!new)>(exec: Exec<P>, reading: Reading, texts: Texts)
    requires forall p, i, step :: ReadIsPure(exec, p, i, step)
    ensures ActsOnPage(PageBrowser(exec, reading, texts), (page: P) => page, exec)
  {
    var env, page := PageBrowser(exec, reading, texts), (p: P) => p;
    forall w, d
      ensures SingleActs(env, page, exec, w, d)
    {
      OneAtATime(exec, w, d);
      assert env.dispatch(w, [d]).1(0) == AnswerOf(exec, w, [d], 0);
    }
    forall w, group: seq<Dispatch>
      ensures ReadsLook(env, page, exec, w, group)
    {
      if forall k :: 0 <= k < |group| ==> IsRead(group[k].step) {
        ReadsLeaveThePage(exec, w, group);
        forall k | 0 <= k < |group|
          ensures env.dispatch(w, group).1(k).0 == exec(w, group[k].index, group[k].step).1
        {
          ReadsLeaveThePage(exec, w, group[..k]);
        }
      }
    }
  }

  // o is the outcome of step j, a read, on this page.
  ghost predicate OutcomeOn<P>(texts: Texts, exec: Exec<P>, steps: seq<Step>, j: nat, page: P, o: Outcome) {
    && j < |steps| && IsRead(steps[j])
    && o.index == j && o.ok == exec(page, j, steps[j]).1.ok
    && Timeless(o) == SerialOutcome(texts, steps[j], j, exec(page, j, steps[j]).1)
  }

  // os are the outcomes of steps i, i+1, ... on an unchanging page.
  ghost predicate LookedAt<P>(texts: Texts, exec: Exec<P>, steps: seq<Step>, i: nat, page: P, os: seq<Outcome>) {
    forall k, j :: 0 <= k < |os| && j == i + k ==> OutcomeOn(texts, exec, steps, j, page, os[k])
  }

  // Two results say the same up to the first failure: same completed steps below it, same failed step.
  ghost predicate Agree<P>(completed: seq<Outcome>, failed: Option<Outcome>, s: Serial<P>) {
    && s.failed == (if failed.Some? then Some(Timeless(failed.value)) else None)
    && s.completed <= AllTimeless(completed)
    && (failed.None? ==> s.completed == AllTimeless(completed))
    && (failed.Some? ==> forall k :: |s.completed| <= k < |completed| ==> failed.value.index < completed[k].index)
  }

  lemma {:induction false} AllTimelessConcat(a: seq<Outcome>, b: seq<Outcome>)
    ensures AllTimeless(a + b) == AllTimeless(a) + AllTimeless(b)
  {
  }

  lemma {:induction false} SucceededAbove(os: seq<Outcome>, base: nat)
    requires NumberedFrom(os, base)
    ensures forall k :: 0 <= k < |Succeeded(os)| ==> base <= Succeeded(os)[k].index
  {
    if os != [] {
      SucceededAbove(os[1..], base + 1);
    }
  }

  lemma LookedAtParts<P>(texts: Texts, exec: Exec<P>, steps: seq<Step>, i: nat, page: P, os: seq<Outcome>)
    requires os != [] && LookedAt(texts, exec, steps, i, page, os)
    ensures OutcomeOn(texts, exec, steps, i, page, os[0]) && LookedAt(texts, exec, steps, i + 1, page, os[1..])
    ensures NumberedFrom(os, i)
  {
    var first := 0;
    assert OutcomeOn(texts, exec, steps, i + first, page, os[first]);
    forall k, j | 0 <= k < |os| - 1 && j == i + 1 + k
      ensures OutcomeOn(texts, exec, steps, j, page, os[1..][k])
    {
      assert os[1..][k] == os[k + 1] && j == i + (k + 1);
    }
    forall k | 0 <= k < |os|
      ensures os[k].index == i + k
    {
      assert OutcomeOn(texts, exec, steps, i + k, page, os[k]);
    }
  }

  lemma {:induction false} FailedHead<P>(completed: seq<Outcome>, os: seq<Outcome>, i: nat, s: Serial<P>)
    requires os != [] && !os[0].ok && NumberedFrom(os, i)
    requires s.completed == AllTimeless(completed) && s.failed == Some(Timeless(os[0]))
    ensures Agree(completed + Succeeded(os), FirstFailure(os), s)
  {
    var rest := Succeeded(os[1..]);
    SucceededAbove(os[1..], i + 1);
    AllTimelessConcat(completed, rest);
    assert Succeeded(os) == rest;
  }

  lemma {:induction false} OneStep<P>(texts: Texts, exec: Exec<P>, steps: seq<Step>, i: nat, page: P,
                                      o: Outcome, completed: seq<Outcome>)
    requires i < |steps| && o.ok == exec(page, i, steps[i]).1.ok
    requires Timeless(o) == SerialOutcome(texts, steps[i], i, exec(page, i, steps[i]).1)
    ensures var s := RunSerially(texts, exec, steps, i, page, AllTimeless(completed));
            && (o.ok ==> s == RunSerially(texts, exec, steps, i + 1, exec(page, i, steps[i]).0, AllTimeless(completed + [o])))
            && (!o.ok ==> Agree(completed, Some(o), s))
  {
    assert AllTimeless(completed + [o]) == AllTimeless(completed) + [Timeless(o)];
  }

  // Sending steps i, i+1, ... in one group with outcomes os gives what sending them one by one gives.
  ghost predicate SameAsOneByOne<P>(texts: Texts, exec: Exec<P>, steps: seq<Step>, i: nat, page: P,
                                    os: seq<Outcome>, completed: seq<Outcome>) {
    var s, f := RunSerially(texts, exec, steps, i, page, AllTimeless(completed)), FirstFailure(os);
    && (f.None? ==> s == RunSerially(texts, exec, steps, i + |os|, page, AllTimeless(completed + Succeeded(os))))
    && (f.Some? ==> Agree(completed + Succeeded(os), f, s))
  }

  lemma {:induction false} OneMoreOk(os: seq<Outcome>, completed: seq<Outcome>)
    requires os != [] && os[0].ok
    ensures FirstFailure(os) == FirstFailure(os[1..])
    ensures completed + Succeeded(os) == (completed + [os[0]]) + Succeeded(os[1..])
  {
    assert Succeeded(os) == [os[0]] + Succeeded(os[1..]);
  }

  lemma {:induction false} OneMore<P>(texts: Texts, exec: Exec<P>, steps: seq<Step>, i: nat, page: P,
                                      os: seq<Outcome>, completed: seq<Outcome>)
    requires os != [] && os[0].ok
    requires RunSerially(texts, exec, steps, i, page, AllTimeless(completed))
          == RunSerially(texts, exec, steps, i + 1, page, AllTimeless(completed + [os[0]]))
    requires SameAsOneByOne(texts, exec, steps, i + 1, page, os[1..], completed + [os[0]])
    ensures SameAsOneByOne(texts, exec, steps, i, page, os, completed)
  {
    OneMoreOk(os, completed);
    assert i + |os| == (i + 1) + |os[1..]|;
  }

  lemma {:induction false} ReadsOneByOne<P(!new)>(texts: Texts, exec: Exec<P>, steps: seq<Step>, i: nat, page: P,
                                                   os: seq<Outcome>, completed: seq<Outcome>)
    requires LookedAt(texts, exec, steps, i, page, os)
    requires forall p, j, step :: ReadIsPure(exec, p, j, step)
    ensures SameAsOneByOne(texts, exec, steps, i, page, os, completed)
    decreases |os|
  {
    if os == [] {
      assert completed + [] == completed;
    } else {
      LookedAtParts(texts, exec, steps, i, page, os);
      if os[0].ok {
        assert ReadIsPure(exec, page, i, steps[i]);
        OneStep(texts, exec, steps, i, page, os[0], completed);
        ReadsOneByOne(texts, exec, steps, i + 1, page, os[1..], completed + [os[0]]);
        OneMore(texts, exec, steps, i, page, os, completed);
      } else {
        FailedHead(completed, os, i, RunSerially(texts, exec, steps, i, page, AllTimeless(completed)));
      }
    }
  }

  lemma OutcomeTimeless(texts: Texts, d: Dispatch, a: Answer, ms: real)
    ensures Timeless(OutcomeOf(texts, d, a, ms)) == SerialOutcome(texts, d.step, d.index, a)
    ensures OutcomeOf(texts, d, a, ms).ok == a.ok && OutcomeOf(texts, d, a, ms).index == d.index
  {
  }

  // Where the serial runner stands when it has caught up with p.
  function CaughtUp<W, P>(texts: Texts, page: W -> P, exec: Exec<P>, steps: seq<Step>, p: Progress<W>): Serial<P> {
    RunSerially(texts, exec, steps, p.index, page(p.w), AllTimeless(p.completed))
  }

  // p leads to the serial result s: not yet over, or over and in agreement with it.
  ghost predicate LeadsTo<W, P>(texts: Texts, page: W -> P, exec: Exec<P>, steps: seq<Step>, p: Progress<W>, s: Serial<P>) {
    && (p.failed.None? ==> CaughtUp(texts, page, exec, steps, p) == s)
    && (p.failed.Some? ==> Agree(p.completed, p.failed, s))
  }

  lemma {:induction false} AbsorbSingle<W, P>(texts: Texts, page: W -> P, exec: Exec<P>, steps: seq<Step>,
                                              p: Progress<W>, w: W, sent: TraceEvent, o: Outcome)
    requires p.index < |steps| && sent.Sent? && sent.outcomes == [o]
    requires var (next, a) := exec(page(p.w), p.index, steps[p.index]);
             page(w) == next && o.ok == a.ok && Timeless(o) == SerialOutcome(texts, steps[p.index], p.index, a)
    ensures LeadsTo(texts, page, exec, steps, Absorb(p, w, p.index + 1, sent), CaughtUp(texts, page, exec, steps, p))
  {
    OneStep(texts, exec, steps, p.index, page(p.w), o, p.completed);
    var q := Absorb(p, w, p.index + 1, sent);
    assert FirstFailure(sent.outcomes[1..]) == None && Succeeded(sent.outcomes[1..]) == [];
    assert q.failed == if o.ok then None else Some(o);
    assert q.completed == if o.ok then p.completed + [o] else p.completed;
  }

  lemma {:induction false} AbsorbReads<W, P(!new)>(texts: Texts, page: W -> P, exec: Exec<P>, steps: seq<Step>,
                                                   p: Progress<W>, w: W, sent: TraceEvent)
    requires sent.Sent? && page(w) == page(p.w)
    requires LookedAt(texts, exec, steps, p.index, page(p.w), sent.outcomes)
    requires forall q, j, step :: ReadIsPure(exec, q, j, step)
    ensures LeadsTo(texts, page, exec, steps, Absorb(p, w, p.index + |sent.outcomes|, sent),
                    CaughtUp(texts, page, exec, steps, p))
  {
    ReadsOneByOne(texts, exec, steps, p.index, page(p.w), sent.outcomes, p.completed);
  }

  lemma {:induction false} SingleGroup<W(!new), P(!new)>(env: Env<W>, page: W -> P, exec: Exec<P>,
      cfg: Config, p: Progress<W>)
    requires ActsOnPage(env, page, exec) && p.index < |cfg.steps| && GroupEnd(cfg.steps, p.index) == p.index + 1
    ensures LeadsTo(env.texts, page, exec, cfg.steps, SendGroup(env, cfg, p, p.index + 1),
                    CaughtUp(env.texts, page, exec, cfg.steps, p))
  {
    var group := NextGroup(env, cfg, p, p.index + 1);
    var d := group[0];
    assert group == [d] && d.index == p.index && d.step == cfg.steps[p.index];
    var r := env.dispatch(p.w, group);
    assert SingleActs(env, page, exec, p.w, d);
    OutcomeTimeless(env.texts, d, r.1(0).0, r.1(0).1);
    var sent := Dispatched(env, p.w, group).1;
    assert sent.outcomes == [OutcomeOf(env.texts, d, r.1(0).0, r.1(0).1)];
    AbsorbSingle(env.texts, page, exec, cfg.steps, p, r.0, sent, sent.outcomes[0]);
  }

  lemma {:induction false} GroupLookedAt<P>(texts: Texts, exec: Exec<P>, steps: seq<Step>, i: nat, page: P,
                                            group: seq<Dispatch>, answers: nat -> (Answer, real))
    requires i + |group| <= |steps|
    requires forall k :: 0 <= k < |group| ==>
                           && group[k].index == i + k && group[k].step == steps[i + k] && IsRead(group[k].step)
                           && answers(k).0 == exec(page, group[k].index, group[k].step).1
    ensures LookedAt(texts, exec, steps, i, page, Outcomes(texts, group, answers))
  {
    var os := Outcomes(texts, group, answers);
    forall k, j | 0 <= k < |os| && j == i + k
      ensures OutcomeOn(texts, exec, steps, j, page, os[k])
    {
      assert os[k] == OutcomeOf(texts, group[k], answers(k).0, answers(k).1);
      OutcomeTimeless(texts, group[k], answers(k).0, answers(k).1);
    }
  }

  // A dispatched group of reads saw the page as it was and left it so.
  lemma {:induction false} DispatchedReads<W(!new), P(!new)>(env: Env<W>, page: W -> P, exec: Exec<P>,
      cfg: Config, p: Progress<W>)
    requires ActsOnPage(env, page, exec) && p.index < |cfg.steps| && GroupEnd(cfg.steps, p.index) > p.index + 1
    ensures var (w, sent) := Dispatched(env, p.w, NextGroup(env, cfg, p, GroupEnd(cfg.steps, p.index)));
            page(w) == page(p.w) && LookedAt(env.texts, exec, cfg.steps, p.index, page(p.w), sent.outcomes)
  {
    var group := NextGroup(env, cfg, p, GroupEnd(cfg.steps, p.index));
    var r := env.dispatch(p.w, group);
    assert ReadsLook(env, page, exec, p.w, group);
    GroupLookedAt(env.texts, exec, cfg.steps, p.index, page(p.w), group, r.1);
  }

  lemma {:induction false} ReadGroup<W(!new), P(!new)>(env: Env<W>, page: W -> P, exec: Exec<P>,
      cfg: Config, p: Progress<W>)
    requires ActsOnPage(env, page, exec) && p.index < |cfg.steps| && GroupEnd(cfg.steps, p.index) > p.index + 1
    ensures LeadsTo(env.texts, page, exec, cfg.steps, SendGroup(env, cfg, p, GroupEnd(cfg.steps, p.index)),
                    CaughtUp(env.texts, page, exec, cfg.steps, p))
  {
    var end := GroupEnd(cfg.steps, p.index);
    var d := Dispatched(env, p.w, NextGroup(env, cfg, p, end));
    DispatchedReads(env, page, exec, cfg, p);
    DispatchedNumbered(env, cfg, p, end);
    AbsorbReads(env.texts, page, exec, cfg.steps, p, d.0, d.1);
  }

  lemma {:induction false} GroupLeads<W(!new), P(!new)>(env: Env<W>, page: W -> P, exec: Exec<P>,
      cfg: Config, p: Progress<W>)
    requires ActsOnPage(env, page, exec) && p.index < |cfg.steps|
    ensures var q := SendGroup(env, cfg, p, GroupEnd(cfg.steps, p.index));
            && LeadsTo(env.texts, page, exec, cfg.steps, q, CaughtUp(env.texts, page, exec, cfg.steps, p))
            && (q.failed.Some? <==> q.stopped.Some?)
  {
    if GroupEnd(cfg.steps, p.index) == p.index + 1 {
      SingleGroup(env, page, exec, cfg, p);
    } else {
      ReadGroup(env, page, exec, cfg, p);
    }
  }

  // A run neither the clock nor an origin check stopped.
  predicate Undisturbed<W>(p: Progress<W>) {
    !p.threw && (p.stopped.None? || p.stopped == Some(StepFailed))
  }

  // Reading the tabs moves nothing but the world and the trace.
  lemma ReadingKeeps<W>(env: Env<W>, cfg: Config, opening: Reading, p: Progress<W>)
    ensures var q := ReadForTurn(env, cfg, opening, p).0;
            && q.index == p.index && q.completed == p.completed && q.failed == p.failed
            && (q.w == p.w || q.w == env.list(p.w, cfg.framed).0)
            && (p.stopped.None? ==> q.stopped.None?)
  {
  }

  lemma {:induction false} UndisturbedTurn<W>(env: Env<W>, cfg: Config, opening: Reading, p: Progress<W>)
    requires !Over(cfg, p) && Undisturbed(Turn(env, cfg, opening, p))
    ensures var q := ReadForTurn(env, cfg, opening, p).0;
            q.index < |cfg.steps| && Turn(env, cfg, opening, p) == SendGroup(env, cfg, q, GroupEnd(cfg.steps, q.index))
  {
    ReadingKeeps(env, cfg, opening, p);
  }

  lemma {:induction false} TurnLeads<W(!new), P(!new)>(env: Env<W>, page: W -> P, exec: Exec<P>,
      cfg: Config, opening: Reading, p: Progress<W>)
    requires ActsOnPage(env, page, exec) && !Over(cfg, p) && Undisturbed(Turn(env, cfg, opening, p))
    ensures var q := Turn(env, cfg, opening, p);
            && LeadsTo(env.texts, page, exec, cfg.steps, q, CaughtUp(env.texts, page, exec, cfg.steps, p))
            && (q.failed.Some? <==> q.stopped.Some?)
  {
    UndisturbedTurn(env, cfg, opening, p);
    ReadingKeeps(env, cfg, opening, p);
    var q := ReadForTurn(env, cfg, opening, p).0;
    assert ListLooks(env, page, p.w, cfg.framed);
    assert CaughtUp(env.texts, page, exec, cfg.steps, q) == CaughtUp(env.texts, page, exec, cfg.steps, p);
    GroupLeads(env, page, exec, cfg, q);
  }

  lemma {:induction false} LoopLeads<W(!new), P(!new)>(env: Env<W>, page: W -> P, exec: Exec<P>,
      cfg: Config, opening: Reading, p: Progress<W>)
    requires ActsOnPage(env, page, exec) && p.failed.None? && p.stopped.None? && Undisturbed(Loop(env, cfg, opening, p))
    ensures var q := Loop(env, cfg, opening, p);
            Agree(q.completed, q.failed, CaughtUp(env.texts, page, exec, cfg.steps, p))
    decreases |cfg.steps| - p.index, if Over(cfg, p) then 0 else 1
  {
    if !Over(cfg, p) {
      TurnAdvances(env, cfg, opening, p);
      var q := Turn(env, cfg, opening, p);
      TurnLeads(env, page, exec, cfg, opening, p);
      if !Over(cfg, q) {
        LoopLeads(env, page, exec, cfg, opening, q);
      }
    }
  }

  // The batch runner refines the one-step-at-a-time runner: the same completed
  // steps below the first failure, with the same results, and the same failed step.
  lemma BatchRefinesSerial<W(!new), P(!new)>(env: Env<W>, page: W -> P, exec: Exec<P>, w0: W, steps: seq<Step>,
                                             approved: Option<string>, approvedFrames: Option<map<string, string>>)
    requires ActsOnPage(env, page, exec) && Undisturbed(Batch(env, w0, steps, approved, approvedFrames))
    ensures var r := Batch(env, w0, steps, approved, approvedFrames);
            Agree(r.completed, r.failed, RunSerially(env.texts, exec, steps, 0, page(w0), []))
  {
    assert ListLooks(env, page, w0, exists k :: 0 <= k < |steps| && steps[k].frame.Some?);
    var open := Open(env, w0, steps, approved, approvedFrames);
    LoopLeads(env, page, exec, open.cfg, open.reading, open.p);
  }
}
