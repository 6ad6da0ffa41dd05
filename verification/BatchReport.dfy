/**
 The report of a batch: how large it is as indented JSON, how it is trimmed, and when
 the trimmed report is within its bound.
 */
module BatchReport {
  import opened Wrappers
  import opened BatchRunner
  import opened BatchSafety
  import RequestIds

  datatype BatchResult = BatchResult(
    tabId: nat, origin: Option<string>, frameOrigins: Option<map<string, string>>,
    completed: seq<Outcome>, failed: Option<Outcome>, remaining: int, stopped: Option<StopReason>,
    message: string, truncated: bool)

  // Characters of a value written as JSON where it stands in the report.
  datatype Sizes = Sizes(
    text: string -> nat, number: real -> nat, result: string -> nat, frames: map<string, string> -> nat)

  // Characters the notice adds: its text, and the line `"truncated": true,`.
  const NOTICE_CHARS := 112 + 21

  // One property of an object whose lines are indented by `pad`: quoted key, colon, value, comma and newline.
  function Property(pad: nat, key: nat, value: nat): nat {
    pad + key + 2 + 2 + value + 2
  }

  function ActionName(a: StepType): nat {
    match a
    case Fill => 4
    case Select => 6
    case Click => 5
    case Keyboard => 8
    case WaitFor => 8
    case Find => 4
    case Read => 4
  }

  function StopName(s: StopReason): nat {
    match s
    case StepFailed => 11
    case OriginChanged => 14
    case OriginUnverifiable => 19
    case FrameOriginChanged => 20
    case TimeLimit => 10
  }

  // The object of one step; its braces and properties stand `pad` deep.
  function StepSize(z: Sizes, pad: nat, o: Outcome): nat {
    pad
    + Property(pad, 5, z.number(o.index as real)) + Property(pad, 6, ActionName(o.action) + 2)
    + Property(pad, 2, if o.ok then 4 else 5) + Property(pad, 10, z.number(o.durationMs))
    + (if o.result.Some? then Property(pad, 6, z.result(o.result.value)) else 0)
    + (if o.resultTruncated then Property(pad, 15, 4) else 0)
    + (if o.error.Some? then Property(pad, 5, z.text(o.error.value)) else 0)
  }

  function StepsSize(z: Sizes, os: seq<Outcome>): nat {
    if os == [] then 0 else StepsSize(z, os[..|os| - 1]) + 6 + StepSize(z, 6, os[|os| - 1])
  }

  // The report without what trimming adds to it.
  function BodySize(z: Sizes, r: BatchResult): nat {
    2
    + Property(2, 5, z.number(r.tabId as real))
    + Property(2, 6, if r.origin.Some? then z.text(r.origin.value) else 4)
    + (if r.frameOrigins.Some? then Property(2, 12, z.frames(r.frameOrigins.value)) else 0)
    + Property(2, 14, if r.completed == [] then 2 else 4 + StepsSize(z, r.completed))
    + (if r.failed.Some? then Property(2, 10, StepSize(z, 4, r.failed.value)) else 0)
    + Property(2, 14, z.number(r.remaining as real))
    + (if r.stopped.Some? then Property(2, 7, StopName(r.stopped.value) + 2) else 0)
    + Property(2, 7, z.text(r.message))
  }

  function SizeOf(z: Sizes, r: BatchResult): nat {
    BodySize(z, r) + if r.truncated then NOTICE_CHARS else 0
  }

  function Dropped(o: Outcome): Outcome {
    if o.result.None? then o else o.(result := None, resultTruncated := true)
  }

  // The outcomes with the results of the k oldest dropped.
  function DropOldest(os: seq<Outcome>, k: nat): (ds: seq<Outcome>)
    requires k <= |os|
    ensures |ds| == |os|
    ensures forall i :: 0 <= i < |os| ==> ds[i] == if i < k then Dropped(os[i]) else os[i]
  {
    if k == 0 then os else DropOldest(os, k - 1)[k - 1 := Dropped(os[k - 1])]
  }

  // The report at trimming level k, without the notice.
  function Level(r: BatchResult, k: nat): BatchResult
    requires k <= |r.completed|
  {
    r.(completed := DropOldest(r.completed, k))
  }

  predicate Fits(z: Sizes, r: BatchResult) {
    SizeOf(z, r) <= MAX_BATCH_CHARS
  }

  // The first level from k on that fits, or the one with nothing left to drop.
  function StopLevel(z: Sizes, r: BatchResult, k: nat): (s: nat)
    requires k <= |r.completed|
    ensures k <= s <= |r.completed|
    ensures forall j :: k <= j < s ==> !Fits(z, Level(r, j))
    ensures s < |r.completed| ==> Fits(z, Level(r, s))
    decreases |r.completed| - k
  {
    if k == |r.completed| || Fits(z, Level(r, k)) then k else StopLevel(z, r, k + 1)
  }

  // What is sent: the report itself if it fits, otherwise its stopping level with the notice.
  function Fitted(z: Sizes, r: BatchResult): BatchResult {
    if Fits(z, r) then r else Level(r, StopLevel(z, r, 0)).(truncated := true)
  }

  lemma NextLevel(r: BatchResult, k: nat)
    requires k < |r.completed|
    ensures var now := Level(r, k).completed;
            && now[k] == r.completed[k]
            && r.(completed := now[k := Dropped(now[k])]) == Level(r, k + 1)
            && (now[k].result.None? ==> Level(r, k) == Level(r, k + 1))
  {
    var now := DropOldest(r.completed, k);
    assert now[k].result.None? ==> now[k := Dropped(now[k])] == now;
  }

  // Drops results oldest first, measuring before each whether enough are gone.
  method FitEnvelope(z: Sizes, r: BatchResult) returns (t: BatchResult)
    ensures t == Fitted(z, r)
  {
    if Fits(z, r) { return r; }
    t := r;
    var i := 0;
    while i < |r.completed|
      invariant i <= |r.completed| && t == Level(r, i)
      invariant StopLevel(z, r, 0) == StopLevel(z, r, i)
    {
      if Fits(z, t) { break; }
      NextLevel(r, i);
      var step := t.completed[i];
      if step.result.Some? {
        t := t.(completed := t.completed[i := step.(result := None, resultTruncated := true)]);
      }
      i := i + 1;
    }
    t := t.(truncated := true);
  }

  // Trimming loses results only, and the oldest first: counts, indices, the failed
  // step, the stop reason and every younger result stay.
  lemma TrimmingKeepsTheReport(z: Sizes, r: BatchResult)
    ensures var t := Fitted(z, r);
            && t == r.(completed := t.completed, truncated := t.truncated) && |t.completed| == |r.completed|
            && (forall i :: 0 <= i < |r.completed| ==>
                  t.completed[i] == r.completed[i] || t.completed[i] == Dropped(r.completed[i]))
            && (forall i, j :: 0 <= i < j < |r.completed| && t.completed[j] != r.completed[j] ==>
                  t.completed[i] == Dropped(r.completed[i]))
  {
  }

  // Level k is the first that fits; sizes need not shrink from level to level, as the mark
  // that a result was dropped can be longer than the result.
  ghost predicate FirstFitting(z: Sizes, r: BatchResult, k: nat) {
    && k <= |r.completed| && SizeOf(z, Level(r, k)) <= MAX_BATCH_CHARS
    && forall j :: 0 <= j < k ==> SizeOf(z, Level(r, j)) > MAX_BATCH_CHARS
  }

  lemma StopsAtFirstFitting(z: Sizes, r: BatchResult, k: nat)
    ensures FirstFitting(z, r, k) <==>
              k == StopLevel(z, r, 0) && SizeOf(z, Level(r, StopLevel(z, r, 0))) <= MAX_BATCH_CHARS
  {
    var s := StopLevel(z, r, 0);
    if FirstFitting(z, r, k) {
      assert s < k ==> !Fits(z, Level(r, s));
      assert k < s ==> Fits(z, Level(r, k));
    }
  }

  // The stopping level decides: the notice comes on top of its size.
  lemma FittedFits(z: Sizes, r: BatchResult)
    requires !r.truncated && SizeOf(z, r) > MAX_BATCH_CHARS
    ensures Fits(z, Fitted(z, r)) <==> SizeOf(z, Level(r, StopLevel(z, r, 0))) <= MAX_BATCH_CHARS - NOTICE_CHARS
  {
    var level := Level(r, StopLevel(z, r, 0));
    assert SizeOf(z, level.(truncated := true)) == SizeOf(z, level) + NOTICE_CHARS;
  }

  // On the sizes of the untrimmed report and of its levels alone: what is sent is within
  // the bound if and only if the report was so untrimmed, or the first level within the
  // bound leaves room for the notice.
  lemma BoundHoldsExactly(z: Sizes, r: BatchResult)
    requires !r.truncated
    ensures Fits(z, Fitted(z, r)) <==>
              || SizeOf(z, r) <= MAX_BATCH_CHARS
              || exists k: nat :: FirstFitting(z, r, k) && SizeOf(z, Level(r, k)) <= MAX_BATCH_CHARS - NOTICE_CHARS
  {
    if SizeOf(z, r) > MAX_BATCH_CHARS {
      FittedFits(z, r);
      StopsAtFirstFitting(z, r, StopLevel(z, r, 0));
      forall k: nat | FirstFitting(z, r, k)
        ensures k == StopLevel(z, r, 0)
      {
        StopsAtFirstFitting(z, r, k);
      }
    }
  }

  // So it is broken by a report no level of which is within the bound, or by a first
  // level that is within it by less than the notice, and by nothing else.
  lemma BoundFailsExactly(z: Sizes, r: BatchResult)
    requires !r.truncated
    ensures !Fits(z, Fitted(z, r)) <==>
              && SizeOf(z, r) > MAX_BATCH_CHARS
              && ((forall k :: 0 <= k <= |r.completed| ==> SizeOf(z, Level(r, k)) > MAX_BATCH_CHARS)
                  || exists k: nat ::
                       FirstFitting(z, r, k) && MAX_BATCH_CHARS - NOTICE_CHARS < SizeOf(z, Level(r, k)) <= MAX_BATCH_CHARS)
  {
    if SizeOf(z, r) > MAX_BATCH_CHARS {
      FittedFits(z, r);
      StopsAtFirstFitting(z, r, StopLevel(z, r, 0));
      forall k: nat | FirstFitting(z, r, k)
        ensures k == StopLevel(z, r, 0)
      {
        StopsAtFirstFitting(z, r, k);
      }
    }
  }

  // Beyond the bound it is by less than the notice, or else no result is left in it.
  lemma OvershootIsTheNotice(z: Sizes, r: BatchResult)
    requires !r.truncated
    ensures var t := Fitted(z, r);
            || SizeOf(z, t) <= MAX_BATCH_CHARS + NOTICE_CHARS
            || forall o :: o in t.completed ==> o.result.None?
  {
  }

  function Report<W>(p: Progress<W>, tabId: nat, steps: seq<Step>, origin: Option<string>,
                     frames: Option<map<string, string>>, message: string): BatchResult {
    BatchResult(tabId, origin, frames, p.completed, p.failed,
                |steps| - (|p.completed| + if p.failed.Some? then 1 else 0), p.stopped, message, false)
  }

  // Plain text: every character stands for itself, between quotes.
  function Plain(s: string): nat { |s| + 2 }

  function Digits(x: real): nat {
    if x < 0.0 then 1 + |RequestIds.Text((-x).Floor, 10)| else |RequestIds.Text(x.Floor, 10)|
  }

  const PLAIN_SIZES := Sizes(Plain, Digits, Plain, (m: map<string, string>) => 2)

  function Xs(n: nat): (s: string)
    ensures |s| == n
  {
    if n == 0 then "" else Xs(n - 1) + "x"
  }

  const TEXT := Xs(3846)

  const ORIGIN := "https://a.test"

  const READ_STEP := Step(Read, None, None, "main")

  function Reads(n: nat): (steps: seq<Step>)
    ensures |steps| == n && forall k :: 0 <= k < n ==> steps[k] == READ_STEP
  {
    if n == 0 then [] else Reads(n - 1) + [READ_STEP]
  }

  // A page that stays where it is and answers every step at once with the same text.
  const STILL := Env(
    (w: int, framed: bool) => (w, Listed(Reading(Some(ORIGIN), map[]))),
    (w: int, group: seq<Dispatch>) => (w, (k: nat) => (Answer(true, Some(TEXT), ""), 0.0)),
    (w: int) => 0.0,
    Texts(Plain, (a: StepType) => "", ""))

  function Answered(n: nat): (os: seq<Outcome>)
    ensures |os| == n
    ensures forall k :: 0 <= k < n ==> os[k] == Outcome(k, Read, true, 0.0, Some(TEXT), false, None)
  {
    if n == 0 then [] else Answered(n - 1) + [Outcome(n - 1, Read, true, 0.0, Some(TEXT), false, None)]
  }

  lemma StillOutcomes(group: seq<Dispatch>, answers: nat -> (Answer, real), n: nat)
    requires |group| == n && forall k :: 0 <= k < n ==> group[k].index == k && group[k].step == READ_STEP
    requires forall k :: answers(k) == (Answer(true, Some(TEXT), ""), 0.0)
    ensures Outcomes(STILL.texts, group, answers) == Answered(n)
  {
    var os := Outcomes(STILL.texts, group, answers);
    forall k | 0 <= k < n
      ensures os[k] == Answered(n)[k]
    {
      assert os[k] == OutcomeOf(STILL.texts, group[k], answers(k).0, answers(k).1);
    }
  }

  lemma {:induction false} AnsweredSucceed(os: seq<Outcome>)
    requires forall k :: 0 <= k < |os| ==> os[k].ok
    ensures Succeeded(os) == os && FirstFailure(os) == None
  {
    if os != [] {
      AnsweredSucceed(os[1..]);
    }
  }

  lemma StillDispatch(cfg: Config, p: Progress<int>, n: nat)
    requires n > 0 && cfg.steps == Reads(n) && p.index == 0
    ensures var r := Dispatched(STILL, p.w, NextGroup(STILL, cfg, p, n)); r.1.outcomes == Answered(n)
  {
    var group := NextGroup(STILL, cfg, p, n);
    StillOutcomes(group, STILL.dispatch(p.w, group).1, n);
  }

  lemma ReadsGoTogether(n: nat)
    requires n > 0
    ensures GroupEnd(Reads(n), 0) == n && RegionStop(Reads(n), map[], map[]) == None
  {
    assert IsRead(Reads(n)[0]);
  }

  const STILL_READING := Reading(Some(ORIGIN), map[])

  const STILL_START: Progress<int> := Progress(0, 0, [], None, None, false, [Seen(STILL_READING)])

  function StillConfig(n: nat): Config {
    Config(Reads(n), false, false, ORIGIN, map[], 0.0)
  }

  lemma StillOpens(n: nat)
    ensures Open(STILL, 0, Reads(n), None, None) == Opened(StillConfig(n), STILL_READING, STILL_START)
  {
    var steps := Reads(n);
    assert !exists k :: 0 <= k < |steps| && steps[k].frame.Some?;
  }

  lemma StillTurn(n: nat)
    requires n > 0
    ensures Turn(STILL, StillConfig(n), STILL_READING, STILL_START) == SendGroup(STILL, StillConfig(n), STILL_START, n)
  {
    ReadsGoTogether(n);
    assert Reads(n)[0..n] == Reads(n);
  }

  lemma AllAbsorbed(p: Progress<int>, w: int, end: nat, sent: TraceEvent)
    requires sent.Sent? && p.completed == [] && Succeeded(sent.outcomes) == sent.outcomes && FirstFailure(sent.outcomes) == None
    ensures var q := Absorb(p, w, end, sent);
            q.completed == sent.outcomes && q.index == end && q.failed == None && q.stopped == None && !q.threw
  {
    assert [] + sent.outcomes == sent.outcomes;
  }

  lemma StillSent(n: nat)
    requires n > 0
    ensures var q := SendGroup(STILL, StillConfig(n), STILL_START, n);
            && q.completed == Answered(n) && q.index == n
            && q.failed == None && q.stopped == None && !q.threw
  {
    StillDispatch(StillConfig(n), STILL_START, n);
    AnsweredSucceed(Answered(n));
    var r := Dispatched(STILL, 0, NextGroup(STILL, StillConfig(n), STILL_START, n));
    AllAbsorbed(STILL_START, r.0, n, r.1);
  }

  // All n reads go out at once and succeed.
  lemma StillRun(n: nat)
    requires n > 0
    ensures var p := Batch(STILL, 0, Reads(n), None, None);
            p.completed == Answered(n) && p.failed == None && p.stopped == None && !p.threw
  {
    StillOpens(n);
    StillTurn(n);
    StillSent(n);
  }

  // Characters of one of these steps, with its result and without it.
  const KEPT := 3955
  const DROPPED := 120

  const MESSAGE := "All 9 steps ran on https://a.test."

  lemma OneDigit(n: nat)
    requires n < 10
    ensures Digits(n as real) == 1
  {
  }

  lemma ReadSizes(i: nat)
    requires i < 9
    ensures StepSize(PLAIN_SIZES, 6, Answered(9)[i]) == KEPT
    ensures StepSize(PLAIN_SIZES, 6, Dropped(Answered(9)[i])) == DROPPED
  {
    OneDigit(i);
    OneDigit(0);
  }

  lemma {:induction false} StepsAddUp(z: Sizes, os: seq<Outcome>, k: nat)
    requires forall i :: 0 <= i < |os| ==> StepSize(z, 6, os[i]) == if i < k then DROPPED else KEPT
    ensures StepsSize(z, os)
         == if |os| <= k then |os| * (6 + DROPPED) else k * (6 + DROPPED) + (|os| - k) * (6 + KEPT)
  {
    if os != [] {
      StepsAddUp(z, os[..|os| - 1], k);
    }
  }

  // The report of nine reads with 3846 characters each, at trimming level 0 or 1.
  lemma NineReads(k: nat)
    requires k <= 1
    ensures var r := BatchResult(7, Some(ORIGIN), None, Answered(9), None, 0, None, MESSAGE, false);
            SizeOf(PLAIN_SIZES, Level(r, k)) == if k == 0 then 35795 else 31960
  {
    var os := DropOldest(Answered(9), k);
    forall i | 0 <= i < 9
      ensures StepSize(PLAIN_SIZES, 6, os[i]) == if i < k then DROPPED else KEPT
    {
      ReadSizes(i);
    }
    StepsAddUp(PLAIN_SIZES, os, k);
    OneDigit(7);
    OneDigit(0);
    assert |MESSAGE| == 34 && |ORIGIN| == 14;
  }

  const NINE_READS := BatchResult(7, Some(ORIGIN), None, Answered(9), None, 0, None, MESSAGE, false)

  lemma NineReadsStopAtOne()
    ensures SizeOf(PLAIN_SIZES, Fitted(PLAIN_SIZES, NINE_READS)) == 32093
  {
    NineReads(0);
    NineReads(1);
    assert Level(NINE_READS, 0) == NINE_READS;
    assert StopLevel(PLAIN_SIZES, NINE_READS, 0) == StopLevel(PLAIN_SIZES, NINE_READS, 1) == 1;
  }

  lemma NineReadsReported()
    ensures Report(Batch(STILL, 0, Reads(9), None, None), 7, Reads(9), Some(ORIGIN), None, MESSAGE) == NINE_READS
  {
    StillRun(9);
  }

  // The bound fails: nine reads, each result within its own share, are sent as 32093
  // characters, because the size is measured before the notice is added.
  lemma NoticeIsNotMeasured()
    ensures Report(Batch(STILL, 0, Reads(9), None, None), 7, Reads(9), Some(ORIGIN), None, MESSAGE) == NINE_READS
    ensures forall o :: o in Answered(9) ==> o.result == Some(TEXT)
    ensures PLAIN_SIZES.result(TEXT) <= MAX_BATCH_STEP_RESULT_CHARS
    ensures SizeOf(PLAIN_SIZES, Fitted(PLAIN_SIZES, NINE_READS)) == 32093 > MAX_BATCH_CHARS
  {
    NineReadsReported();
    NineReadsStopAtOne();
  }

  // The other way to fail: nothing left to drop. A run refused because the page had
  // moved reports the approved origin, however long, and no step.
  lemma NothingLeftToDrop(message: string)
    ensures var approved := Some("https://" + Xs(32000));
            var p := Batch(STILL, 0, Reads(1), approved, None);
            var r := Report(p, 7, Reads(1), approved, None, message);
            && p.stopped == Some(OriginChanged)
            && SizeOf(PLAIN_SIZES, Fitted(PLAIN_SIZES, r)) > MAX_BATCH_CHARS + NOTICE_CHARS
  {
    assert ORIGIN != "https://" + Xs(32000);
  }
}
