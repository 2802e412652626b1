/**
 * Delivery in every interleaving: the flush loop is one step per await, any number of kicks, an alarm and
 * commits of new rows run beside it, sends may fail and the object may crash between any two steps, keeping
 * its rows and its alarm only. Assumed of the platform: an alarm whose handler dies is fired again, an alarm
 * that the loop sets does not fire before the loop's promise has settled, and a storage call that fails takes
 * the object down.
 */
module OutboxRuns {
  import opened Common
  import opened Outbox

  /** Where the one flush loop stands; Idle when `#flushPromise` is null. */
  datatype Stage =
    | Idle
    | Selecting
    | Sending(key: Key, attempt: nat)
    | Marking(sentKey: Key)
    | BackingOff(retryAt: nat)
    | Deleting
    | Counting
    | ReadingAlarm
    | SettingAlarm(at: nat)

  /** A call of `#kickOutbox`: inside its `#ensureAlarm`, or about to request a flush. */
  datatype Kick = KickReads | KickSets(time: nat) | KickFlushes

  datatype State = State(
    rows: Rows,
    alarm: Option<nat>,
    alarmRunning: bool,
    stage: Stage,
    kicks: multiset<Kick>,
    // history: the keys whose events the queue accepted, in order
    sent: seq<Key>)

  datatype Step =
    | Commit(newKey: Key, createdAt: nat)
    | StartKick
    | KickRead(scheduledTime: nat)
    | KickSet(scheduledTime: nat)
    | KickFlush
    | AlarmFires
    | Select(choice: Key)
    | Accept
    | Reject(now: nat)
    | Mark(now: nat)
    | Continue(now: nat)
    | Crash(now: nat)

  const INITIAL := State(map[], None, false, Idle, multiset{}, [])

  /** `#requestFlush`: joins the running loop, if any. */
  function Request(s: State): State {
    if s.stage == Idle then s.(stage := Selecting) else s
  }

  function Advance(s: State, from: Kick, to: multiset<Kick>): State {
    s.(kicks := s.kicks - multiset{from} + to)
  }

  /** The loop resumes after an await that cannot fail. */
  function Resume(s: State, now: nat): State {
    match s.stage
    case BackingOff(retryAt) => s.(alarm := Some(retryAt), stage := Idle, alarmRunning := false)
    case Deleting => s.(alarm := None, stage := Counting)
    case Counting =>
      if Unpublished(s.rows) == {} then s.(stage := Idle, alarmRunning := false) else s.(stage := ReadingAlarm)
    case ReadingAlarm =>
      var scheduledTime := now + BASE_RETRY_DELAY_MS;
      if s.alarm.None? || s.alarm.value > scheduledTime then s.(stage := SettingAlarm(scheduledTime))
      else s.(stage := Selecting)
    case SettingAlarm(at) => s.(alarm := Some(at), stage := Selecting)
    case _ => s
  }

  /** `choice` is a first row in the order of the query; rows that tie in both columns come either way. */
  function SelectNext(s: State, choice: Key): State {
    if Unpublished(s.rows) == {} then s.(stage := Deleting)
    else if choice in s.rows && IsOldest(choice, s.rows) then
      var attempt := s.rows[choice].attempts + 1;
      s.(rows := s.rows[choice := s.rows[choice].(attempts := attempt)], stage := Sending(choice, attempt))
    else s
  }

  function MarkSent(s: State, now: nat): State
    requires s.stage.Marking?
  {
    var key := s.stage.sentKey;
    s.(rows := if key in s.rows && s.rows[key].publishedAt.None?
               then s.rows[key := s.rows[key].(publishedAt := Some(now))] else s.rows,
       stage := Selecting)
  }

  /** A step that is not enabled changes nothing. */
  function Apply(s: State, step: Step): State {
    match step
    case Commit(key, createdAt) =>
      if key in s.rows then s
      else s.(rows := s.rows[key := Row(createdAt, None, 0)], kicks := s.kicks + multiset{KickReads})
    case StartKick => s.(kicks := s.kicks + multiset{KickReads})
    case KickRead(scheduledTime) =>
      if KickReads !in s.kicks then s
      else if s.alarm.None? || s.alarm.value > scheduledTime then
        Advance(s, KickReads, multiset{KickSets(scheduledTime)})
      else Advance(s, KickReads, multiset{KickFlushes})
    case KickSet(scheduledTime) =>
      if KickSets(scheduledTime) !in s.kicks then s
      else Advance(s, KickSets(scheduledTime), multiset{KickFlushes}).(alarm := Some(scheduledTime))
    case KickFlush => if KickFlushes !in s.kicks then s else Request(Advance(s, KickFlushes, multiset{}))
    case AlarmFires =>
      if s.alarm.None? || s.alarmRunning then s else Request(s.(alarm := None, alarmRunning := true))
    case Select(choice) => if s.stage.Selecting? then SelectNext(s, choice) else s
    case Accept => if s.stage.Sending? then s.(sent := s.sent + [s.stage.key], stage := Marking(s.stage.key)) else s
    case Reject(now) => if s.stage.Sending? then s.(stage := BackingOff(now + RetryDelay(s.stage.attempt))) else s
    case Mark(now) => if s.stage.Marking? then MarkSent(s, now) else s
    case Continue(now) => Resume(s, now)
    case Crash(now) =>
      State(s.rows, if s.alarmRunning && s.alarm.None? then Some(now) else s.alarm, false, Idle, multiset{}, s.sent)
  }

  function Run(s: State, steps: seq<Step>): State
    decreases |steps|
  {
    if steps == [] then s else Run(Apply(s, steps[0]), steps[1..])
  }

  // ----- At least once

  /** Sends of a key that the queue accepted, plus the one under way. */
  function Sends(sent: seq<Key>, stage: Stage, key: Key): nat {
    multiset(sent)[key] + if stage.Sending? && stage.key == key then 1 else 0
  }

  predicate StageFits(rows: Rows, sent: seq<Key>, stage: Stage) {
    && (stage.Sending? ==>
          stage.key in rows && rows[stage.key].publishedAt.None? && rows[stage.key].attempts == stage.attempt)
    && (stage.Marking? ==> stage.sentKey in sent)
  }

  ghost predicate HonestRows(rows: Rows, sent: seq<Key>, stage: Stage) {
    && (forall key :: key in rows && rows[key].publishedAt.Some? ==> key in sent)
    && (forall key :: key in sent ==> key in rows)
    && (forall key :: key in rows ==> Sends(sent, stage, key) <= rows[key].attempts)
    && StageFits(rows, sent, stage)
  }

  ghost predicate Honest(s: State) {
    HonestRows(s.rows, s.sent, s.stage) && (s.alarmRunning ==> !s.stage.Idle?)
  }

  lemma CommitHonest(s: State, key: Key, createdAt: nat)
    requires Honest(s) && key !in s.rows
    ensures HonestRows(s.rows[key := Row(createdAt, None, 0)], s.sent, s.stage)
  {
    assert key !in s.sent;
  }

  lemma SelectHonest(s: State, choice: Key)
    requires Honest(s) && s.stage.Selecting?
    ensures Honest(SelectNext(s, choice)) && RowsKept(s.rows, SelectNext(s, choice).rows)
  {
  }

  lemma AcceptHonest(s: State)
    requires Honest(s) && s.stage.Sending?
    ensures Honest(Apply(s, Accept))
  {
    var key := s.stage.key;
    var s' := Apply(s, Accept);
    assert multiset(s'.sent) == multiset(s.sent) + multiset{key};
    forall other | other in s.rows
      ensures Sends(s'.sent, s'.stage, other) <= s.rows[other].attempts
    {
      assert Sends(s.sent, s.stage, other) <= s.rows[other].attempts;
    }
  }

  lemma MarkHonest(s: State, now: nat)
    requires Honest(s) && s.stage.Marking?
    ensures Honest(MarkSent(s, now)) && RowsKept(s.rows, MarkSent(s, now).rows)
  {
    forall other | other in s.rows
      ensures Sends(s.sent, Selecting, other) <= s.rows[other].attempts
    {
      assert Sends(s.sent, s.stage, other) <= s.rows[other].attempts;
    }
  }

  /** A step that changes no row and sends nothing, and that starts no send either. */
  lemma SameRowsHonest(rows: Rows, sent: seq<Key>, stage: Stage, stage': Stage)
    requires HonestRows(rows, sent, stage) && (stage' == stage || !(stage'.Sending? || stage'.Marking?))
    ensures HonestRows(rows, sent, stage')
  {
    forall key | key in rows
      ensures Sends(sent, stage', key) <= rows[key].attempts
    {
      assert Sends(sent, stage, key) <= rows[key].attempts;
    }
  }

  predicate TouchesRows(s: State, step: Step) {
    || (step.Commit? && step.newKey !in s.rows) || (step.Select? && s.stage.Selecting?)
    || (step.Accept? && s.stage.Sending?) || (step.Mark? && s.stage.Marking?)
  }

  /** Rows and sends are untouched and no send is started. */
  predicate Framed(s: State, s': State) {
    && s'.rows == s.rows && s'.sent == s.sent
    && (s'.stage == s.stage || !(s'.stage.Sending? || s'.stage.Marking?))
    && (s'.alarmRunning ==> !s'.stage.Idle?)
  }

  lemma KickReadFrame(s: State, scheduledTime: nat)
    requires s.alarmRunning ==> !s.stage.Idle?
    ensures Framed(s, Apply(s, KickRead(scheduledTime)))
  {
  }

  lemma KickSetFrame(s: State, scheduledTime: nat)
    requires s.alarmRunning ==> !s.stage.Idle?
    ensures Framed(s, Apply(s, KickSet(scheduledTime)))
  {
  }

  lemma KickFlushFrame(s: State)
    requires s.alarmRunning ==> !s.stage.Idle?
    ensures Framed(s, Apply(s, KickFlush))
  {
  }

  lemma LoopFrame(s: State, step: Step)
    requires s.alarmRunning ==> !s.stage.Idle?
    requires (step.Continue? || step.Crash? || step.Reject?)
             || (!TouchesRows(s, step) && (step.Select? || step.Accept? || step.Mark?))
    ensures Framed(s, Apply(s, step))
  {
  }

  lemma OtherStepsHonest(s: State, step: Step)
    requires Honest(s) && !TouchesRows(s, step)
    ensures Honest(Apply(s, step)) && Apply(s, step).rows == s.rows && Apply(s, step).sent == s.sent
  {
    match step {
      case Commit(_, _) =>
      case StartKick =>
      case KickRead(scheduledTime) => KickReadFrame(s, scheduledTime);
      case KickSet(scheduledTime) => KickSetFrame(s, scheduledTime);
      case KickFlush => KickFlushFrame(s);
      case AlarmFires =>
      case _ => LoopFrame(s, step);
    }
    SameRowsHonest(s.rows, s.sent, s.stage, Apply(s, step).stage);
  }

  lemma ApplyHonest(s: State, step: Step)
    requires Honest(s)
    ensures Honest(Apply(s, step)) && RowsKept(s.rows, Apply(s, step).rows) && s.sent <= Apply(s, step).sent
  {
    if !TouchesRows(s, step) {
      OtherStepsHonest(s, step);
    } else {
      match step {
        case Commit(key, createdAt) => CommitHonest(s, key, createdAt);
        case Select(choice) => SelectHonest(s, choice);
        case Accept => AcceptHonest(s);
        case Mark(now) => MarkHonest(s, now);
      }
    }
  }

  /**
   * Over every run, with failing sends, crashes and rows added at any await: a row is published only after a send
   * of it was accepted, no row is lost or unpublished again, and every accepted send was counted as an attempt.
   */
  lemma {:induction false} RunHonest(s: State, steps: seq<Step>)
    requires Honest(s)
    ensures Honest(Run(s, steps)) && RowsKept(s.rows, Run(s, steps).rows) && s.sent <= Run(s, steps).sent
    decreases |steps|
  {
    if steps != [] {
      ApplyHonest(s, steps[0]);
      RunHonest(Apply(s, steps[0]), steps[1..]);
      RowsKeptTransitive(s.rows, Apply(s, steps[0]).rows, Run(s, steps).rows);
    }
  }

  // ----- No lost wake-up

  /** A kick has yet to see to the alarm. */
  predicate AlarmToCome(kicks: multiset<Kick>) {
    KickReads in kicks || exists kick :: kick in kicks && kick.KickSets?
  }

  /** Something that survives, or that is about to set an alarm, will look at the unpublished rows. */
  predicate Guarded(s: State) {
    Unpublished(s.rows) != {} ==>
      || s.alarm.Some? || s.alarmRunning || AlarmToCome(s.kicks)
      || s.stage.Counting? || s.stage.ReadingAlarm? || s.stage.SettingAlarm?
  }

  /** What a crash must find for the unpublished rows to be delivered without a further request. */
  predicate Survives(s: State) {
    Unpublished(s.rows) == {} || s.alarm.Some? || s.alarmRunning
  }

  lemma RowStepGuarded(s: State, step: Step)
    requires Guarded(s) && (step.Mark? || step.Select?)
    ensures Guarded(Apply(s, step))
  {
    var s' := Apply(s, step);
    assert Unpublished(s'.rows) <= Unpublished(s.rows);
    assert s'.kicks == s.kicks && s'.alarm == s.alarm && s'.alarmRunning == s.alarmRunning;
  }

  lemma FlushingKickGone(kicks: multiset<Kick>)
    requires AlarmToCome(kicks)
    ensures AlarmToCome(kicks - multiset{KickFlushes} + multiset{})
  {
    if KickReads in kicks {
      assert KickReads in kicks - multiset{KickFlushes} + multiset{};
    } else {
      var kick :| kick in kicks && kick.KickSets?;
      assert kick in kicks - multiset{KickFlushes} + multiset{};
    }
  }

  lemma KickReadGuarded(s: State, scheduledTime: nat)
    requires Guarded(s)
    ensures Guarded(Apply(s, KickRead(scheduledTime)))
  {
    var s' := Apply(s, KickRead(scheduledTime));
    if KickReads in s.kicks && s.alarm.None? {
      assert KickSets(scheduledTime) in s'.kicks;
      assert AlarmToCome(s'.kicks);
    }
  }

  lemma KickFlushGuarded(s: State)
    requires Guarded(s)
    ensures Guarded(Apply(s, KickFlush))
  {
    if KickFlushes in s.kicks && AlarmToCome(s.kicks) {
      FlushingKickGone(s.kicks);
    }
  }

  lemma ResumeGuarded(s: State, now: nat)
    requires Guarded(s)
    ensures Guarded(Resume(s, now))
  {
  }

  lemma ApplyGuarded(s: State, step: Step)
    requires Guarded(s) && (step.Crash? ==> Survives(s))
    ensures Guarded(Apply(s, step))
  {
    match step
    case Mark(_) => RowStepGuarded(s, step);
    case Select(_) => RowStepGuarded(s, step);
    case KickRead(scheduledTime) => KickReadGuarded(s, scheduledTime);
    case KickFlush => KickFlushGuarded(s);
    case Continue(now) => ResumeGuarded(s, now);
    case _ =>
  }

  predicate CrashesSurvive(s: State, steps: seq<Step>)
    decreases |steps|
  {
    steps == [] || ((steps[0].Crash? ==> Survives(s)) && CrashesSurvive(Apply(s, steps[0]), steps[1..]))
  }

  lemma {:induction false} RunGuarded(s: State, steps: seq<Step>)
    requires Honest(s) && Guarded(s) && CrashesSurvive(s, steps)
    ensures Honest(Run(s, steps)) && Guarded(Run(s, steps))
    decreases |steps|
  {
    if steps != [] {
      ApplyHonest(s, steps[0]);
      ApplyGuarded(s, steps[0]);
      RunGuarded(Apply(s, steps[0]), steps[1..]);
    }
  }

  /** When nothing runs any more, rows left unpublished have an alarm that will wake the object for them. */
  lemma {:induction false} NoLostWakeUp(steps: seq<Step>)
    requires CrashesSurvive(INITIAL, steps)
    ensures var s := Run(INITIAL, steps);
            s.stage.Idle? && s.kicks == multiset{} && Unpublished(s.rows) != {} ==> s.alarm.Some?
  {
    RunGuarded(INITIAL, steps);
  }

  /** Exactly the crashes between a commit and the alarm of its kick lose a wake-up, until the next request. */
  lemma CrashLosesWakeUpIff(s: State, now: nat)
    requires Honest(s) && Guarded(s)
    ensures Guarded(Apply(s, Crash(now))) <==> Survives(s)
    ensures !Survives(s) ==>
              AlarmToCome(s.kicks) || s.stage.Counting? || s.stage.ReadingAlarm? || s.stage.SettingAlarm?
    ensures Guarded(Apply(Apply(s, Crash(now)), StartKick))
  {
  }

  lemma CrashCanLoseWakeUp(key: Key, now: nat)
    ensures var s := Run(INITIAL, [Commit(key, now), Crash(now)]);
            Unpublished(s.rows) == {key} && s.alarm.None? && s.stage.Idle? && s.kicks == multiset{}
  {
    var s := Apply(INITIAL, Commit(key, now));
    assert [Commit(key, now), Crash(now)][1..] == [Crash(now)];
    assert Run(s, [Crash(now)]) == Run(Apply(s, Crash(now)), []);
    assert Unpublished(s.rows) == {key};
  }

  // ----- Wake-ups that go through

  /** The state with one more kick under way. */
  function WithKick(s: State, kick: Kick): State {
    s.(kicks := s.kicks + multiset{kick})
  }

  lemma KickSwaps(s: State, from: Kick, to: Kick)
    ensures Advance(WithKick(s, from), from, multiset{to}) == WithKick(s, to)
    ensures Advance(WithKick(s, from), from, multiset{}) == s
  {
    assert (s.kicks + multiset{from}) - multiset{from} == s.kicks;
  }

  lemma KickReadStep(s: State, time: nat)
    ensures Apply(WithKick(s, KickReads), KickRead(time))
            == WithKick(s, if s.alarm.Some? && s.alarm.value <= time then KickFlushes else KickSets(time))
  {
    KickSwaps(s, KickReads, KickFlushes);
    KickSwaps(s, KickReads, KickSets(time));
  }

  lemma KickSetStep(s: State, time: nat)
    ensures Apply(WithKick(s, KickSets(time)), KickSet(time)) == WithKick(s.(alarm := Some(time)), KickFlushes)
    ensures KickSets(time) !in s.kicks ==> Apply(WithKick(s, KickFlushes), KickSet(time)) == WithKick(s, KickFlushes)
  {
    KickSwaps(s, KickSets(time), KickFlushes);
  }

  lemma KickFlushStep(s: State)
    ensures Apply(WithKick(s, KickFlushes), KickFlush) == Request(s)
  {
    KickSwaps(s, KickFlushes, KickFlushes);
  }

  /** An undisturbed kick sees to an alarm by `time`, keeps an earlier one, and has the loop running. */
  lemma KickGoesThrough(s: State, time: nat)
    requires KickSets(time) !in s.kicks
    ensures var earlier := s.alarm.Some? && s.alarm.value <= time;
            Apply(Apply(Apply(Apply(s, StartKick), KickRead(time)), KickSet(time)), KickFlush)
            == s.(alarm := if earlier then s.alarm else Some(time),
                  stage := if s.stage.Idle? then Selecting else s.stage)
  {
    assert Apply(s, StartKick) == WithKick(s, KickReads);
    KickReadStep(s, time);
    KickSetStep(s, time);
    KickFlushStep(s);
    KickFlushStep(s.(alarm := Some(time)));
  }

  /** An alarm that fires is used up and has the loop running. */
  lemma AlarmWakesLoop(s: State)
    requires s.alarm.Some? && !s.alarmRunning
    ensures Apply(s, AlarmFires)
            == s.(alarm := None, alarmRunning := true, stage := if s.stage.Idle? then Selecting else s.stage)
  {
  }

  /** A row committed while the loop deletes its alarm gets an alarm within two seconds, and the loop goes on. */
  lemma LateRowIsNoticed(s: State, now: nat)
    requires s.stage.Counting? && Unpublished(s.rows) != {}
    ensures var read := Apply(Apply(s, Continue(now)), Continue(now));
            var s' := if read.stage.SettingAlarm? then Apply(read, Continue(now)) else read;
            var soon := s.alarm.Some? && s.alarm.value <= now + 2_000;
            s' == s.(stage := Selecting, alarm := if soon then s.alarm else Some(now + 2_000))
  {
  }

  // ----- An undisturbed flush

  /** What the loop does next when its sends are accepted and nothing else happens. */
  predicate IsFlushStep(s: State, step: Step) {
    match s.stage
    case Idle => false
    case Selecting => step.Select? && (Unpublished(s.rows) == {} || IsOldest(step.choice, s.rows))
    case Sending(_, _) => step.Accept?
    case Marking(_) => step.Mark?
    case _ => step.Continue?
  }

  predicate IsFlush(s: State, steps: seq<Step>)
    decreases |steps|
  {
    steps == [] || (IsFlushStep(s, steps[0]) && IsFlush(Apply(s, steps[0]), steps[1..]))
  }

  /** What is known between two steps of such a flush. */
  predicate InFlush(s: State) {
    match s.stage
    case Selecting => true
    case Sending(key, _) => key in Unpublished(s.rows)
    case Marking(key) => key in Unpublished(s.rows)
    case Deleting => Unpublished(s.rows) == {}
    case Counting => Unpublished(s.rows) == {} && s.alarm.None?
    case Idle => Unpublished(s.rows) == {} && s.alarm.None? && !s.alarmRunning
    case _ => false
  }

  /** The rows that are still to be sent. */
  function Unsent(s: State): set<Key> {
    Unpublished(s.rows) - if s.stage.Marking? then {s.stage.sentKey} else {}
  }

  /** How many steps are left: three a row, and three more to delete the alarm, count and return. */
  function StepsLeft(s: State): nat
    requires InFlush(s)
  {
    match s.stage
    case Sending(_, _) => 3 * |Unpublished(s.rows)| + 2
    case Marking(_) => 3 * |Unpublished(s.rows)| + 1
    case Deleting => 2
    case Counting => 1
    case Idle => 0
    case _ => 3 * |Unpublished(s.rows)| + 3
  }

  lemma FlushStepMarks(s: State, now: nat)
    requires s.stage.Marking? && InFlush(s)
    ensures var s' := Apply(s, Mark(now));
            Unpublished(s'.rows) == Unpublished(s.rows) - {s.stage.sentKey} && RowsKept(s.rows, s'.rows)
  {
  }

  lemma FlushStepSelects(s: State, choice: Key)
    requires s.stage.Selecting? && (Unpublished(s.rows) == {} || IsOldest(choice, s.rows))
    ensures var s' := Apply(s, Select(choice)); Unpublished(s'.rows) == Unpublished(s.rows) && RowsKept(s.rows, s'.rows)
  {
  }

  lemma FlushStepCounts(s: State, step: Step)
    requires InFlush(s) && IsFlushStep(s, step)
    ensures var s' := Apply(s, step);
            && InFlush(s') && StepsLeft(s') + 1 == StepsLeft(s) && s'.kicks == s.kicks
            && RowsKept(s.rows, s'.rows) && s.sent <= s'.sent
            && multiset(s'.sent) + multiset(Unsent(s')) == multiset(s.sent) + multiset(Unsent(s))
  {
    match s.stage {
      case Selecting => FlushStepSelects(s, step.choice);
      case Sending(key, _) => MovedToSent(Unsent(s), key, s.sent, multiset(s.sent) + multiset(Unsent(s)));
      case Marking(_) => FlushStepMarks(s, step.now);
      case _ =>
    }
  }

  lemma {:induction false} FlushCounts(s: State, steps: seq<Step>)
    requires InFlush(s) && IsFlush(s, steps)
    ensures var s' := Run(s, steps);
            && InFlush(s') && StepsLeft(s') + |steps| == StepsLeft(s) && s'.kicks == s.kicks
            && RowsKept(s.rows, s'.rows) && s.sent <= s'.sent
            && multiset(s'.sent) + multiset(Unsent(s')) == multiset(s.sent) + multiset(Unsent(s))
    decreases |steps|
  {
    if steps != [] {
      var s1 := Apply(s, steps[0]);
      FlushStepCounts(s, steps[0]);
      FlushCounts(s1, steps[1..]);
      RowsKeptTransitive(s.rows, s1.rows, Run(s, steps).rows);
    }
  }

  function NextFlushStep(s: State, choice: Key): Step {
    if s.stage.Selecting? then Select(choice)
    else if s.stage.Sending? then Accept
    else if s.stage.Marking? then Mark(0)
    else Continue(0)
  }

  lemma FlushGoesOn(s: State) returns (step: Step)
    requires !s.stage.Idle?
    ensures IsFlushStep(s, step)
  {
    var choice := Key(IdentityKind, 0);
    if Unpublished(s.rows) != {} {
      choice := OldestOf(Unpublished(s.rows), s.rows);
    }
    step := NextFlushStep(s, choice);
  }

  /**
   * A flush that is not disturbed and whose sends are accepted: whatever order it takes rows of equal age in, it
   * can go on until it has taken three steps for each unpublished row and three more, and then it has returned
   * with every row published and sent exactly once, and without an alarm.
   */
  lemma {:induction false} UndisturbedFlush(s: State, steps: seq<Step>)
    requires s.stage.Selecting? && IsFlush(s, steps)
    ensures |steps| <= 3 * |Unpublished(s.rows)| + 3
    ensures var s' := Run(s, steps);
            if |steps| < 3 * |Unpublished(s.rows)| + 3 then exists step :: IsFlushStep(s', step)
            else
              && s'.stage.Idle? && !s'.alarmRunning && s'.alarm.None? && s'.kicks == s.kicks
              && Unpublished(s'.rows) == {} && RowsKept(s.rows, s'.rows)
              && s.sent <= s'.sent && multiset(s'.sent) == multiset(s.sent) + multiset(Unpublished(s.rows))
  {
    FlushCounts(s, steps);
    var s' := Run(s, steps);
    assert Unsent(s) == Unpublished(s.rows);
    if |steps| < 3 * |Unpublished(s.rows)| + 3 {
      var step := FlushGoesOn(s');
    } else {
      assert s'.stage.Idle? && Unsent(s') == {};
    }
  }

  // ----- One attempt of the loop in both forms

  /** Rows committed while a send is pending. */
  predicate AreCommits(steps: seq<Step>) {
    forall step :: step in steps ==> step.Commit?
  }

  function Committed(steps: seq<Step>): map<Key, nat>
    requires AreCommits(steps)
  {
    if steps == [] then map[] else Committed(steps[1..])[steps[0].newKey := steps[0].createdAt]
  }

  lemma {:induction false} RunConcat(s: State, first: seq<Step>, second: seq<Step>)
    ensures Run(s, first + second) == Run(Run(s, first), second)
    decreases |first|
  {
    if first == [] {
      assert first + second == second;
    } else {
      assert (first + second)[1..] == first[1..] + second;
      RunConcat(Apply(s, first[0]), first[1..], second);
    }
  }

  lemma {:induction false} CommitsArrive(s: State, commits: seq<Step>)
    requires AreCommits(commits)
    ensures var s' := Run(s, commits);
            && Arrived(s.rows, s'.rows, Committed(commits))
            && s'.alarm == s.alarm && s'.stage == s.stage && s'.sent == s.sent && s'.alarmRunning == s.alarmRunning
    decreases |commits|
  {
    if commits != [] {
      CommitsArrive(Apply(s, commits[0]), commits[1..]);
    }
  }

  lemma RunTwo(s: State, a: Step, b: Step)
    ensures Run(s, [a, b]) == Apply(Apply(s, a), b)
  {
    assert [a, b][1..] == [b];
    assert Run(Apply(s, a), [b]) == Run(Apply(Apply(s, a), b), []);
  }

  /** One step, then more, then two. */
  lemma RunSplit(s: State, first: Step, middle: seq<Step>, a: Step, b: Step)
    ensures Run(s, [first] + middle + [a, b]) == Apply(Apply(Run(Apply(s, first), middle), a), b)
  {
    var steps := [first] + (middle + [a, b]);
    assert [first] + middle + [a, b] == steps && steps[1..] == middle + [a, b];
    RunConcat(Apply(s, first), middle, [a, b]);
    RunTwo(Run(Apply(s, first), middle), a, b);
  }

  /** The loop's row and stage when its send settles. */
  lemma WaitingSend(s: State, key: Key, commits: seq<Step>)
    requires s.stage.Selecting? && IsOldest(key, s.rows) && AreCommits(commits)
    ensures var s1 := Run(Apply(s, Select(key)), commits);
            && s1.stage == Sending(key, s.rows[key].attempts + 1) && s1.alarm == s.alarm && s1.sent == s.sent
            && Attempted(s.rows, s1.rows, key, Wait(Committed(commits), false, 0))
  {
    CommitsArrive(Apply(s, Select(key)), commits);
  }

  /** How the send settles, from rows of which the attempt was counted. */
  lemma SendAccepted(before: Rows, s: State, key: Key, arrivals: map<Key, nat>, now: nat)
    requires s.stage.Sending? && s.stage.key == key && Attempted(before, s.rows, key, Wait(arrivals, false, 0))
    requires key in Unpublished(before)
    ensures var s' := Apply(Apply(s, Accept), Mark(now));
            && Attempted(before, s'.rows, key, Wait(arrivals, true, now))
            && s'.stage.Selecting? && s'.alarm == s.alarm && s'.sent == s.sent + [key]
  {
  }

  lemma SendRejected(before: Rows, s: State, key: Key, arrivals: map<Key, nat>, now: nat, later: nat)
    requires s.stage.Sending? && s.stage.key == key && Attempted(before, s.rows, key, Wait(arrivals, false, 0))
    requires s.stage.attempt == s.rows[key].attempts
    ensures var s' := Apply(Apply(s, Reject(now)), Continue(later));
            && Attempted(before, s'.rows, key, Wait(arrivals, false, now))
            && s'.stage.Idle? && s'.sent == s.sent
            && s'.alarm == Some(now + RetryDelay(s'.rows[key].attempts))
  {
  }

  /** The steps of an accepted send do what `Flusher.Attempt` promises for a delivered one. */
  lemma AttemptAccepted(s: State, key: Key, commits: seq<Step>, now: nat)
    requires s.stage.Selecting? && IsOldest(key, s.rows) && AreCommits(commits)
    ensures var s' := Run(s, [Select(key)] + commits + [Accept, Mark(now)]);
            && Attempted(s.rows, s'.rows, key, Wait(Committed(commits), true, now))
            && s'.stage.Selecting? && s'.alarm == s.alarm && s'.sent == s.sent + [key]
  {
    var waiting := Run(Apply(s, Select(key)), commits);
    RunSplit(s, Select(key), commits, Accept, Mark(now));
    WaitingSend(s, key, commits);
    SendAccepted(s.rows, waiting, key, Committed(commits), now);
  }

  /** The steps of a failed send do what `Flusher.Attempt` promises for it, and end the loop. */
  lemma AttemptRejected(s: State, key: Key, commits: seq<Step>, now: nat, later: nat)
    requires s.stage.Selecting? && IsOldest(key, s.rows) && AreCommits(commits)
    ensures var s' := Run(s, [Select(key)] + commits + [Reject(now), Continue(later)]);
            && Attempted(s.rows, s'.rows, key, Wait(Committed(commits), false, now))
            && s'.stage.Idle? && s'.sent == s.sent
            && s'.alarm == Some(now + RetryDelay(s'.rows[key].attempts))
  {
    var waiting := Run(Apply(s, Select(key)), commits);
    RunSplit(s, Select(key), commits, Reject(now), Continue(later));
    WaitingSend(s, key, commits);
    SendRejected(s.rows, waiting, key, Committed(commits), now, later);
  }
}
