/** Publish, save the state, commit: the offsets of one partition over process lives that may end anywhere. */
module OffsetProtocol {
  import Text

  /** Where the worker stands with the message it took last. Escaped: an exception left the processing of it. */
  datatype Phase =
    | Idle
    | Taken(offset: nat)
    | Answered(offset: nat)
    | Recorded(offset: nat)
    | Escaped(offset: nat, answered: bool)

  /** The responses published so far, the offset in the state file, the position committed to Kafka, and the
      offset the consumer returns next. */
  datatype State = State(published: seq<nat>, saved: Text.Option<nat>, committed: nat, position: nat, phase: Phase)

  const START := State([], Text.None, 0, 0, Idle)

  /** An operation succeeds, raises without effect, or raises after its effect. */
  datatype Fault = Fine | Before | After

  datatype Event = Poll | Publish(fault: Fault) | Save(fault: Fault) | Commit(fault: Fault) | Restart

  /** ResolveStartOffset: past the recorded offset, else what Kafka remembers. */
  function Resume(s: State): nat {
    if s.saved.Some? then s.saved.value + 1 else s.committed
  }

  /** The consume loop polls again after an exception, without seeking back. */
  predicate Enabled(s: State, e: Event) {
    match e
    case Poll => s.phase.Idle? || s.phase.Escaped?
    case Publish(_) => s.phase.Taken?
    case Save(_) => s.phase.Answered?
    case Commit(_) => s.phase.Recorded?
    case Restart => true
  }

  function Step(s: State, e: Event): State
    requires Enabled(s, e)
  {
    match e
    case Poll => s.(position := s.position + 1, phase := Taken(s.position))
    case Publish(fault) =>
      var m := s.phase.offset;
      var s' := if fault == Before then s else s.(published := s.published + [m]);
      s'.(phase := if fault == Fine then Answered(m) else Escaped(m, fault == After))
    case Save(fault) =>
      var m := s.phase.offset;
      var s' := if fault == Before then s else s.(saved := Text.Some(m));
      s'.(phase := if fault == Fine then Recorded(m) else Escaped(m, fault == Before))
    case Commit(fault) =>
      var m := s.phase.offset;
      var s' := if fault == Before then s else s.(committed := m + 1);
      s'.(phase := if fault == Fine then Idle else Escaped(m, false))
    case Restart => s.(position := Resume(s), phase := Idle)
  }

  predicate CanRun(s: State, es: seq<Event>)
    decreases |es|
  {
    es == [] || (Enabled(s, es[0]) && CanRun(Step(s, es[0]), es[1..]))
  }

  function Run(s: State, es: seq<Event>): State
    requires CanRun(s, es)
    decreases |es|
  {
    if es == [] then s else Run(Step(s, es[0]), es[1..])
  }

  lemma RunOfCons(s: State, e: Event, rest: seq<Event>)
    requires Enabled(s, e) && CanRun(Step(s, e), rest)
    ensures CanRun(s, [e] + rest) && Run(s, [e] + rest) == Run(Step(s, e), rest)
  {
    assert ([e] + rest)[1..] == rest;
  }

  // ---------------------------------------------------------------- when a message is lost

  ghost predicate Unanswered(s: State, below: nat) {
    exists o :: 0 <= o < below && o !in s.published
  }

  /** No message the next process life would skip is without a response. */
  ghost predicate NothingLost(s: State) {
    !Unanswered(s, Resume(s))
  }

  /** The loop goes on after an exception although the message it came from has no response. */
  predicate PollsOn(s: State, e: Event) {
    e.Poll? && s.phase.Escaped? && s.phase.offset !in s.published
  }

  predicate Saves(e: Event) {
    e.Save? && e.fault != Before
  }

  ghost predicate Ordered(s: State) {
    && s.committed <= Resume(s) <= s.position
    && (!s.phase.Idle? ==> s.phase.offset + 1 == s.position)
    && (s.phase.Taken? || s.phase.Answered? ==> Resume(s) <= s.phase.offset)
    && (s.phase.Recorded? ==> s.saved == Text.Some(s.phase.offset) && s.committed <= s.phase.offset)
    && (s.phase.Answered? || s.phase.Recorded? ==> s.phase.offset in s.published)
  }

  lemma StepOrdered(s: State, e: Event)
    requires Ordered(s) && Enabled(s, e)
    ensures Ordered(Step(s, e)) && Resume(s) <= Resume(Step(s, e)) && s.committed <= Step(s, e).committed
  {
  }

  /** A message the resume offset has passed without a response is never answered again. */
  lemma LossIsPermanent(s: State, e: Event)
    requires Ordered(s) && Enabled(s, e) && !NothingLost(s)
    ensures !NothingLost(Step(s, e))
  {
    StepOrdered(s, e);
    var o :| 0 <= o < Resume(s) && o !in s.published;
    assert o !in Step(s, e).published;
  }

  /** The messages this process life has left behind. */
  function Frontier(s: State): nat {
    if s.phase.Idle? then s.position else s.phase.offset
  }

  /** Nothing is lost yet, and the flag tells whether this process life has left a message without a response. */
  ghost predicate Tracks(s: State, skipped: bool) {
    && Ordered(s) && NothingLost(s)
    && (skipped <==> exists o :: Resume(s) <= o < Frontier(s) && o !in s.published)
  }

  function Skips(s: State, e: Event, skipped: bool): bool {
    !e.Restart? && (skipped || PollsOn(s, e))
  }

  lemma StepTracks(s: State, e: Event, skipped: bool)
    requires Tracks(s, skipped) && Enabled(s, e)
    ensures if skipped && Saves(e) then !NothingLost(Step(s, e)) else Tracks(Step(s, e), Skips(s, e, skipped))
  {
    var after := Step(s, e);
    StepOrdered(s, e);
    if skipped && Saves(e) {
      var o :| Resume(s) <= o < Frontier(s) && o !in s.published;
      assert 0 <= o < Resume(after) && o !in after.published;
    } else {
      forall o | 0 <= o < Resume(after)
        ensures o in after.published
      {
        assert o < Resume(s) || (Resume(s) <= o < Frontier(s)) || (Saves(e) && o == s.phase.offset);
      }
      if PollsOn(s, e) {
        assert Resume(after) <= s.phase.offset < Frontier(after) && s.phase.offset !in after.published;
      } else if skipped && !e.Restart? {
        var o :| Resume(s) <= o < Frontier(s) && o !in s.published;
        assert Resume(after) <= o < Frontier(after) && o !in after.published;
      }
    }
  }

  /** The flag is up when the state is saved. */
  ghost predicate SavesAfterSkip(s: State, es: seq<Event>, skipped: bool)
    requires CanRun(s, es)
    decreases |es|
  {
    es != [] && ((skipped && Saves(es[0])) || SavesAfterSkip(Step(s, es[0]), es[1..], Skips(s, es[0], skipped)))
  }

  lemma {:induction false} LossFollowsSkip(s: State, es: seq<Event>, skipped: bool)
    requires Tracks(s, skipped) && CanRun(s, es)
    ensures NothingLost(Run(s, es)) <==> !SavesAfterSkip(s, es, skipped)
    decreases |es|
  {
    hide Tracks, NothingLost, Skips, Ordered;
    if es != [] {
      StepTracks(s, es[0], skipped);
      if skipped && Saves(es[0]) {
        assert Ordered(s) by { TracksOrdered(s, skipped); }
        StepOrdered(s, es[0]);
        LostForever(Step(s, es[0]), es[1..]);
      } else {
        LossFollowsSkip(Step(s, es[0]), es[1..], Skips(s, es[0], skipped));
      }
    } else {
      TracksNothingLost(s, skipped);
    }
  }

  lemma TracksOrdered(s: State, skipped: bool)
    requires Tracks(s, skipped)
    ensures Ordered(s)
  {
  }

  lemma TracksNothingLost(s: State, skipped: bool)
    requires Tracks(s, skipped)
    ensures NothingLost(s)
  {
  }

  /** The state before an event of a run. */
  function StateAt(s: State, es: seq<Event>, i: nat): State
    requires CanRun(s, es) && i <= |es|
    decreases i
  {
    if i == 0 then s else StateAt(Step(s, es[0]), es[1..], i - 1)
  }

  predicate NoRestart(es: seq<Event>, from: nat, to: nat)
    requires from <= to <= |es|
  {
    forall k :: from <= k < to ==> !es[k].Restart?
  }

  /** The state is saved after an unanswered message was left behind, in the same process life. */
  ghost predicate LeavesBehind(s: State, es: seq<Event>)
    requires CanRun(s, es)
  {
    exists i, j :: 0 <= i < j < |es| && PollsOn(StateAt(s, es, i), es[i]) && Saves(es[j]) && NoRestart(es, i, j)
  }

  /** Saved before the next restart. */
  ghost predicate SavesInLife(es: seq<Event>) {
    exists j :: 0 <= j < |es| && Saves(es[j]) && NoRestart(es, 0, j)
  }

  lemma SavesInLifeOf(es: seq<Event>)
    requires es != []
    ensures SavesInLife(es) <==> Saves(es[0]) || (!es[0].Restart? && SavesInLife(es[1..]))
  {
    var rest := es[1..];
    if SavesInLife(es) {
      var j :| 0 <= j < |es| && Saves(es[j]) && NoRestart(es, 0, j);
      if j > 0 {
        assert rest[j - 1] == es[j];
        assert forall k :: 0 <= k < j - 1 ==> rest[k] == es[k + 1];
        assert NoRestart(rest, 0, j - 1);
        assert !es[0].Restart?;
      }
    }
    if Saves(es[0]) {
      assert NoRestart(es, 0, 0);
    } else if !es[0].Restart? && SavesInLife(rest) {
      var j :| 0 <= j < |rest| && Saves(rest[j]) && NoRestart(rest, 0, j);
      assert es[j + 1] == rest[j];
      assert forall k :: 1 <= k < j + 1 ==> es[k] == rest[k - 1];
      assert NoRestart(es, 0, j + 1);
    }
  }

  lemma LeavesBehindOf(s: State, es: seq<Event>)
    requires es != [] && CanRun(s, es)
    ensures LeavesBehind(s, es) <==>
            (PollsOn(s, es[0]) && SavesInLife(es[1..])) || LeavesBehind(Step(s, es[0]), es[1..])
  {
    var rest, next := es[1..], Step(s, es[0]);
    if LeavesBehind(s, es) {
      var i, j :| 0 <= i < j < |es| && PollsOn(StateAt(s, es, i), es[i]) && Saves(es[j]) && NoRestart(es, i, j);
      assert rest[j - 1] == es[j];
      assert forall k :: 0 <= k < |rest| ==> rest[k] == es[k + 1];
      if i == 0 {
        assert NoRestart(rest, 0, j - 1);
      } else {
        assert NoRestart(rest, i - 1, j - 1);
        assert PollsOn(StateAt(next, rest, i - 1), rest[i - 1]);
      }
    }
    if PollsOn(s, es[0]) && SavesInLife(rest) {
      var j :| 0 <= j < |rest| && Saves(rest[j]) && NoRestart(rest, 0, j);
      assert es[j + 1] == rest[j];
      assert forall k :: 1 <= k < j + 1 ==> es[k] == rest[k - 1];
      assert NoRestart(es, 0, j + 1);
      assert PollsOn(StateAt(s, es, 0), es[0]);
    }
    if LeavesBehind(next, rest) {
      var i, j :| 0 <= i < j < |rest| && PollsOn(StateAt(next, rest, i), rest[i]) && Saves(rest[j])
        && NoRestart(rest, i, j);
      assert es[j + 1] == rest[j] && es[i + 1] == rest[i];
      assert forall k :: i + 1 <= k < j + 1 ==> es[k] == rest[k - 1];
      assert NoRestart(es, i + 1, j + 1);
      assert PollsOn(StateAt(s, es, i + 1), es[i + 1]);
    }
  }

  lemma {:induction false} SkipMeansLeft(s: State, es: seq<Event>, skipped: bool)
    requires CanRun(s, es)
    ensures SavesAfterSkip(s, es, skipped) <==> LeavesBehind(s, es) || (skipped && SavesInLife(es))
    decreases |es|
  {
    hide LeavesBehind, SavesInLife, PollsOn, Saves;
    if es == [] {
      NothingInNoRun(s);
    } else {
      SavesInLifeOf(es);
      LeavesBehindOf(s, es);
      SkipMeansLeft(Step(s, es[0]), es[1..], Skips(s, es[0], skipped));
      if PollsOn(s, es[0]) {
        assert !es[0].Restart? by { PollIsNoRestart(s, es[0]); }
      }
    }
  }

  lemma PollIsNoRestart(s: State, e: Event)
    requires PollsOn(s, e)
    ensures !e.Restart?
  {
  }

  lemma NothingInNoRun(s: State)
    ensures CanRun(s, []) && !LeavesBehind(s, []) && !SavesInLife([])
  {
  }

  /** The exact condition: over any run with failures and crashes anywhere, some message below the resume offset is
      without a response if and only if the loop once polled on after an exception that had left its message without a
      response, and saved the state for a later message before it was restarted. */
  lemma LossExactly(es: seq<Event>)
    requires CanRun(START, es)
    ensures !NothingLost(Run(START, es)) <==> LeavesBehind(START, es)
  {
    assert Tracks(START, false);
    hide Tracks, NothingLost, LeavesBehind;
    LossFollowsSkip(START, es, false);
    SkipMeansLeft(START, es, false);
  }

  lemma {:induction false} LostForever(s: State, es: seq<Event>)
    requires Ordered(s) && !NothingLost(s) && CanRun(s, es)
    ensures !NothingLost(Run(s, es))
    decreases |es|
  {
    if es != [] {
      StepOrdered(s, es[0]);
      LossIsPermanent(s, es[0]);
      LostForever(Step(s, es[0]), es[1..]);
    }
  }

  /** Two messages are enough: the first raises before its response, the second completes. */
  lemma LoopLosesMessage()
    ensures var es := [Poll, Publish(Before), Poll, Publish(Fine), Save(Fine), Commit(Fine)];
            CanRun(START, es) && !NothingLost(Run(START, es))
  {
    var es := [Poll, Publish(Before), Poll, Publish(Fine), Save(Fine), Commit(Fine)];
    var s1 := Step(START, Poll);
    var s2 := Step(s1, Publish(Before));
    var s3 := Step(s2, Poll);
    var s4 := Step(s3, Publish(Fine));
    var s5 := Step(s4, Save(Fine));
    var s6 := Step(s5, Commit(Fine));
    assert es[1..] == [Publish(Before), Poll, Publish(Fine), Save(Fine), Commit(Fine)];
    assert es[1..][1..] == [Poll, Publish(Fine), Save(Fine), Commit(Fine)];
    assert es[1..][1..][1..] == [Publish(Fine), Save(Fine), Commit(Fine)];
    assert es[1..][1..][1..][1..] == [Save(Fine), Commit(Fine)];
    assert es[1..][1..][1..][1..][1..] == [Commit(Fine)];
    assert es[1..][1..][1..][1..][1..][1..] == [];
    assert Run(s5, [Commit(Fine)]) == s6;
    assert Run(s3, [Publish(Fine), Save(Fine), Commit(Fine)]) == s6;
    assert Run(START, es) == s6;
    assert 0 !in s6.published && Resume(s6) == 2;
  }

  // ---------------------------------------------------------------- runs that restart after every exception

  predicate Disciplined(s: State, es: seq<Event>)
    requires CanRun(s, es)
    decreases |es|
  {
    es == [] || (!(es[0].Poll? && s.phase.Escaped?) && Disciplined(Step(s, es[0]), es[1..]))
  }

  function Restarts(es: seq<Event>): nat {
    if es == [] then 0 else (if es[0].Restart? then 1 else 0) + Restarts(es[1..])
  }

  /** Saves that took effect since the last commit that did. */
  function Uncommitted(es: seq<Event>, sofar: nat): nat {
    if es == [] then sofar
    else if es[0].Save? && es[0].fault != Before then Uncommitted(es[1..], sofar + 1)
    else if es[0].Commit? && es[0].fault != Before then Uncommitted(es[1..], 0)
    else Uncommitted(es[1..], sofar)
  }

  predicate AnsweredOnly(s: State) {
    s.phase.Answered? || (s.phase.Escaped? && s.phase.answered)
  }

  ghost function Distinct(published: seq<nat>): set<nat> {
    set o | o in published
  }

  ghost predicate InStep(s: State, sofar: nat, restarts: nat) {
    && Ordered(s)
    && Resume(s) == s.committed + sofar
    && (s.phase.Taken? || s.phase.Answered? ==> s.phase.offset == Resume(s))
    && (s.phase.Idle? || s.phase.Recorded? ==> s.position == Resume(s))
    && (s.phase.Escaped? && s.phase.answered ==> s.phase.offset == Resume(s) && s.phase.offset in s.published)
    && (forall o :: 0 <= o < Resume(s) ==> o in s.published)
    && (forall o :: o in s.published ==> o <= Resume(s))
    && |s.published| <= Resume(s) + restarts + if AnsweredOnly(s) then 1 else 0
  }

  lemma StepInStep(s: State, e: Event, sofar: nat, restarts: nat)
    requires InStep(s, sofar, restarts) && Enabled(s, e) && !(e.Poll? && s.phase.Escaped?)
    ensures InStep(Step(s, e), Uncommitted([e], sofar), restarts + Restarts([e]))
  {
    StepOrdered(s, e);
    assert [e][1..] == [];
    assert Uncommitted([], sofar + 1) == sofar + 1 && Uncommitted([], 0) == 0 && Uncommitted([], sofar) == sofar;
    assert Restarts([]) == 0;
  }

  lemma {:induction false} RunInStep(s: State, es: seq<Event>, sofar: nat, restarts: nat)
    requires InStep(s, sofar, restarts) && CanRun(s, es) && Disciplined(s, es)
    ensures InStep(Run(s, es), Uncommitted(es, sofar), restarts + Restarts(es))
    decreases |es|
  {
    if es != [] {
      StepInStep(s, es[0], sofar, restarts);
      assert [es[0]][1..] == [];
      var next := Uncommitted([es[0]], sofar);
      assert next == if es[0].Save? && es[0].fault != Before then sofar + 1
                     else if es[0].Commit? && es[0].fault != Before then 0 else sofar;
      assert Restarts([es[0]]) == if es[0].Restart? then 1 else 0;
      RunInStep(Step(s, es[0]), es[1..], next, restarts + Restarts([es[0]]));
    }
  }

  lemma {:induction false} PrefixCount(n: nat, answered: set<nat>)
    requires forall o :: 0 <= o < n ==> o in answered
    ensures n <= |answered|
  {
    if n > 0 {
      PrefixCount(n - 1, answered - {n - 1});
    }
  }

  /** With a restart after every exception: nothing is lost, the state file is ahead of the committed position by
      exactly the saves not yet followed by a commit, and there are no more repeated responses than restarts. */
  lemma DisciplinedRuns(es: seq<Event>)
    requires CanRun(START, es) && Disciplined(START, es)
    ensures var s := Run(START, es);
            && NothingLost(s)
            && Resume(s) == s.committed + Uncommitted(es, 0)
            && |s.published| <= |Distinct(s.published)| + Restarts(es)
  {
    hide Uncommitted, Restarts, CanRun, Disciplined;
    assert InStep(START, 0, 0);
    RunInStep(START, es, 0, 0);
    var s := Run(START, es);
    hide Run;
    var answered := Distinct(s.published);
    PrefixCount(Resume(s), answered);
    if AnsweredOnly(s) {
      assert Resume(s) in s.published;
      PrefixCount(Resume(s) + 1, answered);
    }
  }

  /** The state file can be ahead by more than one message: each crash between saving and committing adds one. */
  lemma StateTwoAhead()
    ensures var es := [Poll, Publish(Fine), Save(Fine), Restart, Poll, Publish(Fine), Save(Fine)];
            CanRun(START, es) && Disciplined(START, es)
            && Resume(Run(START, es)) == 2 && Run(START, es).committed == 0
  {
    var es := [Poll, Publish(Fine), Save(Fine), Restart, Poll, Publish(Fine), Save(Fine)];
    var s1 := Step(START, Poll);
    var s2 := Step(s1, Publish(Fine));
    var s3 := Step(s2, Save(Fine));
    var s4 := Step(s3, Restart);
    var s5 := Step(s4, Poll);
    var s6 := Step(s5, Publish(Fine));
    var s7 := Step(s6, Save(Fine));
    assert es[1..] == [Publish(Fine), Save(Fine), Restart, Poll, Publish(Fine), Save(Fine)];
    assert es[1..][1..] == [Save(Fine), Restart, Poll, Publish(Fine), Save(Fine)];
    assert es[1..][1..][1..] == [Restart, Poll, Publish(Fine), Save(Fine)];
    assert es[1..][1..][1..][1..] == [Poll, Publish(Fine), Save(Fine)];
    assert es[1..][1..][1..][1..][1..] == [Publish(Fine), Save(Fine)];
    assert es[1..][1..][1..][1..][1..][1..] == [Save(Fine)];
    assert es[1..][1..][1..][1..][1..][1..][1..] == [];
    assert CanRun(s6, [Save(Fine)]) && Run(s6, [Save(Fine)]) == s7 && Disciplined(s6, [Save(Fine)]);
    assert CanRun(s4, [Poll, Publish(Fine), Save(Fine)]) && Run(s4, [Poll, Publish(Fine), Save(Fine)]) == s7;
    assert Disciplined(s4, [Poll, Publish(Fine), Save(Fine)]);
  }

  // ---------------------------------------------------------------- the worker's own code

  /** The worker of one partition. */
  class PartitionWorker {
    var published: seq<nat>
    var saved: Text.Option<nat>
    var committed: nat
    var position: nat
    var phase: Phase

    ghost function Now(): State
      reads this
    {
      State(published, saved, committed, position, phase)
    }

    constructor ()
      ensures Now() == START
    {
      published, saved, committed, position, phase := [], Text.None, 0, 0, Idle;
    }

    method Start()
      modifies this
      ensures Now() == Step(old(Now()), Restart)
    {
      position := if saved.Some? then saved.value + 1 else committed;
      phase := Idle;
    }

    method Consume() returns (offset: nat)
      requires phase.Idle? || phase.Escaped?
      modifies this
      ensures Now() == Step(old(Now()), Poll) && offset == old(position)
    {
      offset := position;
      position := position + 1;
      phase := Taken(offset);
    }

    /** PublishStateAndCommitAsync with the outcome of each of its operations; the events that took place. */
    method PublishStateAndCommit(publish: Fault, save: Fault, commit: Fault) returns (ghost events: seq<Event>)
      requires phase.Taken?
      modifies this
      ensures CanRun(old(Now()), events) && Now() == Run(old(Now()), events)
      ensures events == if publish != Fine then [Publish(publish)]
                        else if save != Fine then [Publish(Fine), Save(save)]
                        else [Publish(Fine), Save(Fine), Commit(commit)]
      ensures (phase == Idle) <==> (publish == save == commit == Fine)
    {
      ghost var s0 := Now();
      var offset := phase.offset;
      if publish != Before {
        published := published + [offset];
      }
      if publish != Fine {
        phase := Escaped(offset, publish == After);
        events := [Publish(publish)];
        RunOfCons(s0, Publish(publish), []);
        assert [Publish(publish)] + [] == events;
        return;
      }
      phase := Answered(offset);
      ghost var s1 := Now();
      if save != Before {
        saved := Text.Some(offset);
      }
      if save != Fine {
        phase := Escaped(offset, save == Before);
        events := [Publish(Fine), Save(save)];
        RunOfCons(s1, Save(save), []);
        RunOfCons(s0, Publish(Fine), [Save(save)] + []);
        assert [Publish(Fine)] + ([Save(save)] + []) == events;
        return;
      }
      phase := Recorded(offset);
      ghost var s2 := Now();
      if commit != Before {
        committed := offset + 1;
      }
      phase := if commit == Fine then Idle else Escaped(offset, false);
      events := [Publish(Fine), Save(Fine), Commit(commit)];
      RunOfCons(s2, Commit(commit), []);
      RunOfCons(s1, Save(Fine), [Commit(commit)] + []);
      RunOfCons(s0, Publish(Fine), [Save(Fine)] + ([Commit(commit)] + []));
      assert [Publish(Fine)] + ([Save(Fine)] + ([Commit(commit)] + [])) == events;
    }
  }
}
