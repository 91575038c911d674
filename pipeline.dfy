/**
 * CommandsRequest: one submitted pipeline and its progress. Stage 0 is dispatched
 * when the request is built; every later stage waits until a completion drains the
 * running outcomes. The value type RequestState is the request's contents; the
 * class CommandsRequest holds them in fields that its methods update in place, and
 * each method is specified by the RequestState function of the same name.
 */
module Requests {
  import opened Wrappers
  import opened Common

  /** The correlation tag "<id>:<index>" of a dispatched command. */
  datatype Tag = Tag(id: nat, index: nat)

  /** A completion event for a tag: the result code and the captured output. */
  datatype Completion = Completion(code: int, outs: string, outb: string)

  /**
   * One dispatched command (a CommandResult): its tag, its rendered description, the
   * payload sent with the tag, and its completion once that has arrived.
   */
  datatype Outcome = Outcome(tag: Tag, command: string, payload: Command, result: Option<Completion>)

  /** What `run` dispatches for a stage: one pending outcome per command, the i-th tagged "<id>:i". */
  function Dispatch(stage: Stage, id: nat): seq<Outcome> {
    seq(|stage|, i requires 0 <= i < |stage| => Outcome(Tag(id, i), Description(stage[i]), stage[i], None))
  }

  predicate TagsDistinct(os: seq<Outcome>) {
    forall i, j :: 0 <= i < j < |os| ==> os[i].tag != os[j].tag
  }

  /** The commands the outcomes were dispatched for, in order. */
  function Payloads(os: seq<Outcome>): seq<Command> {
    seq(|os|, i requires 0 <= i < |os| => os[i].payload)
  }

  /** The (tag, payload) pairs sent to the monitor for these outcomes, in order. */
  function Sent(os: seq<Outcome>): seq<(Tag, Command)> {
    seq(|os|, i requires 0 <= i < |os| => (os[i].tag, os[i].payload))
  }

  /** The commands of the stages, stage after stage. */
  function Flatten(stages: seq<Stage>): seq<Command> {
    if stages == [] then [] else stages[0] + Flatten(stages[1..])
  }

  /** The position of the first outcome carrying the tag. */
  function FirstIndex(os: seq<Outcome>, tag: Tag): (r: Option<nat>)
    ensures r.Some? ==> r.value < |os| && os[r.value].tag == tag
    ensures r.Some? ==> forall j :: 0 <= j < r.value ==> os[j].tag != tag
    ensures r.None? ==> forall j :: 0 <= j < |os| ==> os[j].tag != tag
  {
    if os == [] then None
    else if os[0].tag == tag then Some(0)
    else match FirstIndex(os[1..], tag)
      case None => None
      case Some(k) => Some(k + 1)
  }

  /** The contents of a CommandsRequest. */
  datatype RequestState = RequestState(
    uuid: nat,
    running: seq<Outcome>,
    waiting: seq<Stage>,
    finished: seq<Outcome>,
    failed: seq<Outcome>)
  {
    /** is_running(tag) */
    predicate IsRunning(tag: Tag) {
      exists i :: 0 <= i < |running| && running[i].tag == tag
    }

    /** is_ready(): the running stage is drained and another one waits. */
    predicate IsReady() {
      running == [] && waiting != []
    }

    /** is_waiting() */
    predicate IsWaiting() {
      waiting != []
    }

    /** is_finished(): nothing runs and nothing waits. */
    predicate IsFinished() {
      running == [] && waiting == []
    }

    /** has_failed() */
    predicate HasFailed() {
      failed != []
    }

    /** get_state(): "pending", "failed" or "success". */
    function GetState(): (state: string)
      ensures state == "pending" <==> running != [] || waiting != []
      ensures state == "failed" <==> running == [] && waiting == [] && failed != []
      ensures state == "success" <==> running == [] && waiting == [] && failed == []
    {
      if !IsFinished() then "pending"
      else if HasFailed() then "failed"
      else "success"
    }

    /** finish(tag) once the completion c has been recorded for the tag. */
    function Finish(tag: Tag, c: Completion): RequestState {
      match FirstIndex(running, tag)
      case None => this
      case Some(i) =>
        var done := running[i].(result := Some(c));
        var rest := running[..i] + running[i + 1..];
        if c.code == 0 then this.(running := rest, finished := finished + [done])
        else this.(running := rest, failed := failed + [done])
    }

    /** next(): dispatch the first waiting stage. */
    function Next(): RequestState {
      if waiting == [] then this
      else this.(running := running + Dispatch(waiting[0], uuid), waiting := waiting[1..])
    }

    /** What _notify does to the request that runs the tag: finish it, then advance if ready. */
    function OnCompletion(tag: Tag, c: Completion): RequestState {
      var s := Finish(tag, c);
      if s.IsReady() then s.Next() else s
    }

    /**
     * The invariant of every request the registry holds: running tags are pairwise
     * distinct, every tag carries the request's id, running outcomes are pending,
     * finished ones completed with 0 and failed ones with another code.
     */
    ghost predicate Valid() {
      && TagsDistinct(running)
      && (forall o :: o in running ==> o.tag.id == uuid && o.result.None?)
      && (forall o :: o in finished ==> o.tag.id == uuid && o.result.Some? && o.result.value.code == 0)
      && (forall o :: o in failed ==> o.tag.id == uuid && o.result.Some? && o.result.value.code != 0)
    }
  }

  /** The contents of CommandsRequest(pipeline) built with the id: stage 0 dispatched, the rest waiting. */
  function Start(id: nat, pipeline: Pipeline): RequestState {
    RequestState(
      id,
      if |pipeline| == 0 then [] else Dispatch(pipeline[0], id),
      if |pipeline| == 0 then [] else pipeline[1..],
      [], [])
  }

  // ------------------------------------------------------------- lemmas

  lemma {:induction false} SentAppend(a: seq<Outcome>, b: seq<Outcome>)
    ensures Sent(a + b) == Sent(a) + Sent(b)
    ensures Payloads(a + b) == Payloads(a) + Payloads(b)
  {
    assert forall i :: 0 <= i < |a| ==> (a + b)[i] == a[i];
    assert forall i :: 0 <= i < |b| ==> (a + b)[|a| + i] == b[i];
  }

  /** The tags run by one dispatched stage are pairwise distinct and carry the request id. */
  lemma DispatchTags(stage: Stage, id: nat)
    ensures TagsDistinct(Dispatch(stage, id))
    ensures forall o :: o in Dispatch(stage, id) ==> o.tag.id == id && o.result.None?
    ensures Payloads(Dispatch(stage, id)) == stage
  {
  }

  /**
   * A new request runs the first stage and keeps the others waiting in order; an
   * empty pipeline is finished at once with state "success".
   */
  lemma StartSpec(id: nat, pipeline: Pipeline)
    ensures Start(id, pipeline).Valid()
    ensures pipeline != [] ==> Payloads(Start(id, pipeline).running) == pipeline[0]
    ensures Payloads(Start(id, pipeline).running) + Flatten(Start(id, pipeline).waiting) == Flatten(pipeline)
    ensures Start(id, pipeline).IsFinished() <==> pipeline == [] || (|pipeline| == 1 && pipeline[0] == [])
    ensures pipeline == [] ==> Start(id, pipeline).GetState() == "success"
  {
    if pipeline != [] {
      DispatchTags(pipeline[0], id);
    }
  }

  /** A completion for a tag nobody runs changes nothing. */
  lemma FinishUnknownTag(s: RequestState, tag: Tag, c: Completion)
    requires !s.IsRunning(tag)
    ensures s.Finish(tag, c) == s
  {
  }

  lemma SentBag(a: seq<Outcome>, b: seq<Outcome>)
    ensures multiset(Sent(a + b)) == multiset(Sent(a)) + multiset(Sent(b))
  {
    SentAppend(a, b);
  }

  lemma SentBag3(a: seq<Outcome>, b: seq<Outcome>, c: seq<Outcome>)
    ensures multiset(Sent(a + b + c)) == multiset(Sent(a)) + multiset(Sent(b)) + multiset(Sent(c))
  {
    SentBag(a + b, c);
    SentBag(a, b);
  }

  /** Taking the outcome at i out of running takes its pair out of the sent ones. */
  lemma SentRemove(r: seq<Outcome>, i: nat)
    requires i < |r|
    ensures multiset(Sent(r)) == multiset(Sent(r[..i] + r[i + 1..])) + multiset(Sent([r[i]]))
  {
    var before, after := r[..i], r[i + 1..];
    assert r == before + [r[i]] + after;
    SentBag3(before, [r[i]], after);
    SentBag(before, after);
  }

  /** finish keeps the (tag, payload) pairs of running, finished and failed together. */
  lemma FinishKeepsSent(s: RequestState, tag: Tag, c: Completion)
    requires s.IsRunning(tag)
    ensures var t := s.Finish(tag, c);
      multiset(Sent(t.running + t.finished + t.failed)) == multiset(Sent(s.running + s.finished + s.failed))
  {
    var i := FirstIndex(s.running, tag).value;
    var t := s.Finish(tag, c);
    var done := s.running[i].(result := Some(c));
    assert Sent([done]) == Sent([s.running[i]]);
    SentRemove(s.running, i);
    SentBag3(s.running, s.finished, s.failed);
    SentBag3(t.running, t.finished, t.failed);
    if c.code == 0 {
      SentBag(s.finished, [done]);
    } else {
      SentBag(s.failed, [done]);
    }
  }

  /**
   * finish moves exactly one outcome with the tag out of running, completed with c:
   * to the end of finished on code 0, to the end of failed otherwise. The waiting
   * stages do not change, and the (tag, payload) pairs of running, finished and
   * failed together stay the same.
   */
  lemma FinishMovesOne(s: RequestState, tag: Tag, c: Completion)
    requires s.IsRunning(tag)
    ensures var t := s.Finish(tag, c);
      && t.uuid == s.uuid && t.waiting == s.waiting
      && |t.running| + 1 == |s.running|
      && multiset(Sent(t.running + t.finished + t.failed)) == multiset(Sent(s.running + s.finished + s.failed))
      && |t.running| + |t.finished| + |t.failed| == |s.running| + |s.finished| + |s.failed|
      && (c.code == 0 ==> t.failed == s.failed && |t.finished| == |s.finished| + 1 &&
                          t.finished[..|s.finished|] == s.finished &&
                          t.finished[|s.finished|].tag == tag && t.finished[|s.finished|].result == Some(c))
      && (c.code != 0 ==> t.finished == s.finished && |t.failed| == |s.failed| + 1 &&
                          t.failed[..|s.failed|] == s.failed &&
                          t.failed[|s.failed|].tag == tag && t.failed[|s.failed|].result == Some(c))
  {
    FinishKeepsSent(s, tag, c);
    var i := FirstIndex(s.running, tag).value;
    RemoveOutcome(s.running, i);
    var done := s.running[i].(result := Some(c));
    var t := s.Finish(tag, c);
    if c.code == 0 {
      assert t.finished == s.finished + [done];
      assert t.finished[..|s.finished|] == s.finished;
    } else {
      assert t.failed == s.failed + [done];
      assert t.failed[..|s.failed|] == s.failed;
    }
  }

  /** With distinct running tags, a tag is no longer running once finished: a second completion is a no-op. */
  lemma FinishTwiceIsNoop(s: RequestState, tag: Tag, c: Completion, again: Completion)
    requires s.Valid()
    ensures !s.Finish(tag, c).IsRunning(tag)
    ensures s.Finish(tag, c).Finish(tag, again) == s.Finish(tag, c)
  {
    var t := s.Finish(tag, c);
    if s.IsRunning(tag) {
      var i := FirstIndex(s.running, tag).value;
      RemoveOutcome(s.running, i);
      forall j | 0 <= j < |t.running| ensures t.running[j].tag != tag {
        assert t.running[j] == s.running[if j < i then j else j + 1];
      }
    }
  }

  /** Removing one outcome from running keeps the others, in order, and keeps their tags distinct. */
  lemma RemoveOutcome(r: seq<Outcome>, i: nat)
    requires i < |r|
    ensures var rest := r[..i] + r[i + 1..];
      && |rest| + 1 == |r|
      && (forall j :: 0 <= j < |rest| ==> rest[j] == r[if j < i then j else j + 1])
      && (forall o :: o in rest ==> o in r)
      && (TagsDistinct(r) ==> TagsDistinct(rest))
  {
    var rest := r[..i] + r[i + 1..];
    assert forall j :: 0 <= j < |rest| ==> rest[j] == r[if j < i then j else j + 1];
    forall o | o in rest ensures o in r {
      var j :| 0 <= j < |rest| && rest[j] == o;
    }
    if TagsDistinct(r) {
      forall j, k | 0 <= j < k < |rest| ensures rest[j].tag != rest[k].tag {
        assert rest[j] == r[if j < i then j else j + 1];
        assert rest[k] == r[if k < i then k else k + 1];
      }
    }
  }

  /** finish keeps the invariant. */
  lemma FinishValid(s: RequestState, tag: Tag, c: Completion)
    requires s.Valid()
    ensures s.Finish(tag, c).Valid()
  {
    if s.IsRunning(tag) {
      var i := FirstIndex(s.running, tag).value;
      RemoveOutcome(s.running, i);
      assert s.running[i] in s.running;
    }
  }

  /**
   * next does nothing when no stage waits; otherwise it removes exactly the first
   * waiting stage and appends its outcomes to running. Finished and failed do not
   * change, and the commands still to complete (running, then waiting) stay the same.
   */
  lemma NextSpec(s: RequestState)
    ensures s.waiting == [] ==> s.Next() == s
    ensures var t := s.Next();
      && t.uuid == s.uuid && t.finished == s.finished && t.failed == s.failed
      && t.running[..|s.running|] == s.running
      && Payloads(t.running) + Flatten(t.waiting) == Payloads(s.running) + Flatten(s.waiting)
      && (s.waiting != [] ==> t.waiting == s.waiting[1..] && Payloads(t.running[|s.running|..]) == s.waiting[0])
  {
    if s.waiting != [] {
      var t := s.Next();
      DispatchTags(s.waiting[0], s.uuid);
      SentAppend(s.running, Dispatch(s.waiting[0], s.uuid));
      assert t.running[|s.running|..] == Dispatch(s.waiting[0], s.uuid);
    }
  }

  /** next keeps the invariant when it is called on a drained request, as _notify does. */
  lemma NextValid(s: RequestState)
    requires s.Valid() && s.running == []
    ensures s.Next().Valid()
  {
    if s.waiting != [] {
      DispatchTags(s.waiting[0], s.uuid);
      assert s.Next().running == Dispatch(s.waiting[0], s.uuid);
    }
  }

  /** A completion routed to the request that runs the tag keeps the invariant. */
  lemma OnCompletionValid(s: RequestState, tag: Tag, c: Completion)
    requires s.Valid()
    ensures s.OnCompletion(tag, c).Valid()
  {
    FinishValid(s, tag, c);
    if s.Finish(tag, c).IsReady() {
      NextValid(s.Finish(tag, c));
    }
  }

  /**
   * Stage order: a completion dispatches the next stage exactly when the completed
   * command was the last one running and a stage waits.
   */
  lemma AdvancesOnlyWhenDrained(s: RequestState, tag: Tag, c: Completion)
    requires s.Valid() && s.IsRunning(tag)
    ensures s.OnCompletion(tag, c).waiting != s.waiting <==> |s.running| == 1 && s.waiting != []
    ensures |s.running| > 1 ==> s.OnCompletion(tag, c) == s.Finish(tag, c)
  {
    FinishMovesOne(s, tag, c);
  }

  /** Outcomes never move back: finished and failed only grow, and a failure is never forgotten. */
  lemma CompletionOnlyAppends(s: RequestState, tag: Tag, c: Completion)
    ensures var t := s.OnCompletion(tag, c);
      && |s.finished| <= |t.finished| && t.finished[..|s.finished|] == s.finished
      && |s.failed| <= |t.failed| && t.failed[..|s.failed|] == s.failed
    ensures s.HasFailed() ==> s.OnCompletion(tag, c).HasFailed()
    ensures s.IsRunning(tag) && c.code != 0 ==> s.OnCompletion(tag, c).HasFailed()
    ensures s.IsRunning(tag) && c.code == 0 ==> s.OnCompletion(tag, c).failed == s.failed
  {
    if s.IsRunning(tag) {
      FinishMovesOne(s, tag, c);
    }
  }

  // ------------------------------------------------------ progress and stalls

  /** The number of commands still to complete: running ones plus waiting ones. */
  function Work(s: RequestState): nat {
    |s.running| + |Flatten(s.waiting)|
  }

  /**
   * A request that can progress: it runs something or has nothing left, and no
   * waiting stage is empty except the last, which next() pops as the request ends.
   */
  ghost predicate Live(s: RequestState) {
    && (s.running != [] || s.waiting == [])
    && forall k :: 0 <= k < |s.waiting| - 1 ==> s.waiting[k] != []
  }

  lemma {:induction false} FlattenEmpty(stages: seq<Stage>)
    requires forall k :: 0 <= k < |stages| ==> stages[k] != []
    ensures Flatten(stages) == [] <==> stages == []
  {
  }

  /** Each routed completion completes one command and keeps a live request live. */
  lemma CompletionProgress(s: RequestState, tag: Tag, c: Completion)
    requires s.Valid() && Live(s) && s.IsRunning(tag)
    ensures Live(s.OnCompletion(tag, c))
    ensures Work(s.OnCompletion(tag, c)) + 1 == Work(s)
  {
    FinishMovesOne(s, tag, c);
    var t := s.Finish(tag, c);
    if t.IsReady() {
      NextSpec(t);
      DispatchTags(t.waiting[0], t.uuid);
      assert |t.Next().running| == |t.waiting[0]|;
      assert Flatten(t.waiting) == t.waiting[0] + Flatten(t.waiting[1..]);
    }
  }

  /** Every completion in the list is for a tag that is running when it arrives. */
  ghost predicate Accepted(s: RequestState, events: seq<(Tag, Completion)>)
    decreases |events|
  {
    events == [] ||
    (s.IsRunning(events[0].0) && Accepted(s.OnCompletion(events[0].0, events[0].1), events[1..]))
  }

  /** The request after the completions, in order. */
  function Replay(s: RequestState, events: seq<(Tag, Completion)>): RequestState
    decreases |events|
  {
    if events == [] then s else Replay(s.OnCompletion(events[0].0, events[0].1), events[1..])
  }

  /**
   * On a live request, any order of completions for running tags completes one
   * command each and keeps the request valid and live; once every command has
   * completed the request is finished.
   */
  lemma {:induction false} ReplayProgress(s: RequestState, events: seq<(Tag, Completion)>)
    requires s.Valid() && Live(s) && Accepted(s, events)
    decreases |events|
    ensures var t := Replay(s, events);
      && t.Valid() && Live(t)
      && Work(t) + |events| == Work(s)
      && (|events| == Work(s) ==> t.IsFinished())
  {
    if events != [] {
      var (tag, c) := events[0];
      CompletionProgress(s, tag, c);
      OnCompletionValid(s, tag, c);
      ReplayProgress(s.OnCompletion(tag, c), events[1..]);
    } else if Work(s) == 0 {
      FlattenEmpty(s.waiting);
    }
  }

  /** A completion with a nonzero code leaves the request failed for good. */
  lemma {:induction false} ReplayFailure(s: RequestState, events: seq<(Tag, Completion)>)
    requires Accepted(s, events)
    decreases |events|
    ensures (exists k :: 0 <= k < |events| && events[k].1.code != 0) ==> Replay(s, events).HasFailed()
  {
    if exists k :: 0 <= k < |events| && events[k].1.code != 0 {
      var (tag, c) := events[0];
      var s' := s.OnCompletion(tag, c);
      CompletionOnlyAppends(s, tag, c);
      var k :| 0 <= k < |events| && events[k].1.code != 0;
      if k > 0 {
        assert events[1..][k - 1].1.code != 0;
        ReplayFailure(s', events[1..]);
      } else {
        ReplayKeepsFailure(s', events[1..]);
      }
    }
  }

  /** With only zero codes, a request that had not failed still has not. */
  lemma {:induction false} ReplaySuccess(s: RequestState, events: seq<(Tag, Completion)>)
    requires Accepted(s, events)
    requires s.failed == [] && forall k :: 0 <= k < |events| ==> events[k].1.code == 0
    decreases |events|
    ensures Replay(s, events).failed == []
  {
    if events != [] {
      var (tag, c) := events[0];
      CompletionOnlyAppends(s, tag, c);
      assert forall k :: 0 <= k < |events[1..]| ==> events[1..][k] == events[k + 1];
      ReplaySuccess(s.OnCompletion(tag, c), events[1..]);
    }
  }

  /**
   * Once every command of a live request has completed, its state is "success"
   * when every code was 0 and "failed" when some code was not.
   */
  lemma ReplayCompletes(s: RequestState, events: seq<(Tag, Completion)>)
    requires s.Valid() && Live(s) && Accepted(s, events) && |events| == Work(s)
    ensures s.failed == [] && (forall k :: 0 <= k < |events| ==> events[k].1.code == 0)
      ==> Replay(s, events).GetState() == "success"
    ensures (exists k :: 0 <= k < |events| && events[k].1.code != 0)
      ==> Replay(s, events).GetState() == "failed"
  {
    ReplayProgress(s, events);
    ReplayFailure(s, events);
    if s.failed == [] && forall k :: 0 <= k < |events| ==> events[k].1.code == 0 {
      ReplaySuccess(s, events);
    }
  }

  lemma {:induction false} ReplayKeepsFailure(s: RequestState, events: seq<(Tag, Completion)>)
    requires s.HasFailed()
    ensures Replay(s, events).HasFailed()
    decreases |events|
  {
    if events != [] {
      CompletionOnlyAppends(s, events[0].0, events[0].1);
      ReplayKeepsFailure(s.OnCompletion(events[0].0, events[0].1), events[1..]);
    }
  }

  /** A pipeline whose stages are non-empty, except perhaps the last, starts live. */
  lemma StartLive(id: nat, pipeline: Pipeline)
    requires forall k :: 0 <= k < |pipeline| - 1 ==> pipeline[k] != []
    ensures Live(Start(id, pipeline))
    ensures Work(Start(id, pipeline)) == |Flatten(pipeline)|
  {
    StartSpec(id, pipeline);
    if pipeline != [] {
      SentAppend(Start(id, pipeline).running, []);
      assert |Payloads(Start(id, pipeline).running)| == |Start(id, pipeline).running|;
    }
  }

  /**
   * The stall: an empty stage dispatched while later stages wait leaves nothing
   * running, so no completion can reach the request and it stays "pending".
   */
  lemma EmptyStageStalls(id: nat, rest: Pipeline, s: RequestState, tag: Tag, c: Completion)
    requires rest != []
    requires |s.running| == 1 && s.running[0].tag == tag
    requires |s.waiting| >= 2 && s.waiting[0] == []
    ensures var first := Start(id, [[]] + rest);
      first.IsReady() && first.GetState() == "pending" && forall t :: !first.IsRunning(t)
    ensures var after := s.OnCompletion(tag, c);
      after.IsReady() && after.GetState() == "pending" && forall t :: !after.IsRunning(t)
  {
    var t := s.Finish(tag, c);
    assert FirstIndex(s.running, tag) == Some(0);
    assert t.running == [] && t.waiting == s.waiting;
    assert t.Next().running == [] && t.Next().waiting == s.waiting[1..];
  }

  /** A two-stage pipeline [[A], [B, C]] with A and B succeeding and C failing. */
  lemma ThreeCommandScenario(id: nat, a: Command, b: Command, c: Command)
    ensures var ok, bad := Completion(0, "", ""), Completion(1, "", "");
      var s0 := Start(id, [[a], [b, c]]);
      var s1 := s0.OnCompletion(Tag(id, 0), ok);
      var s2 := s1.OnCompletion(Tag(id, 0), ok);
      var s3 := s2.OnCompletion(Tag(id, 1), bad);
      && Payloads(s0.running) == [a] && s0.waiting == [[b, c]]
      && Payloads(s1.running) == [b, c] && s1.waiting == [] && Payloads(s1.finished) == [a]
      && Payloads(s3.finished) == [a, b] && Payloads(s3.failed) == [c]
      && s3.GetState() == "failed"
  {
    var ok, bad := Completion(0, "", ""), Completion(1, "", "");
    var oa, ob, oc := Pending(id, 0, a), Pending(id, 0, b), Pending(id, 1, c);
    var s0 := Start(id, [[a], [b, c]]);
    assert s0 == RequestState(id, [oa], [[b, c]], [], []);
    var s1 := ScenarioFirst(id, oa, [b, c], ok);
    var s2 := ScenarioSecond(id, ob, oc, [oa.(result := Some(ok))], ok);
    var s3 := ScenarioThird(id, oc, s2.finished, bad);
  }

  /** The outcome dispatched for a command at a position, before its completion. */
  function Pending(id: nat, index: nat, cmd: Command): Outcome {
    Outcome(Tag(id, index), Description(cmd), cmd, None)
  }

  /** The only running command of the first stage completes: the two-command stage is dispatched. */
  lemma ScenarioFirst(id: nat, oa: Outcome, stage: Stage, ok: Completion) returns (s1: RequestState)
    requires oa.tag == Tag(id, 0) && |stage| == 2 && ok.code == 0
    ensures s1 == RequestState(id, [oa], [stage], [], []).OnCompletion(Tag(id, 0), ok)
    ensures s1 == RequestState(id, [Pending(id, 0, stage[0]), Pending(id, 1, stage[1])], [], [oa.(result := Some(ok))], [])
  {
    var s0 := RequestState(id, [oa], [stage], [], []);
    assert FirstIndex(s0.running, Tag(id, 0)) == Some(0);
    s1 := s0.OnCompletion(Tag(id, 0), ok);
  }

  /** The first command of two completes: the second keeps running. */
  lemma ScenarioSecond(id: nat, ob: Outcome, oc: Outcome, finished: seq<Outcome>, ok: Completion) returns (s2: RequestState)
    requires ob.tag == Tag(id, 0) && ok.code == 0
    ensures s2 == RequestState(id, [ob, oc], [], finished, []).OnCompletion(Tag(id, 0), ok)
    ensures s2 == RequestState(id, [oc], [], finished + [ob.(result := Some(ok))], [])
  {
    var s1 := RequestState(id, [ob, oc], [], finished, []);
    assert FirstIndex(s1.running, Tag(id, 0)) == Some(0);
    s2 := s1.OnCompletion(Tag(id, 0), ok);
  }

  /** The last command fails: the request is finished and failed. */
  lemma ScenarioThird(id: nat, oc: Outcome, finished: seq<Outcome>, bad: Completion) returns (s3: RequestState)
    requires oc.tag == Tag(id, 1) && bad.code != 0
    ensures s3 == RequestState(id, [oc], [], finished, []).OnCompletion(Tag(id, 1), bad)
    ensures s3 == RequestState(id, [], [], finished, [oc.(result := Some(bad))])
  {
    var s2 := RequestState(id, [oc], [], finished, []);
    assert FirstIndex(s2.running, Tag(id, 1)) == Some(0);
    s3 := s2.OnCompletion(Tag(id, 1), bad);
  }

  // ------------------------------------------------------------- the class

  /** A CommandsRequest: the request's contents, updated in place. */
  class CommandsRequest {
    const uuid: nat
    var running: seq<Outcome>
    var waiting: seq<Stage>
    var finished: seq<Outcome>
    var failed: seq<Outcome>

    function State(): RequestState
      reads this
    {
      RequestState(uuid, running, waiting, finished, failed)
    }

    /** run(commands, uuid): dispatch a stage, one outcome per command, tagged by position. */
    static method Run(commands: Stage, uuid: nat) returns (results: seq<Outcome>)
      ensures results == Dispatch(commands, uuid)
      ensures TagsDistinct(results) && Payloads(results) == commands
    {
      results := [];
      for index := 0 to |commands|
        invariant results == Dispatch(commands[..index], uuid)
      {
        var tag := Tag(uuid, index);
        var description := Humanify(commands[index]);
        results := results + [Outcome(tag, description, commands[index], None)];
        assert commands[..index + 1][..index] == commands[..index];
      }
      assert commands[..|commands|] == commands;
      DispatchTags(commands, uuid);
    }

    /** CommandsRequest(commands_arrays), with the id the registry hands out. */
    constructor (id: nat, pipeline: Pipeline)
      ensures State() == Start(id, pipeline)
    {
      uuid := id;
      running := [];
      waiting := if |pipeline| == 0 then [] else pipeline[1..];
      finished := [];
      failed := [];
      new;
      if |pipeline| == 0 {
        return;
      }
      var results := Run(pipeline[0], uuid);
      running := running + results;
    }

    /** next() */
    method Next()
      modifies this
      ensures State() == old(State()).Next()
    {
      if waiting == [] {
        return;
      }
      var commands := waiting[0];
      waiting := waiting[1..];
      var results := Run(commands, uuid);
      running := running + results;
    }

    /** finish(tag), with the completion the monitor recorded for the tag. */
    method Finish(tag: Tag, c: Completion) returns (found: bool)
      modifies this
      ensures found == old(State()).IsRunning(tag)
      ensures State() == old(State()).Finish(tag, c)
    {
      var index := 0;
      while index < |running|
        invariant 0 <= index <= |running|
        invariant State() == old(State())
        invariant forall j :: 0 <= j < index ==> running[j].tag != tag
      {
        if running[index].tag == tag {
          var done := running[index].(result := Some(c));
          if c.code == 0 {
            finished := finished + [done];
          } else {
            failed := failed + [done];
          }
          running := running[..index] + running[index + 1..];
          return true;
        }
        index := index + 1;
      }
      return false;
    }

    /** is_running(tag) */
    method IsRunning(tag: Tag) returns (found: bool)
      ensures found == State().IsRunning(tag)
    {
      for i := 0 to |running|
        invariant forall j :: 0 <= j < i ==> running[j].tag != tag
      {
        if running[i].tag == tag {
          return true;
        }
      }
      return false;
    }
  }
}
