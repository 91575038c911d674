/**
 * Tags that are never reused within a request. `run` numbers the commands of every
 * stage from 0, so the tag "<id>:0" names the first command of each stage in turn.
 * Once a stage has drained, a second completion for one of its tags is taken by the
 * command of the next stage that reuses the tag. The corrected dispatch below
 * continues the numbering across stages, so a consumed tag never runs again and a
 * second delivery of it is a no-op.
 */
module UniqueTags {
  import opened Wrappers
  import opened Common
  import opened Requests

  // ---------------------------------------------------------------- as written

  /**
   * As written: after the first stage of [[a], [b]] drains, its tag "<id>:0" is
   * running again (for b), and a second completion for it finishes b, which never
   * completed, and reports "success".
   */
  lemma StaleTagTakenByNextStage(id: nat, a: Command, b: Command, ok: Completion)
    requires ok.code == 0
    ensures var s1 := Start(id, [[a], [b]]).OnCompletion(Tag(id, 0), ok);
      var s2 := s1.OnCompletion(Tag(id, 0), ok);
      && s1.IsRunning(Tag(id, 0)) && s1.GetState() == "pending"
      && s2 != s1 && Payloads(s2.finished) == [a, b] && s2.GetState() == "success"
  {
    var s0 := Start(id, [[a], [b]]);
    var oa, ob := Outcome(Tag(id, 0), Description(a), a, None), Outcome(Tag(id, 0), Description(b), b, None);
    assert s0 == RequestState(id, [oa], [[b]], [], []);
    var s1 := s0.OnCompletion(Tag(id, 0), ok);
    assert FirstIndex(s0.running, Tag(id, 0)) == Some(0);
    assert s1 == RequestState(id, [ob], [], [oa.(result := Some(ok))], []);
    assert s1.running[0].tag == Tag(id, 0);
    assert FirstIndex(s1.running, Tag(id, 0)) == Some(0);
    var s2 := s1.OnCompletion(Tag(id, 0), ok);
    assert s2 == RequestState(id, [], [], [oa.(result := Some(ok)), ob.(result := Some(ok))], []);
  }

  // ----------------------------------------------------------------- corrected

  /** The outcomes dispatched for a stage, numbered on from base. */
  function DispatchFrom(stage: Stage, id: nat, base: nat): seq<Outcome> {
    seq(|stage|, i requires 0 <= i < |stage| => Outcome(Tag(id, base + i), Description(stage[i]), stage[i], None))
  }

  /** The number of commands the request has dispatched so far. */
  function Issued(s: RequestState): nat {
    |s.running| + |s.finished| + |s.failed|
  }

  /** CommandsRequest(pipeline) with the corrected numbering. */
  function StartUnique(id: nat, pipeline: Pipeline): RequestState {
    RequestState(
      id,
      if |pipeline| == 0 then [] else DispatchFrom(pipeline[0], id, 0),
      if |pipeline| == 0 then [] else pipeline[1..],
      [], [])
  }

  /** next() with the corrected numbering: the stage's tags continue after every tag issued so far. */
  function NextUnique(s: RequestState): RequestState {
    if s.waiting == [] then s
    else s.(running := s.running + DispatchFrom(s.waiting[0], s.uuid, Issued(s)), waiting := s.waiting[1..])
  }

  /** What _notify does to the request, with the corrected numbering. */
  function OnCompletionUnique(s: RequestState, tag: Tag, c: Completion): RequestState {
    var t := s.Finish(tag, c);
    if t.IsReady() then NextUnique(t) else t
  }

  /** A sequence of completions delivered to the request, whether or not it runs their tags. */
  function ReplayUnique(s: RequestState, events: seq<(Tag, Completion)>): RequestState
    decreases |events|
  {
    if events == [] then s else ReplayUnique(OnCompletionUnique(s, events[0].0, events[0].1), events[1..])
  }

  /** The running tags are pairwise distinct and numbered below the count of issued commands. */
  ghost predicate NumberedBelow(s: RequestState) {
    && TagsDistinct(s.running)
    && forall o :: o in s.running ==> o.tag.index < Issued(s)
  }

  /** A tag that has been issued and is no longer running. */
  ghost predicate Consumed(s: RequestState, tag: Tag) {
    tag.index < Issued(s) && !s.IsRunning(tag)
  }

  /** The numbered outcomes of a stage: distinct tags, each in [base, base + |stage|). */
  lemma DispatchFromTags(stage: Stage, id: nat, base: nat)
    ensures |DispatchFrom(stage, id, base)| == |stage|
    ensures TagsDistinct(DispatchFrom(stage, id, base))
    ensures forall o :: o in DispatchFrom(stage, id, base) ==> base <= o.tag.index < base + |stage|
    ensures Payloads(DispatchFrom(stage, id, base)) == stage
  {
    var os := DispatchFrom(stage, id, base);
    forall o | o in os ensures base <= o.tag.index < base + |stage| {
      var i :| 0 <= i < |os| && os[i] == o;
    }
  }

  /** finish only removes running outcomes and keeps the count of issued commands. */
  lemma FinishShrinks(s: RequestState, tag: Tag, c: Completion)
    ensures Issued(s.Finish(tag, c)) == Issued(s)
    ensures forall o :: o in s.Finish(tag, c).running ==> o in s.running
    ensures TagsDistinct(s.running) ==> TagsDistinct(s.Finish(tag, c).running)
    ensures TagsDistinct(s.running) && s.IsRunning(tag) ==> !s.Finish(tag, c).IsRunning(tag)
  {
    if s.IsRunning(tag) {
      var i := FirstIndex(s.running, tag).value;
      RemoveOutcome(s.running, i);
      var t := s.Finish(tag, c);
      if TagsDistinct(s.running) {
        forall j | 0 <= j < |t.running| ensures t.running[j].tag != tag {
          assert t.running[j] == s.running[if j < i then j else j + 1];
        }
      }
    }
  }

  /** The corrected next appends tags above every one issued before and keeps the numbering invariant. */
  lemma NextUniqueSpec(t: RequestState)
    requires NumberedBelow(t)
    ensures NumberedBelow(NextUnique(t))
    ensures Issued(NextUnique(t)) >= Issued(t)
    ensures forall tag :: Consumed(t, tag) ==> Consumed(NextUnique(t), tag)
  {
    if t.waiting != [] {
      var added := DispatchFrom(t.waiting[0], t.uuid, Issued(t));
      DispatchFromTags(t.waiting[0], t.uuid, Issued(t));
      var u := NextUnique(t);
      assert u.running == t.running + added;
      forall a, b | 0 <= a < b < |u.running| ensures u.running[a].tag != u.running[b].tag {
        if b < |t.running| {
        } else if a < |t.running| {
          assert u.running[a] in t.running && u.running[b] in added;
        } else {
          assert u.running[a] == added[a - |t.running|] && u.running[b] == added[b - |t.running|];
        }
      }
      forall tag, j | Consumed(t, tag) && 0 <= j < |u.running| ensures u.running[j].tag != tag {
        if j >= |t.running| {
          assert u.running[j] in added;
        }
      }
    }
  }

  /** Every completion keeps the numbering invariant, and a consumed tag stays consumed. */
  lemma OnCompletionUniqueSpec(s: RequestState, tag: Tag, c: Completion)
    requires NumberedBelow(s)
    ensures NumberedBelow(OnCompletionUnique(s, tag, c))
    ensures forall stale :: Consumed(s, stale) ==> Consumed(OnCompletionUnique(s, tag, c), stale)
  {
    FinishShrinks(s, tag, c);
    NextUniqueSpec(s.Finish(tag, c));
  }

  /** A new request with the corrected numbering meets the invariant. */
  lemma StartUniqueSpec(id: nat, pipeline: Pipeline)
    ensures NumberedBelow(StartUnique(id, pipeline))
    ensures pipeline != [] ==> Payloads(StartUnique(id, pipeline).running) == pipeline[0]
    ensures StartUnique(id, pipeline).waiting == Start(id, pipeline).waiting
  {
    if pipeline != [] {
      DispatchFromTags(pipeline[0], id, 0);
    }
  }

  /** Consumed tags stay consumed over any sequence of later completions. */
  lemma {:induction false} ReplayKeepsConsumed(s: RequestState, events: seq<(Tag, Completion)>, stale: Tag)
    requires NumberedBelow(s) && Consumed(s, stale)
    decreases |events|
    ensures NumberedBelow(ReplayUnique(s, events)) && Consumed(ReplayUnique(s, events), stale)
  {
    if events != [] {
      OnCompletionUniqueSpec(s, events[0].0, events[0].1);
      ReplayKeepsConsumed(OnCompletionUnique(s, events[0].0, events[0].1), events[1..], stale);
    }
  }

  /**
   * With the corrected numbering, once a completion for a running tag has been taken,
   * the tag never runs again, whatever completions follow: a second delivery of it
   * changes nothing.
   */
  lemma CompletedTagNeverReturns(s: RequestState, tag: Tag, c: Completion, events: seq<(Tag, Completion)>, again: Completion)
    requires NumberedBelow(s) && s.IsRunning(tag)
    ensures var t := ReplayUnique(OnCompletionUnique(s, tag, c), events);
      !t.IsRunning(tag) && t.Finish(tag, again) == t
  {
    var i :| 0 <= i < |s.running| && s.running[i].tag == tag;
    assert s.running[i] in s.running;
    FinishShrinks(s, tag, c);
    assert Consumed(s.Finish(tag, c), tag);
    NextUniqueSpec(s.Finish(tag, c));
    OnCompletionUniqueSpec(s, tag, c);
    ReplayKeepsConsumed(OnCompletionUnique(s, tag, c), events, tag);
    FinishUnknownTag(ReplayUnique(OnCompletionUnique(s, tag, c), events), tag, again);
  }

  /** The corrected request [[a], [b]]: the second delivery of "<id>:0" is a no-op and b still runs. */
  lemma UniqueTwoStageRequest(id: nat, a: Command, b: Command, ok: Completion)
    requires ok.code == 0
    ensures var s1 := OnCompletionUnique(StartUnique(id, [[a], [b]]), Tag(id, 0), ok);
      && !s1.IsRunning(Tag(id, 0)) && s1.IsRunning(Tag(id, 1))
      && OnCompletionUnique(s1, Tag(id, 0), ok) == s1 && s1.GetState() == "pending"
  {
    var s0 := StartUnique(id, [[a], [b]]);
    var oa, ob := Outcome(Tag(id, 0), Description(a), a, None), Outcome(Tag(id, 1), Description(b), b, None);
    assert s0 == RequestState(id, [oa], [[b]], [], []);
    assert FirstIndex(s0.running, Tag(id, 0)) == Some(0);
    var s1 := OnCompletionUnique(s0, Tag(id, 0), ok);
    assert s1 == RequestState(id, [ob], [], [oa.(result := Some(ok))], []);
    assert s1.running[0].tag == Tag(id, 1);
    assert FirstIndex(s1.running, Tag(id, 0)) == None;
  }
}
