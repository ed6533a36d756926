/** A message that nothing speaks against gets published: whatever validators are registered, there is a run in
  * which they agree one after the other, and at its end the message is out.
  */
module PipelineProgress {

  import opened MessageCache
  import opened Options
  import opened Validation
  import opened Pipeline
  import opened PipelineSafety
  import Sizes

  /** All answers so far are good, and every async validator before the one to be started next is at work, or its
    * answer is waiting, or received. */
  ghost predicate Agreeing(w: Work) {
    && StageOk(w) && Rank(w) > 0
    && (forall k | k in w.verdicts :: w.verdicts[k])
    && (w.stage.Spawning? || w.stage.Collecting? ==>
          forall k | k in Below(w.job, Started(w), false) :: k in w.running || k in w.results || k in w.collected)
  }

  function Started(w: Work): nat {
    if w.stage.Spawning? then w.stage.next else |w.job.vals|
  }

  /** How far from being approved. */
  function Rank(w: Work): nat {
    match w.stage
    case Inlining(_) => 4
    case Spawning(_) => 3
    case Collecting(_) => 2
    case Alone => 2
    case Approved => 1
    case _ => 0
  }

  function Rest(w: Work): nat {
    match w.stage
    case Inlining(n) => if n <= |w.job.vals| then |w.job.vals| - n else 0
    case Spawning(n) => if n <= |w.job.vals| then |w.job.vals| - n else 0
    case Collecting(_) => 2 * |w.running| + |w.results|
    case _ => 0
  }

  /** A step by which no one refuses. */
  predicate IsGood(step: WorkStep) {
    match step
    case Refused => false
    case MarkSeen => false
    case InlineAnswer(answer) => answer
    case AloneAnswer(_, answer) => answer
    case AsyncAnswer(_, answer) => answer
    case _ => true
  }

  ghost predicate Advances(c: Config, w: Work, step: WorkStep, w': Work) {
    && WorkNext(c, w, step, w') && IsGood(step) && w'.job == w.job && Agreeing(w')
    && (Rank(w') < Rank(w) || (Rank(w') == Rank(w) && Rest(w') < Rest(w)))
  }

  // ----- one step, from each stage -----

  lemma {:induction false} DoneAdvances(w: Work, w': Work)
    requires Agreeing(w) && w.stage == Inlining(|w.job.vals|) && StageOk(w')
    requires w' == w.(stage := if |AsyncOf(w.job)| == 0 then Approved
                               else if |AsyncOf(w.job)| == 1 then Alone
                               else Spawning(0))
    ensures Agreeing(w') && Rank(w') < Rank(w)
  {
    BelowSplits(w.job);
    hide StageOk, Below, AsyncOf;
  }

  /** One more inline validator is behind. */
  lemma {:induction false} InlineAdvances(w: Work, w': Work)
    requires Agreeing(w) && w.stage.Inlining? && w.stage.next < |w.job.vals| && StageOk(w')
    requires w'.stage == Inlining(w.stage.next + 1) && w'.job == w.job
    requires w'.verdicts == w.verdicts || w'.verdicts == w.verdicts[w.stage.next := true]
    ensures Agreeing(w') && Rest(w') < Rest(w)
  {
    hide StageOk, Below;
  }

  lemma {:induction false} FromInlining(c: Config, w: Work) returns (step: WorkStep, w': Work)
    requires Agreeing(w) && w.stage.Inlining?
    ensures Advances(c, w, step, w')
  {
    hide StageOk, Below, Agreeing, AsyncOf;
    AgreeingOk(w);
    InlinedBound(w);
    var n := w.stage.next;
    if n == |w.job.vals| {
      step := InlineDone;
      w' := w.(stage := if |AsyncOf(w.job)| == 0 then Approved
                        else if |AsyncOf(w.job)| == 1 then Alone
                        else Spawning(0));
      InlineDoneKeeps(c, w, w');
      DoneAdvances(w, w');
    } else if w.job.vals[n].inline {
      step := InlineAnswer(true);
      w' := w.(stage := Inlining(n + 1), verdicts := w.verdicts[n := true]);
      InlineAnswerKeeps(c, w, true, w');
      InlineAdvances(w, w');
    } else {
      step := SkipAsync;
      w' := w.(stage := Inlining(n + 1));
      SkipAsyncKeeps(c, w, w');
      InlineAdvances(w, w');
    }
  }

  lemma {:induction false} InlinedBound(w: Work)
    requires Agreeing(w) && w.stage.Inlining?
    ensures w.stage.next <= |w.job.vals|
  {
  }

  lemma {:induction false} FromAlone(c: Config, w: Work) returns (step: WorkStep, w': Work)
    requires Agreeing(w) && w.stage.Alone?
    ensures Advances(c, w, step, w')
  {
    assert AsyncOf(w.job) != {};
    var k :| k in AsyncOf(w.job);
    step, w' := AloneAnswer(k, true), w.(stage := Approved, verdicts := w.verdicts[k := true]);
    AloneKeeps(c, w, k, true, w');
  }

  lemma {:induction false} SpawnAdvances(w: Work, w': Work)
    requires Agreeing(w) && w.stage.Spawning? && w.stage.next in AsyncOf(w.job) && StageOk(w')
    requires w' == w.(stage := Spawning(w.stage.next + 1), running := w.running + {w.stage.next})
    ensures Agreeing(w') && Rest(w') < Rest(w)
  {
    OneMoreBelow(w.job, w.stage.next, false);
    hide StageOk, Below;
  }

  lemma {:induction false} SkipAdvances(w: Work, w': Work)
    requires Agreeing(w) && w.stage.Spawning? && w.stage.next < |w.job.vals| && w.job.vals[w.stage.next].inline
    requires StageOk(w') && w' == w.(stage := Spawning(w.stage.next + 1))
    ensures Agreeing(w') && Rest(w') < Rest(w)
  {
    OneMoreBelow(w.job, w.stage.next, false);
    hide StageOk, Below;
  }

  lemma {:induction false} SpawnedBound(w: Work)
    requires Agreeing(w) && w.stage.Spawning?
    ensures w.stage.next <= |w.job.vals|
  {
  }

  lemma {:induction false} FromSpawning(c: Config, w: Work) returns (step: WorkStep, w': Work)
    requires Agreeing(w) && w.stage.Spawning?
    ensures Advances(c, w, step, w')
  {
    hide StageOk, Below, Agreeing;
    SpawnedBound(w);
    AgreeingOk(w);
    var n := w.stage.next;
    if n == |w.job.vals| {
      step, w' := AllSpawned, w.(stage := Collecting(0));
      AllSpawnedKeeps(c, w, w');
      SpawnedAll(w, w');
    } else if w.job.vals[n].inline {
      step, w' := SkipInline, w.(stage := Spawning(n + 1));
      SkipInlineKeeps(c, w, w');
      SkipAdvances(w, w');
    } else {
      step, w' := Spawn, w.(stage := Spawning(n + 1), running := w.running + {n});
      SpawnKeeps(c, w, w');
      SpawnAdvances(w, w');
    }
  }

  lemma {:induction false} AgreeingOk(w: Work)
    requires Agreeing(w)
    ensures StageOk(w)
  {
  }

  lemma {:induction false} SpawnedAll(w: Work, w': Work)
    requires Agreeing(w) && w.stage == Spawning(|w.job.vals|) && StageOk(w') && w' == w.(stage := Collecting(0))
    ensures Agreeing(w')
  {
    hide StageOk, Below;
  }

  lemma {:induction false} FromCollecting(c: Config, w: Work) returns (step: WorkStep, w': Work)
    requires Agreeing(w) && w.stage.Collecting?
    ensures Advances(c, w, step, w')
  {
    hide StageOk, Below, Agreeing, AsyncOf;
    AgreeingOk(w);
    if w.running != {} {
      var k :| k in w.running;
      step := AsyncAnswer(k, true);
      w' := w.(running := w.running - {k}, verdicts := w.verdicts[k := true], results := w.results + [k]);
      AnswerKeeps(c, w, k, true, w');
      AnswerAdvances(w, k, w');
    } else if w.results != [] {
      step, w' := FromResults(c, w);
    } else {
      AllIn(w);
      step, w' := AllCollected, w.(stage := Approved);
      CollectKeeps(c, w, step, w');
      ApprovedAgrees(w, w');
    }
  }

  lemma {:induction false} ApprovedAgrees(w: Work, w': Work)
    requires Agreeing(w) && StageOk(w') && w' == w.(stage := Approved)
    ensures Agreeing(w')
  {
    hide StageOk, Below;
  }

  lemma {:induction false} FromResults(c: Config, w: Work) returns (step: WorkStep, w': Work)
    requires Agreeing(w) && w.stage.Collecting? && w.results != []
    ensures Advances(c, w, step, w')
  {
    hide StageOk, Below, Agreeing, AsyncOf;
    AgreeingOk(w);
    step := Collect;
    w' := w.(stage := Collecting(w.stage.got + 1), results := w.results[1..],
             collected := w.collected + {w.results[0]});
    FewerReceived(w);
    CollectKeeps(c, w, step, w');
    CollectAdvances(w, w');
  }

  lemma {:induction false} AnswerAdvances(w: Work, k: nat, w': Work)
    requires Agreeing(w) && w.stage.Collecting? && k in w.running && StageOk(w')
    requires w' == w.(running := w.running - {k}, verdicts := w.verdicts[k := true], results := w.results + [k])
    ensures Agreeing(w') && Rest(w') < Rest(w)
  {
    hide StageOk, Below;
    Sizes.OfPart({k}, w.running);
    assert k in w'.results;
  }

  /** A good result that waits has not been received, so there are fewer received than there are validators. */
  lemma {:induction false} FewerReceived(w: Work)
    requires Agreeing(w) && w.stage.Collecting? && w.results != []
    ensures w.results[0] in w.verdicts && w.verdicts[w.results[0]] && w.stage.got < |AsyncOf(w.job)|
  {
    BelowSplits(w.job);
    hide Below, AsyncOf;
    var k := w.results[0];
    assert k in w.results;
    Sizes.OfPart(w.collected + {k}, AsyncOf(w.job));
  }

  lemma {:induction false} CollectAdvances(w: Work, w': Work)
    requires Agreeing(w) && w.stage.Collecting? && w.results != [] && StageOk(w')
    requires w' == w.(stage := Collecting(w.stage.got + 1), results := w.results[1..],
                      collected := w.collected + {w.results[0]})
    ensures Agreeing(w') && Rest(w') < Rest(w)
  {
    hide StageOk, Below;
    forall k | k in Below(w.job, Started(w'), false) ensures k in w'.running || k in w'.results || k in w'.collected {
      if k in w.results && k != w.results[0] {
        var i :| 0 <= i < |w.results| && w.results[i] == k;
        assert w.results[1..][i - 1] == k;
      }
    }
  }

  lemma {:induction false} AllIn(w: Work)
    requires Agreeing(w) && w.stage.Collecting? && w.running == {} && w.results == []
    ensures w.stage.got == |AsyncOf(w.job)|
  {
    BelowSplits(w.job);
    hide Below, AsyncOf, Agreed;
    assert w.collected == AsyncOf(w.job);
  }

  lemma {:induction false} Onward(c: Config, w: Work) returns (step: WorkStep, w': Work)
    requires Agreeing(w) && !w.stage.Approved?
    ensures Advances(c, w, step, w')
  {
    hide StageOk, Advances, WorkNext;
    match w.stage {
      case Inlining(_) => step, w' := FromInlining(c, w);
      case Alone => step, w' := FromAlone(c, w);
      case Spawning(_) => step, w' := FromSpawning(c, w);
      case Collecting(_) => step, w' := FromCollecting(c, w);
    }
  }

  // ----- runs -----

  /** Events that lead from the first state to the last. */
  ghost predicate IsPath(c: Config, states: seq<State>, events: seq<Event>) {
    |states| == |events| + 1 && forall i | 0 <= i < |events| :: Next(c, states[i], events[i], states[i + 1])
  }

  /** Nothing refuses, neither a validator nor a throttle nor a full queue. */
  predicate AllGood(events: seq<Event>) {
    forall e | e in events :: e != PushRefused && (e.Worked? && e.step != MarkSeen ==> IsGood(e.step))
  }

  lemma {:induction false} PathSnoc(c: Config, states: seq<State>, events: seq<Event>, e: Event, s: State)
    requires IsPath(c, states, events) && AllGood(events) && Next(c, states[|events|], e, s)
    requires e != PushRefused && (e.Worked? && e.step != MarkSeen ==> IsGood(e.step))
    ensures IsPath(c, states + [s], events + [e]) && AllGood(events + [e])
  {
    hide Next;
  }

  /** The message is being worked on, and nothing else has changed. */
  ghost predicate At(s: State, id: WorkId, now: State, w: Work) {
    now == s.(seen := s.seen + {MsgId(w.job.msg)}, works := s.works[id := w])
  }

  lemma {:induction false} WorkedOn(c: Config, s: State, id: WorkId, now: State, w: Work, step: WorkStep, w': Work)
    requires At(s, id, now, w) && WorkNext(c, w, step, w') && step != MarkSeen && w'.job == w.job
    ensures Next(c, now, Worked(id, step), now.(works := now.works[id := w']))
    ensures At(s, id, now.(works := now.works[id := w']), w')
  {
    hide WorkNext;
  }

  /** From the marking on, until it is approved. */
  lemma {:induction false} GetsApproved(
      c: Config, s: State, id: WorkId, states: seq<State>, events: seq<Event>, w: Work)
    returns (states': seq<State>, events': seq<Event>, w': Work)
    requires IsPath(c, states, events) && AllGood(events) && At(s, id, states[|events|], w) && Agreeing(w)
    ensures IsPath(c, states', events') && AllGood(events') && At(s, id, states'[|events'|], w') && Agreeing(w')
    ensures w'.stage.Approved? && w'.job == w.job && states <= states' && events <= events'
    decreases Rank(w), Rest(w)
  {
    hide IsPath, AllGood, At, Agreeing, WorkNext, Advances;
    if w.stage.Approved? {
      return states, events, w;
    }
    PathLength(c, states, events);
    var step, w1 := Onward(c, w);
    AdvanceMeans(c, w, step, w1);
    var now := states[|events|].(works := states[|events|].works[id := w1]);
    GoodIsNoMark(step);
    WorkedOn(c, s, id, states[|events|], w, step, w1);
    PathSnoc(c, states, events, Worked(id, step), now);
    LastOf(c, states, events, now);
    states', events', w' := GetsApproved(c, s, id, states + [now], events + [Worked(id, step)], w1);
  }

  lemma {:induction false} PathLength(c: Config, states: seq<State>, events: seq<Event>)
    requires IsPath(c, states, events)
    ensures |states| == |events| + 1
  {
  }

  lemma {:induction false} AdvanceMeans(c: Config, w: Work, step: WorkStep, w': Work)
    requires Advances(c, w, step, w')
    ensures WorkNext(c, w, step, w') && IsGood(step) && w'.job == w.job && Agreeing(w')
    ensures Rank(w') < Rank(w) || (Rank(w') == Rank(w) && Rest(w') < Rest(w))
  {
  }

  lemma {:induction false} GoodIsNoMark(step: WorkStep)
    requires IsGood(step)
    ensures step != MarkSeen
  {
  }

  lemma {:induction false} LastOf(c: Config, states: seq<State>, events: seq<Event>, s: State)
    requires IsPath(c, states, events)
    ensures |states| == |events| + 1 && (states + [s])[|events| + 1] == s
  {
  }

  /** What admission asks of a message. */
  predicate IsAdmissible(c: Config, s: State, src: PeerId, msg: Message) {
    && src !in s.blacklist && msg.from !in s.blacklist && MsgId(msg) !in s.seen
    && (c.strict ==> msg.signature.Some?) && (msg.signature.Some? ==> c.verifies(msg))
  }

  /** Until it is marked as seen. */
  lemma {:induction false} Admitted(c: Config, s: State, src: PeerId, msg: Message)
    requires s.loop == Idle && IsAdmissible(c, s, src, msg)
    ensures Next(c, s, Arrived(src, msg), s.(loop := Checked(src, msg)))
  {
  }

  lemma {:induction false} Queues(c: Config, s: State, src: PeerId, msg: Message, id: WorkId, w: Work)
    requires s.loop == Idle && id !in s.works && (ValidatorsFor(s.registry, msg.topics) != [] || msg.signature.Some?)
    requires w == NewWork(Job(src, msg, ValidatorsFor(s.registry, msg.topics)))
    ensures Next(c, s.(loop := Checked(src, msg)), PushedOn(id), s.(works := s.works[id := w]))
  {
    hide ValidatorsFor;
  }

  lemma {:induction false} TakenAndVerified(c: Config, s: State, id: WorkId, w: Work)
    requires w.stage == Queued && (w.job.msg.signature.Some? ==> c.verifies(w.job.msg))
    ensures Next(c, s.(works := s.works[id := w]), Worked(id, Take), s.(works := s.works[id := w.(stage := Received)]))
    ensures Next(c, s.(works := s.works[id := w.(stage := Received)]), Worked(id, CheckSignature),
                 s.(works := s.works[id := w.(stage := Verified)]))
  {
    hide AsyncOf;
  }

  lemma {:induction false} Marked(c: Config, s: State, id: WorkId, w: Work)
    requires MsgId(w.job.msg) !in s.seen
    ensures Next(c, s.(works := s.works[id := w.(stage := Verified)]), Worked(id, MarkSeen),
                 s.(seen := s.seen + {MsgId(w.job.msg)}, works := s.works[id := w.(stage := Inlining(0))]))
  {
  }

  lemma {:induction false} NewAgrees(job: Job)
    ensures Agreeing(NewWork(job).(stage := Inlining(0)))
  {
    NothingBelow(job);
    hide Below;
  }

  lemma {:induction false} GetsMarked(c: Config, s: State, src: PeerId, msg: Message, id: WorkId)
    returns (states: seq<State>, events: seq<Event>, w: Work)
    requires s.loop == Idle && id !in s.works && IsAdmissible(c, s, src, msg)
    requires ValidatorsFor(s.registry, msg.topics) != [] || msg.signature.Some?
    ensures IsPath(c, states, events) && AllGood(events) && At(s, id, states[|events|], w) && Agreeing(w)
    ensures states[0] == s && |events| > 0 && events[0] == Arrived(src, msg)
    ensures w.job == Job(src, msg, ValidatorsFor(s.registry, msg.topics))
  {
    hide ValidatorsFor, Agreeing, Next;
    var job := Job(src, msg, ValidatorsFor(s.registry, msg.topics));
    var w0 := NewWork(job);
    w := w0.(stage := Inlining(0));
    Admitted(c, s, src, msg);
    Queues(c, s, src, msg, id, w0);
    TakenAndVerified(c, s, id, w0);
    Marked(c, s, id, w0);
    NewAgrees(job);
    states := [s, s.(loop := Checked(src, msg)), s.(works := s.works[id := w0]),
               s.(works := s.works[id := w0.(stage := Received)]), s.(works := s.works[id := w0.(stage := Verified)]),
               s.(seen := s.seen + {MsgId(msg)}, works := s.works[id := w])];
    events := [Arrived(src, msg), PushedOn(id), Worked(id, Take), Worked(id, CheckSignature), Worked(id, MarkSeen)];
  }

  lemma {:induction false} NothingBelow(job: Job)
    ensures Below(job, 0, true) == {}
  {
  }

  /** The exact end of it: the message is published, with the agreement of all its validators, and no other. */
  ghost predicate IsOut(s: State, s': State, src: PeerId, msg: Message) {
    && |s'.published| == |s.published| + 1 && s'.published[..|s.published|] == s.published
    && MsgId(msg) in s'.seen && s'.loop == Idle
    && var p := s'.published[|s.published|];
       && p.job == Job(src, msg, ValidatorsFor(s.registry, msg.topics))
       && forall k | 0 <= k < |p.job.vals| :: k in p.verdicts && p.verdicts[k]
  }

  lemma {:induction false} ApprovedGoesOut(c: Config, s: State, id: WorkId, now: State, w: Work)
    returns (s1: State, s2: State)
    requires At(s, id, now, w) && Agreeing(w) && w.stage.Approved? && s.loop == Idle
    requires w.job.vals == ValidatorsFor(s.registry, w.job.msg.topics)
    ensures Next(c, now, Worked(id, Send), s1) && Next(c, s1, Published(id), s2) && IsOut(s, s2, w.job.src, w.job.msg)
  {
    hide ValidatorsFor, Below;
    var w1 := w.(stage := Sending);
    s1 := now.(works := now.works[id := w1]);
    s2 := s1.(works := s1.works[id := w1.(stage := Gone)],
              published := s1.published + [Publication(w.job, w.verdicts)]);
    forall k | 0 <= k < |w.job.vals| ensures k in w.verdicts && w.verdicts[k] {
      AllAre(w.job, k);
    }
  }

  lemma {:induction false} AllAre(job: Job, k: nat)
    requires k < |job.vals|
    ensures k in All(job)
  {
  }

  /** A message that was never seen, from and by peers not blacklisted, signed well if need be: it can always be
    * published, by steps in which its validators agree and nothing is refused. */
  lemma {:induction false} AdmissibleGoesOut(c: Config, s: State, src: PeerId, msg: Message, id: WorkId)
    returns (states: seq<State>, events: seq<Event>)
    requires s.loop == Idle && id !in s.works && IsAdmissible(c, s, src, msg)
    ensures IsPath(c, states, events) && AllGood(events) && states[0] == s
    ensures |events| > 0 && events[0] == Arrived(src, msg) && IsOut(s, states[|events|], src, msg)
  {
    if ValidatorsFor(s.registry, msg.topics) == [] && msg.signature.None? {
      states, events := GoesThrough(c, s, src, msg);
    } else {
      hide IsPath, AllGood, At, Agreeing, IsOut, ValidatorsFor, Next, WorkNext, IsAdmissible;
      var w: Work;
      states, events, w := GetsMarked(c, s, src, msg, id);
      states, events, w := GetsApproved(c, s, id, states, events, w);
      var s1, s2 := ApprovedGoesOut(c, s, id, states[|events|], w);
      PathSnoc(c, states, events, Worked(id, Send), s1);
      LastOf(c, states, events, s1);
      states, events := states + [s1], events + [Worked(id, Send)];
      PathSnoc(c, states, events, Event.Published(id), s2);
      LastOf(c, states, events, s2);
      states, events := states + [s2], events + [Event.Published(id)];
    }
  }

  /** With neither validator nor signature it is published at once. */
  lemma {:induction false} GoesThrough(c: Config, s: State, src: PeerId, msg: Message)
    returns (states: seq<State>, events: seq<Event>)
    requires s.loop == Idle && IsAdmissible(c, s, src, msg)
    requires ValidatorsFor(s.registry, msg.topics) == [] && msg.signature.None?
    ensures IsPath(c, states, events) && AllGood(events) && states[0] == s
    ensures |events| > 0 && events[0] == Arrived(src, msg) && IsOut(s, states[|events|], src, msg)
  {
    hide ValidatorsFor;
    var job := Job(src, msg, []);
    var s1, s2 := s.(loop := Checked(src, msg)), s.(loop := Unvalidated(job));
    var s3 := s.(seen := s.seen + {MsgId(msg)}, published := s.published + [Publication(job, map[])]);
    states, events := [s, s1, s2, s3], [Arrived(src, msg), PushedThrough, LoopMarked];
    assert Next(c, s, Arrived(src, msg), s1) && Next(c, s1, PushedThrough, s2) && Next(c, s2, LoopMarked, s3);
  }
}
