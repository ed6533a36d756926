/** Every message id is published at most once, and only what was validated. */
module PipelineSafety {

  import opened MessageCache
  import opened Options
  import opened Validation
  import opened Pipeline
  import Sizes

  // ----- at most once -----

  /** Past markSeen, and not yet handed to publishMessage. */
  predicate IsMarked(stage: Stage) {
    match stage
    case Queued => false
    case Received => false
    case Verified => false
    case Gone => false
    case _ => true
  }

  function IdOf(w: Work): Mid {
    MsgId(w.job.msg)
  }

  /** Of publications and of works past markSeen there is at most one for each id, and then the id is seen. */
  ghost predicate OncePerId(s: State) {
    && (forall i, j | 0 <= i < j < |s.published| :: MsgId(s.published[i].job.msg) != MsgId(s.published[j].job.msg))
    && (forall i | 0 <= i < |s.published| :: MsgId(s.published[i].job.msg) in s.seen)
    && (forall x, y | && x in s.works && y in s.works && x != y
                      && IsMarked(s.works[x].stage) && IsMarked(s.works[y].stage) ::
          IdOf(s.works[x]) != IdOf(s.works[y]))
    && (forall x | x in s.works && IsMarked(s.works[x].stage) :: IdOf(s.works[x]) in s.seen)
    && (forall x, i | x in s.works && IsMarked(s.works[x].stage) && 0 <= i < |s.published| ::
          IdOf(s.works[x]) != MsgId(s.published[i].job.msg))
  }

  /** No worker goes back from past markSeen, or forward to it but by marking. */
  lemma {:induction false} MarksStay(c: Config, w: Work, step: WorkStep, w': Work)
    requires WorkNext(c, w, step, w')
    ensures w'.job == w.job && (IsMarked(w'.stage) ==> IsMarked(w.stage))
  {
  }

  lemma {:induction false} OtherWork(s: State, s': State, id: WorkId, w: Work)
    requires OncePerId(s) && id in s.works && s' == s.(works := s.works[id := w])
    requires w.job == s.works[id].job && (IsMarked(w.stage) ==> IsMarked(s.works[id].stage))
    ensures OncePerId(s')
  {
    hide IsMarked, IdOf;
    assert IdOf(w) == IdOf(s.works[id]) by {
      SameId(w, s.works[id]);
    }
  }

  lemma {:induction false} SameId(w: Work, w': Work)
    requires w.job == w'.job
    ensures IdOf(w) == IdOf(w')
  {
  }

  lemma {:induction false} MarkKeepsOnce(s: State, s': State, id: WorkId)
    requires OncePerId(s) && id in s.works && IdOf(s.works[id]) !in s.seen && s.works[id].stage == Verified
    requires s' == s.(seen := s.seen + {IdOf(s.works[id])}, works := s.works[id := s.works[id].(stage := Inlining(0))])
    ensures OncePerId(s')
  {
    SameId(s'.works[id], s.works[id]);
    hide IdOf;
  }

  lemma {:induction false} PublishKeepsOnce(s: State, s': State, id: WorkId)
    requires OncePerId(s) && id in s.works && s.works[id].stage == Sending
    requires s' == s.(works := s.works[id := s.works[id].(stage := Gone)],
                      published := s.published + [Publication(s.works[id].job, s.works[id].verdicts)])
    ensures OncePerId(s')
  {
  }

  lemma {:induction false} NextKeepsOnce(c: Config, s: State, e: Event, s': State)
    requires OncePerId(s) && Next(c, s, e, s')
    ensures OncePerId(s')
  {
    hide WorkNext, OncePerId, ValidatorsFor;
    match e
    case Worked(id, step) =>
      if step == MarkSeen {
        if IdOf(s.works[id]) in s.seen {
          OtherWork(s, s', id, s'.works[id]);
        } else {
          MarkKeepsOnce(s, s', id);
        }
      } else {
        MarksStay(c, s.works[id], step, s'.works[id]);
        OtherWork(s, s', id, s'.works[id]);
      }
    case Published(id) => PublishKeepsOnce(s, s', id);
    case PushedOn(id) => NewWorkKeepsOnce(s, s', id);
    case LoopMarked => LoopMarkKeepsOnce(s, s');
    case _ => SameWorks(s, s');
  }

  lemma {:induction false} SameWorks(s: State, s': State)
    requires OncePerId(s) && s'.works == s.works && s'.published == s.published && s'.seen == s.seen
    ensures OncePerId(s')
  {
  }

  lemma {:induction false} NewWorkKeepsOnce(s: State, s': State, id: WorkId)
    requires OncePerId(s) && id !in s.works && s'.published == s.published && s'.seen == s.seen
    requires exists job :: s'.works == s.works[id := NewWork(job)]
    ensures OncePerId(s')
  {
    hide IdOf;
  }

  lemma {:induction false} LoopMarkKeepsOnce(s: State, s': State)
    requires OncePerId(s) && s.loop.Unvalidated? && s'.works == s.works
    requires var mid := MsgId(s.loop.job.msg);
             if mid in s.seen then s'.seen == s.seen && s'.published == s.published
             else s'.seen == s.seen + {mid} && s'.published == s.published + [Publication(s.loop.job, map[])]
    ensures OncePerId(s')
  {
    hide IsMarked;
  }

  lemma {:induction false} RunKeepsOnce(c: Config, states: seq<State>, events: seq<Event>, i: nat)
    requires IsRun(c, states, events) && i < |states|
    ensures OncePerId(states[i])
  {
    hide Next, OncePerId;
    if i == 0 {
      NothingYet();
    } else {
      RunKeepsOnce(c, states, events, i - 1);
      NextKeepsOnce(c, states[i - 1], events[i - 1], states[i]);
    }
  }

  lemma {:induction false} NothingYet()
    ensures OncePerId(BEGINNING)
  {
  }

  /** publishMessage is never called twice for one message id. */
  lemma {:induction false} PublishedAtMostOnce(
      c: Config, states: seq<State>, events: seq<Event>, i: nat, x: nat, y: nat)
    requires IsRun(c, states, events) && i < |states| && x < y < |states[i].published|
    ensures MsgId(states[i].published[x].job.msg) != MsgId(states[i].published[y].job.msg)
  {
    hide Next;
    RunKeepsOnce(c, states, events, i);
  }

  // ----- only what was validated -----

  /** These validators have answered, and with yes. */
  predicate Agreed(verdicts: map<nat, bool>, ks: set<nat>) {
    forall k | k in ks :: k in verdicts && verdicts[k]
  }

  function Below(job: Job, n: nat, inline: bool): set<nat> {
    set k | 0 <= k < n && k < |job.vals| && job.vals[k].inline == inline
  }

  function All(job: Job): set<nat> {
    Below(job, |job.vals|, true) + Below(job, |job.vals|, false)
  }

  /** Nothing async has happened yet. */
  predicate Quiet(w: Work) {
    w.running == {} && w.results == [] && w.collected == {}
  }

  /** Of the async validators before `n`, each is at work, in the results channel, or received. */
  ghost predicate AsyncOk(w: Work, n: nat) {
    && Agreed(w.verdicts, Below(w.job, |w.job.vals|, true) + w.collected)
    && w.verdicts.Keys <= Below(w.job, |w.job.vals|, true) + Below(w.job, n, false)
    && w.running <= Below(w.job, n, false) && w.running !! w.verdicts.Keys
    && w.collected <= Below(w.job, n, false)
    && (forall k | k in w.results :: k in Below(w.job, n, false) && k in w.verdicts && k !in w.collected)
    && (forall a, b | 0 <= a < b < |w.results| :: w.results[a] != w.results[b])
  }

  ghost predicate StageOk(w: Work) {
    match w.stage
    case Queued => Quiet(w) && w.verdicts == map[]
    case Received => Quiet(w) && w.verdicts == map[]
    case Verified => Quiet(w) && w.verdicts == map[]
    case Inlining(n) =>
      && Quiet(w) && n <= |w.job.vals|
      && w.verdicts.Keys == Below(w.job, n, true) && Agreed(w.verdicts, Below(w.job, n, true))
    case Alone => Quiet(w) && Agreed(w.verdicts, Below(w.job, |w.job.vals|, true)) && |AsyncOf(w.job)| == 1
    case Spawning(n) => n <= |w.job.vals| && AsyncOk(w, n) && w.collected == {}
    case Collecting(got) => AsyncOk(w, |w.job.vals|) && got == |w.collected|
    case Approved => w.running == {} && Agreed(w.verdicts, All(w.job))
    case Sending => w.running == {} && Agreed(w.verdicts, All(w.job))
    case Gone => true
  }

  predicate SignatureGood(c: Config, msg: Message) {
    msg.signature.Some? ==> c.verifies(msg)
  }

  ghost predicate WorkOk(c: Config, w: Work) {
    StageOk(w) && (w.stage == Verified || IsMarked(w.stage) ==> SignatureGood(c, w.job.msg))
  }

  lemma {:induction false} BelowSplits(job: Job)
    ensures All(job) == Below(job, |job.vals|, true) + AsyncOf(job)
    ensures Below(job, |job.vals|, false) == AsyncOf(job)
    ensures Below(job, 0, true) == {} && Below(job, 0, false) == {}
  {
  }

  lemma {:induction false} OneMoreBelow(job: Job, n: nat, inline: bool)
    requires n < |job.vals|
    ensures Below(job, n + 1, inline) == Below(job, n, inline) + if job.vals[n].inline == inline then {n} else {}
    ensures n !in Below(job, n, inline)
  {
  }

  lemma {:induction false} InlineAnswerKeeps(c: Config, w: Work, answer: bool, w': Work)
    requires StageOk(w) && WorkNext(c, w, InlineAnswer(answer), w')
    ensures StageOk(w')
  {
    OneMoreBelow(w.job, w.stage.next, true);
    hide Below, AsyncOf, All;
  }

  lemma {:induction false} SkipAsyncKeeps(c: Config, w: Work, w': Work)
    requires StageOk(w) && WorkNext(c, w, SkipAsync, w')
    ensures StageOk(w')
  {
    OneMoreBelow(w.job, w.stage.next, true);
    hide Below, AsyncOf, All;
    assert Below(w.job, w.stage.next, true) + {} == Below(w.job, w.stage.next, true);
  }

  lemma {:induction false} NoneAsync(w: Work)
    requires Agreed(w.verdicts, Below(w.job, |w.job.vals|, true)) && |AsyncOf(w.job)| == 0
    ensures Agreed(w.verdicts, All(w.job))
  {
    BelowSplits(w.job);
    hide Below;
    assert AsyncOf(w.job) == {};
  }

  lemma {:induction false} NoneSpawned(w: Work)
    requires Quiet(w) && w.verdicts.Keys == Below(w.job, |w.job.vals|, true)
    requires Agreed(w.verdicts, Below(w.job, |w.job.vals|, true))
    ensures AsyncOk(w, 0)
  {
    BelowSplits(w.job);
    hide Below;
  }

  lemma {:induction false} InlineDoneKeeps(c: Config, w: Work, w': Work)
    requires StageOk(w) && WorkNext(c, w, InlineDone, w')
    ensures StageOk(w')
  {
    hide Below, AsyncOf, All, Agreed, AsyncOk;
    if |AsyncOf(w.job)| == 0 {
      NoneAsync(w);
    } else if |AsyncOf(w.job)| > 1 {
      NoneSpawned(w);
      assert AsyncOk(w', 0) by {
        SameAsync(w, w', 0);
      }
    }
  }

  /** AsyncOk does not look at the stage. */
  lemma {:induction false} SameAsync(w: Work, w': Work, n: nat)
    requires AsyncOk(w, n) && w' == w.(stage := w'.stage)
    ensures AsyncOk(w', n)
  {
    hide Below, Agreed;
  }

  lemma {:induction false} AloneKeeps(c: Config, w: Work, k: nat, answer: bool, w': Work)
    requires StageOk(w) && WorkNext(c, w, AloneAnswer(k, answer), w')
    ensures StageOk(w')
  {
    BelowSplits(w.job);
    hide Below, AsyncOf;
    Sizes.AllOfThem({k}, AsyncOf(w.job));
  }

  lemma {:induction false} SpawnKeeps(c: Config, w: Work, w': Work)
    requires StageOk(w) && WorkNext(c, w, Spawn, w')
    ensures StageOk(w')
  {
    NotInlineBelow(w.job, w.stage.next);
    OneMoreBelow(w.job, w.stage.next, false);
    hide Below, AsyncOf, All;
    assert w.stage.next !in w.verdicts.Keys;
  }

  lemma {:induction false} SkipInlineKeeps(c: Config, w: Work, w': Work)
    requires StageOk(w) && WorkNext(c, w, SkipInline, w')
    ensures StageOk(w')
  {
    OneMoreBelow(w.job, w.stage.next, false);
    hide Below, AsyncOf, All;
    assert Below(w.job, w.stage.next, false) + {} == Below(w.job, w.stage.next, false);
  }

  lemma {:induction false} AllSpawnedKeeps(c: Config, w: Work, w': Work)
    requires StageOk(w) && WorkNext(c, w, AllSpawned, w')
    ensures StageOk(w')
  {
    hide Below, AsyncOf, All, Agreed;
  }

  lemma {:induction false} NotInlineBelow(job: Job, n: nat)
    ensures n in AsyncOf(job) ==> n < |job.vals| && !job.vals[n].inline && n !in Below(job, |job.vals|, true)
  {
  }

  lemma {:induction false} AnswerKeeps(c: Config, w: Work, k: nat, answer: bool, w': Work)
    requires StageOk(w) && WorkNext(c, w, AsyncAnswer(k, answer), w')
    ensures StageOk(w')
  {
    if w.stage.Spawning? {
      AnswerKeepsAsync(w, w.stage.next, k, answer, w');
    } else if w.stage.Collecting? {
      AnswerKeepsAsync(w, |w.job.vals|, k, answer, w');
    }
  }

  lemma {:induction false} AnswerKeepsAsync(w: Work, n: nat, k: nat, answer: bool, w': Work)
    requires AsyncOk(w, n) && k in w.running
    requires w' == w.(running := w.running - {k}, verdicts := w.verdicts[k := answer], results := w.results + [k])
    ensures AsyncOk(w', n)
  {
    hide Below;
  }

  /** A good result is received. */
  lemma {:induction false} ReceivedKeepsAsync(w: Work, w': Work, n: nat)
    requires AsyncOk(w, n) && w.results != [] && w.results[0] in w.verdicts && w.verdicts[w.results[0]]
    requires w' == w.(stage := w'.stage, results := w.results[1..], collected := w.collected + {w.results[0]})
    ensures AsyncOk(w', n) && |w'.collected| == |w.collected| + 1
  {
    hide Below;
    assert w.results[0] in w.results;
  }

  /** As many good results as there are async validators: all of them have agreed. */
  lemma {:induction false} AllReceived(w: Work)
    requires AsyncOk(w, |w.job.vals|) && |w.collected| == |AsyncOf(w.job)|
    ensures w.running == {} && Agreed(w.verdicts, All(w.job))
  {
    BelowSplits(w.job);
    hide Below, AsyncOf;
    Sizes.AllOfThem(w.collected, AsyncOf(w.job));
  }

  lemma {:induction false} CollectKeeps(c: Config, w: Work, step: WorkStep, w': Work)
    requires StageOk(w) && WorkNext(c, w, step, w') && (step.Collect? || step.AllCollected?)
    ensures StageOk(w')
  {
    hide Below, AsyncOf, All, Agreed, AsyncOk;
    if step.AllCollected? {
      AllReceived(w);
    } else if w.verdicts[w.results[0]] {
      ReceivedKeepsAsync(w, w', |w.job.vals|);
    }
  }

  lemma {:induction false} WorkKeeps(c: Config, w: Work, step: WorkStep, w': Work)
    requires WorkOk(c, w) && WorkNext(c, w, step, w')
    ensures WorkOk(c, w')
  {
    match step
    case InlineAnswer(answer) => InlineAnswerKeeps(c, w, answer, w');
    case SkipAsync => SkipAsyncKeeps(c, w, w');
    case InlineDone => InlineDoneKeeps(c, w, w');
    case AloneAnswer(k, answer) => AloneKeeps(c, w, k, answer, w');
    case Spawn => SpawnKeeps(c, w, w');
    case SkipInline => SkipInlineKeeps(c, w, w');
    case AllSpawned => AllSpawnedKeeps(c, w, w');
    case AsyncAnswer(k, answer) => AnswerKeeps(c, w, k, answer, w');
    case Collect => CollectKeeps(c, w, step, w');
    case AllCollected => CollectKeeps(c, w, step, w');
    case _ =>
  }

  /** The event loop was about to push this message, with these validators registered. */
  predicate PushedAt(c: Config, s: State, job: Job) {
    && s.loop == Checked(job.src, job.msg)
    && job.src !in s.blacklist && job.msg.from !in s.blacklist
    && (c.strict ==> job.msg.signature.Some?)
    && job.vals == ValidatorsFor(s.registry, job.msg.topics)
  }

  ghost predicate WasPushed(c: Config, states: seq<State>, i: nat, job: Job)
    requires i <= |states|
  {
    exists j | 0 <= j < i :: PushedAt(c, states[j], job)
  }

  /** A publication whose message was checked and pushed, whose signature is good if it has one, and to
    * which every validator registered when it was pushed has agreed. */
  ghost predicate Deserved(c: Config, states: seq<State>, i: nat, p: Publication)
    requires i <= |states|
  {
    && WasPushed(c, states, i, p.job) && SignatureGood(c, p.job.msg)
    && forall k | 0 <= k < |p.job.vals| :: k in p.verdicts && p.verdicts[k]
  }

  ghost predicate LoopOk(c: Config, states: seq<State>, i: nat)
    requires i < |states|
  {
    match states[i].loop
    case Idle => true
    case Checked(src, msg) =>
      src !in states[i].blacklist && msg.from !in states[i].blacklist && (c.strict ==> msg.signature.Some?)
    case Unvalidated(job) => WasPushed(c, states, i, job) && job.vals == [] && job.msg.signature == None
  }

  ghost predicate AllOk(c: Config, states: seq<State>, i: nat)
    requires i < |states|
  {
    && LoopOk(c, states, i)
    && (forall x | x in states[i].works ::
          WorkOk(c, states[i].works[x]) && WasPushed(c, states, i, states[i].works[x].job))
    && (forall k | 0 <= k < |states[i].published| :: Deserved(c, states, i, states[i].published[k]))
  }

  lemma {:induction false} PushedStays(c: Config, states: seq<State>, i: nat, job: Job)
    requires i < |states| && WasPushed(c, states, i, job)
    ensures WasPushed(c, states, i + 1, job)
  {
    var j :| 0 <= j < i && PushedAt(c, states[j], job);
  }

  lemma {:induction false} AllStay(c: Config, states: seq<State>, i: nat)
    requires i < |states| && AllOk(c, states, i)
    ensures forall x | x in states[i].works :: WasPushed(c, states, i + 1, states[i].works[x].job)
    ensures forall k | 0 <= k < |states[i].published| :: Deserved(c, states, i + 1, states[i].published[k])
  {
    hide WasPushed, WorkOk;
    forall x | x in states[i].works ensures WasPushed(c, states, i + 1, states[i].works[x].job) {
      PushedStays(c, states, i, states[i].works[x].job);
    }
    forall k | 0 <= k < |states[i].published| ensures Deserved(c, states, i + 1, states[i].published[k]) {
      assert Deserved(c, states, i, states[i].published[k]);
      PushedStays(c, states, i, states[i].published[k].job);
    }
  }

  lemma {:induction false} NewWorkOk(c: Config, job: Job)
    ensures WorkOk(c, NewWork(job))
  {
  }

  lemma {:induction false} SentDeserved(c: Config, states: seq<State>, i: nat, w: Work)
    requires i <= |states| && WorkOk(c, w) && w.stage == Sending && WasPushed(c, states, i, w.job)
    ensures Deserved(c, states, i, Publication(w.job, w.verdicts))
  {
    hide WasPushed;
    forall k | 0 <= k < |w.job.vals| ensures k in w.verdicts && w.verdicts[k] {
      assert k in Below(w.job, |w.job.vals|, w.job.vals[k].inline);
    }
  }

  lemma {:induction false} GoneOk(c: Config, w: Work)
    ensures WorkOk(c, w.(stage := Gone))
  {
  }

  lemma {:induction false} MarkedOk(c: Config, w: Work)
    requires WorkOk(c, w) && w.stage == Verified
    ensures WorkOk(c, w.(stage := Inlining(0)))
  {
    BelowSplits(w.job);
  }

  /** What the steps of workers do to the works. */
  lemma {:induction false} WorkStepOk(c: Config, s: State, id: WorkId, step: WorkStep, s': State)
    requires Next(c, s, Worked(id, step), s') && id in s.works && WorkOk(c, s.works[id])
    ensures id in s'.works && WorkOk(c, s'.works[id]) && s'.works[id].job == s.works[id].job
    ensures s'.loop == s.loop && s'.blacklist == s.blacklist && s'.registry == s.registry && s'.published == s.published
    ensures s'.works == s.works[id := s'.works[id]]
  {
    hide WorkNext, WorkOk;
    if step == MarkSeen {
      GoneOk(c, s.works[id]);
      MarkedOk(c, s.works[id]);
    } else {
      WorkKeeps(c, s.works[id], step, s'.works[id]);
      MarksStay(c, s.works[id], step, s'.works[id]);
    }
  }

  lemma {:induction false} WorkedKeepsOk(c: Config, states: seq<State>, i: nat, id: WorkId, step: WorkStep)
    requires i + 1 < |states| && AllOk(c, states, i) && Next(c, states[i], Worked(id, step), states[i + 1])
    ensures AllOk(c, states, i + 1)
  {
    hide WorkOk, WasPushed, Deserved, Next;
    WorkedExists(c, states[i], id, step, states[i + 1]);
    WorkStepOk(c, states[i], id, step, states[i + 1]);
    AllStay(c, states, i);
    if states[i].loop.Unvalidated? {
      PushedStays(c, states, i, states[i].loop.job);
    }
  }

  lemma {:induction false} WorkedExists(c: Config, s: State, id: WorkId, step: WorkStep, s': State)
    requires Next(c, s, Worked(id, step), s')
    ensures id in s.works
  {
  }

  lemma {:induction false} PushedOnKeepsOk(c: Config, states: seq<State>, i: nat, id: WorkId)
    requires i + 1 < |states| && AllOk(c, states, i) && Next(c, states[i], PushedOn(id), states[i + 1])
    ensures AllOk(c, states, i + 1)
  {
    hide WorkOk, Deserved, ValidatorsFor;
    var s := states[i];
    var job := Job(s.loop.src, s.loop.msg, ValidatorsFor(s.registry, s.loop.msg.topics));
    AllStay(c, states, i);
    assert PushedAt(c, s, job);
    NewWorkOk(c, job);
  }

  lemma {:induction false} PushedThroughKeepsOk(c: Config, states: seq<State>, i: nat)
    requires i + 1 < |states| && AllOk(c, states, i) && Next(c, states[i], PushedThrough, states[i + 1])
    ensures AllOk(c, states, i + 1)
  {
    hide WorkOk, Deserved, ValidatorsFor;
    AllStay(c, states, i);
    assert PushedAt(c, states[i], states[i + 1].loop.job);
  }

  lemma {:induction false} PublishedKeepsOk(c: Config, states: seq<State>, i: nat, id: WorkId)
    requires i + 1 < |states| && AllOk(c, states, i) && Next(c, states[i], Published(id), states[i + 1])
    ensures AllOk(c, states, i + 1)
  {
    hide WorkOk, WasPushed, Deserved;
    AllStay(c, states, i);
    GoneOk(c, states[i].works[id]);
    SentDeserved(c, states, i + 1, states[i].works[id]);
  }

  lemma {:induction false} LoopMarkedKeepsOk(c: Config, states: seq<State>, i: nat)
    requires i + 1 < |states| && AllOk(c, states, i) && Next(c, states[i], LoopMarked, states[i + 1])
    ensures AllOk(c, states, i + 1)
  {
    hide WorkOk, WasPushed;
    AllStay(c, states, i);
    PushedStays(c, states, i, states[i].loop.job);
  }

  lemma {:induction false} StepKeepsOk(c: Config, states: seq<State>, i: nat, e: Event)
    requires i + 1 < |states| && AllOk(c, states, i) && Next(c, states[i], e, states[i + 1])
    ensures AllOk(c, states, i + 1)
  {
    hide AllOk, ValidatorsFor, WorkNext;
    match e
    case Worked(id, step) => WorkedKeepsOk(c, states, i, id, step);
    case PushedOn(id) => PushedOnKeepsOk(c, states, i, id);
    case PushedThrough => PushedThroughKeepsOk(c, states, i);
    case Published(id) => PublishedKeepsOk(c, states, i, id);
    case LoopMarked => LoopMarkedKeepsOk(c, states, i);
    case _ => OthersKeepOk(c, states, i, e);
  }

  /** Works and publications stay as they are. */
  lemma {:induction false} OthersKeepOk(c: Config, states: seq<State>, i: nat, e: Event)
    requires i + 1 < |states| && AllOk(c, states, i) && Next(c, states[i], e, states[i + 1])
    requires e.Arrived? || e.PushRefused? || e.ValidatorAdded? || e.ValidatorRemoved? || e.PeerBlacklisted?
    ensures AllOk(c, states, i + 1)
  {
    hide WorkOk, Deserved, ValidatorsFor, WorkNext, WasPushed;
    AllStay(c, states, i);
  }

  lemma {:induction false} RunKeepsOk(c: Config, states: seq<State>, events: seq<Event>, i: nat)
    requires IsRun(c, states, events) && i < |states|
    ensures AllOk(c, states, i)
  {
    if i > 0 {
      hide AllOk, Next;
      RunKeepsOk(c, states, events, i - 1);
      StepKeepsOk(c, states, i - 1, events[i - 1]);
    }
  }

  /** Whatever is published had a sender and an author that were not blacklisted when it was pushed, a
    * signature if strict mode asks for one, a good one if it has one, and the agreement of every validator
    * that was registered for its topics when it was pushed. */
  lemma {:induction false} OnlyValidatedPublished(c: Config, states: seq<State>, events: seq<Event>, i: nat, k: nat)
    requires IsRun(c, states, events) && i < |states| && k < |states[i].published|
    ensures var p := states[i].published[k];
            && (exists j | 0 <= j < i ::
                  && p.job.src !in states[j].blacklist && p.job.msg.from !in states[j].blacklist
                  && states[j].loop == Checked(p.job.src, p.job.msg)
                  && p.job.vals == ValidatorsFor(states[j].registry, p.job.msg.topics)
                  && ListsValidators(states[j].registry, p.job.msg.topics, p.job.vals)
                  && forall t | t in p.job.msg.topics && t in states[j].registry ::
                       exists n :: 0 <= n < |p.job.vals| && p.job.vals[n] == states[j].registry[t]
                                && n in p.verdicts && p.verdicts[n])
            && (c.strict ==> p.job.msg.signature.Some?)
            && (p.job.msg.signature.Some? ==> c.verifies(p.job.msg))
            && (forall n | 0 <= n < |p.job.vals| :: n in p.verdicts && p.verdicts[n])
  {
    hide Next, WorkOk, LoopOk, ValidatorsFor;
    RunKeepsOk(c, states, events, i);
    assert Deserved(c, states, i, states[i].published[k]);
    var p := states[i].published[k];
    var j :| 0 <= j < i && PushedAt(c, states[j], p.job);
    ValidatorsListed(states[j].registry, p.job.msg.topics);
    EachHasAgreed(states[j].registry, p);
  }

  /** The validator of each topic is at some position, and has agreed there. */
  lemma {:induction false} EachHasAgreed(registry: Registry, p: Publication)
    requires ListsValidators(registry, p.job.msg.topics, p.job.vals)
    requires forall n | 0 <= n < |p.job.vals| :: n in p.verdicts && p.verdicts[n]
    ensures forall t | t in p.job.msg.topics && t in registry ::
              exists n :: 0 <= n < |p.job.vals| && p.job.vals[n] == registry[t] && n in p.verdicts && p.verdicts[n]
  {
    forall t | t in p.job.msg.topics && t in registry
      ensures exists n :: 0 <= n < |p.job.vals| && p.job.vals[n] == registry[t] && n in p.verdicts && p.verdicts[n]
    {
      assert registry[t] in p.job.vals;
      var n :| 0 <= n < |p.job.vals| && p.job.vals[n] == registry[t];
    }
  }

  // ----- the lists of validators, and their positions -----

  function AsyncBelow(vals: seq<TopicVal>): set<nat> {
    set k | 0 <= k < |vals| && !vals[k].inline
  }

  /** As many results are waited for as there are validators in the list that validate splits off. */
  lemma {:induction false} AsyncCounted(vals: seq<TopicVal>)
    ensures |OfKind(vals, false)| == |AsyncBelow(vals)|
    ensures forall job: Job | job.vals == vals :: AsyncOf(job) == AsyncBelow(vals)
  {
    if vals != [] {
      var n := |vals| - 1;
      AsyncCounted(vals[..n]);
      assert AsyncBelow(vals) == AsyncBelow(vals[..n]) + if vals[n].inline then {} else {n};
      assert n !in AsyncBelow(vals[..n]);
    }
  }
}
