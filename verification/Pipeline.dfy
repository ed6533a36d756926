/** Messages from their arrival to their publication: the event loop, the validation workers and the
  * goroutines of async validators, interleaved at their atomic steps (pubsub.go, validation.go).
  *
  * A throttle, and a full queue, may refuse at any time.
  */
module Pipeline {

  import opened MessageCache
  import opened Options
  import opened Validation

  datatype WorkId = WorkId(id: int)

  /** Where a worker, and then a goroutine, is with a message. */
  datatype Stage =
    | Queued
    | Received               // a worker has taken it
    | Verified               // its signature, if any, is good
    | Inlining(next: nat)    // marked as seen; the inline validators before `next` have agreed
    | Alone                  // one async validator is to be run, without a goroutine of its own
    | Spawning(next: nat)    // the async validators before `next` have been started
    | Collecting(got: nat)   // that many results have been received, all of them good
    | Approved               // to be sent to the event loop
    | Sending                // in the channel sendMsg
    | Gone                   // dropped, or published

  /** `verdicts` are the answers of the validators, by position in the request. */
  datatype Work = Work(
    job: Job, stage: Stage, verdicts: map<nat, bool>,
    running: set<nat>,      // async validators at work
    results: seq<nat>,      // whose answers are in the results channel, in order
    collected: set<nat>)    // whose answers have been received

  /** Where the event loop is in pushMsg. */
  datatype LoopAt =
    | Idle
    | Checked(src: PeerId, msg: Message)   // not blacklisted, signed if need be, not seen
    | Unvalidated(job: Job)                // Push says that nothing needs validation

  datatype Publication = Publication(job: Job, verdicts: map<nat, bool>)

  datatype State = State(
    loop: LoopAt, seen: set<Mid>, blacklist: set<PeerId>, registry: Registry, works: map<WorkId, Work>,
    published: seq<Publication>)

  /** Strict mode, and the outcome of verifying a message's signature. */
  datatype Config = Config(strict: bool, verifies: Message -> bool)

  datatype Event =
    | Arrived(src: PeerId, msg: Message)   // pushMsg begins
    | PushedOn(id: WorkId)                 // into validateQ
    | PushRefused
    | PushedThrough
    | LoopMarked
    | Published(id: WorkId)                // the event loop takes it from sendMsg
    | ValidatorAdded(val: TopicVal)
    | ValidatorRemoved(topic: Topic)
    | PeerBlacklisted(p: PeerId)
    | Worked(id: WorkId, step: WorkStep)

  datatype WorkStep =
    | Take
    | CheckSignature
    | MarkSeen
    | InlineAnswer(answer: bool)
    | SkipAsync
    | InlineDone
    | Refused                              // by the global throttle, or a validator's
    | AloneAnswer(k: nat, answer: bool)
    | Spawn
    | SkipInline
    | AllSpawned
    | AsyncAnswer(k: nat, answer: bool)
    | Collect
    | AllCollected
    | Send

  function AsyncOf(job: Job): set<nat> {
    set k | 0 <= k < |job.vals| && !job.vals[k].inline
  }

  /** One step of a worker or goroutine; marking as seen is apart. */
  ghost predicate WorkNext(c: Config, w: Work, step: WorkStep, w': Work) {
    match step
    case Take => w.stage == Queued && w' == w.(stage := Received)
    case CheckSignature =>
      && w.stage == Received
      && w' == w.(stage := if w.job.msg.signature.Some? && !c.verifies(w.job.msg) then Gone else Verified)
    case MarkSeen => false
    case InlineAnswer(answer) =>
      && w.stage.Inlining? && w.stage.next < |w.job.vals| && w.job.vals[w.stage.next].inline
      && w' == w.(stage := if answer then Inlining(w.stage.next + 1) else Gone,
                  verdicts := w.verdicts[w.stage.next := answer])
    case SkipAsync =>
      && w.stage.Inlining? && w.stage.next < |w.job.vals| && !w.job.vals[w.stage.next].inline
      && w' == w.(stage := Inlining(w.stage.next + 1))
    case InlineDone =>
      && w.stage == Inlining(|w.job.vals|)
      && w' == w.(stage := if |AsyncOf(w.job)| == 0 then Approved
                           else if |AsyncOf(w.job)| == 1 then Alone
                           else Spawning(0))
    case Refused =>
      && (w.stage == Alone || (w.stage == Inlining(|w.job.vals|) && AsyncOf(w.job) != {})
          || (w.stage.Spawning? && w.stage.next in AsyncOf(w.job)))
      && w' == w.(stage := Gone)
    case AloneAnswer(k, answer) =>
      && w.stage == Alone && k in AsyncOf(w.job)
      && w' == w.(stage := if answer then Approved else Gone, verdicts := w.verdicts[k := answer])
    case Spawn =>
      && w.stage.Spawning? && w.stage.next in AsyncOf(w.job)
      && w' == w.(stage := Spawning(w.stage.next + 1), running := w.running + {w.stage.next})
    case SkipInline =>
      && w.stage.Spawning? && w.stage.next < |w.job.vals| && w.job.vals[w.stage.next].inline
      && w' == w.(stage := Spawning(w.stage.next + 1))
    case AllSpawned => w.stage == Spawning(|w.job.vals|) && w' == w.(stage := Collecting(0))
    case AsyncAnswer(k, answer) =>
      && k in w.running
      && w' == w.(running := w.running - {k}, verdicts := w.verdicts[k := answer], results := w.results + [k])
    case Collect =>
      && w.stage.Collecting? && w.stage.got < |AsyncOf(w.job)| && w.results != [] && w.results[0] in w.verdicts
      && w' == w.(stage := if w.verdicts[w.results[0]] then Collecting(w.stage.got + 1) else Gone,
                  results := w.results[1..], collected := w.collected + {w.results[0]})
    case AllCollected => w.stage == Collecting(|AsyncOf(w.job)|) && w' == w.(stage := Approved)
    case Send => w.stage == Approved && w' == w.(stage := Sending)
  }

  function NewWork(job: Job): Work {
    Work(job, Queued, map[], {}, [], {})
  }

  ghost predicate Next(c: Config, s: State, e: Event, s': State) {
    match e
    case Arrived(src, msg) =>
      && s.loop == Idle
      && s' == s.(loop := if src in s.blacklist || msg.from in s.blacklist || (c.strict && msg.signature == None)
                             || MsgId(msg) in s.seen
                          then Idle else Checked(src, msg))
    case PushedOn(id) =>
      && s.loop.Checked? && id !in s.works
      && var job := Job(s.loop.src, s.loop.msg, ValidatorsFor(s.registry, s.loop.msg.topics));
      && (job.vals != [] || job.msg.signature.Some?)
      && s' == s.(loop := Idle, works := s.works[id := NewWork(job)])
    case PushRefused =>
      && s.loop.Checked? && (ValidatorsFor(s.registry, s.loop.msg.topics) != [] || s.loop.msg.signature.Some?)
      && s' == s.(loop := Idle)
    case PushedThrough =>
      && s.loop.Checked? && ValidatorsFor(s.registry, s.loop.msg.topics) == [] && s.loop.msg.signature == None
      && s' == s.(loop := Unvalidated(Job(s.loop.src, s.loop.msg, [])))
    case LoopMarked =>
      && s.loop.Unvalidated?
      && var mid := MsgId(s.loop.job.msg);
      && s' == if mid in s.seen then s.(loop := Idle)
               else s.(loop := Idle, seen := s.seen + {mid},
                       published := s.published + [Publication(s.loop.job, map[])])
    case Published(id) =>
      && s.loop == Idle && id in s.works && s.works[id].stage == Sending
      && s' == s.(works := s.works[id := s.works[id].(stage := Gone)],
                  published := s.published + [Publication(s.works[id].job, s.works[id].verdicts)])
    case ValidatorAdded(val) =>
      && s.loop == Idle
      && s' == s.(registry := if val.topic in s.registry then s.registry else s.registry[val.topic := val])
    case ValidatorRemoved(topic) => s.loop == Idle && s' == s.(registry := s.registry - {topic})
    case PeerBlacklisted(p) => s.loop == Idle && s' == s.(blacklist := s.blacklist + {p})
    case Worked(id, step) =>
      && id in s.works
      && if step == MarkSeen then
           && s.works[id].stage == Verified
           && var mid := MsgId(s.works[id].job.msg);
           && s' == if mid in s.seen then s.(works := s.works[id := s.works[id].(stage := Gone)])
                    else s.(seen := s.seen + {mid}, works := s.works[id := s.works[id].(stage := Inlining(0))])
         else
           && id in s'.works && WorkNext(c, s.works[id], step, s'.works[id])
           && s' == s.(works := s.works[id := s'.works[id]])
  }

  const BEGINNING: State := State(Idle, {}, {}, map[], map[], [])

  ghost predicate IsRun(c: Config, states: seq<State>, events: seq<Event>) {
    && |states| == |events| + 1 && states[0] == BEGINNING
    && forall i | 0 <= i < |events| :: Next(c, states[i], events[i], states[i + 1])
  }
}
