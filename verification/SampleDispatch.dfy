/** One producer, many workers, an unbuffered channel, a stop flag and an error set once. */
module SampleDispatch {
  import opened Wrappers

  datatype Err = Operation(code: int) | Context

  /** Where a worker goroutine is. */
  datatype Worker =
    | Idle                       // at the channel receive
    | Got(index: nat)            // received, about to look at the stop flag
    | Running(index: nat)        // inside the operation
    | Calling(err: Err)          // the operation failed, about to call once.Do
    | Writing(err: Err)          // inside once.Do, about to set the error
    | Storing(err: Err)          // inside once.Do, about to set the stop flag
    | Leaving(err: Err)          // about to leave once.Do
    | Exited

  /** Where the producer is. */
  datatype Producer =
    | Check(index: nat)          // at the loop head
    | Select(index: nat)         // at the select
    | PCalling(index: nat) | PWriting(index: nat) | PStoring(index: nat) | PLeaving(index: nat)
    | Closing | Waiting | Returned(result: Option<Err>)

  datatype Owner = ByProducer | ByWorker(id: nat)
  datatype Once = Fresh | Busy(owner: Owner) | Finished

  /** What became of a sample index that was handed out. */
  datatype Fate = Held(id: nat) | Run(id: nat) | Succeeded | Broke | Skipped

  /** The variables the goroutines share. */
  datatype Shared = Shared(closed: bool, stopped: bool, firstErr: Option<Err>, once: Once, cancelled: bool)

  /**
   * Logs that nothing reads: the fate of every index handed out, how often the operation ran on each index, and the
   * errors in the order in which once.Do was entered.
   */
  datatype Log = Log(fate: seq<Fate>, runs: seq<nat>, entered: seq<Err>)

  datatype State = State(samples: nat, producer: Producer, workers: seq<Worker>, shared: Shared, log: Log)

  function Initial(samples: nat, concurrency: nat): (s: State) {
    State(samples, Check(0), seq(concurrency, _ => Idle), Shared(false, false, None, Fresh, false),
          Log([], seq(samples, _ => 0), []))
  }

  datatype Step =
    | Cancel
    | LoopHead | TakeDone | EnterByProducer | WriteByProducer | StoreByProducer | LeaveByProducer | Close | Return
    | Hand(w: nat)
    | Look(w: nat) | Finish(w: nat, outcome: Option<Err>) | Enter(w: nat) | Write(w: nat) | Store(w: nat) | Leave(w: nat)
    | Exit(w: nat)

  predicate Enabled(s: State, step: Step) {
    match step
    case Cancel => true
    case LoopHead => s.producer.Check?
    case TakeDone => s.producer.Select? && s.shared.cancelled
    case EnterByProducer => s.producer.PCalling? && !s.shared.once.Busy?
    case WriteByProducer => s.producer.PWriting?
    case StoreByProducer => s.producer.PStoring?
    case LeaveByProducer => s.producer.PLeaving?
    case Close => s.producer.Closing?
    case Return => s.producer.Waiting? && forall w :: 0 <= w < |s.workers| ==> s.workers[w].Exited?
    case Hand(w) => s.producer.Select? && w < |s.workers| && s.workers[w].Idle?
    case Look(w) => w < |s.workers| && s.workers[w].Got?
    case Finish(w, _) => w < |s.workers| && s.workers[w].Running?
    case Enter(w) => w < |s.workers| && s.workers[w].Calling? && !s.shared.once.Busy?
    case Write(w) => w < |s.workers| && s.workers[w].Writing?
    case Store(w) => w < |s.workers| && s.workers[w].Storing?
    case Leave(w) => w < |s.workers| && s.workers[w].Leaving?
    case Exit(w) => w < |s.workers| && s.workers[w].Idle? && s.shared.closed
  }

  function Move(s: State, w: nat, worker: Worker): (t: State)
    requires w < |s.workers|
  {
    s.(workers := s.workers[w := worker])
  }

  function Settle(s: State, index: nat, fate: Fate): (t: State) {
    if index < |s.log.fate| then s.(log := s.log.(fate := s.log.fate[index := fate])) else s
  }

  function CountRun(s: State, index: nat): (t: State) {
    if index < |s.log.runs| then s.(log := s.log.(runs := s.log.runs[index := s.log.runs[index] + 1])) else s
  }

  predicate ByWorkerStep(step: Step) {
    step.Hand? || step.Look? || step.Finish? || step.Enter? || step.Write? || step.Store? || step.Leave? || step.Exit?
  }

  function ApplyProducer(s: State, step: Step): (t: State)
    requires Enabled(s, step) && !ByWorkerStep(step)
  {
    match step
    case Cancel => s.(shared := s.shared.(cancelled := true))
    case LoopHead =>
      var i := s.producer.index;
      s.(producer := if i < s.samples && !s.shared.stopped then Select(i) else Closing)
    case TakeDone => s.(producer := PCalling(s.producer.index))
    case EnterByProducer =>
      var i := s.producer.index;
      var t := s.(log := s.log.(entered := s.log.entered + [Context]));
      if s.shared.once.Fresh? then t.(shared := s.shared.(once := Busy(ByProducer)), producer := PWriting(i))
      else t.(producer := Check(i + 1))
    case WriteByProducer => s.(shared := s.shared.(firstErr := Some(Context)), producer := PStoring(s.producer.index))
    case StoreByProducer => s.(shared := s.shared.(stopped := true), producer := PLeaving(s.producer.index))
    case LeaveByProducer => s.(shared := s.shared.(once := Finished), producer := Check(s.producer.index + 1))
    case Close => s.(shared := s.shared.(closed := true), producer := Waiting)
    case Return => s.(producer := Returned(s.shared.firstErr))
  }

  function ApplyWorker(s: State, step: Step): (t: State)
    requires Enabled(s, step) && ByWorkerStep(step)
  {
    var w := step.w;
    match step
    case Hand(_) =>
      var i := s.producer.index;
      Move(s, w, Got(i)).(producer := Check(i + 1), log := s.log.(fate := s.log.fate + [Held(w)]))
    case Look(_) =>
      var i := s.workers[w].index;
      if s.shared.stopped then Settle(Move(s, w, Idle), i, Skipped)
      else CountRun(Settle(Move(s, w, Running(i)), i, Run(w)), i)
    case Finish(_, outcome) =>
      var i := s.workers[w].index;
      if outcome.None? then Settle(Move(s, w, Idle), i, Succeeded)
      else Settle(Move(s, w, Calling(outcome.value)), i, Broke)
    case Enter(_) =>
      var e := s.workers[w].err;
      var t := s.(log := s.log.(entered := s.log.entered + [e]));
      if s.shared.once.Fresh? then Move(t, w, Writing(e)).(shared := s.shared.(once := Busy(ByWorker(w)))) else Move(t, w, Idle)
    case Write(_) => Move(s, w, Storing(s.workers[w].err)).(shared := s.shared.(firstErr := Some(s.workers[w].err)))
    case Store(_) => Move(s, w, Leaving(s.workers[w].err)).(shared := s.shared.(stopped := true))
    case Leave(_) => Move(s, w, Idle).(shared := s.shared.(once := Finished))
    case Exit(_) => Move(s, w, Exited)
  }

  function Apply(s: State, step: Step): (t: State)
    requires Enabled(s, step)
  {
    if ByWorkerStep(step) then ApplyWorker(s, step) else ApplyProducer(s, step)
  }

  /** Any interleaving of the program's steps and a cancellation, from the start. */
  ghost predicate IsRun(samples: nat, concurrency: nat, states: seq<State>, steps: seq<Step>) {
    && |states| == |steps| + 1 && states[0] == Initial(samples, concurrency)
    && forall k :: 0 <= k < |steps| ==> Enabled(states[k], steps[k]) && states[k + 1] == Apply(states[k], steps[k])
  }

  // ----- What every reachable state keeps -----

  predicate InOnce(worker: Worker) {
    worker.Writing? || worker.Storing? || worker.Leaving?
  }

  predicate ProducerInOnce(p: Producer) {
    p.PWriting? || p.PStoring? || p.PLeaving?
  }

  /** Workers and fates point at each other, so an index is in one place only. */
  ghost predicate FateOk(s: State) {
    && |s.log.fate| <= s.samples == |s.log.runs|
    && (forall w :: 0 <= w < |s.workers| && s.workers[w].Got? ==>
          s.workers[w].index < |s.log.fate| && s.log.fate[s.workers[w].index] == Held(w))
    && (forall w :: 0 <= w < |s.workers| && s.workers[w].Running? ==>
          s.workers[w].index < |s.log.fate| && s.log.fate[s.workers[w].index] == Run(w))
    && (forall i :: 0 <= i < |s.log.fate| && s.log.fate[i].Held? ==>
          s.log.fate[i].id < |s.workers| && s.workers[s.log.fate[i].id] == Got(i))
    && (forall i :: 0 <= i < |s.log.fate| && s.log.fate[i].Run? ==>
          s.log.fate[i].id < |s.workers| && s.workers[s.log.fate[i].id] == Running(i))
  }

  /** The operation ran once on an index it was started on, and never on the others. */
  ghost predicate RunsOk(s: State) {
    && |s.log.fate| <= s.samples == |s.log.runs|
    && (forall i :: 0 <= i < |s.log.fate| ==>
          s.log.runs[i] == if s.log.fate[i].Run? || s.log.fate[i].Succeeded? || s.log.fate[i].Broke? then 1 else 0)
    && (forall i :: |s.log.fate| <= i < s.samples ==> s.log.runs[i] == 0)
  }

  /** Exactly the owner is inside once.Do, and the error is the one that entered first. */
  ghost predicate OnceOk(s: State) {
    && (s.shared.once.Fresh? <==> s.log.entered == [])
    && (forall w :: 0 <= w < |s.workers| ==> (InOnce(s.workers[w]) <==> s.shared.once == Busy(ByWorker(w))))
    && (ProducerInOnce(s.producer) <==> s.shared.once == Busy(ByProducer))
    && (s.shared.once.Busy? && s.shared.once.owner.ByWorker? ==>
          var w := s.shared.once.owner.id;
          && w < |s.workers| && InOnce(s.workers[w]) && s.workers[w].err == s.log.entered[0]
          && (s.shared.firstErr == if s.workers[w].Writing? then None else Some(s.log.entered[0]))
          && (s.shared.stopped <==> s.workers[w].Leaving?))
    && (s.shared.once.Busy? && s.shared.once.owner.ByProducer? ==>
          && s.log.entered[0] == Context
          && (s.shared.firstErr == if s.producer.PWriting? then None else Some(Context))
          && (s.shared.stopped <==> s.producer.PLeaving?))
    && (s.shared.once.Fresh? ==> s.shared.firstErr.None? && !s.shared.stopped)
    && (s.shared.once.Finished? ==> s.shared.firstErr == Some(s.log.entered[0]) && s.shared.stopped)
  }

  predicate HasIndex(p: Producer) {
    p.Check? || p.Select? || p.PCalling? || ProducerInOnce(p)
  }

  /** The producer has handed out every index so far unless it was stopped; the channel closes only after that. */
  ghost predicate PhaseOk(s: State) {
    && (HasIndex(s.producer) ==> |s.log.fate| <= s.producer.index <= s.samples)
    && (s.producer.Check? || s.producer.Select? ==> |s.log.fate| == s.producer.index || s.shared.stopped)
    && (s.producer.Select? || s.producer.PCalling? || ProducerInOnce(s.producer) ==>
          s.producer.index < s.samples && |s.log.fate| <= s.producer.index)
    && (s.producer.Select? ==> |s.log.fate| == s.producer.index)
    && (s.shared.closed <==> s.producer.Waiting? || s.producer.Returned?)
    && (!HasIndex(s.producer) ==> |s.log.fate| == s.samples || s.shared.stopped)
    && (forall w :: 0 <= w < |s.workers| && s.workers[w].Exited? ==> s.shared.closed)
    && (s.producer.Returned? ==>
          s.producer.result == s.shared.firstErr && forall w :: 0 <= w < |s.workers| ==> s.workers[w].Exited?)
  }

  /** Skipping happens only after a stop, and a failed operation is on its way to once.Do or through it. */
  ghost predicate BlameOk(s: State) {
    && (forall i :: 0 <= i < |s.log.fate| && s.log.fate[i].Skipped? ==> s.shared.stopped)
    && ((exists i :: 0 <= i < |s.log.fate| && s.log.fate[i].Broke?) ==>
          s.log.entered != [] || exists w :: 0 <= w < |s.workers| && s.workers[w].Calling?)
  }

  ghost predicate Inv(s: State) {
    FateOk(s) && RunsOk(s) && OnceOk(s) && PhaseOk(s) && BlameOk(s)
  }

  // ----- Each step keeps it -----

  predicate Busied(worker: Worker) {
    worker.Got? || worker.Running?
  }

  lemma FateHand(s: State, w: nat)
    requires FateOk(s) && PhaseOk(s) && Enabled(s, Hand(w))
    ensures FateOk(Apply(s, Hand(w)))
  {
  }

  lemma FateLook(s: State, w: nat)
    requires FateOk(s) && Enabled(s, Look(w))
    ensures FateOk(Apply(s, Look(w)))
  {
    var i := s.workers[w].index;
    if s.shared.stopped {
      FateSet(s, Apply(s, Look(w)), w, Idle, i, Skipped);
    } else {
      FateSet(s, Apply(s, Look(w)), w, Running(i), i, Run(w));
    }
  }

  /** One worker lets go of the index it holds, or starts on it. */
  lemma FateSet(s: State, t: State, w: nat, worker: Worker, i: nat, fate: Fate)
    requires FateOk(s) && w < |s.workers| && Busied(s.workers[w]) && s.workers[w].index == i
    requires t.workers == s.workers[w := worker] && t.samples == s.samples && |t.log.runs| == |s.log.runs|
    requires i < |s.log.fate| && t.log.fate == s.log.fate[i := fate]
    requires if Busied(worker) then worker == Running(i) && fate == Run(w) else !fate.Held? && !fate.Run?
    ensures FateOk(t)
  {
  }

  lemma FateFinish(s: State, w: nat, outcome: Option<Err>)
    requires FateOk(s) && Enabled(s, Finish(w, outcome))
    ensures FateOk(Apply(s, Finish(w, outcome)))
  {
    var i, t := s.workers[w].index, Apply(s, Finish(w, outcome));
    FateSet(s, t, w, t.workers[w], i, t.log.fate[i]);
  }

  /** The other steps leave every index where it is. */
  lemma OtherSteps(s: State, step: Step)
    requires Enabled(s, step) && !step.Hand? && !step.Look? && !step.Finish?
    ensures var t := Apply(s, step);
      && t.log.fate == s.log.fate && t.log.runs == s.log.runs && t.samples == s.samples && |t.workers| == |s.workers|
      && forall w :: 0 <= w < |s.workers| ==> t.workers[w] == s.workers[w] || (!Busied(s.workers[w]) && !Busied(t.workers[w]))
  {
    if ByWorkerStep(step) {
      hide ApplyProducer;
      assert forall w :: 0 <= w < |s.workers| && w != step.w ==> Apply(s, step).workers[w] == s.workers[w];
    } else {
      hide ApplyWorker;
      ProducerSteps(s, step);
    }
  }

  lemma ProducerSteps(s: State, step: Step)
    requires Enabled(s, step) && !ByWorkerStep(step)
    ensures var t := Apply(s, step);
      t.log.fate == s.log.fate && t.log.runs == s.log.runs && t.samples == s.samples && t.workers == s.workers
  {
    hide ApplyWorker;
  }

  lemma FateFrame(s: State, t: State)
    requires FateOk(s)
    requires t.log.fate == s.log.fate && t.log.runs == s.log.runs && t.samples == s.samples && |t.workers| == |s.workers|
    requires forall w :: 0 <= w < |s.workers| ==> t.workers[w] == s.workers[w] || (!Busied(s.workers[w]) && !Busied(t.workers[w]))
    ensures FateOk(t)
  {
  }

  lemma FateKept(s: State, step: Step)
    requires FateOk(s) && PhaseOk(s) && Enabled(s, step)
    ensures FateOk(Apply(s, step))
  {
    hide FateOk, PhaseOk, Apply, Enabled;
    match step
    case Hand(w) => FateHand(s, w);
    case Look(w) => FateLook(s, w);
    case Finish(w, outcome) => FateFinish(s, w, outcome);
    case _ => OtherSteps(s, step); FateFrame(s, Apply(s, step));
  }

  lemma RunsKept(s: State, step: Step)
    requires FateOk(s) && RunsOk(s) && PhaseOk(s) && Enabled(s, step)
    ensures RunsOk(Apply(s, step))
  {
    if !step.Hand? && !step.Look? && !step.Finish? {
      OtherSteps(s, step);
      hide Apply, Enabled;
    }
  }

  /** A step of a worker outside once.Do, or of the producer outside it. */
  predicate OutsideOnce(step: Step) {
    step.Cancel? || step.LoopHead? || step.TakeDone? || step.Close? || step.Return? || step.Hand? || step.Look?
    || step.Finish? || step.Exit?
  }

  lemma OutsideSteps(s: State, step: Step)
    requires Enabled(s, step) && OutsideOnce(step)
    ensures var t := Apply(s, step);
      && t.shared.once == s.shared.once && t.log.entered == s.log.entered
      && t.shared.firstErr == s.shared.firstErr && t.shared.stopped == s.shared.stopped
      && |t.workers| == |s.workers| && !ProducerInOnce(t.producer) == !ProducerInOnce(s.producer)
      && (ProducerInOnce(s.producer) ==> t.producer == s.producer)
      && forall w :: 0 <= w < |s.workers| ==> t.workers[w] == s.workers[w] || (!InOnce(s.workers[w]) && !InOnce(t.workers[w]))
  {
    if ByWorkerStep(step) {
      OutsideWorkerSteps(s, step);
    } else {
      hide ApplyWorker;
    }
  }

  lemma OutsideWorkerSteps(s: State, step: Step)
    requires Enabled(s, step) && OutsideOnce(step) && ByWorkerStep(step)
    ensures var t := Apply(s, step); var w := step.w;
      && t.shared == s.shared && t.log.entered == s.log.entered && (t.producer == s.producer || step.Hand?)
      && !ProducerInOnce(t.producer) == !ProducerInOnce(s.producer) && (step.Hand? ==> !ProducerInOnce(s.producer))
      && w < |s.workers| && t.workers == s.workers[w := t.workers[w]] && !InOnce(s.workers[w]) && !InOnce(t.workers[w])
  {
    hide ApplyProducer;
  }

  lemma OnceFrame(s: State, t: State)
    requires OnceOk(s)
    requires t.shared.once == s.shared.once && t.log.entered == s.log.entered
    requires t.shared.firstErr == s.shared.firstErr && t.shared.stopped == s.shared.stopped
    requires |t.workers| == |s.workers| && (ProducerInOnce(t.producer) <==> ProducerInOnce(s.producer))
    requires ProducerInOnce(s.producer) ==> t.producer == s.producer
    requires forall w :: 0 <= w < |s.workers| ==> t.workers[w] == s.workers[w] || (!InOnce(s.workers[w]) && !InOnce(t.workers[w]))
    ensures OnceOk(t)
  {
  }

  lemma OnceByProducer(s: State, step: Step)
    requires OnceOk(s) && Enabled(s, step)
    requires step.EnterByProducer? || step.WriteByProducer? || step.StoreByProducer? || step.LeaveByProducer?
    ensures OnceOk(Apply(s, step))
  {
  }

  lemma OnceEnter(s: State, w: nat)
    requires OnceOk(s) && Enabled(s, Enter(w))
    ensures OnceOk(Apply(s, Enter(w)))
  {
  }

  lemma OnceInside(s: State, step: Step)
    requires OnceOk(s) && Enabled(s, step) && (step.Write? || step.Store? || step.Leave?)
    ensures OnceOk(Apply(s, step))
  {
    assert s.shared.once == Busy(ByWorker(step.w));
  }

  lemma OnceKept(s: State, step: Step)
    requires OnceOk(s) && Enabled(s, step)
    ensures OnceOk(Apply(s, step))
  {
    hide OnceOk, Apply, Enabled;
    if OutsideOnce(step) {
      OutsideSteps(s, step);
      OnceFrame(s, Apply(s, step));
    } else if step.Enter? {
      OnceEnter(s, step.w);
    } else if step.Write? || step.Store? || step.Leave? {
      OnceInside(s, step);
    } else {
      OnceByProducer(s, step);
    }
  }

  /** Steps that only move a worker, and perhaps raise the stop flag. */
  predicate WorkerOnly(step: Step) {
    step.Look? || step.Finish? || step.Enter? || step.Write? || step.Store? || step.Leave?
  }

  lemma WorkerSteps(s: State, step: Step)
    requires Enabled(s, step) && WorkerOnly(step)
    ensures var t := Apply(s, step);
      && t.producer == s.producer && t.shared.closed == s.shared.closed && t.samples == s.samples && |t.log.fate| == |s.log.fate|
      && |t.workers| == |s.workers| && (s.shared.stopped ==> t.shared.stopped) && step.w < |s.workers| && !s.workers[step.w].Exited?
      && !t.workers[step.w].Exited? && (forall w :: 0 <= w < |s.workers| && w != step.w ==> t.workers[w] == s.workers[w])
      && (t.shared.firstErr == s.shared.firstErr || step.Write?)
  {
  }

  lemma PhaseWorker(s: State, step: Step)
    requires PhaseOk(s) && Enabled(s, step) && WorkerOnly(step)
    ensures PhaseOk(Apply(s, step))
  {
    hide Apply, Enabled;
    WorkerSteps(s, step);
  }

  lemma PhaseProducer(s: State, step: Step)
    requires OnceOk(s) && PhaseOk(s) && Enabled(s, step) && !WorkerOnly(step) && !step.Hand? && !step.Exit?
    ensures PhaseOk(Apply(s, step))
  {
  }

  lemma PhaseHandExit(s: State, step: Step)
    requires PhaseOk(s) && Enabled(s, step) && (step.Hand? || step.Exit?)
    ensures PhaseOk(Apply(s, step))
  {
  }

  lemma PhaseKept(s: State, step: Step)
    requires OnceOk(s) && PhaseOk(s) && Enabled(s, step)
    ensures PhaseOk(Apply(s, step))
  {
    hide OnceOk, PhaseOk, Apply, Enabled;
    if WorkerOnly(step) {
      PhaseWorker(s, step);
    } else if step.Hand? || step.Exit? {
      PhaseHandExit(s, step);
    } else {
      PhaseProducer(s, step);
    }
  }

  lemma SkippedKept(s: State, step: Step)
    requires FateOk(s) && BlameOk(s) && Enabled(s, step)
    ensures var t := Apply(s, step); forall i :: 0 <= i < |t.log.fate| && t.log.fate[i].Skipped? ==> t.shared.stopped
  {
  }

  ghost predicate Blamed(s: State) {
    s.log.entered != [] || exists w :: 0 <= w < |s.workers| && s.workers[w].Calling?
  }

  lemma BlamedKept(s: State, step: Step)
    requires Blamed(s) && Enabled(s, step)
    ensures Blamed(Apply(s, step))
  {
    if s.log.entered == [] {
      var w :| 0 <= w < |s.workers| && s.workers[w].Calling?;
      var t := Apply(s, step);
      assert t.log.entered != [] || t.workers[w].Calling?;
    }
  }

  lemma BrokeNow(s: State, step: Step)
    requires FateOk(s) && Enabled(s, step)
    requires exists i :: 0 <= i < |Apply(s, step).log.fate| && Apply(s, step).log.fate[i].Broke?
    ensures (exists i :: 0 <= i < |s.log.fate| && s.log.fate[i].Broke?) || Blamed(Apply(s, step))
  {
    var t := Apply(s, step);
    var i :| 0 <= i < |t.log.fate| && t.log.fate[i].Broke?;
    if step.Finish? && step.outcome.Some? {
      assert t.workers[step.w].Calling?;
    } else {
      assert s.log.fate[i].Broke?;
    }
  }

  lemma BlameKept(s: State, step: Step)
    requires FateOk(s) && BlameOk(s) && Enabled(s, step)
    ensures BlameOk(Apply(s, step))
  {
    SkippedKept(s, step);
    var t := Apply(s, step);
    hide FateOk, Apply, Enabled;
    if exists i :: 0 <= i < |t.log.fate| && t.log.fate[i].Broke? {
      BrokeNow(s, step);
      if !Blamed(t) {
        BlamedKept(s, step);
      }
    }
  }

  lemma InvInitial(samples: nat, concurrency: nat)
    ensures Inv(Initial(samples, concurrency))
  {
  }

  lemma SizesKept(s: State, step: Step)
    requires Enabled(s, step)
    ensures Apply(s, step).samples == s.samples && |Apply(s, step).workers| == |s.workers|
  {
  }

  /** The invariant holds in every state of every interleaving, and samples and workers stay as many as they were. */
  lemma {:induction false} InvHolds(samples: nat, concurrency: nat, states: seq<State>, steps: seq<Step>, k: nat)
    requires IsRun(samples, concurrency, states, steps) && k < |states|
    ensures Inv(states[k]) && states[k].samples == samples && |states[k].workers| == concurrency
  {
    hide FateOk, RunsOk, OnceOk, PhaseOk, BlameOk, Apply, Enabled;
    if k == 0 {
      InvInitial(samples, concurrency);
    } else {
      InvHolds(samples, concurrency, states, steps, k - 1);
      var s, step := states[k - 1], steps[k - 1];
      FateKept(s, step);
      RunsKept(s, step);
      OnceKept(s, step);
      PhaseKept(s, step);
      BlameKept(s, step);
      SizesKept(s, step);
    }
  }

  // ----- Consequences -----

  /** In every interleaving the operation runs at most once on each index. */
  lemma AtMostOnce(samples: nat, concurrency: nat, states: seq<State>, steps: seq<Step>, k: nat, i: nat)
    requires IsRun(samples, concurrency, states, steps) && k < |states| && i < samples
    ensures |states[k].log.runs| == samples && states[k].log.runs[i] <= 1
  {
    InvHolds(samples, concurrency, states, steps, k);
    hide FateOk, OnceOk, PhaseOk, BlameOk, IsRun;
  }

  lemma NilInState(s: State)
    requires Inv(s) && s.producer == Returned(None)
    ensures |s.log.fate| == s.samples == |s.log.runs|
    ensures forall i :: 0 <= i < s.samples ==> s.log.fate[i] == Succeeded && s.log.runs[i] == 1
  {
    NobodyInside(s);
    hide OnceOk;
    forall i | 0 <= i < |s.log.fate|
      ensures s.log.fate[i] == Succeeded
    {
      assert !s.log.fate[i].Broke?;
    }
  }

  /** Returning no error means that the operation ran exactly once on every index, and succeeded. */
  lemma NilMeansAllSucceeded(samples: nat, concurrency: nat, states: seq<State>, steps: seq<Step>, k: nat)
    requires IsRun(samples, concurrency, states, steps) && k < |states| && states[k].producer == Returned(None)
    ensures |states[k].log.fate| == samples == |states[k].log.runs|
    ensures forall i :: 0 <= i < samples ==> states[k].log.fate[i] == Succeeded && states[k].log.runs[i] == 1
  {
    InvHolds(samples, concurrency, states, steps, k);
    NilInState(states[k]);
    hide IsRun, Inv;
  }

  lemma NobodyInside(s: State)
    requires OnceOk(s) && PhaseOk(s) && s.producer.Returned?
    ensures !s.shared.once.Busy?
    ensures s.producer.result.None? ==> s.log.entered == [] && !s.shared.stopped
    ensures s.producer.result.Some? ==> s.log.entered != [] && s.producer.result.value == s.log.entered[0]
  {
  }

  /** The error returned is the one that reached once.Do first. */
  lemma ErrorIsTheFirst(samples: nat, concurrency: nat, states: seq<State>, steps: seq<Step>, k: nat)
    requires IsRun(samples, concurrency, states, steps) && k < |states| && states[k].producer.Returned?
    ensures states[k].producer.result ==
      if states[k].log.entered == [] then None else Some(states[k].log.entered[0])
  {
    InvHolds(samples, concurrency, states, steps, k);
    NobodyInside(states[k]);
    hide IsRun, Inv;
  }

  /** An error that came from somewhere: an operation returned it, or it is the context's after a cancellation. */
  ghost predicate Genuine(steps: seq<Step>, s: State, e: Err) {
    (e == Context && s.shared.cancelled) || exists j :: 0 <= j < |steps| && steps[j].Finish? && steps[j].outcome == Some(e)
  }

  ghost predicate AllGenuine(steps: seq<Step>, s: State) {
    && (forall i :: 0 <= i < |s.log.entered| ==> Genuine(steps, s, s.log.entered[i]))
    && (forall w :: 0 <= w < |s.workers| && s.workers[w].Calling? ==> Genuine(steps, s, s.workers[w].err))
    && (s.producer.PCalling? ==> s.shared.cancelled)
  }

  /** What a step adds to the errors under way. */
  lemma ErrorsMove(s: State, step: Step)
    requires Enabled(s, step)
    ensures var t := Apply(s, step);
      && (s.shared.cancelled ==> t.shared.cancelled) && |t.workers| == |s.workers|
      && (t.producer.PCalling? ==> s.producer.PCalling? || s.shared.cancelled)
      && (t.log.entered == s.log.entered
          || (s.producer.PCalling? && t.log.entered == s.log.entered + [Context])
          || (step.Enter? && s.workers[step.w].Calling? && t.log.entered == s.log.entered + [s.workers[step.w].err]))
      && (forall w :: 0 <= w < |s.workers| && t.workers[w].Calling? ==>
            t.workers[w] == s.workers[w] || (step.Finish? && step.outcome == Some(t.workers[w].err)))
  {
    if ByWorkerStep(step) {
      hide ApplyProducer;
    } else {
      hide ApplyWorker;
    }
  }

  lemma GenuineKept(steps: seq<Step>, s: State, step: Step)
    requires AllGenuine(steps, s) && Enabled(s, step)
    ensures AllGenuine(steps + [step], Apply(s, step))
  {
    ErrorsMove(s, step);
    hide Apply, Enabled;
    var t := Apply(s, step);
    forall e | Genuine(steps, s, e)
      ensures Genuine(steps + [step], t, e)
    {
      if j :| 0 <= j < |steps| && steps[j].Finish? && steps[j].outcome == Some(e) {
        assert (steps + [step])[j] == steps[j];
      }
    }
    assert (steps + [step])[|steps|] == step;
    if s.producer.PCalling? {
      assert Genuine(steps, s, Context);
    }
  }

  lemma {:induction false} ErrorsAreGenuine(samples: nat, concurrency: nat, states: seq<State>, steps: seq<Step>, k: nat)
    requires IsRun(samples, concurrency, states, steps) && k < |states|
    ensures AllGenuine(steps[..k], states[k])
  {
    hide Apply, Enabled;
    if k > 0 {
      ErrorsAreGenuine(samples, concurrency, states, steps, k - 1);
      GenuineKept(steps[..k - 1], states[k - 1], steps[k - 1]);
      assert steps[..k] == steps[..k - 1] + [steps[k - 1]];
    }
  }

  /** Nothing is made up: a returned error was returned by the operation, or the context was cancelled. */
  lemma ReturnedErrorIsGenuine(samples: nat, concurrency: nat, states: seq<State>, steps: seq<Step>, k: nat)
    requires IsRun(samples, concurrency, states, steps) && k < |states|
    requires states[k].producer.Returned? && states[k].producer.result.Some?
    ensures Genuine(steps[..k], states[k], states[k].producer.result.value)
  {
    ErrorIsTheFirst(samples, concurrency, states, steps, k);
    ErrorsAreGenuine(samples, concurrency, states, steps, k);
    hide IsRun, Genuine;
  }

  // ----- No state is stuck -----

  function WorkerStep(s: State, w: nat): Step
    requires w < |s.workers|
  {
    match s.workers[w]
    case Idle => Exit(w)
    case Got(_) => Look(w)
    case Running(_) => Finish(w, None)
    case Calling(_) => Enter(w)
    case Writing(_) => Write(w)
    case Storing(_) => Store(w)
    case Leaving(_) => Leave(w)
    case Exited => Exit(w)
  }

  /** Some step of the program, not of its environment, is possible. */
  ghost predicate CanMove(s: State) {
    exists step: Step :: !step.Cancel? && Enabled(s, step)
  }

  lemma WorkerMoves(s: State, w: nat)
    requires OnceOk(s) && w < |s.workers| && !s.workers[w].Exited? && (s.workers[w].Idle? ==> s.shared.closed)
    requires !ProducerInOnce(s.producer)
    ensures CanMove(s)
  {
    if s.workers[w].Calling? && s.shared.once.Busy? {
      var o := s.shared.once.owner.id;
      assert Enabled(s, WorkerStep(s, o));
    } else {
      assert Enabled(s, WorkerStep(s, w));
    }
  }

  lemma ProducerMoves(s: State)
    requires OnceOk(s)
    requires s.producer.Check? || s.producer.PCalling? || ProducerInOnce(s.producer) || s.producer.Closing?
    ensures CanMove(s)
  {
    if s.producer.PCalling? && s.shared.once.Busy? {
      WorkerMoves(s, s.shared.once.owner.id);
    } else {
      var step := match s.producer
        case Check(_) => LoopHead
        case PCalling(_) => EnterByProducer
        case PWriting(_) => WriteByProducer
        case PStoring(_) => StoreByProducer
        case PLeaving(_) => LeaveByProducer
        case _ => Close;
      assert Enabled(s, step);
    }
  }

  lemma SomeStep(s: State)
    requires Inv(s) && |s.workers| >= 1 && !s.producer.Returned?
    ensures CanMove(s)
  {
    if s.producer.Select? {
      if s.workers[0].Idle? {
        assert Enabled(s, Hand(0));
      } else {
        WorkerMoves(s, 0);
      }
    } else if s.producer.Waiting? {
      if w :| 0 <= w < |s.workers| && !s.workers[w].Exited? {
        WorkerMoves(s, w);
      } else {
        assert Enabled(s, Return);
      }
    } else {
      ProducerMoves(s);
    }
  }

  /** With at least one worker, some step is possible in every state of every run before the return. */
  lemma NeverStuck(samples: nat, concurrency: nat, states: seq<State>, steps: seq<Step>, k: nat)
    requires IsRun(samples, concurrency, states, steps) && k < |states|
    requires concurrency >= 1 && !states[k].producer.Returned?
    ensures CanMove(states[k])
  {
    InvHolds(samples, concurrency, states, steps, k);
    SomeStep(states[k]);
    hide IsRun, Inv, CanMove;
  }

  /** Without workers, an uncancelled producer with a sample to hand out waits forever. */
  lemma NoWorkersStuck(samples: nat)
    requires samples > 0
    ensures var s := Apply(Initial(samples, 0), LoopHead); s.producer.Select? && !CanMove(s)
  {
  }

  // ----- Every run ends -----

  function WorkerRank(worker: Worker): nat {
    match worker
    case Got(_) => 7
    case Running(_) => 6
    case Calling(_) => 5
    case Writing(_) => 4
    case Storing(_) => 3
    case Leaving(_) => 2
    case Idle => 1
    case Exited => 0
  }

  function WorkersRank(workers: seq<Worker>): nat {
    if workers == [] then 0 else WorkersRank(workers[..|workers| - 1]) + WorkerRank(workers[|workers| - 1])
  }

  function ProducerRank(p: Producer, samples: nat): nat {
    match p
    case Check(i) => 20 * Left(samples, i) + 10
    case Select(i) => 20 * Left(samples, i) + 9
    case PCalling(i) => 20 * Left(samples, i) + 8
    case PWriting(i) => 20 * Left(samples, i) + 7
    case PStoring(i) => 20 * Left(samples, i) + 6
    case PLeaving(i) => 20 * Left(samples, i) + 5
    case Closing => 4
    case Waiting => 3
    case Returned(_) => 0
  }

  function Left(samples: nat, i: nat): nat { if i < samples then samples - i else 0 }

  function Rank(s: State): nat {
    ProducerRank(s.producer, s.samples) + WorkersRank(s.workers)
  }

  lemma {:induction false} RankUpdate(workers: seq<Worker>, w: nat, worker: Worker)
    requires w < |workers|
    ensures WorkersRank(workers[w := worker]) == WorkersRank(workers) - WorkerRank(workers[w]) + WorkerRank(worker)
    ensures WorkersRank(workers) >= WorkerRank(workers[w])
    decreases |workers|
  {
    hide WorkerRank;
    var n := |workers| - 1;
    if w < n {
      RankUpdate(workers[..n], w, worker);
      assert workers[w := worker][..n] == workers[..n][w := worker];
    } else {
      assert workers[w := worker][..n] == workers[..n];
    }
  }

  lemma RankDropsWorker(s: State, step: Step)
    requires PhaseOk(s) && Enabled(s, step) && ByWorkerStep(step)
    ensures Rank(Apply(s, step)) < Rank(s)
  {
    var t := Apply(s, step);
    var w := step.w;
    assert t.workers == s.workers[w := t.workers[w]] && t.samples == s.samples;
    assert step.Hand? || (t.producer == s.producer && WorkerRank(t.workers[w]) < WorkerRank(s.workers[w]));
    RankUpdate(s.workers, w, t.workers[w]);
    hide ApplyWorker, WorkersRank;
  }

  /** Every step of the program lowers the rank, whatever the schedule. */
  lemma RankDrops(s: State, step: Step)
    requires PhaseOk(s) && Enabled(s, step) && !step.Cancel?
    ensures Rank(Apply(s, step)) < Rank(s)
  {
    if ByWorkerStep(step) {
      RankDropsWorker(s, step);
      hide Apply, PhaseOk;
    } else {
      ProducerSteps(s, step);
      hide WorkersRank, ApplyWorker;
    }
  }

  function ProgramSteps(steps: seq<Step>): nat {
    if steps == [] then 0
    else ProgramSteps(steps[..|steps| - 1]) + (if steps[|steps| - 1].Cancel? then 0 else 1)
  }

  /** No run takes more program steps than the rank of its first state: every schedule ends. */
  lemma {:induction false} RunsAreBounded(samples: nat, concurrency: nat, states: seq<State>, steps: seq<Step>)
    requires IsRun(samples, concurrency, states, steps)
    ensures ProgramSteps(steps) + Rank(states[|steps|]) <= Rank(Initial(samples, concurrency))
    decreases |steps|
  {
    hide Apply, Enabled, Rank, Initial, FateOk, RunsOk, OnceOk, PhaseOk, BlameOk;
    if steps != [] {
      var n := |steps| - 1;
      assert IsRun(samples, concurrency, states[..n + 1], steps[..n]);
      RunsAreBounded(samples, concurrency, states[..n + 1], steps[..n]);
      InvHolds(samples, concurrency, states, steps, n);
      if steps[n].Cancel? {
        CancelKeepsRank(states[n]);
      } else {
        RankDrops(states[n], steps[n]);
      }
    }
  }

  lemma CancelKeepsRank(s: State)
    ensures Enabled(s, Cancel) && Rank(Apply(s, Cancel)) == Rank(s)
  {
    hide WorkersRank, ApplyWorker;
  }
}
