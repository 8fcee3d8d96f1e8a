/**
 Authoritative reads of a remote broker's queues complete out of order
 (attention.rs: `accepts_remote_version`, `begin_remote_refresh`,
 `reconcile_remote`, the refresh part of `set_scope`; broker_mode.rs: the refresh
 task of `arm_sse`).

 `Refresh` is the part of the coordinator that decides which snapshot to apply.
 `World` runs it against brokers that advance and restart on their own, and
 against reads that are begun, answered and delivered in any interleaving.
 */
module RemoteRefresh {
  import opened Basics

  datatype Version = Version(epoch: string, seq_: nat)

  datatype Refresh = Refresh(generation: nat, last: Option<Version>)

  predicate Accepts(r: Refresh, generation: nat, v: Version) {
    if r.last.Some? && r.last.value.epoch == v.epoch
    then v.seq_ > r.last.value.seq_
    else generation == r.generation
  }

  function Begin(r: Refresh): Refresh {
    r.(generation := r.generation + 1)
  }

  function Rescope(r: Refresh): Refresh {
    Refresh(r.generation + 1, None)
  }

  function Apply(r: Refresh, v: Version): Refresh {
    r.(last := Some(v))
  }

  // ---- the brokers behind the reads ----

  /** How far one broker has come: which of its runs, and how far into that run. */
  datatype Pos = Pos(run: nat, seq_: nat)

  predicate Le(a: Pos, b: Pos) {
    a.run < b.run || (a.run == b.run && a.seq_ <= b.seq_)
  }

  predicate Lt(a: Pos, b: Pos) {
    a.run < b.run || (a.run == b.run && a.seq_ < b.seq_)
  }

  /** The epoch names of every run of this broker process so far, and its present sequence number. */
  datatype Broker = Broker(epochs: seq<string>, seq_: nat)

  /** A read: which broker it asks, where that broker was when the read began, and what it answered. */
  datatype Fetch = Fetch(broker: nat, begun: Pos, answer: Option<Pos>)

  datatype Applied = Applied(broker: nat, pos: Pos, generation: nat)

  datatype World = World(
    refresh: Refresh,
    brokers: map<nat, Broker>,
    inFlight: map<nat, Fetch>,   // keyed by the generation the read was given
    log: seq<Applied>,           // snapshots applied since the last scope change
    scopeFloor: nat)             // the generation the last scope change established

  function Now(b: Broker): Pos
    requires b.epochs != []
  {
    Pos(|b.epochs| - 1, b.seq_)
  }

  datatype Event =
    | Advance(broker: nat)
    | Restart(broker: nat, epoch: string, seq_: nat)
    | ScopeChange
    | BeginRead(broker: nat)
    | Answer(generation: nat)
    | Deliver(generation: nat)
    | Lose(generation: nat)

  /** Epoch names are never reused, by any run of any broker. */
  ghost predicate DistinctEpochs(brokers: map<nat, Broker>) {
    forall b <- brokers, c <- brokers, i, j
      | 0 <= i < |brokers[b].epochs| && 0 <= j < |brokers[c].epochs|
      && brokers[b].epochs[i] == brokers[c].epochs[j]
      :: b == c && i == j
  }

  ghost predicate FreshEpoch(brokers: map<nat, Broker>, epoch: string) {
    forall b <- brokers :: epoch !in brokers[b].epochs
  }

  /** A read is answered after it began and before it is delivered; nothing else is assumed. */
  ghost predicate Enabled(w: World, e: Event) {
    match e
    case Advance(b) => b in w.brokers
    case Restart(b, epoch, _) => b in w.brokers && FreshEpoch(w.brokers, epoch)
    case ScopeChange => true
    case BeginRead(b) => b in w.brokers && w.brokers[b].epochs != []
    case Answer(g) => g in w.inFlight && w.inFlight[g].broker in w.brokers
                      && w.brokers[w.inFlight[g].broker].epochs != []
    case Deliver(g) => g in w.inFlight && Answered(w, w.inFlight[g])
    case Lose(g) => g in w.inFlight
  }

  ghost predicate Answered(w: World, f: Fetch) {
    f.answer.Some? && f.broker in w.brokers && f.answer.value.run < |w.brokers[f.broker].epochs|
  }

  ghost function VersionAt(w: World, broker: nat, pos: Pos): Version
    requires broker in w.brokers && pos.run < |w.brokers[broker].epochs|
  {
    Version(w.brokers[broker].epochs[pos.run], pos.seq_)
  }

  ghost function AnswerOf(w: World, g: nat): Version
    requires g in w.inFlight && Answered(w, w.inFlight[g])
  {
    VersionAt(w, w.inFlight[g].broker, w.inFlight[g].answer.value)
  }

  ghost function Step(w: World, e: Event): World
    requires Enabled(w, e)
  {
    match e
    case Advance(b) => w.(brokers := w.brokers[b := w.brokers[b].(seq_ := w.brokers[b].seq_ + 1)])
    case Restart(b, epoch, s) => w.(brokers := w.brokers[b := Broker(w.brokers[b].epochs + [epoch], s)])
    case ScopeChange =>
      w.(refresh := Rescope(w.refresh), log := [], scopeFloor := Rescope(w.refresh).generation)
    case BeginRead(b) =>
      var r := Begin(w.refresh);
      w.(refresh := r, inFlight := w.inFlight[r.generation := Fetch(b, Now(w.brokers[b]), None)])
    case Answer(g) =>
      var f := w.inFlight[g];
      w.(inFlight := w.inFlight[g := f.(answer := Some(Now(w.brokers[f.broker])))])
    case Deliver(g) =>
      var f, v := w.inFlight[g], AnswerOf(w, g);
      var rest := w.(inFlight := w.inFlight - {g});
      if Accepts(w.refresh, g, v)
      then rest.(refresh := Apply(w.refresh, v), log := w.log + [Applied(f.broker, f.answer.value, g)])
      else rest
    case Lose(g) => w.(inFlight := w.inFlight - {g})
  }

  // ---- the invariant ----

  ghost predicate BrokersOk(w: World) {
    && (forall b <- w.brokers :: w.brokers[b].epochs != [])
    && DistinctEpochs(w.brokers)
  }

  ghost predicate FetchOk(w: World, g: nat, f: Fetch)
    requires BrokersOk(w)
  {
    && g <= w.refresh.generation
    && f.broker in w.brokers
    && Le(f.begun, Now(w.brokers[f.broker]))
    && (f.answer.Some? ==> Le(f.begun, f.answer.value) && Le(f.answer.value, Now(w.brokers[f.broker])))
  }

  ghost predicate LogOk(w: World)
    requires BrokersOk(w)
  {
    && (forall i | 0 <= i < |w.log| ::
          w.log[i].broker in w.brokers && Le(w.log[i].pos, Now(w.brokers[w.log[i].broker])))
    && w.refresh.last == (if w.log == [] then None
                          else var a := w.log[|w.log| - 1]; Some(VersionAt(w, a.broker, a.pos)))
  }

  /** `a` stems from the same run of the same broker as the newest applied snapshot. */
  ghost predicate InNewestRun(w: World, a: Applied) {
    w.log != [] && w.log[|w.log| - 1].broker == a.broker && w.log[|w.log| - 1].pos.run == a.pos.run
  }

  /**
   The heart of the protocol: while the newest read is outstanding, everything
   applied from its broker was seen before the read began, save possibly later
   snapshots of the run that was already established by then.
   */
  ghost predicate NewestReadOk(w: World) {
    w.refresh.generation in w.inFlight ==>
      var f := w.inFlight[w.refresh.generation];
      forall i | 0 <= i < |w.log| && w.log[i].broker == f.broker ::
        w.log[i].pos.run <= f.begun.run && (Le(w.log[i].pos, f.begun) || InNewestRun(w, w.log[i]))
  }

  /** Snapshots of one broker never go back, and neighbours of one broker strictly advance. */
  ghost predicate NeverBack(log: seq<Applied>) {
    && (forall i, j | 0 <= i < j < |log| && log[i].broker == log[j].broker :: Le(log[i].pos, log[j].pos))
    && (forall j | 0 < j < |log| && log[j - 1].broker == log[j].broker :: Lt(log[j - 1].pos, log[j].pos))
  }

  ghost predicate Inv(w: World) {
    && BrokersOk(w)
    && (forall g <- w.inFlight :: FetchOk(w, g, w.inFlight[g]))
    && LogOk(w)
    && NewestReadOk(w)
    && NeverBack(w.log)
    && w.scopeFloor <= w.refresh.generation
  }

  /** `c` is broker `b` at the same moment or later. */
  ghost predicate Later(b: Broker, c: Broker)
    requires b.epochs != [] && c.epochs != []
  {
    b.epochs <= c.epochs && Le(Now(b), Now(c))
  }

  lemma BrokersMovingOnKeepsInv(w: World, brokers: map<nat, Broker>)
    requires Inv(w) && brokers.Keys == w.brokers.Keys
    requires forall b <- brokers :: brokers[b].epochs != [] && Later(w.brokers[b], brokers[b])
    requires DistinctEpochs(brokers)
    ensures Inv(w.(brokers := brokers))
  {
    var w' := w.(brokers := brokers);
    assert BrokersOk(w');
    forall i | 0 <= i < |w.log|
      ensures w.log[i].broker in brokers && Le(w.log[i].pos, Now(brokers[w.log[i].broker])) {
      assert Later(w.brokers[w.log[i].broker], brokers[w.log[i].broker]);
    }
    forall g | g in w.inFlight ensures FetchOk(w', g, w.inFlight[g]) {
      assert FetchOk(w, g, w.inFlight[g]);
      assert Later(w.brokers[w.inFlight[g].broker], brokers[w.inFlight[g].broker]);
    }
    assert LogOk(w');
    assert NewestReadOk(w');
  }

  lemma RestartKeepsDistinct(brokers: map<nat, Broker>, b: nat, epoch: string, s: nat)
    requires b in brokers && DistinctEpochs(brokers) && FreshEpoch(brokers, epoch)
    ensures DistinctEpochs(brokers[b := Broker(brokers[b].epochs + [epoch], s)])
  {}

  lemma BrokerStepKeepsInv(w: World, e: Event)
    requires Inv(w) && Enabled(w, e) && (e.Advance? || e.Restart?)
    ensures Inv(Step(w, e))
  {
    var brokers := Step(w, e).brokers;
    if e.Restart? {
      RestartKeepsDistinct(w.brokers, e.broker, e.epoch, e.seq_);
    }
    assert brokers.Keys == w.brokers.Keys;
    BrokersMovingOnKeepsInv(w, brokers);
  }

  lemma BeginKeepsInv(w: World, e: Event)
    requires Inv(w) && Enabled(w, e) && (e.ScopeChange? || e.BeginRead?)
    ensures Inv(Step(w, e))
  {}

  lemma AnswerKeepsInv(w: World, e: Event)
    requires Inv(w) && Enabled(w, e) && (e.Answer? || e.Lose?)
    ensures Inv(Step(w, e))
  {}

  /** Why an accepted snapshot is never behind what was applied from its broker. */
  lemma AcceptedIsAhead(w: World, g: nat)
    requires Inv(w) && Enabled(w, Deliver(g)) && Accepts(w.refresh, g, AnswerOf(w, g))
    ensures var f := w.inFlight[g];
            && (forall i | 0 <= i < |w.log| && w.log[i].broker == f.broker :: Le(w.log[i].pos, f.answer.value))
            && (w.log != [] && w.log[|w.log| - 1].broker == f.broker ==>
                  Lt(w.log[|w.log| - 1].pos, f.answer.value))
  {
    var f, v := w.inFlight[g], AnswerOf(w, g);
    if w.log != [] {
      var top := w.log[|w.log| - 1];
      assert w.refresh.last == Some(VersionAt(w, top.broker, top.pos));
      if w.refresh.last.value.epoch == v.epoch {
        assert top.broker == f.broker && top.pos.run == f.answer.value.run;
        forall i | 0 <= i < |w.log| && w.log[i].broker == f.broker ensures Le(w.log[i].pos, f.answer.value) {
          assert Le(w.log[i].pos, top.pos);
        }
      } else {
        assert g == w.refresh.generation;
        forall i | 0 <= i < |w.log| && w.log[i].broker == f.broker ensures Le(w.log[i].pos, f.answer.value) {
        }
      }
    }
  }

  lemma LogGrowsForward(log: seq<Applied>, a: Applied)
    requires NeverBack(log)
    requires forall i | 0 <= i < |log| && log[i].broker == a.broker :: Le(log[i].pos, a.pos)
    requires log != [] && log[|log| - 1].broker == a.broker ==> Lt(log[|log| - 1].pos, a.pos)
    ensures NeverBack(log + [a])
  {}

  lemma DeliverKeepsInv(w: World, g: nat)
    requires Inv(w) && Enabled(w, Deliver(g))
    ensures Inv(Step(w, Deliver(g)))
  {
    var w' := Step(w, Deliver(g));
    assert FetchOk(w, g, w.inFlight[g]);
    if Accepts(w.refresh, g, AnswerOf(w, g)) {
      AcceptedIsAhead(w, g);
      LogGrowsForward(w.log, w'.log[|w.log|]);
      NewestReadSurvives(w, g);
    }
  }

  lemma NewestReadSurvives(w: World, g: nat)
    requires Inv(w) && Enabled(w, Deliver(g)) && Accepts(w.refresh, g, AnswerOf(w, g))
    ensures NewestReadOk(Step(w, Deliver(g)))
  {
    var w' := Step(w, Deliver(g));
    if w.refresh.generation in w'.inFlight {
      // `g` was overtaken, so it can only have continued the established run.
      var f, top := w.inFlight[g], w.log[|w.log| - 1];
      assert top.broker == f.broker && top.pos.run == f.answer.value.run;
      forall i | 0 <= i < |w.log| ensures InNewestRun(w, w.log[i]) ==> InNewestRun(w', w'.log[i]) {
      }
    }
  }

  lemma StepKeepsInv(w: World, e: Event)
    requires Inv(w) && Enabled(w, e)
    ensures Inv(Step(w, e))
  {
    match e
    case Advance(_) => BrokerStepKeepsInv(w, e);
    case Restart(_, _, _) => BrokerStepKeepsInv(w, e);
    case Deliver(g) => DeliverKeepsInv(w, g);
    case Answer(_) => AnswerKeepsInv(w, e);
    case Lose(_) => AnswerKeepsInv(w, e);
    case _ => BeginKeepsInv(w, e);
  }

  // ---- runs ----

  ghost predicate Initial(w: World) {
    BrokersOk(w) && w.refresh == Refresh(0, None) && w.inFlight == map[] && w.log == [] && w.scopeFloor == 0
  }

  ghost predicate Runs(w: World, es: Trace<Event>)
    decreases es
  {
    es.Then? ==> Enabled(w, es.head) && Runs(Step(w, es.head), es.tail)
  }

  ghost function Run(w: World, es: Trace<Event>): World
    requires Runs(w, es)
    decreases es
  {
    if es.Done? then w else Run(Step(w, es.head), es.tail)
  }

  lemma {:induction false} RunKeepsInv(w: World, es: Trace<Event>)
    requires Inv(w) && Runs(w, es)
    ensures Inv(Run(w, es))
    decreases es
  {
    if es.Then? {
      StepKeepsInv(w, es.head);
      RunKeepsInv(Step(w, es.head), es.tail);
    }
  }

  /**
   No rollback: in every run, whatever reads were delayed, lost, reordered or
   overtaken by restarts, the snapshots applied within a scope never move any
   broker backwards, and strictly advance it as long as no other broker's
   snapshot comes between.
   */
  lemma NoRollback(w: World, es: Trace<Event>)
    requires Initial(w) && Runs(w, es)
    ensures NeverBack(Run(w, es).log)
  {
    RunKeepsInv(w, es);
  }

  /** With one broker behind the scope, the applied snapshots strictly increase. */
  lemma OneBrokerStrictlyIncreases(w: World, es: Trace<Event>, i: nat, j: nat)
    requires Initial(w) && Runs(w, es)
    requires var log := Run(w, es).log; i < j < |log| && forall k | 0 <= k < |log| :: log[k].broker == log[0].broker
    ensures Lt(Run(w, es).log[i].pos, Run(w, es).log[j].pos)
  {
    NoRollback(w, es);
    var log := Run(w, es).log;
    assert Le(log[i].pos, log[j - 1].pos) || i == j - 1;
    assert Lt(log[j - 1].pos, log[j].pos);
  }

  // ---- reads that outlive their scope ----

  ghost predicate AppliedNext(w: World, g: nat)
    requires Enabled(w, Deliver(g))
  {
    Step(w, Deliver(g)).log != w.log
  }

  /** The answer of read `g` lies further on in the run of the snapshot applied last. */
  ghost predicate ContinuesNewestRun(w: World, g: nat)
    requires Enabled(w, Deliver(g))
  {
    InNewestRun(w, Applied(w.inFlight[g].broker, w.inFlight[g].answer.value, g))
    && w.log[|w.log| - 1].pos.seq_ < w.inFlight[g].answer.value.seq_
  }

  /** The answer of read `g` stems from another run than the snapshot applied last, or is the first of its scope. */
  ghost predicate OpensRun(w: World, g: nat)
    requires Enabled(w, Deliver(g))
  {
    !InNewestRun(w, Applied(w.inFlight[g].broker, w.inFlight[g].answer.value, g))
  }

  /**
   Exactly which deliveries take effect: those that continue the established
   broker run, whichever read brings them, and those that establish a run, if they
   come from the newest read.
   */
  lemma AppliedIff(w: World, g: nat)
    requires Inv(w) && Enabled(w, Deliver(g))
    ensures AppliedNext(w, g) <==> ContinuesNewestRun(w, g) || (OpensRun(w, g) && g == w.refresh.generation)
  {
    var f, v := w.inFlight[g], AnswerOf(w, g);
    if w.log != [] {
      var top := w.log[|w.log| - 1];
      assert w.refresh.last.value.epoch == v.epoch <==> top.broker == f.broker && top.pos.run == f.answer.value.run;
    }
  }

  /**
   A generation taken before the last scope change is applied after it exactly
   when its snapshot continues, further on, the broker run of the snapshot applied
   last in the new scope. In particular it never opens a scope, and it is never
   applied when the new scope has only seen other broker runs.
   */
  lemma StaleAppliedIff(w: World, g: nat)
    requires Inv(w) && Enabled(w, Deliver(g)) && g < w.scopeFloor
    ensures AppliedNext(w, g) <==> ContinuesNewestRun(w, g)
  {
    AppliedIff(w, g);
  }

  /** The number a read is given is not that of any read still out. */
  lemma BeginDrawsFresh(w: World, broker: nat) returns (g: nat)
    requires Inv(w) && Enabled(w, BeginRead(broker))
    ensures g !in w.inFlight
    ensures Step(w, BeginRead(broker)).inFlight == w.inFlight[g := Fetch(broker, Now(w.brokers[broker]), None)]
    ensures Step(w, BeginRead(broker)).refresh.generation == g
  {
    g := Begin(w.refresh).generation;
    assert forall out <- w.inFlight :: out <= w.refresh.generation;
  }

  lemma {:induction false} GenerationNeverFalls(w: World, es: Trace<Event>)
    requires Runs(w, es)
    ensures w.refresh.generation <= Run(w, es).refresh.generation
    decreases es
  {
    if es.Then? {
      GenerationNeverFalls(Step(w, es.head), es.tail);
    }
  }

  /**
   A read that was out when the scope changed, however long it stays out and
   whatever happens meanwhile, is applied exactly when its snapshot continues,
   further on, the run of the snapshot applied last in the scope it arrives in. So
   it is never the first to be applied there.
   */
  lemma ReadOutlivesScope(w: World, g: nat, es: Trace<Event>)
    requires Inv(w) && g in w.inFlight
    requires Runs(Step(w, ScopeChange), es)
    requires Enabled(Run(Step(w, ScopeChange), es), Deliver(g))
    ensures var v := Run(Step(w, ScopeChange), es);
            && (AppliedNext(v, g) <==> ContinuesNewestRun(v, g))
            && (v.log == [] ==> !AppliedNext(v, g))
  {
    var u := Step(w, ScopeChange);
    assert FetchOk(w, g, w.inFlight[g]);
    StepKeepsInv(w, ScopeChange);
    RunKeepsInv(u, es);
    GenerationNeverFalls(u, es);
    AppliedIff(Run(u, es), g);
  }

  lemma RunsBack(w: World, e: Event, es: Trace<Event>)
    requires Enabled(w, e) && Runs(Step(w, e), es)
    ensures Runs(w, Then(e, es)) && Run(w, Then(e, es)) == Run(Step(w, e), es)
  {}

  /** A read of the only broker that was begun before anything happened there. */
  const EARLY: Fetch := Fetch(0, Pos(0, 0), None)

  /** The end of the run below: the new scope has applied read 4, the read of generation 1 is still out. */
  lemma StaleReadLandsAfter(w: World) returns (es: Trace<Event>)
    requires w.brokers == map[0 := Broker(["a"], 0)] && w.scopeFloor == 3
    requires w.refresh == Refresh(4, Some(Version("a", 0)))
    requires w.inFlight == map[1 := EARLY]
    ensures Runs(w, es) && Enabled(Run(w, es), Deliver(1))
    ensures 1 < Run(w, es).scopeFloor && AppliedNext(Run(w, es), 1)
  {
    var w1 := Step(w, Advance(0));
    var w2 := Step(w1, Answer(1));
    es := Then(Advance(0), Then(Answer(1), Done));
    assert Runs(w1, es.tail) && Run(w1, es.tail) == w2;
    assert AnswerOf(w2, 1) == Version("a", 1);
  }

  /** The middle: back in the scope, a new read is begun, answered and applied while the old one is out. */
  lemma StaleReadLandsOnReturn(w: World) returns (es: Trace<Event>)
    requires w.brokers == map[0 := Broker(["a"], 0)] && w.scopeFloor == 3
    requires w.refresh == Refresh(3, None)
    requires w.inFlight == map[1 := EARLY]
    ensures Runs(w, es) && Enabled(Run(w, es), Deliver(1))
    ensures 1 < Run(w, es).scopeFloor && AppliedNext(Run(w, es), 1)
  {
    var w1 := Step(w, BeginRead(0));
    assert w1.inFlight == map[1 := EARLY, 4 := EARLY];
    var w2 := Step(w1, Answer(4));
    assert AnswerOf(w2, 4) == Version("a", 0);
    var w3 := Step(w2, Deliver(4));
    assert w3.inFlight == map[1 := EARLY];
    var rest := StaleReadLandsAfter(w3);
    RunsBack(w2, Deliver(4), rest);
    RunsBack(w1, Answer(4), Then(Deliver(4), rest));
    es := Then(BeginRead(0), Then(Answer(4), Then(Deliver(4), rest)));
    RunsBack(w, BeginRead(0), es.tail);
  }

  /**
   Such an application does happen: leave a remote broker and come back while a
   read is still out, and the old read lands in the new scope.
   */
  lemma StaleReadCanLand() returns (w: World, es: Trace<Event>, g: nat)
    ensures Initial(w) && Runs(w, es) && Enabled(Run(w, es), Deliver(g))
    ensures g < Run(w, es).scopeFloor && AppliedNext(Run(w, es), g)
  {
    w, g := World(Refresh(0, None), map[0 := Broker(["a"], 0)], map[], [], 0), 1;
    var w1 := Step(w, BeginRead(0));
    var w2 := Step(w1, ScopeChange);
    var w3 := Step(w2, ScopeChange);
    var rest := StaleReadLandsOnReturn(w3);
    RunsBack(w2, ScopeChange, rest);
    RunsBack(w1, ScopeChange, Then(ScopeChange, rest));
    es := Then(BeginRead(0), Then(ScopeChange, Then(ScopeChange, rest)));
    RunsBack(w, BeginRead(0), es.tail);
  }
}
