/**
 Switching between the local broker stack and a remote broker (broker_mode.rs:
 `connect_remote`, `switch_local`, `begin_transition`, `transition_guard`,
 `teardown_remote`, `update_shell_config`, `update_link`).

 Transitions are optimistic: an attempt takes a number, waits for a probe or a
 startup, and commits under the transition lock only if no attempt took a later
 number. `Brokers` is the shared state, `World` adds the attempts in flight and
 the fate of every local runtime ever started.
 */
module BrokerSwitch {
  import opened Basics

  datatype Mode = Local | Remote

  datatype Profile = Profile(
    mode: Mode, url: Option<string>, connected: bool, error: Option<string>, hasSavedToken: bool)

  datatype Backend = LocalBackend(runtime: nat) | RemoteBackend(url: string)

  /** shell.json: the broker choice beside settings that are not the broker's. */
  datatype Shell = Shell(mode: Option<Mode>, remoteUrl: Option<string>, notifications: string, lock: string)

  datatype Brokers = Brokers(
    epoch: nat,
    backend: Backend,
    local: Option<nat>,       // the local runtime in the slot
    remote: Option<string>,   // the URL of the armed event stream
    profile: Profile,
    tokens: map<string, string>,
    shell: Shell,
    scope: string)            // the attention coordinator's scope

  const LOCAL_PROFILE: Profile := Profile(Local, None, true, None, false)

  function RemoteProfile(url: string): Profile {
    Profile(Remote, Some(url), true, None, true)
  }

  function ScopeKey(p: Profile): string {
    if p.mode == Remote && p.url.Some? then "remote:" + p.url.value else "local"
  }

  function SetProfile(b: Brokers, p: Profile): Brokers {
    b.(profile := p, scope := ScopeKey(p))
  }

  function Begin(b: Brokers): Brokers {
    b.(epoch := b.epoch + 1)
  }

  /** The token a connect uses: the one given, else the one saved for the URL. */
  function ChooseToken(b: Brokers, url: string, given: Option<string>): Option<string> {
    if given.Some? && given.value != "" then given
    else if url in b.tokens then Some(b.tokens[url]) else None
  }

  /** The commit of `connect_remote`; failing saves are logged and otherwise ignored. */
  function CommitRemote(b: Brokers, url: string, token: string, tokenSaves: bool, shellSaves: bool): Brokers {
    SetProfile(
      b.(tokens := if tokenSaves then b.tokens[url := token] else b.tokens,
         shell := if shellSaves then b.shell.(mode := Some(Remote), remoteUrl := Some(url)) else b.shell,
         local := None,
         backend := RemoteBackend(url),
         remote := Some(url)),
      RemoteProfile(url))
  }

  /** The commit of `switch_local`. */
  function CommitLocal(b: Brokers, runtime: nat, shellSaves: bool): Brokers {
    SetProfile(
      b.(remote := None,
         local := Some(runtime),
         backend := LocalBackend(runtime),
         shell := if shellSaves then b.shell.(mode := Some(Local), remoteUrl := b.profile.url) else b.shell),
      LOCAL_PROFILE)
  }

  function UpdateLink(b: Brokers, connected: bool, error: Option<string>): Brokers {
    if b.profile.mode != Remote then b
    else b.(profile := b.profile.(connected := connected, error := error))
  }

  // ---- attempts in flight ----

  datatype Attempt =
    | Connecting(epoch: nat, url: string, token: string)
    | Glimpsed(wasLocal: bool)            // `switch_local` has looked at the profile
    | Peeked(alreadyLocal: bool)          // and at the slot, but has not yet taken a number
    | Starting(epoch: nat)
    | Holding(epoch: nat, runtime: nat)   // the local stack is up, the commit is still to come
    | Dropping(runtime: nat)              // a displaced or refused runtime on its way out

  datatype Commit = Commit(epoch: nat, mode: Mode, url: Option<string>)

  datatype World = World(
    brokers: Brokers,
    attempts: map<nat, Attempt>,
    started: set<nat>,
    dropped: multiset<nat>,
    commits: seq<Commit>,
    allSaved: bool,            // no shell.json write of a transition has failed
    startUrl: Option<string>)  // the saved remote URL the shell was launched with

  datatype Event =
    | ConnectBegin(id: nat, url: string, given: Option<string>)
    | ProbeFails(id: nat)
    | ConnectFinish(id: nat, tokenSaves: bool, shellSaves: bool)
    | PeekProfile(id: nat)
    | PeekSlot(id: nat)
    | Proceed(id: nat)
    | StartFails(id: nat)
    | Starts(id: nat, runtime: nat)
    | LocalFinish(id: nat, shellSaves: bool)
    | DropDone(id: nat)
    | Link(connected: bool, error: Option<string>)
    | SaveNotifications(value: string)
    | SaveLock(value: string)

  function Held(a: Attempt): Option<nat> {
    if a.Holding? || a.Dropping? then Some(a.runtime) else None
  }

  /** No local stack is alive anywhere: not in the slot, not with an attempt, not half dropped. */
  ghost predicate NoneAlive(w: World) {
    w.brokers.local.None? && forall id <- w.attempts :: Held(w.attempts[id]).None?
  }

  /** The instance lock admits a local stack only while none is alive; everything else may happen any time. */
  ghost predicate Enabled(w: World, e: Event) {
    match e
    case ConnectBegin(id, _, _) => id !in w.attempts
    case PeekProfile(id) => id !in w.attempts
    case PeekSlot(id) => id in w.attempts && w.attempts[id].Glimpsed?
    case ProbeFails(id) => id in w.attempts && w.attempts[id].Connecting?
    case ConnectFinish(id, _, _) => id in w.attempts && w.attempts[id].Connecting?
    case Proceed(id) => id in w.attempts && w.attempts[id].Peeked?
    case StartFails(id) => id in w.attempts && w.attempts[id].Starting?
    case Starts(id, rt) => id in w.attempts && w.attempts[id].Starting? && rt !in w.started && NoneAlive(w)
    case LocalFinish(id, _) => id in w.attempts && w.attempts[id].Holding?
    case DropDone(id) => id in w.attempts && w.attempts[id].Dropping?
    case _ => true
  }

  predicate Commits(w: World, e: Event) {
    match e
    case ConnectFinish(id, _, _) =>
      id in w.attempts && w.attempts[id].Connecting? && w.attempts[id].epoch == w.brokers.epoch
    case LocalFinish(id, _) =>
      id in w.attempts && w.attempts[id].Holding? && w.attempts[id].epoch == w.brokers.epoch
    case _ => false
  }

  ghost function BrokersStep(w: World, e: Event): Brokers
    requires Enabled(w, e)
  {
    var b := w.brokers;
    match e
    case ConnectBegin(_, url, given) => if ChooseToken(b, url, given).Some? then Begin(b) else b
    case Proceed(_) => Begin(b)
    case ConnectFinish(id, ts, ss) =>
      if Commits(w, e) then CommitRemote(b, w.attempts[id].url, w.attempts[id].token, ts, ss) else b
    case LocalFinish(id, ss) => if Commits(w, e) then CommitLocal(b, w.attempts[id].runtime, ss) else b
    case Link(c, err) => UpdateLink(b, c, err)
    case SaveNotifications(v) => b.(shell := b.shell.(notifications := v))
    case SaveLock(v) => b.(shell := b.shell.(lock := v))
    case _ => b
  }

  ghost function AttemptsStep(w: World, e: Event): map<nat, Attempt>
    requires Enabled(w, e)
  {
    var b, all := w.brokers, w.attempts;
    match e
    case ConnectBegin(id, url, given) =>
      var token := ChooseToken(b, url, given);
      if token.Some? then all[id := Connecting(b.epoch + 1, url, token.value)] else all
    case ProbeFails(id) => all - {id}
    case ConnectFinish(id, _, _) =>
      if Commits(w, e) && b.local.Some? then all[id := Dropping(b.local.value)] else all - {id}
    case PeekProfile(id) => all[id := Glimpsed(b.profile.mode == Local)]
    case PeekSlot(id) => all[id := Peeked(all[id].wasLocal && b.local.Some?)]
    case Proceed(id) => if all[id].alreadyLocal then all - {id} else all[id := Starting(b.epoch + 1)]
    case StartFails(id) => all - {id}
    case Starts(id, rt) => all[id := Holding(all[id].epoch, rt)]
    case LocalFinish(id, _) => if Commits(w, e) then all - {id} else all[id := Dropping(all[id].runtime)]
    case DropDone(id) => all - {id}
    case _ => all
  }

  ghost function CommitsStep(w: World, e: Event): seq<Commit>
    requires Enabled(w, e)
  {
    if !Commits(w, e) then w.commits
    else if e.ConnectFinish? then w.commits + [Commit(w.brokers.epoch, Remote, Some(w.attempts[e.id].url))]
    else w.commits + [Commit(w.brokers.epoch, Local, None)]
  }

  ghost function Step(w: World, e: Event): World
    requires Enabled(w, e)
  {
    World(BrokersStep(w, e), AttemptsStep(w, e),
          if e.Starts? then w.started + {e.runtime} else w.started,
          if e.DropDone? then w.dropped + multiset{w.attempts[e.id].runtime} else w.dropped,
          CommitsStep(w, e),
          w.allSaved && (Commits(w, e) ==> e.shellSaves),
          w.startUrl)
  }

  // ---- slot coherence ----

  /** The newest remote URL chosen, counting the one the shell was launched with. */
  ghost function LastRemote(commits: seq<Commit>, startUrl: Option<string>): Option<string> {
    if commits == [] then startUrl else
      var n := |commits| - 1;
      if commits[n].mode == Remote then commits[n].url else LastRemote(commits[..n], startUrl)
  }

  /**
   Whenever the transition lock is free, mode, slots, backend and attention scope
   tell the same story. Only a shell launched in remote mode that has not
   connected yet stands without an armed stream.
   */
  ghost predicate Coherent(w: World) {
    var b := w.brokers;
    && b.scope == ScopeKey(b.profile)
    && match b.profile.mode
       case Local =>
         && b.local.Some? && b.remote.None?
         && b.backend == LocalBackend(b.local.value)
         && b.profile.url.None?
       case Remote =>
         && b.local.None?
         && b.profile.url.Some?
         && b.profile.url == LastRemote(w.commits, w.startUrl)
         && (w.commits != [] ==> b.remote == b.profile.url && b.backend == RemoteBackend(b.profile.url.value))
  }

  /** What shell.json says, as long as the transitions' writes succeed. */
  ghost predicate ShellSound(w: World) {
    w.commits != [] && w.allSaved ==>
      w.brokers.shell.mode == Some(w.brokers.profile.mode)
      && w.brokers.shell.remoteUrl == LastRemote(w.commits, w.startUrl)
  }

  /** The profile on show is the choice of the newest commit. */
  ghost predicate ShowsNewest(w: World) {
    w.commits != [] ==>
      var c := w.commits[|w.commits| - 1];
      w.brokers.profile.mode == c.mode && w.brokers.profile.url == c.url
  }

  // ---- runtime conservation ----

  ghost predicate RuntimesSound(w: World) {
    && (forall i <- w.attempts, j <- w.attempts
          | Held(w.attempts[i]).Some? && Held(w.attempts[j]).Some? :: i == j)
    && (w.brokers.local.Some? ==> forall i <- w.attempts :: Held(w.attempts[i]).None?)
    && (forall rt :: w.dropped[rt] <= 1)
    && (forall rt :: rt in w.started <==> Alive(w, rt) || rt in w.dropped)
    && (forall rt :: Alive(w, rt) ==> rt !in w.dropped)
  }

  /** `rt` is in the slot or with an attempt. */
  ghost predicate Alive(w: World, rt: nat) {
    w.brokers.local == Some(rt) || exists i <- w.attempts :: Held(w.attempts[i]) == Some(rt)
  }

  // ---- numbering ----

  predicate Numbered(a: Attempt) {
    a.Connecting? || a.Starting? || a.Holding?
  }

  /** Numbers in use are distinct and were all drawn. */
  ghost predicate NumbersSound(epoch: nat, attempts: map<nat, Attempt>) {
    && (forall i <- attempts :: Numbered(attempts[i]) ==> attempts[i].epoch <= epoch)
    && (forall i <- attempts, j <- attempts
          | Numbered(attempts[i]) && Numbered(attempts[j]) && attempts[i].epoch == attempts[j].epoch :: i == j)
  }

  /** Commits come in the order of their numbers, and a number commits at most once. */
  ghost predicate CommitsSound(epoch: nat, attempts: map<nat, Attempt>, commits: seq<Commit>) {
    && (forall i <- attempts, n | Numbered(attempts[i]) && 0 <= n < |commits| :: commits[n].epoch != attempts[i].epoch)
    && (forall n | 0 <= n < |commits| :: commits[n].epoch <= epoch)
    && (forall m, n | 0 <= m < n < |commits| :: commits[m].epoch < commits[n].epoch)
  }

  ghost predicate EpochsSound(w: World) {
    NumbersSound(w.brokers.epoch, w.attempts) && CommitsSound(w.brokers.epoch, w.attempts, w.commits)
  }

  /** Everything numbered after a step was numbered before it, with the same number, or drew the new one. */
  lemma NumbersCarryOver(w: World, e: Event, i: nat)
    requires Enabled(w, e) && i in AttemptsStep(w, e) && Numbered(AttemptsStep(w, e)[i])
    ensures var n := AttemptsStep(w, e)[i].epoch;
            || (i in w.attempts && Numbered(w.attempts[i]) && w.attempts[i].epoch == n && !(Commits(w, e) && i == e.id))
            || (n == w.brokers.epoch + 1 == BrokersStep(w, e).epoch && (e.ConnectBegin? || e.Proceed?) && i == e.id)
  {}

  lemma EpochOnlyGrows(w: World, e: Event)
    requires Enabled(w, e)
    ensures w.brokers.epoch <= BrokersStep(w, e).epoch
  {}

  lemma StepKeepsNumbers(w: World, e: Event)
    requires NumbersSound(w.brokers.epoch, w.attempts) && Enabled(w, e)
    ensures NumbersSound(BrokersStep(w, e).epoch, AttemptsStep(w, e))
  {
    EpochOnlyGrows(w, e);
    forall i | i in AttemptsStep(w, e) && Numbered(AttemptsStep(w, e)[i])
      ensures AttemptsStep(w, e)[i].epoch <= BrokersStep(w, e).epoch {
      NumbersCarryOver(w, e, i);
    }
    forall i, j | i in AttemptsStep(w, e) && j in AttemptsStep(w, e)
                  && Numbered(AttemptsStep(w, e)[i]) && Numbered(AttemptsStep(w, e)[j])
                  && AttemptsStep(w, e)[i].epoch == AttemptsStep(w, e)[j].epoch
      ensures i == j {
      NumbersCarryOver(w, e, i);
      NumbersCarryOver(w, e, j);
    }
  }

  lemma StepKeepsCommits(w: World, e: Event)
    requires EpochsSound(w) && Enabled(w, e)
    ensures CommitsSound(BrokersStep(w, e).epoch, AttemptsStep(w, e), CommitsStep(w, e))
  {
    EpochOnlyGrows(w, e);
    var next := CommitsStep(w, e);
    if Commits(w, e) {
      assert next[..|w.commits|] == w.commits && |next| == |w.commits| + 1;
      assert next[|w.commits|].epoch == w.brokers.epoch == w.attempts[e.id].epoch;
    }
    forall i, n | i in AttemptsStep(w, e) && Numbered(AttemptsStep(w, e)[i]) && 0 <= n < |next|
      ensures next[n].epoch != AttemptsStep(w, e)[i].epoch {
      NumbersCarryOver(w, e, i);
    }
  }

  /** Starting makes a runtime alive, dropping ends it, and every other step only moves it. */
  lemma AliveAfter(w: World, e: Event, rt: nat)
    requires RuntimesSound(w) && Enabled(w, e)
    ensures Alive(Step(w, e), rt) <==>
            if e.DropDone? && w.attempts[e.id].runtime == rt then false
            else Alive(w, rt) || (e.Starts? && e.runtime == rt)
  {
    var w' := Step(w, e);
    if Alive(w, rt) && w.brokers.local != Some(rt) {
      var i :| i in w.attempts && Held(w.attempts[i]) == Some(rt);
      assert w'.brokers.local == Some(rt) || (e.DropDone? && i == e.id) || Held(w'.attempts[i]) == Some(rt);
    } else if w.brokers.local == Some(rt) {
      assert w'.brokers.local == Some(rt) || Held(w'.attempts[e.id]) == Some(rt);
    } else if e.Starts? && e.runtime == rt {
      assert Held(w'.attempts[e.id]) == Some(rt);
    }
  }

  lemma StepKeepsOneAlive(w: World, e: Event)
    requires RuntimesSound(w) && Enabled(w, e)
    ensures var w' := Step(w, e);
            && (forall i <- w'.attempts, j <- w'.attempts
                  | Held(w'.attempts[i]).Some? && Held(w'.attempts[j]).Some? :: i == j)
            && (w'.brokers.local.Some? ==> forall i <- w'.attempts :: Held(w'.attempts[i]).None?)
  {}

  lemma StepKeepsRuntimes(w: World, e: Event)
    requires RuntimesSound(w) && Enabled(w, e)
    ensures RuntimesSound(Step(w, e))
  {
    var w' := Step(w, e);
    StepKeepsOneAlive(w, e);
    if e.DropDone? {
      assert Held(w.attempts[e.id]) == Some(w.attempts[e.id].runtime);
      assert Alive(w, w.attempts[e.id].runtime);
    }
    forall rt: nat
      ensures rt in w'.started <==> Alive(w', rt) || rt in w'.dropped
      ensures Alive(w', rt) ==> rt !in w'.dropped {
      AliveAfter(w, e, rt);
    }
  }

  lemma StepKeepsCoherent(w: World, e: Event)
    requires Coherent(w) && RuntimesSound(w) && Enabled(w, e)
    ensures Coherent(Step(w, e))
  {}

  lemma StepKeepsShell(w: World, e: Event)
    requires Coherent(w) && RuntimesSound(w) && ShellSound(w) && Enabled(w, e)
    ensures ShellSound(Step(w, e))
  {}

  lemma StepKeepsShown(w: World, e: Event)
    requires ShowsNewest(w) && Enabled(w, e)
    ensures ShowsNewest(Step(w, e))
  {}

  // ---- whole runs ----

  ghost predicate Inv(w: World) {
    EpochsSound(w) && RuntimesSound(w) && Coherent(w) && ShellSound(w) && ShowsNewest(w)
  }

  lemma StepKeepsInv(w: World, e: Event)
    requires Inv(w) && Enabled(w, e)
    ensures Inv(Step(w, e))
  {
    StepKeepsNumbers(w, e);
    StepKeepsCommits(w, e);
    StepKeepsRuntimes(w, e);
    StepKeepsCoherent(w, e);
    StepKeepsShell(w, e);
    StepKeepsShown(w, e);
  }

  /** The two ways the shell is launched. */
  ghost predicate Initial(w: World) {
    var b := w.brokers;
    && b.epoch == 0 && w.attempts == map[] && w.dropped == multiset{} && w.commits == [] && w.allSaved
    && b.remote.None? && b.scope == ScopeKey(b.profile)
    && ((&& b.profile == LOCAL_PROFILE && b.local.Some? && w.started == {b.local.value}
         && b.backend == LocalBackend(b.local.value))
        || (&& b.profile.mode == Remote && b.profile.url.Some? && b.local.None? && w.started == {}
            && b.profile.url == w.startUrl && b.backend.RemoteBackend?))
  }

  ghost predicate Runs(w: World, es: Trace<Event>)
    decreases es
  {
    es.Then? ==> Enabled(w, es.head) && Runs(Step(w, es.head), es.tail)
  }

  ghost function Run(w: World, es: Trace<Event>): World
    requires Runs(w, es)
    decreases es
  {
    if es.Done? then w else Run(Step(w, es.head), es.tail)
  }

  lemma {:induction false} RunKeepsInv(w: World, es: Trace<Event>)
    requires Inv(w) && Runs(w, es)
    ensures Inv(Run(w, es))
    decreases es
  {
    if es.Then? {
      StepKeepsInv(w, es.head);
      RunKeepsInv(Step(w, es.head), es.tail);
    }
  }

  ghost predicate Reachable(v: World) {
    exists w, es :: Initial(w) && Runs(w, es) && Run(w, es) == v
  }

  /** Coherence, conservation and numbering hold in every reachable state. */
  lemma ReachableIsSound(v: World)
    requires Reachable(v)
    ensures Inv(v)
  {
    var w, es :| Initial(w) && Runs(w, es) && Run(w, es) == v;
    RunKeepsInv(w, es);
  }

  /**
   Slot coherence: in local mode the slot is filled, no stream is armed and the
   backend is the slot's; in remote mode after a commit the slot is empty and
   stream and backend are those of the profile's URL; and with working writes
   shell.json says the same and still knows the last remote URL.
   */
  lemma ModesAreCoherent(v: World)
    requires Reachable(v)
    ensures v.brokers.profile.mode == Local ==>
              && v.brokers.local.Some? && v.brokers.remote.None?
              && v.brokers.backend == LocalBackend(v.brokers.local.value)
    ensures v.brokers.profile.mode == Remote ==> v.brokers.local.None? && v.brokers.profile.url.Some?
    ensures v.brokers.profile.mode == Remote && v.commits != [] ==>
              v.brokers.remote == v.brokers.profile.url
              && v.brokers.backend == RemoteBackend(v.brokers.profile.url.value)
    ensures v.brokers.scope == ScopeKey(v.brokers.profile)
    ensures v.commits != [] && v.allSaved ==>
              v.brokers.shell.mode == Some(v.brokers.profile.mode)
              && v.brokers.shell.remoteUrl == LastRemote(v.commits, v.startUrl)
  {
    ReachableIsSound(v);
  }

  /**
   Conservation: every runtime ever started is in the slot, with exactly one
   attempt, or was dropped exactly once.
   */
  lemma RuntimesAreConserved(v: World, rt: nat)
    requires Reachable(v) && rt in v.started
    ensures if v.brokers.local == Some(rt)
            then v.dropped[rt] == 0 && forall i <- v.attempts :: Held(v.attempts[i]) != Some(rt)
            else if exists i <- v.attempts :: Held(v.attempts[i]) == Some(rt)
            then v.dropped[rt] == 0
                 && forall i <- v.attempts, j <- v.attempts
                      | Held(v.attempts[i]) == Some(rt) && Held(v.attempts[j]) == Some(rt) :: i == j
            else v.dropped[rt] == 1
  {
    ReachableIsSound(v);
  }

  /** The slot is never overwritten: a local commit always finds it empty, in remote mode. */
  lemma LocalCommitFindsEmptySlot(v: World, id: nat, shellSaves: bool)
    requires Reachable(v) && Enabled(v, LocalFinish(id, shellSaves))
    ensures v.brokers.local == None && v.brokers.profile.mode == Remote
  {
    ReachableIsSound(v);
    assert Held(v.attempts[id]).Some?;
  }

  /** Committed numbers strictly increase, and the choice on show is that of the newest commit. */
  lemma NewestCommitWins(v: World)
    requires Reachable(v)
    ensures forall m, n | 0 <= m < n < |v.commits| :: v.commits[m].epoch < v.commits[n].epoch
    ensures v.commits != [] ==>
              var c := v.commits[|v.commits| - 1];
              v.brokers.profile.mode == c.mode && v.brokers.profile.url == c.url
  {
    ReachableIsSound(v);
  }

  lemma {:induction false} EpochNeverFalls(w: World, es: Trace<Event>)
    requires Runs(w, es)
    ensures w.brokers.epoch <= Run(w, es).brokers.epoch
    decreases es
  {
    if es.Then? {
      EpochOnlyGrows(w, es.head);
      EpochNeverFalls(Step(w, es.head), es.tail);
    }
  }

  /** `e` is a step of the attempt that holds `number`. */
  predicate ActsFor(w: World, e: Event, number: nat) {
    && (e.ProbeFails? || e.ConnectFinish? || e.StartFails? || e.Starts? || e.LocalFinish?)
    && e.id in w.attempts && Numbered(w.attempts[e.id]) && w.attempts[e.id].epoch == number
  }

  /**
   An overtaken attempt applies nothing: however the run goes on, no later step of
   it touches backend, slots, profile, tokens, shell.json or scope.
   */
  lemma OvertakenAppliesNothing(w: World, es: Trace<Event>, e: Event, number: nat)
    requires number < w.brokers.epoch && Runs(w, es)
    requires Enabled(Run(w, es), e) && ActsFor(Run(w, es), e, number)
    ensures Step(Run(w, es), e).brokers == Run(w, es).brokers && Step(Run(w, es), e).commits == Run(w, es).commits
  {
    EpochNeverFalls(w, es);
  }

  /**
   An attempt that was not overtaken does commit: its choice is then in force, its
   runtime or stream in place, and the link shown as up.
   */
  lemma NewestAttemptCommits(w: World, e: Event)
    requires Inv(w) && Enabled(w, e) && (e.ConnectFinish? || e.LocalFinish?)
    requires w.attempts[e.id].epoch == w.brokers.epoch
    ensures var a, v := w.attempts[e.id], Step(w, e);
            && v.brokers.profile.connected && v.brokers.profile.error.None?
            && v.commits == w.commits + [Commit(a.epoch, if a.Holding? then Local else Remote, v.brokers.profile.url)]
            && (a.Holding? ==>
                  && v.brokers.profile.mode == Local && !v.brokers.profile.hasSavedToken
                  && v.brokers.local == Some(a.runtime)
                  && v.brokers.backend == LocalBackend(a.runtime) && v.brokers.remote.None?)
            && (a.Connecting? ==>
                  && v.brokers.profile.mode == Remote && v.brokers.profile.url == Some(a.url)
                  && v.brokers.profile.hasSavedToken
                  && v.brokers.backend == RemoteBackend(a.url) && v.brokers.remote == Some(a.url) && v.brokers.local.None?)
  {}

  /** The link as reported: by the last event of the stream in remote mode, else as the last commit left it. */
  ghost function LastLink(w: World, es: Trace<Event>, before: (bool, Option<string>)): (bool, Option<string>)
    requires Runs(w, es)
    decreases es
  {
    if es.Done? then before
    else
      var e := es.head;
      LastLink(Step(w, e), es.tail,
        if e.Link? && w.brokers.profile.mode == Remote then (e.connected, e.error)
        else if Commits(w, e) then (true, None)
        else before)
  }

  lemma {:induction false} LinkIsLastReported(w: World, es: Trace<Event>)
    requires Runs(w, es)
    ensures (Run(w, es).brokers.profile.connected, Run(w, es).brokers.profile.error) ==
            LastLink(w, es, (w.brokers.profile.connected, w.brokers.profile.error))
    decreases es
  {
    if es.Then? {
      LinkIsLastReported(Step(w, es.head), es.tail);
    }
  }

  /** The attention scope tells every broker from every other, and from this machine. */
  lemma ScopesAreDistinct(p: Profile, q: Profile)
    requires p.mode == Remote ==> p.url.Some?
    requires q.mode == Remote ==> q.url.Some?
    ensures ScopeKey(p) == ScopeKey(q) <==> p.mode == q.mode && (p.mode == Remote ==> p.url == q.url)
  {
    var prefix := "remote:";
    if p.mode == Remote && q.mode == Remote && ScopeKey(p) == ScopeKey(q) {
      assert ScopeKey(p)[|prefix|..] == p.url.value && ScopeKey(q)[|prefix|..] == q.url.value;
    }
    assert "local"[0] == 'l' && prefix[0] == 'r';
    if p.mode == Remote {
      assert ScopeKey(p)[0] == 'r';
    }
    if q.mode == Remote {
      assert ScopeKey(q)[0] == 'r';
    }
  }

  /** Once overtaken, always overtaken: no continuation of the run lets the number commit. */
  lemma {:induction false} OvertakenNeverCommits(w: World, es: Trace<Event>, number: nat)
    requires Runs(w, es) && number < w.brokers.epoch
    requires forall n | 0 <= n < |w.commits| :: w.commits[n].epoch != number
    ensures forall n | 0 <= n < |Run(w, es).commits| :: Run(w, es).commits[n].epoch != number
    decreases es
  {
    if es.Then? {
      EpochOnlyGrows(w, es.head);
      OvertakenNeverCommits(Step(w, es.head), es.tail, number);
    }
  }

  // ---- what is saved beside the choice ----

  predicate SavesToken(w: World, e: Event, url: string) {
    e.ConnectFinish? && Commits(w, e) && e.tokenSaves && w.attempts[e.id].url == url
  }

  ghost predicate NeverSavesToken(w: World, es: Trace<Event>, url: string)
    requires Runs(w, es)
    decreases es
  {
    es.Then? ==> !SavesToken(w, es.head, url) && NeverSavesToken(Step(w, es.head), es.tail, url)
  }

  lemma {:induction false} TokenStays(w: World, es: Trace<Event>, url: string)
    requires Runs(w, es) && NeverSavesToken(w, es, url)
    ensures ChooseToken(Run(w, es).brokers, url, None) == ChooseToken(w.brokers, url, None)
    decreases es
  {
    if es.Then? {
      TokenStays(Step(w, es.head), es.tail, url);
    }
  }

  /**
   The token a committed connect saves is the one every later connect to that URL
   can do without, until another one is saved for it.
   */
  lemma SavedTokenIsReused(w: World, e: Event, es: Trace<Event>, url: string)
    requires Enabled(w, e) && SavesToken(w, e, url)
    requires Runs(Step(w, e), es) && NeverSavesToken(Step(w, e), es, url)
    ensures ChooseToken(Run(Step(w, e), es).brokers, url, None) == Some(w.attempts[e.id].token)
  {
    TokenStays(Step(w, e), es, url);
  }

  /** A token the user types is the one the connect uses, whatever is saved for that URL. */
  lemma TypedTokenIsUsed(w: World, id: nat, url: string, token: string)
    requires Enabled(w, ConnectBegin(id, url, Some(token))) && token != ""
    ensures var v := Step(w, ConnectBegin(id, url, Some(token)));
            id in v.attempts && v.attempts[id] == Connecting(w.brokers.epoch + 1, url, token)
  {}

  /** Without one, the saved token is used; with neither there is no attempt and nothing changes. */
  lemma UntypedTokenIsSaved(w: World, id: nat, url: string, given: Option<string>)
    requires Enabled(w, ConnectBegin(id, url, given)) && (given.None? || given.value == "")
    ensures var v := Step(w, ConnectBegin(id, url, given));
            if url in w.brokers.tokens
            then id in v.attempts && v.attempts[id] == Connecting(w.brokers.epoch + 1, url, w.brokers.tokens[url])
            else v == w
  {}

  ghost predicate LeavesAlone(es: Trace<Event>, id: nat)
    decreases es
  {
    es.Then? ==> es.head != ProbeFails(id) && !(es.head.ConnectFinish? && es.head.id == id) && LeavesAlone(es.tail, id)
  }

  lemma {:induction false} ConnectWaits(w: World, es: Trace<Event>, id: nat)
    requires Runs(w, es) && LeavesAlone(es, id) && id in w.attempts && w.attempts[id].Connecting?
    ensures id in Run(w, es).attempts && Run(w, es).attempts[id] == w.attempts[id]
    decreases es
  {
    if es.Then? {
      assert id in Step(w, es.head).attempts && Step(w, es.head).attempts[id] == w.attempts[id];
      ConnectWaits(Step(w, es.head), es.tail, id);
    }
  }

  /**
   Over runs: a typed token that a connect carries to its commit and saves is what
   every later connect to that URL without a token uses, until another is saved.
   */
  lemma TypedTokenReplacesSaved(w: World, id: nat, url: string, token: string,
                                before: Trace<Event>, shellSaves: bool, after: Trace<Event>)
    requires Enabled(w, ConnectBegin(id, url, Some(token))) && token != ""
    requires Runs(Step(w, ConnectBegin(id, url, Some(token))), before) && LeavesAlone(before, id)
    requires var u := Run(Step(w, ConnectBegin(id, url, Some(token))), before);
             && u.brokers.epoch == w.brokers.epoch + 1
             && Enabled(u, ConnectFinish(id, true, shellSaves))
             && Runs(Step(u, ConnectFinish(id, true, shellSaves)), after)
             && NeverSavesToken(Step(u, ConnectFinish(id, true, shellSaves)), after, url)
    ensures var u := Run(Step(w, ConnectBegin(id, url, Some(token))), before);
            var v := Run(Step(u, ConnectFinish(id, true, shellSaves)), after);
            forall next | next !in v.attempts ::
              var x := Step(v, ConnectBegin(next, url, None));
              next in x.attempts && x.attempts[next] == Connecting(v.brokers.epoch + 1, url, token)
  {
    TypedTokenIsUsed(w, id, url, token);
    var w1 := Step(w, ConnectBegin(id, url, Some(token)));
    ConnectWaits(w1, before, id);
    var u := Run(w1, before);
    SavedTokenIsReused(u, ConnectFinish(id, true, shellSaves), after, url);
    var v := Run(Step(u, ConnectFinish(id, true, shellSaves)), after);
    forall next | next !in v.attempts
      ensures var x := Step(v, ConnectBegin(next, url, None));
              next in x.attempts && x.attempts[next] == Connecting(v.brokers.epoch + 1, url, token) {
      UntypedTokenIsSaved(v, next, url, None);
    }
  }

  function LastNotifications(es: Trace<Event>, before: string): string {
    match es
    case Done => before
    case Then(e, rest) => LastNotifications(rest, if e.SaveNotifications? then e.value else before)
  }

  function LastLock(es: Trace<Event>, before: string): string {
    match es
    case Done => before
    case Then(e, rest) => LastLock(rest, if e.SaveLock? then e.value else before)
  }

  /**
   Transitions and settings share shell.json without overwriting each other: after
   any run the settings in it are the ones saved last.
   */
  lemma {:induction false} SettingsSurvive(w: World, es: Trace<Event>)
    requires Runs(w, es)
    ensures Run(w, es).brokers.shell.notifications == LastNotifications(es, w.brokers.shell.notifications)
    ensures Run(w, es).brokers.shell.lock == LastLock(es, w.brokers.shell.lock)
    decreases es
  {
    if es.Then? {
      SettingsSurvive(Step(w, es.head), es.tail);
    }
  }

  ghost predicate NeverSavesChoice(w: World, es: Trace<Event>)
    requires Runs(w, es)
    decreases es
  {
    es.Then? ==> !(Commits(w, es.head) && es.head.shellSaves) && NeverSavesChoice(Step(w, es.head), es.tail)
  }

  /** And the broker choice in it stands until a transition commits and its write succeeds. */
  lemma {:induction false} ChoiceSurvives(w: World, es: Trace<Event>)
    requires Runs(w, es) && NeverSavesChoice(w, es)
    ensures Run(w, es).brokers.shell.mode == w.brokers.shell.mode
    ensures Run(w, es).brokers.shell.remoteUrl == w.brokers.shell.remoteUrl
    decreases es
  {
    if es.Then? {
      ChoiceSurvives(Step(w, es.head), es.tail);
    }
  }

  // ---- re-picking this machine ----

  /** A connect attempt that no later attempt has overtaken, still waiting for its probe. */
  ghost predicate ConnectPending(w: World) {
    exists i <- w.attempts :: w.attempts[i].Connecting? && w.attempts[i].epoch == w.brokers.epoch
  }

  ghost predicate NoConnectBegins(es: Trace<Event>)
    decreases es
  {
    es.Then? ==> !es.head.ConnectBegin? && NoConnectBegins(es.tail)
  }

  lemma StayLocalStep(w: World, e: Event)
    requires Inv(w) && Enabled(w, e) && !e.ConnectBegin?
    requires w.brokers.profile.mode == Local && !ConnectPending(w)
    ensures Step(w, e).brokers.profile.mode == Local && !ConnectPending(Step(w, e))
  {
    var w' := Step(w, e);
    EpochOnlyGrows(w, e);
    forall i | i in w'.attempts && w'.attempts[i].Connecting?
      ensures i in w.attempts && w.attempts[i] == w'.attempts[i] {
    }
  }

  /**
   Re-picking this machine while already local looks before it takes its number.
   The shell stays local through whatever happens in between as long as no
   un-overtaken connect was waiting when it looked and none begins meanwhile.
   */
  lemma {:induction false} RepickStaysLocal(w: World, es: Trace<Event>)
    requires Inv(w) && Runs(w, es) && NoConnectBegins(es)
    requires w.brokers.profile.mode == Local && !ConnectPending(w)
    ensures Run(w, es).brokers.profile.mode == Local
    decreases es
  {
    if es.Then? {
      StayLocalStep(w, es.head);
      StepKeepsInv(w, es.head);
      RepickStaysLocal(Step(w, es.head), es.tail);
    }
  }

  lemma RunsBack(w: World, e: Event, es: Trace<Event>)
    requires Enabled(w, e) && Runs(Step(w, e), es)
    ensures Runs(w, Then(e, es)) && Run(w, Then(e, es)) == Run(Step(w, e), es)
  {}

  /**
   And only then: with such a connect waiting there is an interleaving in which
   the look succeeds, the connect commits, and the re-pick then returns as if it
   had won, leaving the shell remote although it was the later choice.
   */
  lemma RepickCanBeLost(w: World, id: nat) returns (es: Trace<Event>)
    requires Inv(w) && w.brokers.profile.mode == Local && ConnectPending(w) && id !in w.attempts
    ensures Runs(w, es) && NoConnectBegins(es)
    ensures es.Then? && es.head == PeekProfile(id) && id !in Run(w, es).attempts
    ensures Run(w, es).brokers.epoch == w.brokers.epoch + 1
    ensures Run(w, es).brokers.profile.mode == Remote
  {
    var i :| i in w.attempts && w.attempts[i].Connecting? && w.attempts[i].epoch == w.brokers.epoch;
    var w1 := Step(w, PeekProfile(id));
    var w2 := Step(w1, PeekSlot(id));
    var e3 := LostAfterLook(w2, id, i);
    RunsBack(w1, PeekSlot(id), e3);
    RunsBack(w, PeekProfile(id), Then(PeekSlot(id), e3));
    es := Then(PeekProfile(id), Then(PeekSlot(id), e3));
    assert NoConnectBegins(es.tail);
  }

  /** The re-pick has looked and seen itself local; the connect with the newest number commits, then the re-pick goes on. */
  lemma LostAfterLook(w: World, id: nat, i: nat) returns (es: Trace<Event>)
    requires id in w.attempts && w.attempts[id] == Peeked(true)
    requires i in w.attempts && w.attempts[i].Connecting? && w.attempts[i].epoch == w.brokers.epoch
    ensures Runs(w, es) && NoConnectBegins(es) && id !in Run(w, es).attempts
    ensures Run(w, es).brokers.epoch == w.brokers.epoch + 1
    ensures Run(w, es).brokers.profile.mode == Remote
  {
    var finish := ConnectFinish(i, true, true);
    var w1 := Step(w, finish);
    var w2 := Step(w1, Proceed(id));
    assert Runs(w2, Done) && Run(w2, Done) == w2;
    RunsBack(w1, Proceed(id), Done);
    RunsBack(w, finish, Then(Proceed(id), Done));
    es := Then(finish, Then(Proceed(id), Done));
    assert NoConnectBegins(es.tail);
  }

  /** It takes no more than a launch and one connect to get there. */
  lemma RepickIsLostFromLaunch(w: World, url: string, token: string) returns (es: Trace<Event>)
    requires Initial(w) && w.brokers.profile.mode == Local && token != ""
    ensures Runs(w, Then(ConnectBegin(0, url, Some(token)), es)) && NoConnectBegins(es)
    ensures es.Then? && es.head == PeekProfile(1)
    ensures var v := Run(w, Then(ConnectBegin(0, url, Some(token)), es));
            v.brokers.profile.mode == Remote && v.brokers.epoch == 2
  {
    var begin := ConnectBegin(0, url, Some(token));
    assert Runs(w, Done) && Run(w, Done) == w;
    ReachableIsSound(w);
    StepKeepsInv(w, begin);
    var w1 := Step(w, begin);
    assert w1.attempts[0] == Connecting(1, url, token);
    es := RepickCanBeLost(w1, 1);
    RunsBack(w, begin, es);
  }
}
