/** The split process lease: any number of launches of one profile, each a coordinator holding half A, a
    guardian holding half B and the provider it spawns, talking over a private line protocol. */
module SplitLease {

  datatype Message = Ready | Abort | Start | Done | Garbled

  /** Half A is held from acquisition until the coordinator returns or dies. */
  datatype Coordinator =
    | Acquiring
    | Preparing                    // holds A, no guardian yet
    | Accepting                    // guardian spawned, READY awaited
    | SendingGo
    | Monitoring(started: bool)    // GO sent
    | WaitingProvider              // channel lost after START
    | Reaping                      // ABORT or DONE read, guardian awaited
    | Parked                       // channel lost before START: holds A for ever
    | Gone

  /** Half B is held from locking until the guardian exits or dies. */
  datatype Guardian =
    | Unspawned
    | Locking
    | Connecting
    | AwaitingGo
    | Preflight                    // GO read, provider not yet spawned
    | Spawned                      // provider spawned, START not yet written
    | Supervising
    | Completed                    // provider waited for, DONE not yet written
    | Finishing                    // ABORT or DONE written
    | Exited

  datatype Provider = NotSpawned | Alive | Ended

  datatype Launch = Launch(
    coordinator: Coordinator, guardian: Guardian, provider: Provider,
    goInFlight: bool, toCoordinator: seq<Message>,
    goSent: bool, coordinatorDied: bool, guardianDied: bool)

  const NewLaunch := Launch(Acquiring, Unspawned, NotSpawned, false, [], false, false, false)

  predicate HoldsA(l: Launch) {
    !l.coordinator.Acquiring? && !l.coordinator.Gone?
  }

  predicate HoldsB(l: Launch) {
    !l.guardian.Unspawned? && !l.guardian.Locking? && !l.guardian.Exited?
  }

  datatype Event =
    // coordinator
    | AcquireA | SpawnGuardian | ReadReady | SendGo | Monitor | ReapGuardian | ProviderGone
    | GiveUpBeforeGo               // any error return before GO, the guardian left to itself
    | KillBeforeGo                 // handshake failure: the guardian is killed and reaped first
    | CoordinatorDies
    // guardian
    | AcquireB | Connect | FailBeforeGo | ReadGo | SendAbort | SpawnProvider | SendStart | ReapProvider | SendDone
    | GuardianExits
    | GuardianDies(midLine: bool)  // possibly leaving a torn line behind
    // provider
    | ProviderEnds

  predicate LeaseFree(ls: seq<Launch>, held: Launch -> bool) {
    forall j :: 0 <= j < |ls| ==> !held(ls[j])
  }

  /** Whether the coordinator's reader sees end of file: nothing buffered and the guardian's end closed. */
  predicate ChannelClosed(l: Launch) {
    l.toCoordinator == [] && l.guardian.Exited?
  }

  function AfterMessage(started: bool, m: Message): Coordinator {
    match m
    case Garbled => if started then WaitingProvider else Parked
    case Abort => if started then Parked else Reaping
    case Done => if started then Reaping else Parked
    case Start => if started then Parked else Monitoring(true)
    case Ready => Parked
  }

  function MonitorStep(l: Launch): Launch
    requires l.coordinator.Monitoring?
  {
    var started := l.coordinator.started;
    if l.toCoordinator != []
    then l.(coordinator := AfterMessage(started, l.toCoordinator[0]), toCoordinator := l.toCoordinator[1..])
    else if ChannelClosed(l) then l.(coordinator := if started then WaitingProvider else Parked)
    else l
  }

  predicate BeforeGo(c: Coordinator) {
    c.Acquiring? || c.Preparing? || c.Accepting? || c.SendingGo?
  }

  function Say(l: Launch, m: Message): seq<Message> {
    l.toCoordinator + [m]
  }

  /** One event of one launch; an event that is not enabled changes nothing. */
  function Happen(ls: seq<Launch>, i: nat, e: Event): Launch
    requires i < |ls|
  {
    var l := ls[i];
    match e
    case AcquireA =>
      if l.coordinator.Acquiring? && LeaseFree(ls, HoldsA) then l.(coordinator := Preparing) else l
    case SpawnGuardian =>
      if l.coordinator.Preparing? then l.(coordinator := Accepting, guardian := Locking) else l
    case ReadReady =>
      if l.coordinator.Accepting? && l.toCoordinator != [] && l.toCoordinator[0] == Ready
      then l.(coordinator := SendingGo, toCoordinator := l.toCoordinator[1..]) else l
    case SendGo =>
      if l.coordinator.SendingGo? then l.(coordinator := Monitoring(false), goInFlight := true, goSent := true) else l
    case Monitor => if l.coordinator.Monitoring? then MonitorStep(l) else l
    case ReapGuardian => if l.coordinator.Reaping? && l.guardian.Exited? then l.(coordinator := Gone) else l
    case ProviderGone =>
      if l.coordinator.WaitingProvider? && !l.provider.Alive? && l.guardian.Exited? then l.(coordinator := Gone) else l
    case GiveUpBeforeGo => if BeforeGo(l.coordinator) then l.(coordinator := Gone) else l
    case KillBeforeGo =>
      if l.coordinator.Accepting? then l.(coordinator := Gone, guardian := Exited) else l
    case CoordinatorDies =>
      if !l.coordinator.Gone? then l.(coordinator := Gone, coordinatorDied := true) else l
    case AcquireB =>
      if l.guardian.Locking? && LeaseFree(ls, HoldsB) then l.(guardian := Connecting) else l
    case Connect =>
      if l.guardian.Connecting? && l.coordinator.Accepting?
      then l.(guardian := AwaitingGo, toCoordinator := Say(l, Ready)) else l
    case FailBeforeGo =>
      if l.guardian.Locking? || l.guardian.Connecting? || l.guardian.AwaitingGo? then l.(guardian := Exited) else l
    case ReadGo =>
      if l.guardian.AwaitingGo? && l.goInFlight then l.(guardian := Preflight, goInFlight := false) else l
    case SendAbort =>
      if l.guardian.Preflight? then l.(guardian := Finishing, toCoordinator := Say(l, Abort)) else l
    case SpawnProvider =>
      if l.guardian.Preflight? then l.(guardian := Spawned, provider := Alive) else l
    case SendStart =>
      if l.guardian.Spawned? then l.(guardian := Supervising, toCoordinator := Say(l, Start)) else l
    case ReapProvider =>
      if l.guardian.Supervising? && l.provider.Ended? then l.(guardian := Completed) else l
    case SendDone =>
      if l.guardian.Completed? then l.(guardian := Finishing, toCoordinator := Say(l, Done)) else l
    case GuardianExits => if l.guardian.Finishing? then l.(guardian := Exited) else l
    case GuardianDies(midLine) =>
      if l.guardian.Unspawned? || l.guardian.Exited? then l
      else l.(guardian := Exited, guardianDied := true,
              toCoordinator := if midLine then Say(l, Garbled) else l.toCoordinator)
    case ProviderEnds => if l.provider.Alive? then l.(provider := Ended) else l
  }

  datatype Step = Begin | At(launch: nat, event: Event)

  function Take(ls: seq<Launch>, s: Step): seq<Launch> {
    match s
    case Begin => ls + [NewLaunch]
    case At(i, e) => if i < |ls| then ls[i := Happen(ls, i, e)] else ls
  }

  function Run(steps: seq<Step>): seq<Launch> {
    if steps == [] then [] else Take(Run(steps[..|steps| - 1]), steps[|steps| - 1])
  }

  // ---- the invariant of one launch ------------------------------------------------------------

  predicate HasProvider(l: Launch) {
    l.provider.Alive?
  }

  /** The guardian still runs and has been, or may yet be, authorized. */
  predicate GuardianArmed(l: Launch) {
    l.goSent && HoldsB(l)
  }

  /** A provider is alive or may still come to life. */
  predicate Active(l: Launch) {
    GuardianArmed(l) || l.provider.Alive?
  }

  predicate PastGo(g: Guardian) {
    g.Preflight? || g.Spawned? || g.Supervising? || g.Completed? || g.Finishing?
  }

  predicate LaunchOk(l: Launch) {
    // authorization
    && (PastGo(l.guardian) || l.goInFlight || !l.provider.NotSpawned? ==> l.goSent)
    && (l.goSent ==>
          !BeforeGo(l.coordinator) && !l.guardian.Unspawned? && !l.guardian.Locking? && !l.guardian.Connecting?)
    && (l.coordinator.SendingGo? ==> l.guardian.AwaitingGo? || l.guardian.Exited?)
    && (Ready in l.toCoordinator ==> !l.guardian.Unspawned? && !l.guardian.Locking? && !l.guardian.Connecting?)
    && (l.coordinator.Acquiring? || l.coordinator.Preparing? ==> l.guardian.Unspawned?)
    && (!l.goSent ==> BeforeGo(l.coordinator) || l.coordinator.Gone?)
    // the provider and its guardian
    && (l.guardian.Spawned? ==> !l.provider.NotSpawned?)
    && ((l.guardian.AwaitingGo? || l.guardian.Preflight? || l.guardian.Unspawned? || l.guardian.Locking?
         || l.guardian.Connecting?) ==> l.provider.NotSpawned?)
    && (l.guardian.Completed? ==> l.provider.Ended?)
    && (l.guardian.Finishing? ==> !l.provider.Alive?)
    && (l.guardian.Exited? && l.provider.Alive? ==> l.guardianDied)
    // what a message proves
    && (Abort in l.toCoordinator ==> l.provider.NotSpawned? && (l.guardian.Finishing? || l.guardian.Exited?))
    && (Done in l.toCoordinator ==> l.provider.Ended? && (l.guardian.Finishing? || l.guardian.Exited?))
    && (l.coordinator.Reaping? ==> !l.provider.Alive? && (l.guardian.Finishing? || l.guardian.Exited?))
    // half A is given up after GO only when nothing is left to protect
    && (l.coordinator.Gone? && l.goSent && !l.coordinatorDied ==> l.guardian.Exited? && !l.provider.Alive?)
  }

  predicate CoordinatorEvent(e: Event) {
    e.AcquireA? || e.SpawnGuardian? || e.ReadReady? || e.SendGo? || e.Monitor? || e.ReapGuardian?
    || e.ProviderGone? || e.GiveUpBeforeGo? || e.KillBeforeGo? || e.CoordinatorDies?
  }

  lemma MonitorKeepsLaunch(l: Launch)
    requires LaunchOk(l) && l.coordinator.Monitoring?
    ensures LaunchOk(MonitorStep(l))
  {
    assert l.toCoordinator != [] ==> l.toCoordinator[0] in l.toCoordinator;
    assert l.toCoordinator != [] ==> forall m :: m in l.toCoordinator[1..] ==> m in l.toCoordinator;
  }

  lemma CoordinatorKeepsLaunch(ls: seq<Launch>, i: nat, e: Event)
    requires i < |ls| && LaunchOk(ls[i]) && CoordinatorEvent(e)
    ensures LaunchOk(Happen(ls, i, e))
  {
    var l := ls[i];
    assert l.toCoordinator != [] ==> l.toCoordinator[0] in l.toCoordinator;
    if e.Monitor? && l.coordinator.Monitoring? { MonitorKeepsLaunch(l); }
  }

  lemma GuardianKeepsLaunch(ls: seq<Launch>, i: nat, e: Event)
    requires i < |ls| && LaunchOk(ls[i]) && !CoordinatorEvent(e)
    ensures LaunchOk(Happen(ls, i, e))
  {
    forall x, m ensures m in Say(ls[i], x) <==> m in ls[i].toCoordinator || m == x {
    }
    hide Say;
  }

  lemma HappenKeepsLaunch(ls: seq<Launch>, i: nat, e: Event)
    requires i < |ls| && LaunchOk(ls[i])
    ensures LaunchOk(Happen(ls, i, e))
  {
    if CoordinatorEvent(e) { CoordinatorKeepsLaunch(ls, i, e); } else { GuardianKeepsLaunch(ls, i, e); }
  }

  /** Unless both processes died, an active launch still holds half A or half B. */
  lemma ActiveHolds(l: Launch)
    requires LaunchOk(l) && Active(l) && !(l.coordinatorDied && l.guardianDied)
    ensures HoldsA(l) || HoldsB(l)
  {
  }

  // ---- the invariant of the profile -----------------------------------------------------------

  ghost predicate AtMostOne(ls: seq<Launch>, p: Launch -> bool) {
    forall i, j :: 0 <= i < |ls| && 0 <= j < |ls| && p(ls[i]) && p(ls[j]) ==> i == j
  }

  /** In no launch have both the coordinator and the guardian died. */
  predicate SingleDeaths(ls: seq<Launch>) {
    forall i :: 0 <= i < |ls| ==> !(ls[i].coordinatorDied && ls[i].guardianDied)
  }

  ghost predicate ProfileOk(ls: seq<Launch>) {
    && (forall i :: 0 <= i < |ls| ==> LaunchOk(ls[i]))
    && AtMostOne(ls, HoldsA) && AtMostOne(ls, HoldsB) && AtMostOne(ls, Active)
  }

  lemma DeathsOnlyGrow(ls: seq<Launch>, s: Step)
    requires SingleDeaths(Take(ls, s))
    ensures SingleDeaths(ls)
  {
    forall i | 0 <= i < |ls| ensures !(ls[i].coordinatorDied && ls[i].guardianDied) {
      assert s.At? && s.launch == i ==> Take(ls, s)[i] == Happen(ls, i, s.event);
      assert !(Take(ls, s)[i].coordinatorDied && Take(ls, s)[i].guardianDied);
    }
  }

  /** A launch becomes active only while it holds both halves. */
  lemma ActivationNeedsBoth(ls: seq<Launch>, i: nat, e: Event)
    requires i < |ls| && LaunchOk(ls[i])
    requires !Active(ls[i]) && Active(Happen(ls, i, e))
    ensures HoldsA(ls[i]) && HoldsB(ls[i])
  {
  }

  /** Leases change hands only when free. */
  lemma AcquireNeedsFree(ls: seq<Launch>, i: nat, e: Event)
    requires i < |ls|
    ensures !HoldsA(ls[i]) && HoldsA(Happen(ls, i, e)) ==> LeaseFree(ls, HoldsA)
    ensures !HoldsB(ls[i]) && HoldsB(Happen(ls, i, e)) ==> LeaseFree(ls, HoldsB)
  {
  }

  lemma UpdateKeepsOne(ls: seq<Launch>, i: nat, l: Launch, p: Launch -> bool)
    requires i < |ls| && AtMostOne(ls, p)
    requires !p(ls[i]) && p(l) ==> LeaseFree(ls, p)
    ensures AtMostOne(ls[i := l], p)
  {
  }

  lemma HappenKeepsProfile(ls: seq<Launch>, i: nat, e: Event)
    requires ProfileOk(ls) && SingleDeaths(ls) && i < |ls|
    ensures ProfileOk(ls[i := Happen(ls, i, e)])
  {
    hide LaunchOk;
    var l := Happen(ls, i, e);
    HappenKeepsLaunch(ls, i, e);
    AcquireNeedsFree(ls, i, e);
    UpdateKeepsOne(ls, i, l, HoldsA);
    UpdateKeepsOne(ls, i, l, HoldsB);
    if !Active(ls[i]) && Active(l) {
      ActivationNeedsBoth(ls, i, e);
      forall j | 0 <= j < |ls| ensures !Active(ls[j]) {
        if Active(ls[j]) { ActiveHolds(ls[j]); }
      }
    }
    UpdateKeepsOne(ls, i, l, Active);
  }

  lemma {:induction false} RunKeepsProfile(steps: seq<Step>)
    requires SingleDeaths(Run(steps))
    ensures ProfileOk(Run(steps))
  {
    if steps != [] {
      var before, s := steps[..|steps| - 1], steps[|steps| - 1];
      DeathsOnlyGrow(Run(before), s);
      RunKeepsProfile(before);
      if s.At? && s.launch < |Run(before)| {
        HappenKeepsProfile(Run(before), s.launch, s.event);
      }
    }
  }

  // ---- safety ---------------------------------------------------------------------------------

  /** Any number of launches, any interleaving, at most one death in each: never two live providers, and a
      live provider's launch still holds half of the lease. */
  lemma OneProvider(steps: seq<Step>)
    requires SingleDeaths(Run(steps))
    ensures var ls := Run(steps);
            && AtMostOne(ls, HasProvider)
            && AtMostOne(ls, HoldsA) && AtMostOne(ls, HoldsB)
            && forall i :: 0 <= i < |ls| && ls[i].provider.Alive? ==> HoldsA(ls[i]) || HoldsB(ls[i])
  {
    RunKeepsProfile(steps);
    var ls := Run(steps);
    forall i | 0 <= i < |ls| && ls[i].provider.Alive? ensures HoldsA(ls[i]) || HoldsB(ls[i]) {
      ActiveHolds(ls[i]);
    }
    forall i, j | 0 <= i < |ls| && 0 <= j < |ls| && ls[i].provider.Alive? && ls[j].provider.Alive? ensures i == j {
      assert Active(ls[i]) && Active(ls[j]);
    }
  }

  /** A coordinator that returns normally after authorizing leaves no provider and no guardian behind. */
  lemma NormalReturnIsClean(steps: seq<Step>, i: nat)
    requires i < |Run(steps)| && SingleDeaths(Run(steps))
    requires Run(steps)[i].coordinator.Gone? && Run(steps)[i].goSent && !Run(steps)[i].coordinatorDied
    ensures !Run(steps)[i].provider.Alive? && Run(steps)[i].guardian.Exited?
  {
    RunKeepsProfile(steps);
  }

  lemma Extend(steps: seq<Step>, s: Step) returns (r: seq<Step>)
    ensures r == steps + [s] && Run(r) == Take(Run(steps), s)
  {
    r := steps + [s];
    assert r[..|r| - 1] == steps;
  }

  const Handshaking := Launch(Accepting, AwaitingGo, NotSpawned, false, [Ready], false, false, false)
  const Running := Launch(Monitoring(false), Spawned, Alive, false, [], true, false, false)

  /** One more event of the latest launch. */
  lemma ExtendLast(steps: seq<Step>, base: seq<Launch>, l: Launch, e: Event) returns (r: seq<Step>)
    requires Run(steps) == base + [l]
    ensures Run(r) == base + [Happen(base + [l], |base|, e)]
  {
    r := Extend(steps, At(|base|, e));
    assert (base + [l])[|base| := Happen(base + [l], |base|, e)] == base + [Happen(base + [l], |base|, e)];
  }

  lemma FreeLeaseHandshakes(steps: seq<Step>) returns (r: seq<Step>)
    requires LeaseFree(Run(steps), HoldsA) && LeaseFree(Run(steps), HoldsB)
    ensures Run(r) == Run(steps) + [Handshaking]
  {
    var base, l := Run(steps), NewLaunch;
    r := Extend(steps, Begin);
    r := ExtendLast(r, base, l, AcquireA);
    l := l.(coordinator := Preparing);
    r := ExtendLast(r, base, l, SpawnGuardian);
    l := l.(coordinator := Accepting, guardian := Locking);
    r := ExtendLast(r, base, l, AcquireB);
    l := l.(guardian := Connecting);
    assert Say(l, Ready) == [Ready];
    r := ExtendLast(r, base, l, Connect);
  }

  /** A profile whose lease is free admits a launch all the way to a live provider. */
  lemma FreeLeaseAdmits(steps: seq<Step>) returns (r: seq<Step>)
    requires LeaseFree(Run(steps), HoldsA) && LeaseFree(Run(steps), HoldsB)
    ensures Run(r) == Run(steps) + [Running]
  {
    var base, l := Run(steps), Handshaking;
    r := FreeLeaseHandshakes(steps);
    assert [Ready][1..] == [];
    r := ExtendLast(r, base, l, ReadReady);
    l := l.(coordinator := SendingGo, toCoordinator := []);
    r := ExtendLast(r, base, l, SendGo);
    l := l.(coordinator := Monitoring(false), goInFlight := true, goSent := true);
    r := ExtendLast(r, base, l, ReadGo);
    l := l.(guardian := Preflight, goInFlight := false);
    r := ExtendLast(r, base, l, SpawnProvider);
  }

  /** The hypothesis is needed: when both processes of one launch die, a second provider can start. */
  lemma BothDeathsLoseTheLease() returns (steps: seq<Step>)
    ensures var ls := Run(steps);
            |ls| == 2 && ls[0].provider.Alive? && ls[1].provider.Alive? && !HoldsA(ls[0]) && !HoldsB(ls[0])
  {
    steps := FreeLeaseAdmits([]);
    steps := Extend(steps, At(0, GuardianDies(false)));
    steps := Extend(steps, At(0, CoordinatorDies));
    steps := FreeLeaseAdmits(steps);
  }

  // ---- every launch can come to its end -------------------------------------------------------

  /** Both halves are free after this launch as they were before it. */
  lemma EndedFreesBoth(base: seq<Launch>, l: Launch)
    requires LeaseFree(base, HoldsA) && LeaseFree(base, HoldsB) && l.coordinator.Gone? && l.guardian.Exited?
    ensures LeaseFree(base + [l], HoldsA) && LeaseFree(base + [l], HoldsB)
  {
  }

  const Supervised := Launch(Monitoring(true), Supervising, Alive, false, [], true, false, false)

  lemma StartIsHeard(steps: seq<Step>) returns (r: seq<Step>)
    requires LeaseFree(Run(steps), HoldsA) && LeaseFree(Run(steps), HoldsB)
    ensures Run(r) == Run(steps) + [Supervised]
  {
    hide LeaseFree, Run, Take;
    var base, l := Run(steps), Running;
    r := FreeLeaseAdmits(steps);
    assert Say(l, Start) == [Start] && [Start][1..] == [];
    r := ExtendLast(r, base, l, SendStart);
    l := l.(guardian := Supervising, toCoordinator := [Start]);
    r := ExtendLast(r, base, l, Monitor);
  }

  /** A launch without deaths runs to a normal return once its provider ends, and frees both halves. */
  lemma LaunchCompletes(steps: seq<Step>) returns (r: seq<Step>)
    requires LeaseFree(Run(steps), HoldsA) && LeaseFree(Run(steps), HoldsB)
    ensures Run(r) == Run(steps) + [Launch(Gone, Exited, Ended, false, [], true, false, false)]
    ensures LeaseFree(Run(r), HoldsA) && LeaseFree(Run(r), HoldsB)
  {
    hide LeaseFree, Run, Take;
    var base, l := Run(steps), Supervised;
    r := StartIsHeard(steps);
    r := ExtendLast(r, base, l, ProviderEnds);
    l := l.(provider := Ended);
    r := ExtendLast(r, base, l, ReapProvider);
    l := l.(guardian := Completed);
    assert Say(l, Done) == [Done] && [Done][1..] == [];
    r := ExtendLast(r, base, l, SendDone);
    l := l.(guardian := Finishing, toCoordinator := [Done]);
    r := ExtendLast(r, base, l, Monitor);
    l := l.(coordinator := Reaping, toCoordinator := []);
    r := ExtendLast(r, base, l, GuardianExits);
    l := l.(guardian := Exited);
    r := ExtendLast(r, base, l, ReapGuardian);
    EndedFreesBoth(base, l.(coordinator := Gone));
  }

  /** A coordinator that lost its guardian waits for the provider and then frees its half. */
  lemma CoordinatorOutlivesGuardian(steps: seq<Step>, midLine: bool) returns (r: seq<Step>)
    requires LeaseFree(Run(steps), HoldsA) && LeaseFree(Run(steps), HoldsB)
    ensures Run(r) == Run(steps) + [Launch(Gone, Exited, Ended, false, [], true, false, true)]
    ensures LeaseFree(Run(r), HoldsA) && LeaseFree(Run(r), HoldsB)
  {
    hide LeaseFree, Run, Take;
    var base, l := Run(steps), Supervised;
    r := StartIsHeard(steps);
    r := ExtendLast(r, base, l, GuardianDies(midLine));
    assert Say(l, Garbled) == [Garbled] && [Garbled][1..] == [];
    l := l.(guardian := Exited, guardianDied := true, toCoordinator := if midLine then [Garbled] else []);
    r := ExtendLast(r, base, l, Monitor);
    l := l.(coordinator := WaitingProvider, toCoordinator := []);
    r := ExtendLast(r, base, l, ProviderEnds);
    l := l.(provider := Ended);
    r := ExtendLast(r, base, l, ProviderGone);
    EndedFreesBoth(base, l.(coordinator := Gone));
  }

  /** A guardian that lost its coordinator waits for the provider and then frees its half. */
  lemma GuardianOutlivesCoordinator(steps: seq<Step>) returns (r: seq<Step>)
    requires LeaseFree(Run(steps), HoldsA) && LeaseFree(Run(steps), HoldsB)
    ensures Run(r) == Run(steps) + [Launch(Gone, Exited, Ended, false, [Done], true, true, false)]
    ensures LeaseFree(Run(r), HoldsA) && LeaseFree(Run(r), HoldsB)
  {
    hide LeaseFree, Run, Take;
    var base, l := Run(steps), Supervised;
    r := StartIsHeard(steps);
    r := ExtendLast(r, base, l, CoordinatorDies);
    l := l.(coordinator := Gone, coordinatorDied := true);
    r := ExtendLast(r, base, l, ProviderEnds);
    l := l.(provider := Ended);
    r := ExtendLast(r, base, l, ReapProvider);
    l := l.(guardian := Completed);
    assert Say(l, Done) == [Done];
    r := ExtendLast(r, base, l, SendDone);
    l := l.(guardian := Finishing, toCoordinator := [Done]);
    r := ExtendLast(r, base, l, GuardianExits);
    EndedFreesBoth(base, l.(guardian := Exited));
  }

  /** A launch refused after GO ends without a provider and frees both halves. */
  lemma RefusedLaunchEnds(steps: seq<Step>) returns (r: seq<Step>)
    requires LeaseFree(Run(steps), HoldsA) && LeaseFree(Run(steps), HoldsB)
    ensures Run(r) == Run(steps) + [Launch(Gone, Exited, NotSpawned, false, [], true, false, false)]
    ensures LeaseFree(Run(r), HoldsA) && LeaseFree(Run(r), HoldsB)
  {
    hide LeaseFree, Run, Take;
    var base, l := Run(steps), Handshaking;
    r := FreeLeaseHandshakes(steps);
    assert [Ready][1..] == [];
    r := ExtendLast(r, base, l, ReadReady);
    l := l.(coordinator := SendingGo, toCoordinator := []);
    r := ExtendLast(r, base, l, SendGo);
    l := l.(coordinator := Monitoring(false), goInFlight := true, goSent := true);
    r := ExtendLast(r, base, l, ReadGo);
    l := l.(guardian := Preflight, goInFlight := false);
    assert Say(l, Abort) == [Abort] && [Abort][1..] == [];
    r := ExtendLast(r, base, l, SendAbort);
    l := l.(guardian := Finishing, toCoordinator := [Abort]);
    r := ExtendLast(r, base, l, Monitor);
    l := l.(coordinator := Reaping, toCoordinator := []);
    r := ExtendLast(r, base, l, GuardianExits);
    l := l.(guardian := Exited);
    r := ExtendLast(r, base, l, ReapGuardian);
    EndedFreesBoth(base, l.(coordinator := Gone));
  }
}
