/** Every interleaving of the sign-in's callers and background work. */
module SignInRuns {
  import opened Collections
  import opened SignIn

  /**
    Background work, with the generation it was started for. Firing is a hold
    between its check and its failing; WantsRemove is a wait for removal that
    has its certificate; Provision counts what it has done: made the tunnel,
    named it, connected it, installed it.
  */
  datatype Thread =
    | Wait(gen: nat, ctx: nat, purpose: Purpose)
    | Hold(gen: nat, ctx: nat)
    | Firing(gen: nat)
    | Provision(gen: nat, cert: Cert, done: nat)
    | WantsRemove(gen: nat)
    | Removing(gen: nat, cert: Cert)

  datatype World = World(m: Manager, threads: map<nat, Thread>, spawned: nat) {
    function Spawn(t: Thread): World {
      this.(threads := threads[spawned := t], spawned := spawned + 1)
    }

    function End(id: nat): World { this.(threads := threads - {id}) }

    function Become(id: nat, t: Thread): World { this.(threads := threads[id := t]) }
  }

  datatype Outcome = Quiet | Forgets(dnsLeft: string) | Keeps(p: Problem) | Fails(p: Problem)

  /** One atomic step of a caller or of a thread. */
  datatype Action =
    | StartLogin(purpose: Purpose, expires: int)
    | Cancel
    | Forget(dnsLeft: string)
    | Setup(host: Option<string>)
    | Remove
    | WaitFails(id: nat, p: Problem)
    | WaitCancelled(id: nat)
    | WaitDone(id: nat, cert: Cert, name: string, hold: int)
    | HoldCancelled(id: nat)
    | HoldDue(id: nat)
    | HoldFires(id: nat)
    | Steps(id: nat)
    | Installed(id: nat, name: string)
    | SetupFails(id: nat, p: Problem, hold: int)
    | SetupDone(id: nat)
    | RemoveStarts(id: nat)
    | RemoveEnds(id: nat, outcome: Outcome)

  const TIMEOUT := Problem("timeout")

  ghost predicate Enabled(w: World, a: Action) {
    match a
    case StartLogin(_, _) => true
    case Cancel => true
    case Forget(_) => true
    case Setup(_) => true
    case Remove => true
    case WaitFails(id, _) => id in w.threads && w.threads[id].Wait?
    case WaitCancelled(id) => id in w.threads && w.threads[id].Wait? && w.threads[id].ctx in w.m.cancelled
    case WaitDone(id, _, _, _) => id in w.threads && w.threads[id].Wait?
    case HoldCancelled(id) => id in w.threads && w.threads[id].Hold? && w.threads[id].ctx in w.m.cancelled
    case HoldDue(id) => id in w.threads && w.threads[id].Hold?
    case HoldFires(id) => id in w.threads && w.threads[id].Firing?
    case Steps(id) => id in w.threads && w.threads[id].Provision? && w.threads[id].done < 2
    case Installed(id, _) => id in w.threads && w.threads[id].Provision? && w.threads[id].done == 2
    case SetupFails(id, _, _) => id in w.threads && w.threads[id].Provision? && w.threads[id].done <= 2
    case SetupDone(id) => id in w.threads && w.threads[id].Provision? && w.threads[id].done == 3
    case RemoveStarts(id) => id in w.threads && w.threads[id].WantsRemove?
    case RemoveEnds(id, _) => id in w.threads && w.threads[id].Removing?
  }

  ghost function Ended(m: Manager, t: Thread, o: Outcome): Manager
    requires t.Removing?
  {
    match o
    case Quiet => m
    case Forgets(left) => m.Forget(left)
    case Keeps(p) => m.KeepProblem(t.gen, p)
    case Fails(p) => m.Fail(t.gen, p)
  }

  ghost function Apply(w: World, a: Action): World
    requires Enabled(w, a)
  {
    match a
    case StartLogin(purpose, expires) =>
      var n := w.(m := w.m.StartLogin(purpose, expires));
      if w.m.st.state == Provisioning then n else n.Spawn(Wait(n.m.gen, w.m.contexts, purpose))
    case Cancel => w.(m := w.m.Cancel())
    case Forget(left) => w.(m := w.m.Forget(left))
    case Setup(host) =>
      var n := w.(m := w.m.Setup(host));
      if w.m.SignedIn() && host.Some? then n.Spawn(Provision(n.m.gen, w.m.cert.value, 0)) else n
    case Remove => if w.m.SignedIn() then w.Spawn(Removing(w.m.gen, w.m.cert.value)) else w
    case WaitFails(id, p) => w.(m := w.m.Fail(w.threads[id].gen, p)).End(id)
    case WaitCancelled(id) => w.End(id)
    case WaitDone(id, cert, name, hold) =>
      var t := w.threads[id];
      var n := w.(m := w.m.Authorize(t.gen, cert, name, t.purpose, hold));
      if t.gen != w.m.gen then n.End(id)
      else
        var held := n.Spawn(Hold(t.gen, w.m.contexts));
        if t.purpose == ForRemove then held.Become(id, WantsRemove(t.gen)) else held.End(id)
    case HoldCancelled(id) => w.End(id)
    case HoldDue(id) => if w.m.Holds(w.threads[id].gen) then w.Become(id, Firing(w.threads[id].gen)) else w.End(id)
    case HoldFires(id) => w.(m := w.m.Fail(w.threads[id].gen, TIMEOUT)).End(id)
    case Steps(id) =>
      var t := w.threads[id];
      w.(m := w.m.ToStep(t.gen, if t.done == 0 then DnsStep else ConnectStep)).Become(id, t.(done := t.done + 1))
    case Installed(id, name) =>
      w.(m := w.m.Named(w.threads[id].gen, name)).Become(id, w.threads[id].(done := 3))
    case SetupFails(id, p, hold) =>
      var t := w.threads[id];
      var n := w.(m := w.m.SetupFailed(t.gen, t.cert, p, hold)).End(id);
      if t.gen == w.m.gen then n.Spawn(Hold(t.gen, w.m.contexts)) else n
    case SetupDone(id) => w.(m := w.m.Provisioned(w.threads[id].gen)).End(id)
    case RemoveStarts(id) =>
      if w.m.SignedIn() then w.Become(id, Removing(w.m.gen, w.m.cert.value)) else w.End(id)
    case RemoveEnds(id, outcome) => w.(m := Ended(w.m, w.threads[id], outcome)).End(id)
  }

  ghost function Start(): World {
    World(Manager(Plain(Idle), None, 0, None, 0, {}), map[], 0)
  }

  ghost predicate Run(actions: seq<Action>, w: World) {
    if actions == [] then w == Start()
    else exists before :: Run(Init(actions), before) && StepTo(before, Last(actions), w)
  }

  function Init(actions: seq<Action>): (r: seq<Action>)
    requires actions != []
    ensures |r| == |actions| - 1
  {
    actions[..|actions| - 1]
  }

  function Last(actions: seq<Action>): Action
    requires actions != []
  {
    actions[|actions| - 1]
  }

  ghost predicate StepTo(before: World, a: Action, after: World) {
    Enabled(before, a) && after == Apply(before, a)
  }

  // ----- what every step keeps -----

  /** Threads that may still move the state on. */
  predicate Owner(t: Thread) { t.Wait? || t.Provision? }

  /** What a thread of the current generation knows. */
  ghost predicate Agrees(m: Manager, t: Thread) {
    && t.gen <= m.gen
    && (t.Provision? ==> t.done <= 3)
    && ((t.Wait? || t.Hold?) ==> t.ctx < m.contexts)
    && (t.gen == m.gen ==>
          match t
          case Wait(_, ctx, _) => m.st.state == Waiting && m.cancel == Some(ctx)
          case Hold(_, ctx) => m.st.state == Authorized && m.cancel == Some(ctx)
          case Firing(_) => m.st.state == Authorized
          case Provision(_, cert, _) => m.st.state == Provisioning && m.st.zone.Some? && m.st.zone.value.id == cert.zone
          case WantsRemove(_) => m.st.state == Authorized
          case Removing(_, cert) => m.st.state == Authorized && m.cert == Some(cert))
  }

  /** The thread that will end the current state. */
  ghost predicate Attends(w: World, id: nat) {
    id in w.threads && w.threads[id].gen == w.m.gen &&
    match w.m.st.state
    case Waiting => w.threads[id].Wait?
    case Authorized => w.threads[id].Hold? || w.threads[id].Firing?
    case Provisioning => w.threads[id].Provision?
    case _ => true
  }

  /** A sign-in or setup is under way. */
  predicate Live(m: Manager) { m.st.state in {Waiting, Authorized, Provisioning} }

  /** Someone is there to end each state that must end. */
  ghost predicate Attended(w: World) {
    Live(w.m) ==> exists id :: Attends(w, id)
  }

  ghost predicate Sound(m: Manager) {
    && (m.cert.Some? <==> m.st.state == Authorized)
    && (m.cert.Some? ==> m.st.zone.Some? && m.st.zone.value.id == m.cert.value.zone)
    && (m.cancel.Some? ==> m.cancel.value < m.contexts && m.cancel.value !in m.cancelled)
    && (m.st.state in {Waiting, Authorized} ==> m.cancel.Some?)
    && (m.st.state == Provisioning ==> m.cancel.None?)
    && forall c :: c in m.cancelled ==> c < m.contexts
  }

  /** At most one wait or provisioning is current. */
  ghost predicate OneOwner(w: World) {
    forall i, j :: i in w.threads && j in w.threads && i != j && Owner(w.threads[i]) && Owner(w.threads[j]) ==>
      !(w.threads[i].gen == w.m.gen && w.threads[j].gen == w.m.gen)
  }

  ghost predicate AllAgree(w: World) {
    forall id :: id in w.threads ==> id < w.spawned && Agrees(w.m, w.threads[id])
  }

  ghost predicate Inv(w: World) {
    Sound(w.m) && AllAgree(w) && OneOwner(w) && Attended(w)
  }

  lemma StartInv()
    ensures Inv(Start())
  {
  }

  lemma StepSound(w: World, a: Action)
    requires Inv(w) && Enabled(w, a)
    ensures Sound(Apply(w, a).m)
  {
    hide Attended;
  }

  lemma StepAgrees(w: World, a: Action)
    requires Inv(w) && Enabled(w, a)
    ensures AllAgree(Apply(w, a))
  {
    hide Inv, Apply, Agrees;
    forall id | id in Apply(w, a).threads ensures id < Apply(w, a).spawned && Agrees(Apply(w, a).m, Apply(w, a).threads[id]) {
      ThreadAgrees(w, a, id);
    }
  }

  lemma ThreadAgrees(w: World, a: Action, id: nat)
    requires Inv(w) && Enabled(w, a) && id in Apply(w, a).threads
    ensures id < Apply(w, a).spawned && Agrees(Apply(w, a).m, Apply(w, a).threads[id])
  {
    hide Attended;
    if id !in w.threads {
      assert id == w.spawned;
    }
  }

  lemma StepOneOwner(w: World, a: Action)
    requires Inv(w) && Enabled(w, a)
    ensures OneOwner(Apply(w, a))
  {
    hide Attended;
  }

  lemma StepAttended(w: World, a: Action)
    requires Inv(w) && Enabled(w, a)
    ensures Attended(Apply(w, a))
  {
    var n := Apply(w, a);
    if Live(n.m) {
      if n.m.gen == w.m.gen && n.m.st.state == w.m.st.state {
        var id :| Attends(w, id);
        assert Attends(n, id);
      } else {
        assert Attends(n, w.spawned);
      }
    }
  }

  lemma StepKeepsInv(w: World, a: Action)
    requires Inv(w) && Enabled(w, a)
    ensures Inv(Apply(w, a))
  {
    StepSound(w, a);
    StepAgrees(w, a);
    StepOneOwner(w, a);
    StepAttended(w, a);
  }

  lemma {:induction false} RunKeepsInv(actions: seq<Action>, w: World)
    requires Run(actions, w)
    ensures Inv(w)
  {
    if actions == [] {
      StartInv();
    } else {
      var before :| Run(Init(actions), before) && StepTo(before, Last(actions), w);
      RunKeepsInv(Init(actions), before);
      StepKeepsInv(before, Last(actions));
    }
  }

  ghost predicate Reachable(w: World) {
    exists actions :: Run(actions, w)
  }

  lemma ReachableInv(w: World)
    requires Reachable(w)
    ensures Inv(w)
  {
    var actions :| Run(actions, w);
    RunKeepsInv(actions, w);
  }

  // ----- what holds in every run -----

  /** A certificate is held exactly while the state is authorized, and it is the shown domain's. */
  lemma CertificateExactlyWhenAuthorized(w: World)
    requires Reachable(w)
    ensures w.m.cert.Some? <==> w.m.st.state == Authorized
    ensures w.m.cert.Some? ==> w.m.st.zone.Some? && w.m.st.zone.value.id == w.m.cert.value.zone
  {
    ReachableInv(w);
  }

  /** Which thread takes the step. */
  function Actor(a: Action): Option<nat> {
    match a
    case StartLogin(_, _) => None
    case Cancel => None
    case Forget(_) => None
    case Setup(_) => None
    case Remove => None
    case WaitFails(id, _) => Some(id)
    case WaitCancelled(id) => Some(id)
    case WaitDone(id, _, _, _) => Some(id)
    case HoldCancelled(id) => Some(id)
    case HoldDue(id) => Some(id)
    case HoldFires(id) => Some(id)
    case Steps(id) => Some(id)
    case Installed(id, _) => Some(id)
    case SetupFails(id, _, _) => Some(id)
    case SetupDone(id) => Some(id)
    case RemoveStarts(id) => Some(id)
    case RemoveEnds(id, _) => Some(id)
  }

  predicate Forgetting(a: Action) { a.Forget? || (a.RemoveEnds? && a.outcome.Forgets?) }

  /** Work from an earlier sign-in changes nothing of the present one exactly when it is not a removal that forgets. */
  lemma StaleWorkIsHarmless(w: World, a: Action)
    requires Enabled(w, a) && Actor(a).Some? && w.threads[Actor(a).value].gen != w.m.gen
    ensures Apply(w, a).m == w.m <==> !Forgetting(a)
  {
  }

  /** Provisioning is left only by its own end or by forgetting. */
  lemma OnlyItsEndLeavesProvisioning(w: World, a: Action)
    requires Reachable(w) && Enabled(w, a)
    requires w.m.st.state == Provisioning && Apply(w, a).m.st.state != Provisioning
    ensures Forgetting(a) ||
            ((a.SetupFails? || a.SetupDone?) && w.threads[a.id].Provision? && w.threads[a.id].gen == w.m.gen)
  {
    ReachableInv(w);
  }

  /** While provisioning runs, its generation, and with it the work in charge, stays the same unless it is forgotten. */
  lemma ProvisioningIsExclusive(w: World, a: Action)
    requires Reachable(w) && Enabled(w, a)
    requires w.m.st.state == Provisioning && Apply(w, a).m.st.state == Provisioning
    ensures Apply(w, a).m.gen == w.m.gen && Apply(w, a).m.cert.None?
  {
    ReachableInv(w);
  }

  /** A hold that fires ends the authorized sign-in it was started for, or nothing. */
  lemma HoldEndsItsOwn(w: World, a: Action)
    requires Reachable(w) && Enabled(w, a) && a.HoldFires?
    ensures var n := Apply(w, a).m;
            if w.threads[a.id].gen == w.m.gen
            then w.m.st.state == Authorized && n.st.state == Error && n.st.error == Some(TIMEOUT) && n.cert.None?
            else n == w.m
  {
    ReachableInv(w);
  }

  /** Background work ends a live sign-in or setup. */
  ghost predicate Ends(w: World, a: Action)
    requires Enabled(w, a)
  {
    Live(w.m) && !Live(Apply(w, a).m)
  }

  /**
    Background work ends a live sign-in that is not the one it was started for
    exactly when it is a removal that forgets and another sign-in has begun
    since. What it then ends may be in any live state; what a removal of the
    present generation ends is the authorized sign-in whose certificate it has.
  */
  lemma RemovalForgets(w: World, a: Action)
    requires Reachable(w) && Enabled(w, a) && Actor(a).Some?
    ensures var t := w.threads[Actor(a).value];
            && (Ends(w, a) && t.gen != w.m.gen <==> Forgetting(a) && Live(w.m) && t.gen != w.m.gen)
            && (Forgetting(a) && t.gen == w.m.gen ==> Ends(w, a) && w.m.SignedIn() && w.m.cert == Some(t.cert))
  {
    ReachableInv(w);
  }

  // ----- what callers get -----

  /** Nothing under way belongs to the present generation. */
  ghost predicate AllStale(w: World) {
    forall id :: id in w.threads ==> w.threads[id].gen < w.m.gen
  }

  /** Cancelling ends any sign-in, its certificate and its context, and leaves no work that counts; setup goes on. */
  lemma CancelEndsSignIn(w: World)
    requires Reachable(w)
    ensures var n := Apply(w, Cancel);
            if w.m.st.state == Provisioning then n == w
            else n.m.st == Plain(Idle) && n.m.cert.None? && AllStale(n) && (w.m.cancel.Some? ==> w.m.cancel.value in n.m.cancelled)
  {
    ReachableInv(w);
  }

  /** Forgetting does so from every state, setup too. */
  lemma ForgetEndsEverything(w: World, dnsLeft: string)
    requires Reachable(w)
    ensures var n := Apply(w, Action.Forget(dnsLeft));
            && n.m.st == Plain(Idle).(dnsLeft := dnsLeft) && n.m.cert.None? && AllStale(n)
            && (w.m.cancel.Some? ==> w.m.cancel.value in n.m.cancelled)
  {
    ReachableInv(w);
  }

  /** Unless setup runs, a sign-in begins anew, waits alone, and ends signed in with the certificate that comes. */
  lemma LoginSignsIn(w: World, purpose: Purpose, expires: int, cert: Cert, name: string, hold: int)
    requires Reachable(w) && w.m.st.state != Provisioning
    ensures var n := Apply(w, Action.StartLogin(purpose, expires));
            var come := WaitDone(w.spawned, cert, name, hold);
            && n.m.st == Plain(Waiting).(purpose := purpose, expires := expires) && n.m.cert.None?
            && AllStale(n.End(w.spawned)) && (w.m.cancel.Some? ==> w.m.cancel.value in n.m.cancelled)
            && Enabled(n, come)
            && var signedIn := Apply(n, come).m;
               signedIn.SignedIn() && signedIn.cert == Some(cert) && signedIn.st ==
                 Status(Authorized, purpose, Some(Zone(cert.zone, name)), "", NoStep, hold, None, "")
  {
    ReachableInv(w);
  }

  /** Setup that fails gives the certificate back: the owner is signed in as before, told the problem, and may set up again. */
  lemma FailedSetupComesBack(w: World, host: string, problem: Problem, hold: int)
    requires Reachable(w) && w.m.SignedIn()
    ensures var n := Apply(w, Action.Setup(Some(host)));
            var fails := SetupFails(w.spawned, problem, hold);
            && n.m.st == Plain(Provisioning).(zone := w.m.st.zone, hostname := host, step := TunnelStep) && n.m.cert.None?
            && Enabled(n, fails)
            && var back := Apply(n, fails).m;
               back.SignedIn() && back.cert == w.m.cert && back.st ==
                 Status(Authorized, ForSetup, w.m.st.zone, host, NoStep, hold, Some(problem), "")
  {
    ReachableInv(w);
  }

  /** Setup goes from the tunnel to the name to the connection, and ends idle without the certificate. */
  lemma SetupGoesThrough(w: World, host: string, name: string) returns (a: World, b: World, c: World, d: World)
    requires Reachable(w) && w.m.SignedIn()
    ensures a == Apply(w, Action.Setup(Some(host))) && Enabled(a, Steps(w.spawned))
    ensures b == Apply(a, Steps(w.spawned)) && b.m.st == a.m.st.(step := DnsStep) && Enabled(b, Steps(w.spawned))
    ensures c == Apply(b, Steps(w.spawned)) && c.m.st == a.m.st.(step := ConnectStep) && Enabled(c, Installed(w.spawned, name))
    ensures d == Apply(c, Installed(w.spawned, name)) && d.m.st == c.m.st.(hostname := name) && Enabled(d, SetupDone(w.spawned))
    ensures Apply(d, SetupDone(w.spawned)).m.st == Plain(Idle) && Apply(d, SetupDone(w.spawned)).m.cert.None?
  {
    ReachableInv(w);
    a := Apply(w, Action.Setup(Some(host)));
    b := Apply(a, Steps(w.spawned));
    c := Apply(b, Steps(w.spawned));
    d := Apply(c, Installed(w.spawned, name));
  }

  // ----- what is live ends -----

  /** How many steps of a thread end the state it attends. */
  function StepsLeft(t: Thread): int {
    match t
    case Wait(_, _, _) => 1
    case Hold(_, _) => 2
    case Firing(_) => 1
    case Provision(_, _, done) => 4 - done
    case _ => 0
  }

  ghost predicate SameSignIn(w: World, n: World) {
    w.m.gen == n.m.gen && w.m.st.state == n.m.st.state
  }

  /** A waiting, authorized or provisioning sign-in always has work that can take its next step and has few left. */
  lemma NeverStranded(w: World)
    requires Reachable(w) && Live(w.m)
    ensures exists id, a :: Attends(w, id) && 0 < StepsLeft(w.threads[id]) <= 4 && Enabled(w, a) && Actor(a) == Some(id)
  {
    ReachableInv(w);
    var id :| Attends(w, id);
    var a := match w.threads[id]
      case Wait(_, _, _) => WaitFails(id, TIMEOUT)
      case Hold(_, _) => HoldDue(id)
      case Firing(_) => HoldFires(id)
      case Provision(_, _, done) => if done == 3 then SetupDone(id) else SetupFails(id, TIMEOUT, 0)
      case _ => HoldFires(id);
    assert Enabled(w, a) && Actor(a) == Some(id);
  }

  /** A step that leaves the sign-in in its state leaves the work attending it; its own steps bring it nearer the end. */
  lemma AttendingGoesOn(w: World, a: Action, id: nat)
    requires Inv(w) && Live(w.m) && Attends(w, id) && Enabled(w, a) && SameSignIn(w, Apply(w, a))
    ensures var n := Apply(w, a);
            && Attends(n, id)
            && StepsLeft(n.threads[id]) == StepsLeft(w.threads[id]) - if Actor(a) == Some(id) then 1 else 0
  {
    hide Attended, OneOwner;
  }

  /** The actions lead from w to n without leaving the sign-in's state. */
  ghost predicate Staying(w: World, actions: seq<Action>, n: World)
    decreases actions
  {
    if actions == [] then n == w
    else
      && Enabled(w, actions[0]) && SameSignIn(w, Apply(w, actions[0]))
      && Staying(Apply(w, actions[0]), actions[1..], n)
  }

  function StepsOf(actions: seq<Action>, id: nat): nat {
    if actions == [] then 0 else (if Actor(actions[0]) == Some(id) then 1 else 0) + StepsOf(actions[1..], id)
  }

  /** Whatever else runs in between, the attending work takes fewer than four steps before the state is left. */
  lemma FewStepsToTheEnd(w: World, actions: seq<Action>, n: World, id: nat)
    requires Reachable(w) && Live(w.m) && Attends(w, id) && Staying(w, actions, n)
    ensures Attends(n, id) && StepsOf(actions, id) == StepsLeft(w.threads[id]) - StepsLeft(n.threads[id]) < 4
  {
    ReachableInv(w);
    AttendedOn(w, actions, n, id);
  }

  lemma {:induction false} AttendedOn(w: World, actions: seq<Action>, n: World, id: nat)
    requires Inv(w) && Live(w.m) && Attends(w, id) && Staying(w, actions, n)
    ensures Inv(n) && Live(n.m) && Attends(n, id) && 0 < StepsLeft(n.threads[id])
    ensures StepsOf(actions, id) == StepsLeft(w.threads[id]) - StepsLeft(n.threads[id])
    decreases actions
  {
    if actions != [] {
      var next := Apply(w, actions[0]);
      AttendingGoesOn(w, actions[0], id);
      StepKeepsInv(w, actions[0]);
      hide Inv, Enabled, Apply, Attends;
      AttendedOn(next, actions[1..], n, id);
    }
  }

  lemma RunMore(actions: seq<Action>, w: World, a: Action, n: World)
    requires Run(actions, w) && StepTo(w, a, n)
    ensures Run(actions + [a], n)
  {
    assert Init(actions + [a]) == actions && Last(actions + [a]) == a;
  }

  const LOGIN := StartLogin(ForSetup, 0)
  const GRANT := WaitDone(0, Cert(1, 1), "", 0)
  const NAME := Setup(Some("tv"))

  lemma SampleLogin()
    ensures Enabled(Start(), LOGIN)
    ensures var w := Apply(Start(), LOGIN);
            w.m.contexts == 1 && w.threads == map[0 := Wait(1, 0, ForSetup)] && w.spawned == 1 && w.m.gen == 1 && Enabled(w, GRANT)
  {
  }

  lemma SampleGrant()
    ensures var w := Apply(Apply(Start(), LOGIN), GRANT);
            w.threads == map[1 := Hold(1, 1)] && w.spawned == 2 && w.m.gen == 1 && w.m.SignedIn() && w.m.cert == Some(Cert(1, 1))
  {
    SampleLogin();
    hide Start;
    var w := Apply(Start(), LOGIN);
    assert w.m.contexts == 1;
    assert Apply(w, GRANT).threads == w.threads[1 := Hold(1, 1)] - {0};
  }

  lemma SampleSetup(w2: World)
    requires w2.threads == map[1 := Hold(1, 1)] && w2.spawned == 2 && w2.m.gen == 1 && w2.m.SignedIn() && w2.m.cert == Some(Cert(1, 1))
    ensures var w := Apply(Apply(w2, Remove), NAME);
            2 in w.threads && w.threads[2] == Removing(1, Cert(1, 1)) && w.m.gen == 2 && w.m.st.state == Provisioning
  {
  }

  lemma ForgetsIdle(w: World)
    requires 2 in w.threads && w.threads[2].Removing?
    ensures Enabled(w, RemoveEnds(2, Forgets(""))) && Apply(w, RemoveEnds(2, Forgets(""))).m.st.state == Idle
  {
  }

  /** A removal that was under way when setup began can end that setup: forgetting is not checked against it. */
  lemma RemovalCanEndSetup() returns (w: World, a: Action)
    ensures Reachable(w) && Enabled(w, a) && a.RemoveEnds?
    ensures w.m.st.state == Provisioning && w.threads[a.id].gen != w.m.gen
    ensures Apply(w, a).m.st.state == Idle
  {
    SampleLogin();
    SampleGrant();
    hide Run, Reachable, Start, Apply;
    var w1 := Apply(Start(), LOGIN);
    var w2 := Apply(w1, GRANT);
    SampleSetup(w2);
    var w3 := Apply(w2, Remove);
    w, a := Apply(w3, NAME), RemoveEnds(2, Forgets(""));
    ForgetsIdle(w);
    FourSteps(LOGIN, GRANT, Remove, NAME, w1, w2, w3, w);
  }

  lemma FourSteps(a: Action, b: Action, c: Action, d: Action, w1: World, w2: World, w3: World, w4: World)
    requires StepTo(Start(), a, w1) && StepTo(w1, b, w2) && StepTo(w2, c, w3) && StepTo(w3, d, w4)
    ensures Reachable(w4)
  {
    assert Run([], Start());
    hide Run, StepTo, Start;
    RunMore([], Start(), a, w1);
    RunMore([] + [a], w1, b, w2);
    RunMore([] + [a] + [b], w2, c, w3);
    RunMore([] + [a] + [b] + [c], w3, d, w4);
  }
}
