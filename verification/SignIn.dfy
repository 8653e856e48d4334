/** The Cloudflare sign-in: what each locked region of the manager does to its state. */
module SignIn {
  import opened Collections

  datatype State = Idle | Waiting | Authorized | Provisioning | Error

  datatype Step = NoStep | TunnelStep | DnsStep | ConnectStep

  datatype Purpose = ForSetup | ForRemove

  datatype Zone = Zone(id: int, name: string)

  datatype Cert = Cert(zone: int, account: int)

  datatype Problem = Problem(code: string)

  datatype Status = Status(state: State, purpose: Purpose, zone: Option<Zone>, hostname: string, step: Step,
                           expires: int, error: Option<Problem>, dnsLeft: string)

  function Plain(state: State): Status {
    Status(state, ForSetup, None, "", NoStep, 0, None, "")
  }

  /** The manager. Contexts are numbered as they are made; cancel is the one its cancel function ends. */
  datatype Manager = Manager(st: Status, cert: Option<Cert>, gen: nat, cancel: Option<nat>,
                             contexts: nat, cancelled: set<nat>)
  {
    function Cancelled(): Manager {
      if cancel.Some? then this.(cancelled := cancelled + {cancel.value}, cancel := None) else this
    }

    /** Ends whatever runs now and drops the certificate. */
    function Stopped(): Manager {
      Cancelled().(cert := None, gen := gen + 1)
    }

    function WithContext(): Manager {
      this.(cancel := Some(contexts), contexts := contexts + 1)
    }

    function StartLogin(purpose: Purpose, expires: int): Manager {
      if st.state == Provisioning then this
      else Stopped().WithContext().(st := Plain(Waiting).(purpose := purpose, expires := expires))
    }

    function Cancel(): Manager {
      if st.state == Provisioning then this else Stopped().(st := Plain(Idle))
    }

    function Forget(dnsLeft: string): Manager {
      Stopped().(st := Plain(Idle).(dnsLeft := dnsLeft))
    }

    function Fail(g: nat, p: Problem): Manager {
      if g != gen then this else Stopped().(st := Plain(Error).(error := Some(p)))
    }

    /** The end of a wait: the certificate came. */
    function Authorize(g: nat, c: Cert, name: string, purpose: Purpose, hold: int): Manager {
      if g != gen then this
      else Cancelled().WithContext().(cert := Some(c),
             st := Plain(Authorized).(purpose := purpose, zone := Some(Zone(c.zone, name)), expires := hold))
    }

    predicate Holds(g: nat) { g == gen && st.state == Authorized }

    predicate SignedIn() { cert.Some? && st.state == Authorized }

    /** host is the name to make, or none when the label is not a name. */
    function Setup(host: Option<string>): Manager {
      if st.state == Provisioning || !SignedIn() || host.None? then this
      else
        var zone := if st.zone.Some? then st.zone.value else Zone(cert.value.zone, "");
        Cancelled().(cert := None, gen := gen + 1,
          st := Plain(Provisioning).(zone := Some(zone), hostname := host.value, step := TunnelStep))
    }

    function ToStep(g: nat, step: Step): Manager {
      if g != gen then this else this.(st := st.(step := step))
    }

    /** Back to signed in, with the certificate. */
    function SetupFailed(g: nat, c: Cert, p: Problem, hold: int): Manager {
      if g != gen then this
      else WithContext().(cert := Some(c),
             st := Plain(Authorized).(zone := st.zone, hostname := st.hostname, expires := hold, error := Some(p)))
    }

    function Named(g: nat, name: string): Manager {
      if g != gen then this else this.(st := st.(hostname := name))
    }

    function Provisioned(g: nat): Manager {
      if g != gen then this else this.(st := Plain(Idle))
    }

    function KeepProblem(g: nat, p: Problem): Manager {
      if g != gen then this else this.(st := st.(error := Some(p)))
    }
  }

  /** The manager as an object: one method for each locked region. */
  class SignInManager {
    var st: Status
    var cert: Option<Cert>
    var gen: nat
    var cancel: Option<nat>
    var contexts: nat
    var cancelled: set<nat>

    function View(): Manager
      reads this
    {
      Manager(st, cert, gen, cancel, contexts, cancelled)
    }

    constructor ()
      ensures View() == Manager(Plain(Idle), None, 0, None, 0, {})
    {
      st, cert, gen, cancel, contexts, cancelled := Plain(Idle), None, 0, None, 0, {};
    }

    method CallCancel()
      modifies this
      ensures View() == old(View()).Cancelled()
    {
      if cancel.Some? {
        cancelled := cancelled + {cancel.value};
        cancel := None;
      }
    }

    method NewContext() returns (ctx: nat)
      modifies this
      ensures View() == old(View()).WithContext() && ctx == old(contexts)
    {
      ctx := contexts;
      cancel, contexts := Some(ctx), contexts + 1;
    }

    method StopLocked()
      modifies this
      ensures View() == old(View()).Stopped()
    {
      CallCancel();
      cert := None;
      gen := gen + 1;
    }

    /** ok is false while setup runs; else the new wait's generation and context. */
    method StartLogin(purpose: Purpose, expires: int) returns (ok: bool, g: nat, ctx: nat)
      modifies this
      ensures View() == old(View()).StartLogin(purpose, expires)
      ensures ok <==> old(st.state) != Provisioning
      ensures ok ==> g == gen && ctx == old(contexts)
    {
      if st.state == Provisioning {
        return false, 0, 0;
      }
      StopLocked();
      ok, g := true, gen;
      ctx := NewContext();
      st := Plain(Waiting).(purpose := purpose, expires := expires);
    }

    method Cancel()
      modifies this
      ensures View() == old(View()).Cancel()
    {
      if st.state == Provisioning {
        return;
      }
      StopLocked();
      st := Plain(Idle);
    }

    method Forget(dnsLeft: string)
      modifies this
      ensures View() == old(View()).Forget(dnsLeft)
    {
      StopLocked();
      st := Plain(Idle).(dnsLeft := dnsLeft);
    }

    method Fail(g: nat, p: Problem)
      modifies this
      ensures View() == old(View()).Fail(g, p)
    {
      if g != gen {
        return;
      }
      StopLocked();
      st := Plain(Error).(error := Some(p));
    }

    /** current is false when another sign-in took over; else the hold's context. */
    method Authorize(g: nat, c: Cert, name: string, purpose: Purpose, hold: int) returns (current: bool, ctx: nat)
      modifies this
      ensures View() == old(View()).Authorize(g, c, name, purpose, hold)
      ensures current <==> g == old(gen)
      ensures current ==> ctx == old(contexts)
    {
      if g != gen {
        return false, 0;
      }
      CallCancel();
      ctx := NewContext();
      cert := Some(c);
      st := Plain(Authorized).(purpose := purpose, zone := Some(Zone(c.zone, name)), expires := hold);
      current := true;
    }

    /** What setup starts with, when it may start. */
    method Setup(host: Option<string>) returns (started: Option<(nat, Cert)>)
      modifies this
      ensures View() == old(View()).Setup(host)
      ensures started.Some? <==> old(View()).SignedIn() && host.Some?
      ensures started.Some? ==> started.value == (gen, old(cert).value)
    {
      if st.state == Provisioning {
        return None;
      }
      if cert.None? || st.state != Authorized {
        return None;
      }
      var zone := Zone(cert.value.zone, "");
      if st.zone.Some? {
        zone := st.zone.value;
      }
      if host.None? {
        return None;
      }
      var c := cert.value;
      CallCancel();
      cert := None;
      gen := gen + 1;
      st := Plain(Provisioning).(zone := Some(zone), hostname := host.value, step := TunnelStep);
      started := Some((gen, c));
    }

    method ToStep(g: nat, step: Step)
      modifies this
      ensures View() == old(View()).ToStep(g, step)
    {
      if g != gen {
        return;
      }
      st := st.(step := step);
    }

    method SetupFailed(g: nat, c: Cert, p: Problem, hold: int) returns (current: bool, ctx: nat)
      modifies this
      ensures View() == old(View()).SetupFailed(g, c, p, hold)
      ensures current <==> g == old(gen)
      ensures current ==> ctx == old(contexts)
    {
      if g != gen {
        return false, 0;
      }
      ctx := NewContext();
      cert := Some(c);
      var host := st.hostname;
      st := Plain(Authorized).(zone := st.zone, hostname := host, expires := hold, error := Some(p));
      current := true;
    }

    method Named(g: nat, name: string)
      modifies this
      ensures View() == old(View()).Named(g, name)
    {
      if g == gen {
        st := st.(hostname := name);
      }
    }

    method Provisioned(g: nat)
      modifies this
      ensures View() == old(View()).Provisioned(g)
    {
      if g != gen {
        return;
      }
      st := Plain(Idle);
    }

    method KeepProblem(g: nat, p: Problem)
      modifies this
      ensures View() == old(View()).KeepProblem(g, p)
    {
      if g == gen {
        st := st.(error := Some(p));
      }
    }
  }
}
