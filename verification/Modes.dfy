/**
 The two mode holders: core/mode.py (REALITY or SIMULATION, the isolation gate) and above it
 core/system_controller.py (five operating modes that each resolve to one of the two).

 A listener is a name; setting the mode returns the names to call, and the caller runs them in the same
 uninterrupted step.
 */
module Modes {
  import opened Basics

  datatype QuantMode = REALITY | SIMULATION

  datatype OperatingMode =
    | REALITY_OPS
    | SIMULATION_OPS
    | AUTONOMOUS_HYPOTHESIS
    | USER_HYPOTHESIS
    | FULLY_AUTONOMOUS

  function Resolve(m: OperatingMode): QuantMode {
    match m
    case REALITY_OPS => REALITY
    case SIMULATION_OPS => SIMULATION
    case AUTONOMOUS_HYPOTHESIS => SIMULATION
    case USER_HYPOTHESIS => SIMULATION
    case FULLY_AUTONOMOUS => REALITY
  }

  class ModeManager {
    var mode: QuantMode
    var listeners: seq<string>

    constructor (initial: QuantMode)
      ensures mode == initial && listeners == []
    {
      mode, listeners := initial, [];
    }

    /** None is a value that does not parse; it leaves the mode alone. */
    method Set(requested: Option<QuantMode>) returns (now: QuantMode, notify: seq<string>)
      modifies this`mode
      ensures mode == now == if requested.Some? then requested.value else old(mode)
      ensures notify == if now == old(mode) then [] else listeners
    {
      now := if requested.Some? then requested.value else mode;
      notify := [];
      if now != mode {
        mode := now;
        notify := listeners;
      }
    }

    method Toggle() returns (now: QuantMode, notify: seq<string>)
      modifies this`mode
      ensures now == mode != old(mode) && notify == listeners
    {
      now, notify := Set(Some(if mode == REALITY then SIMULATION else REALITY));
    }

    method OnChange(listener: string)
      modifies this`listeners
      ensures listeners == old(listeners) + [listener]
    {
      listeners := listeners + [listener];
    }
  }

  /** The operator's switches, as one value. */
  datatype Controls = Controls(operating: OperatingMode, worldEnabled: bool, bridgeRequested: bool)

  function BootControls(worldDefault: bool): Controls {
    Controls(REALITY_OPS, worldDefault, true)
  }

  function CouplingEffective(c: Controls): bool {
    c.worldEnabled && c.bridgeRequested && Resolve(c.operating) == SIMULATION
  }

  class SystemController {
    const manager: ModeManager
    var operating: OperatingMode
    var worldEnabled: bool
    var bridgeRequested: bool

    ghost function View(): Controls
      reads this
    {
      Controls(operating, worldEnabled, bridgeRequested)
    }

    constructor (manager: ModeManager, worldDefault: bool)
      ensures this.manager == manager && View() == BootControls(worldDefault)
    {
      this.manager := manager;
      operating, worldEnabled, bridgeRequested := REALITY_OPS, worldDefault, true;
    }

    method SetMode(requested: Option<OperatingMode>) returns (notify: seq<string>)
      modifies this`operating, manager`mode
      ensures View() == old(View()).(operating := if requested.Some? then requested.value else old(operating))
      ensures manager.mode == Resolve(operating)
      ensures notify == if manager.mode == old(manager.mode) then [] else manager.listeners
    {
      if requested.Some? {
        operating := requested.value;
      }
      var _, names := manager.Set(Some(Resolve(operating)));
      notify := names;
    }

    method SetWorldSimulation(enabled: bool)
      modifies this`worldEnabled
      ensures View() == old(View()).(worldEnabled := enabled)
    {
      worldEnabled := enabled;
    }

    method SetWorldToQuantBridge(enabled: bool)
      modifies this`bridgeRequested
      ensures View() == old(View()).(bridgeRequested := enabled)
    {
      bridgeRequested := enabled;
    }

    method Coupling() returns (r: bool)
      ensures r == CouplingEffective(View())
    {
      r := worldEnabled && bridgeRequested && Resolve(operating) == SIMULATION;
    }
  }
}
