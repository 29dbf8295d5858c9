/** The agente, the client and the run loop as objects that follow the protocol. */
module XrayHandshake {
  import opened Options
  import opened XrayProtocol

  /** The two channels. */
  class Wire {
    var commands: seq<Command>
    var replies: seq<Reply>

    constructor ()
      ensures commands == [] && replies == []
    {
      commands, replies := [], [];
    }
  }

  lemma Regroup<T>(was: seq<T>, x1: seq<T>, x2: seq<T>, x3: seq<T>, x4: seq<T>, x5: seq<T>, x6: seq<T>)
    ensures was + x1 + x2 + x3 + x4 + x5 + x6 == was + (x1 + x2 + x3 + x4 + x5 + x6)
  {
  }

  class XrayAgente {
    const wire: Wire
    const config: Config
    var hvon: bool
    var beamon: Option<bool>
    var voltage: Option<real>
    var current: Option<real>
    var target: Option<string>
    var pending: bool

    function View(): Agente
      reads this
    {
      Agente(hvon, beamon, voltage, current, target, pending)
    }

    constructor (wire: Wire, config: Config)
      ensures View() == NEW_AGENTE && this.wire == wire && this.config == config
    {
      this.wire, this.config := wire, config;
      hvon, pending := false, false;
      beamon, voltage, current, target := None, None, None, None;
    }

    method Send(command: Command)
      modifies wire`commands
      ensures wire.commands == old(wire.commands) + [command]
    {
      wire.commands := wire.commands + [command];
    }

    method SetPending()
      modifies this`pending, wire`commands
      ensures View() == old(View()).(pending := true)
      ensures wire.commands == old(wire.commands) + [Finished]
    {
      Send(Finished);
      pending := true;
    }

    method PrepareTest(e: Environment)
      modifies this, wire`commands
      ensures View() == Prepared(old(View()), e, config)
      ensures wire.commands == old(wire.commands) + Requests(old(View()), e, config)
    {
      if e.xray {
        UseXray(e);
      } else {
        EndXray(e);
      }
    }

    method UseXray(e: Environment)
      requires e.xray
      modifies this, wire`commands
      ensures View() == Prepared(old(View()), e, config)
      ensures wire.commands == old(wire.commands) + Requests(old(View()), e, config)
    {
      ghost var a, was := View(), wire.commands;
      ghost var x1 := If(a.voltage != Some(e.kV), Voltage(Whole(e.kV)));
      ghost var x2 := If(a.current != Some(e.mA), Current(Whole(e.mA)));
      ghost var x3 := If(a.target != Some(e.target), Target(e.target));
      ghost var x4 := If(!a.hvon, HighVoltage(true));
      ghost var x5 := If(a.beamon != Some(true), Beam(true));
      if voltage != Some(e.kV) {
        Send(Voltage(Whole(e.kV)));
        voltage := Some(e.kV);
      }
      assert wire.commands == was + x1;
      if current != Some(e.mA) {
        Send(Current(Whole(e.mA)));
        current := Some(e.mA);
      }
      assert wire.commands == was + x1 + x2;
      if target != Some(e.target) {
        Send(Target(e.target));
        target := Some(e.target);
      }
      assert wire.commands == was + x1 + x2 + x3;
      if !hvon {
        Send(HighVoltage(true));
        hvon := true;
      }
      assert wire.commands == was + x1 + x2 + x3 + x4;
      if beamon != Some(true) {
        Send(Beam(true));
        beamon := Some(true);
      }
      assert wire.commands == was + x1 + x2 + x3 + x4 + x5;
      SetPending();
      Regroup(was, x1, x2, x3, x4, x5, [Finished]);
    }

    method EndXray(e: Environment)
      requires !e.xray
      modifies this, wire`commands
      ensures View() == Prepared(old(View()), e, config)
      ensures wire.commands == old(wire.commands) + Requests(old(View()), e, config)
    {
      ghost var a, was := View(), wire.commands;
      ghost var x1 := If(a.beamon != Some(false), Beam(false));
      ghost var x2 := If(a.hvon && config.turnOffHv, HighVoltage(false));
      if beamon != Some(false) {
        Send(Beam(false));
        beamon := Some(false);
      }
      assert wire.commands == was + x1;
      if hvon && config.turnOffHv {
        Send(HighVoltage(false));
        hvon := false;
      }
      assert wire.commands == was + x1 + x2;
      SetPending();
      assert was + x1 + x2 + [Finished] == was + (x1 + x2 + [Finished]);
    }

    method CleanupTest()
      modifies this, wire`commands
      ensures View() == if EndsBeam(old(View()), config)
                        then old(View()).(beamon := Some(false), pending := true) else old(View())
      ensures wire.commands == old(wire.commands)
                               + if EndsBeam(old(View()), config) then [Beam(false), Finished] else []
    {
      if beamon == Some(true) && config.beamOffBetweenTests {
        Send(Beam(false));
        beamon := Some(false);
        SetPending();
      }
    }

    method FinalTestCleanup()
      modifies this, wire`commands
      ensures View() == old(View()).(pending := true)
      ensures wire.commands == old(wire.commands) + [Beam(false)]
                               + If(config.turnOffHv, HighVoltage(false)) + [Finished]
    {
      Send(Beam(false));
      if config.turnOffHv {
        Send(HighVoltage(false));
      }
      SetPending();
    }

    /** Takes replies until there are none or one reports an error. */
    method CheckFinished() returns (raised: bool, finished: bool)
      modifies this`pending, wire`replies
      ensures var p := Poll(old(pending), old(wire.replies));
              pending == p.pending && raised == p.raised && wire.replies == p.rest
      ensures finished == (!raised && !pending)
    {
      raised := false;
      while wire.replies != [] && !raised
        invariant Poll(old(pending), old(wire.replies))
                  == if raised then Polled(pending, true, wire.replies) else Poll(pending, wire.replies)
        decreases |wire.replies|
      {
        var packet := wire.replies[0];
        wire.replies := wire.replies[1..];
        if pending && packet == Done {
          pending := false;
        } else if packet == Error {
          pending := false;
          raised := true;
        }
      }
      finished := !raised && !pending;
    }
  }

  class XrayClient {
    const wire: Wire
    const targets: set<string>
    var device: Device
    var kV: int
    var mA: int
    var hv: bool
    var shutter: nat
    var turnedOnOnce: bool

    function View(): Client
      reads this
    {
      Client(device, kV, mA, hv, shutter, turnedOnOnce)
    }

    constructor (wire: Wire, targets: set<string>, device: Device)
      ensures View() == Client(device, device.kV, device.mA, device.hv, 3, false)
      ensures this.wire == wire && this.targets == targets
    {
      this.wire, this.targets, this.device := wire, targets, device;
      kV, mA, hv := device.kV, device.mA, device.hv;
      shutter, turnedOnOnce := 3, false;
    }

    /** The generator's part in a command: what it is asked to become, or what it becomes instead. */
    method Drive(wanted: Device, answer: Answer) returns (success: bool)
      modifies this`device
      ensures success == answer.Obeys?
      ensures device == if success then wanted else answer.device
    {
      success := answer.Obeys?;
      device := if success then wanted else answer.device;
    }

    method Report(success: bool)
      modifies wire`replies
      ensures wire.replies == old(wire.replies) + if success then [] else [Error]
    {
      if !success {
        wire.replies := wire.replies + [Error];
      }
    }

    /** One round of the message loop. */
    method Round(answer: Answer)
      modifies this, wire
      ensures old(wire.commands) == [] ==>
                && wire.commands == [] && device == old(device)
                && shutter == old(shutter) && turnedOnOnce == old(turnedOnOnce)
                && InSync(View())
                && wire.replies == old(wire.replies) + if old(InSync(View())) then [] else [Error]
      ensures old(wire.commands) != [] ==>
                && wire.commands == old(wire.commands)[1..]
                && var command := old(wire.commands)[0];
                   var drives := Drives(old(View()), command, targets);
                   if answer.Refuses? && drives then
                     && View() == Refused(old(View()), command, answer.device, targets)
                     && wire.replies == old(wire.replies) + [Error]
                   else
                     && View() == Obeyed(old(View()), command, targets)
                     && wire.replies == old(wire.replies) + if command == Finished then [Done] else []
    {
      if wire.commands == [] {
        if !(device.hv == hv && device.kV == kV && device.mA == mA) {
          wire.replies := wire.replies + [Error];
          kV, mA, hv := device.kV, device.mA, device.hv;
        }
        return;
      }
      var command := wire.commands[0];
      wire.commands := wire.commands[1..];
      var success := true;
      match command {
        case Target(target) =>
          var previous := shutter;
          if target in targets {
            shutter := 1;
          } else if IsNone(target) || target == "" {
            shutter := 3;
          }
          if shutter != previous && turnedOnOnce {
            success := Drive(device.(open := device.open - {previous} + {shutter}), answer);
          }
        case Voltage(v) =>
          success := Drive(device.(kV := v), answer);
          if success {
            kV := v;
          }
        case Current(a) =>
          success := Drive(device.(mA := a), answer);
          if success {
            mA := a;
          }
        case HighVoltage(on) =>
          success := Drive(device.(hv := on), answer);
          if success {
            hv := on;
          }
        case Beam(on) =>
          success := Drive(device.(open := if on then device.open + {shutter} else device.open - {shutter}), answer);
          if success && on {
            turnedOnOnce := true;
          }
        case Finished =>
          wire.replies := wire.replies + [Done];
      }
      Report(success);
    }
  }

  /** The loop over the tests, as far as this agente is concerned. */
  class Comandante {
    const agente: XrayAgente
    const client: XrayClient
    var phase: Phase
    var raised: bool
    ghost var failed: bool
    ghost var chosen: nat

    ghost function State(): World
      reads this, agente, client, agente.wire
    {
      World(agente.View(), client.View(), agente.wire.commands, agente.wire.replies, phase, raised, failed, chosen)
    }

    ghost predicate Valid()
      reads this, agente, client, agente.wire
    {
      && agente.wire == client.wire && client.targets == agente.config.targets
      && Inv(State(), agente.config)
    }

    constructor (config: Config, device: Device)
      requires device.open == {}
      ensures Valid() && fresh(agente) && fresh(client) && fresh(agente.wire)
      ensures agente.config == config && Initial(State()) && client.device == device
    {
      var wire := new Wire();
      agente := new XrayAgente(wire, config);
      client := new XrayClient(wire, config.targets, device);
      phase, raised, failed, chosen := Start, false, false, 3;
      new;
      InitialInv(State(), config);
    }

    method PrepareTest(e: Environment)
      requires Valid() && Enabled(State(), Prepare(e))
      modifies this, agente, agente.wire
      ensures Valid() && State() == Perform(old(State()), Prepare(e), agente.config)
    {
      hide Inv, Enabled, Prepared, Requests;
      Keeps(State(), Prepare(e), agente.config);
      agente.PrepareTest(e);
      phase := Testing(e);
      chosen := Chosen(chosen, e, client.targets);
    }

    method CleanupTest()
      requires Valid() && Enabled(State(), CleanUp)
      modifies this, agente, agente.wire
      ensures Valid() && State() == Perform(old(State()), CleanUp, agente.config)
    {
      hide Inv;
      Keeps(State(), CleanUp, agente.config);
      ghost var was := agente.wire.commands;
      agente.CleanupTest();
      assert was + [] == was;
      phase := Cleaned(phase.env);
    }

    method FinalTestCleanup()
      requires Valid() && Enabled(State(), FinishUp)
      modifies this, agente, agente.wire
      ensures Valid() && State() == Perform(old(State()), FinishUp, agente.config)
    {
      hide Inv, Enabled;
      Keeps(State(), FinishUp, agente.config);
      ghost var was := State();
      agente.FinalTestCleanup();
      assert agente.wire.commands == Perform(was, FinishUp, agente.config).commands;
      phase := Ended;
    }

    method ClientRound(answer: Answer)
      requires Valid()
      modifies this`failed, client, agente.wire
      ensures Valid() && State() == Perform(old(State()), Turn(answer), agente.config)
    {
      hide Inv, Obeyed, Refused;
      Keeps(State(), Turn(answer), agente.config);
      ObeyedQuestion(client.View(), client.targets);
      ghost var was := State();
      failed := Turned(State(), answer, client.targets).failed;
      client.Round(answer);
      assert was.replies + [] == was.replies;
      assert State().client == Perform(was, Turn(answer), agente.config).client;
    }

    method CheckFinished() returns (finished: bool)
      requires Valid() && !raised
      modifies this`raised, agente`pending, agente.wire`replies
      ensures Valid() && State() == Perform(old(State()), Check, agente.config)
      ensures finished == (!raised && !agente.pending)
    {
      hide Inv, Poll;
      Keeps(State(), Check, agente.config);
      raised, finished := agente.CheckFinished();
    }

    /** Asks again and again until the agente has finished or an error is raised. The client
        has a round between two questions; the generator's answers are arbitrary. */
    method WaitUntilFinished(answers: nat -> Answer)
      requires Valid() && !raised
      modifies this`raised, this`failed, agente`pending, client, agente.wire
      ensures Valid() && phase == old(phase)
      ensures raised <==> failed
      ensures !raised ==> !agente.pending && agente.wire.commands == [] && Settled(State(), agente.config)
    {
      hide Perform, Inv, Settled;
      ghost var before := State();
      var finished := CheckFinished();
      AfterCheck(before, agente.config);
      var n := 0;
      while !finished && !raised
        invariant Valid() && phase == old(phase)
        invariant finished == (!raised && !agente.pending)
        invariant raised <==> failed
        invariant !raised ==> agente.wire.replies == []
        decreases |agente.wire.commands|
      {
        before := State();
        Waiting(before, answers(n), agente.config);
        ClientRound(answers(n));
        AfterCheck(State(), agente.config);
        finished := CheckFinished();
        n := n + 1;
      }
      if !raised {
        SettledWhen(State(), agente.config);
      }
    }
  }
}
