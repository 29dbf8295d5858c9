/** The commands with which the x-ray agente drives its client, as a state machine over two
    reliable first-in first-out channels. The generator may refuse any command. */
module XrayProtocol {
  import opened Options

  datatype Environment = Environment(xray: bool, kV: real, mA: real, target: string)

  datatype Config = Config(beamOffBetweenTests: bool, turnOffHv: bool, targets: set<string>)

  datatype Command =
    | Voltage(kV: int)
    | Current(mA: int)
    | Target(target: string)
    | HighVoltage(on: bool)
    | Beam(on: bool)
    | Finished

  datatype Reply = Done | Error

  /** The generator: its settings and the shutters that are open. */
  datatype Device = Device(kV: int, mA: int, hv: bool, open: set<nat>)

  /** What the generator makes of a command. After a refusal it can be in any state. */
  datatype Answer = Obeys | Refuses(device: Device)

  /** The client: the generator, the settings it is supposed to have, and the shutter in use. */
  datatype Client = Client(device: Device, kV: int, mA: int, hv: bool, shutter: nat, turnedOnOnce: bool)

  /** What the agente believes about the client. */
  datatype Agente = Agente(
    hvon: bool, beamon: Option<bool>, voltage: Option<real>, current: Option<real>, target: Option<string>,
    pending: bool)

  const NEW_AGENTE := Agente(false, None, None, None, None, false)

  /** How a number is formatted with %d: cut off toward zero. */
  function Whole(x: real): int {
    if x >= 0.0 then x.Floor else -(-x).Floor
  }

  // ----- the client -----

  predicate IsNone(s: string) {
    |s| == 4 && s[0] in "nN" && s[1] in "oO" && s[2] in "nN" && s[3] in "eE"
  }

  /** All the ways to write none. */
  const NONES := {
    "none", "nonE", "noNe", "noNE", "nOne", "nOnE", "nONe", "nONE",
    "None", "NonE", "NoNe", "NoNE", "NOne", "NOnE", "NONe", "NONE"
  }

  lemma IsNoneIff(s: string)
    ensures IsNone(s) <==> s in NONES
  {
    if IsNone(s) {
      assert s == [s[0], s[1], s[2], s[3]];
    }
  }

  /** The shutter that a target selects: the first one is for targets, the third for the direct beam. */
  function Selects(target: string, targets: set<string>): Option<nat> {
    if target in targets then Some(1)
    else if IsNone(target) || target == "" then Some(3)
    else None
  }

  function AfterTarget(shutter: nat, target: string, targets: set<string>): nat {
    match Selects(target, targets) case Some(s) => s case None => shutter
  }

  /** Whether a command makes the client talk to the generator. */
  predicate Drives(c: Client, command: Command, targets: set<string>) {
    match command
    case Target(t) => c.turnedOnOnce && AfterTarget(c.shutter, t, targets) != c.shutter
    case Finished => false
    case _ => true
  }

  function Obeyed(c: Client, command: Command, targets: set<string>): Client {
    match command
    case Voltage(v) => c.(device := c.device.(kV := v), kV := v)
    case Current(a) => c.(device := c.device.(mA := a), mA := a)
    case HighVoltage(on) => c.(device := c.device.(hv := on), hv := on)
    case Beam(true) => c.(device := c.device.(open := c.device.open + {c.shutter}), turnedOnOnce := true)
    case Beam(false) => c.(device := c.device.(open := c.device.open - {c.shutter}))
    case Target(t) =>
      var s := AfterTarget(c.shutter, t, targets);
      if Drives(c, command, targets)
      then c.(device := c.device.(open := c.device.open - {c.shutter} + {s}), shutter := s)
      else c.(shutter := s)
    case Finished => c
  }

  function Refused(c: Client, command: Command, device: Device, targets: set<string>): Client {
    match command
    case Target(t) => c.(device := device, shutter := AfterTarget(c.shutter, t, targets))
    case _ => c.(device := device)
  }

  /** Whether the generator still has the settings it is supposed to have. */
  predicate InSync(c: Client) {
    c.device.hv == c.hv && c.device.kV == c.kV && c.device.mA == c.mA
  }

  // ----- the agente -----

  function Chosen(shutter: nat, e: Environment, targets: set<string>): nat {
    if e.xray then AfterTarget(shutter, e.target, targets) else shutter
  }

  function If(b: bool, command: Command): seq<Command> {
    if b then [command] else []
  }

  /** The commands for an environment: those that change something, then the question
      whether they are finished. */
  function Requests(a: Agente, e: Environment, config: Config): seq<Command> {
    if e.xray then
      If(a.voltage != Some(e.kV), Voltage(Whole(e.kV))) + If(a.current != Some(e.mA), Current(Whole(e.mA)))
      + If(a.target != Some(e.target), Target(e.target))
      + If(!a.hvon, HighVoltage(true)) + If(a.beamon != Some(true), Beam(true)) + [Finished]
    else
      If(a.beamon != Some(false), Beam(false)) + If(a.hvon && config.turnOffHv, HighVoltage(false)) + [Finished]
  }

  function Prepared(a: Agente, e: Environment, config: Config): Agente {
    if e.xray then Agente(true, Some(true), Some(e.kV), Some(e.mA), Some(e.target), true)
    else a.(beamon := Some(false), hvon := a.hvon && !config.turnOffHv, pending := true)
  }

  predicate EndsBeam(a: Agente, config: Config) {
    a.beamon == Some(true) && config.beamOffBetweenTests
  }

  /** What is left after looking through the replies: whether still pending, whether an
      error was raised, and the replies behind the error. */
  datatype Polled = Polled(pending: bool, raised: bool, rest: seq<Reply>)

  function Poll(pending: bool, replies: seq<Reply>): Polled
    decreases |replies|
  {
    if replies == [] then Polled(pending, false, [])
    else if replies[0] == Error then Polled(false, true, replies[1..])
    else Poll(false, replies[1..])
  }

  // ----- all of it -----

  /** How far the loop over the tests has got. */
  datatype Phase = Start | Testing(env: Environment) | Cleaned(env: Environment) | Ended

  /** raised: the run was ended by an error; failed: the generator refused a command; chosen:
      the shutter that the last target to select any has selected. */
  datatype World = World(
    agente: Agente, client: Client, commands: seq<Command>, replies: seq<Reply>,
    phase: Phase, raised: bool, failed: bool, chosen: nat)

  datatype Action = Prepare(env: Environment) | CleanUp | FinishUp | Turn(answer: Answer) | Check

  /** Tests follow one another, each step waits until the agente is no longer pending, and
      nothing follows a raised error. The client's turns can come at any time. */
  predicate Enabled(w: World, action: Action) {
    match action
    case Prepare(_) => !w.raised && !w.agente.pending && (w.phase.Start? || w.phase.Cleaned?)
    case CleanUp => !w.raised && !w.agente.pending && w.phase.Testing?
    case FinishUp => !w.raised && !w.agente.pending && (w.phase.Start? || w.phase.Cleaned?)
    case Turn(_) => true
    case Check => !w.raised
  }

  /** One round of the client's loop: a command, or a look at the generator if there is none. */
  function Turned(w: World, answer: Answer, targets: set<string>): World {
    if w.commands == [] then
      if InSync(w.client) then w
      else
        var d := w.client.device;
        w.(client := w.client.(kV := d.kV, mA := d.mA, hv := d.hv), replies := w.replies + [Error])
    else
      var command := w.commands[0];
      var rest := w.(commands := w.commands[1..]);
      if command == Finished then rest.(replies := w.replies + [Done])
      else if answer.Refuses? && Drives(w.client, command, targets) then
        rest.(client := Refused(w.client, command, answer.device, targets), replies := w.replies + [Error],
              failed := true)
      else
        rest.(client := Obeyed(w.client, command, targets))
  }

  function Perform(w: World, action: Action, config: Config): World {
    match action
    case Prepare(e) =>
      w.(agente := Prepared(w.agente, e, config), commands := w.commands + Requests(w.agente, e, config),
         phase := Testing(e), chosen := Chosen(w.chosen, e, config.targets))
    case CleanUp =>
      if w.phase.Testing? && EndsBeam(w.agente, config) then
        w.(agente := w.agente.(beamon := Some(false), pending := true),
           commands := w.commands + [Beam(false), Finished], phase := Cleaned(w.phase.env))
      else if w.phase.Testing? then w.(phase := Cleaned(w.phase.env))
      else w
    case FinishUp =>
      w.(agente := w.agente.(pending := true),
         commands := w.commands + [Beam(false)] + If(config.turnOffHv, HighVoltage(false)) + [Finished],
         phase := Ended)
    case Turn(answer) => Turned(w, answer, config.targets)
    case Check =>
      var p := Poll(w.agente.pending, w.replies);
      w.(agente := w.agente.(pending := p.pending), replies := p.rest, raised := p.raised)
  }

  function Performed(w: World, actions: seq<Action>, config: Config): World {
    if actions == [] then w
    else Perform(Performed(w, actions[..|actions| - 1], config), actions[|actions| - 1], config)
  }

  ghost predicate Possible(w: World, actions: seq<Action>, config: Config) {
    forall i | 0 <= i < |actions| :: Enabled(Performed(w, actions[..i], config), actions[i])
  }

  /** At first all shutters are closed, and the client knows the generator's settings. */
  predicate Initial(w: World) {
    && w.agente == NEW_AGENTE
    && InSync(w.client) && w.client.device.open == {} && w.client.shutter == 3 && !w.client.turnedOnOnce
    && w.commands == [] && w.replies == []
    && w.phase == Start && !w.raised && !w.failed && w.chosen == 3
  }

  // ----- what the agente relies on -----

  /** The client after the rest of the commands, all obeyed. */
  function Drained(c: Client, commands: seq<Command>, targets: set<string>): Client
    decreases |commands|
  {
    if commands == [] then c else Drained(Obeyed(c, commands[0], targets), commands[1..], targets)
  }

  predicate Agrees(x: Option<real>, n: int) {
    x.Some? ==> Whole(x.value) == n
  }

  predicate Believes(a: Agente, c: Client, targets: set<string>) {
    && Agrees(a.voltage, c.kV) && Agrees(a.current, c.mA)
    && (a.target.Some? && Selects(a.target.value, targets).Some?
        ==> Selects(a.target.value, targets).value == c.shutter)
    && (a.hvon ==> c.hv) && (c.turnedOnOnce && c.hv ==> a.hvon)
    && (a.beamon == Some(true) ==> c.device.open == {c.shutter} && c.turnedOnOnce)
    && (a.beamon != Some(true) ==> c.device.open == {})
  }

  predicate Cached(a: Agente, e: Environment, beam: bool, config: Config) {
    if e.xray then
      a.voltage == Some(e.kV) && a.current == Some(e.mA) && a.target == Some(e.target) && a.hvon
      && a.beamon == Some(beam)
    else
      a.beamon == Some(false) && (config.turnOffHv ==> !a.hvon)
  }

  predicate Dark(c: Client, config: Config) {
    c.device.open == {} && (config.turnOffHv ==> !c.hv)
  }

  predicate Relies(w: World, c: Client, config: Config) {
    && c.shutter == w.chosen
    && match w.phase
    case Start => w.agente == NEW_AGENTE && Believes(w.agente, c, config.targets)
    case Testing(e) => Cached(w.agente, e, true, config) && Believes(w.agente, c, config.targets)
    case Cleaned(e) => Cached(w.agente, e, !config.beamOffBetweenTests, config) && Believes(w.agente, c, config.targets)
    case Ended => Dark(c, config)
  }

  predicate Awaiting(commands: seq<Command>) {
    && commands != [] && commands[|commands| - 1] == Finished
    && forall i | 0 <= i < |commands| - 1 :: commands[i] != Finished
  }

  /** The question and its answer are never both on the way, and nothing is behind them. */
  predicate Queues(w: World) {
    if w.agente.pending then
      (Awaiting(w.commands) && w.replies == []) || (w.commands == [] && w.replies == [Done])
    else
      w.commands == [] && w.replies == []
  }

  predicate Good(w: World, config: Config) {
    InSync(w.client) && Queues(w) && Relies(w, Drained(w.client, w.commands, config.targets), config)
  }

  /** Refusals are the only reason for errors, and an error comes before the answer. */
  predicate Inv(w: World, config: Config) {
    if w.raised then w.failed
    else if w.failed then w.agente.pending && w.replies != [] && w.replies[0] == Error
    else Good(w, config)
  }

  // ----- every action keeps it -----

  lemma {:induction false} DrainedAppend(c: Client, xs: seq<Command>, ys: seq<Command>, targets: set<string>)
    ensures Drained(c, xs + ys, targets) == Drained(Drained(c, xs, targets), ys, targets)
    decreases |xs|
  {
    hide Obeyed;
    if xs == [] {
      assert xs + ys == ys;
    } else {
      assert (xs + ys)[1..] == xs[1..] + ys;
      DrainedAppend(Obeyed(c, xs[0], targets), xs[1..], ys, targets);
    }
  }

  lemma DrainedIf(c: Client, b: bool, command: Command, targets: set<string>)
    ensures Drained(c, If(b, command), targets) == if b then Obeyed(c, command, targets) else c
  {
    hide Obeyed;
    assert Drained(Obeyed(c, command, targets), [], targets) == Obeyed(c, command, targets);
  }

  /** The requests for an x-ray environment one after the other. */
  lemma RequestsXray(a: Agente, e: Environment, c: Client, config: Config)
    requires e.xray
    ensures var t := config.targets;
            var c1 := if a.voltage != Some(e.kV) then Obeyed(c, Voltage(Whole(e.kV)), t) else c;
            var c2 := if a.current != Some(e.mA) then Obeyed(c1, Current(Whole(e.mA)), t) else c1;
            var c3 := if a.target != Some(e.target) then Obeyed(c2, Target(e.target), t) else c2;
            var c4 := if !a.hvon then Obeyed(c3, HighVoltage(true), t) else c3;
            var c5 := if a.beamon != Some(true) then Obeyed(c4, Beam(true), t) else c4;
            Drained(c, Requests(a, e, config), t) == c5
  {
    hide Obeyed, If, Drained, Whole;
    var t := config.targets;
    var x1 := If(a.voltage != Some(e.kV), Voltage(Whole(e.kV)));
    var x2 := If(a.current != Some(e.mA), Current(Whole(e.mA)));
    var x3 := If(a.target != Some(e.target), Target(e.target));
    var x4 := If(!a.hvon, HighVoltage(true));
    var x5 := If(a.beamon != Some(true), Beam(true));
    DrainedAppend(c, x1 + x2 + x3 + x4 + x5, [Finished], t);
    DrainedAppend(c, x1 + x2 + x3 + x4, x5, t);
    DrainedAppend(c, x1 + x2 + x3, x4, t);
    DrainedAppend(c, x1 + x2, x3, t);
    DrainedAppend(c, x1, x2, t);
    var c1 := Drained(c, x1, t);
    var c2 := Drained(c1, x2, t);
    var c3 := Drained(c2, x3, t);
    var c4 := Drained(c3, x4, t);
    DrainedIf(c, a.voltage != Some(e.kV), Voltage(Whole(e.kV)), t);
    DrainedIf(c1, a.current != Some(e.mA), Current(Whole(e.mA)), t);
    DrainedIf(c2, a.target != Some(e.target), Target(e.target), t);
    DrainedIf(c3, !a.hvon, HighVoltage(true), t);
    DrainedIf(c4, a.beamon != Some(true), Beam(true), t);
    DrainedQuestion(Drained(c4, x5, t), t);
  }

  lemma DrainedQuestion(c: Client, targets: set<string>)
    ensures Drained(c, [Finished], targets) == c
  {
    assert Drained(c, [], targets) == c;
  }

  lemma RequestsNoXray(a: Agente, e: Environment, c: Client, config: Config)
    requires !e.xray
    ensures var t := config.targets;
            var c1 := if a.beamon != Some(false) then Obeyed(c, Beam(false), t) else c;
            var c2 := if a.hvon && config.turnOffHv then Obeyed(c1, HighVoltage(false), t) else c1;
            Drained(c, Requests(a, e, config), t) == c2
  {
    hide Obeyed, If, Drained;
    var t := config.targets;
    var x1, x2 := If(a.beamon != Some(false), Beam(false)), If(a.hvon && config.turnOffHv, HighVoltage(false));
    DrainedAppend(c, x1 + x2, [Finished], t);
    DrainedAppend(c, x1, x2, t);
    DrainedIf(c, a.beamon != Some(false), Beam(false), t);
    DrainedIf(Drained(c, x1, t), a.hvon && config.turnOffHv, HighVoltage(false), t);
    DrainedQuestion(Drained(Drained(c, x1, t), x2, t), t);
  }

  lemma RequestsAwait(a: Agente, e: Environment, config: Config)
    ensures Awaiting(Requests(a, e, config))
  {
    hide Whole, If, Awaiting;
    var x1 := If(a.voltage != Some(e.kV), Voltage(Whole(e.kV)));
    var x2 := If(a.current != Some(e.mA), Current(Whole(e.mA)));
    var x3 := If(a.target != Some(e.target), Target(e.target));
    var x4 := If(!a.hvon, HighVoltage(true));
    var x5 := If(a.beamon != Some(true), Beam(true));
    var y1, y2 := If(a.beamon != Some(false), Beam(false)), If(a.hvon && config.turnOffHv, HighVoltage(false));
    InIf(a.voltage != Some(e.kV), Voltage(Whole(e.kV)), Finished);
    InIf(a.current != Some(e.mA), Current(Whole(e.mA)), Finished);
    InIf(a.target != Some(e.target), Target(e.target), Finished);
    InIf(!a.hvon, HighVoltage(true), Finished);
    InIf(a.beamon != Some(true), Beam(true), Finished);
    InIf(a.beamon != Some(false), Beam(false), Finished);
    InIf(a.hvon && config.turnOffHv, HighVoltage(false), Finished);
    AwaitingLast(x1 + x2 + x3 + x4 + x5);
    AwaitingLast(y1 + y2);
  }

  lemma AwaitingLast(xs: seq<Command>)
    requires Finished !in xs
    ensures Awaiting(xs + [Finished])
  {
  }

  lemma InIf(b: bool, command: Command, c: Command)
    ensures c in If(b, command) <==> b && c == command
  {
  }

  lemma InRequests(a: Agente, e: Environment, config: Config, c: Command)
    ensures c in Requests(a, e, config) <==>
            || c == Finished
            || (e.xray && a.voltage != Some(e.kV) && c == Voltage(Whole(e.kV)))
            || (e.xray && a.current != Some(e.mA) && c == Current(Whole(e.mA)))
            || (e.xray && a.target != Some(e.target) && c == Target(e.target))
            || (e.xray && !a.hvon && c == HighVoltage(true))
            || (e.xray && a.beamon != Some(true) && c == Beam(true))
            || (!e.xray && a.beamon != Some(false) && c == Beam(false))
            || (!e.xray && a.hvon && config.turnOffHv && c == HighVoltage(false))
  {
    hide Whole, If;
    InIf(a.voltage != Some(e.kV), Voltage(Whole(e.kV)), c);
    InIf(a.current != Some(e.mA), Current(Whole(e.mA)), c);
    InIf(a.target != Some(e.target), Target(e.target), c);
    InIf(!a.hvon, HighVoltage(true), c);
    InIf(a.beamon != Some(true), Beam(true), c);
    InIf(a.beamon != Some(false), Beam(false), c);
    InIf(a.hvon && config.turnOffHv, HighVoltage(false), c);
  }

  /** Nothing is sent but what changes something, and the question. */
  lemma RequestsIff(a: Agente, e: Environment, config: Config)
    ensures var r := Requests(a, e, config);
            && (forall v :: Voltage(v) in r <==> e.xray && a.voltage != Some(e.kV) && v == Whole(e.kV))
            && (forall v :: Current(v) in r <==> e.xray && a.current != Some(e.mA) && v == Whole(e.mA))
            && (forall t :: Target(t) in r <==> e.xray && a.target != Some(e.target) && t == e.target)
            && (HighVoltage(true) in r <==> e.xray && !a.hvon)
            && (HighVoltage(false) in r <==> !e.xray && a.hvon && config.turnOffHv)
            && (Beam(true) in r <==> e.xray && a.beamon != Some(true))
            && (Beam(false) in r <==> !e.xray && a.beamon != Some(false))
            && Finished in r
  {
    hide Requests, Whole;
    forall c
      ensures c in Requests(a, e, config) <==>
              || c == Finished
              || (e.xray && a.voltage != Some(e.kV) && c == Voltage(Whole(e.kV)))
              || (e.xray && a.current != Some(e.mA) && c == Current(Whole(e.mA)))
              || (e.xray && a.target != Some(e.target) && c == Target(e.target))
              || (e.xray && !a.hvon && c == HighVoltage(true))
              || (e.xray && a.beamon != Some(true) && c == Beam(true))
              || (!e.xray && a.beamon != Some(false) && c == Beam(false))
              || (!e.xray && a.hvon && config.turnOffHv && c == HighVoltage(false))
    {
      InRequests(a, e, config, c);
    }
  }

  /** Whatever the agente knows, its requests bring about what it believes afterwards. */
  lemma PrepareWorks(a: Agente, e: Environment, c: Client, config: Config)
    requires Believes(a, c, config.targets) && InSync(c)
    ensures Believes(Prepared(a, e, config), Drained(c, Requests(a, e, config), config.targets), config.targets)
    ensures Drained(c, Requests(a, e, config), config.targets).shutter == Chosen(c.shutter, e, config.targets)
  {
    hide Drained, Requests, Whole;
    if e.xray {
      RequestsXray(a, e, c, config);
    } else {
      RequestsNoXray(a, e, c, config);
    }
  }

  lemma KeptByPrepare(w: World, e: Environment, config: Config)
    requires Inv(w, config) && Enabled(w, Prepare(e))
    ensures Inv(Perform(w, Prepare(e), config), config)
  {
    hide Drained, Believes, Requests, Awaiting, Chosen;
    assert w.commands == [] && w.commands + Requests(w.agente, e, config) == Requests(w.agente, e, config);
    DrainedNothing(w.client, config.targets);
    RequestsAwait(w.agente, e, config);
    PrepareWorks(w.agente, e, w.client, config);
  }

  lemma DrainedNothing(c: Client, targets: set<string>)
    ensures Drained(c, [], targets) == c
  {
  }

  lemma KeptByCleanUp(w: World, config: Config)
    requires Inv(w, config) && Enabled(w, CleanUp)
    ensures Inv(Perform(w, CleanUp, config), config)
  {
    hide Drained;
    DrainedNothing(w.client, config.targets);
    var c := Obeyed(w.client, Beam(false), config.targets);
    if EndsBeam(w.agente, config) {
      assert w.commands + [Beam(false), Finished] == [Beam(false)] + [Finished] == [Beam(false), Finished];
      DrainedAppend(w.client, [Beam(false)], [Finished], config.targets);
      DrainedIf(w.client, true, Beam(false), config.targets);
      DrainedQuestion(c, config.targets);
    }
  }

  lemma KeptByFinishUp(w: World, config: Config)
    requires Inv(w, config) && Enabled(w, FinishUp)
    ensures Inv(Perform(w, FinishUp, config), config)
  {
    hide Drained;
    DrainedNothing(w.client, config.targets);
    var t := config.targets;
    var xs := If(config.turnOffHv, HighVoltage(false));
    var c := Obeyed(w.client, Beam(false), t);
    assert w.commands + [Beam(false)] + xs + [Finished] == [Beam(false)] + xs + [Finished];
    DrainedAppend(w.client, [Beam(false)] + xs, [Finished], t);
    DrainedAppend(w.client, [Beam(false)], xs, t);
    DrainedIf(w.client, true, Beam(false), t);
    DrainedIf(c, config.turnOffHv, HighVoltage(false), t);
    DrainedQuestion(Drained(c, xs, t), t);
  }

  lemma KeptByTurn(w: World, answer: Answer, config: Config)
    requires Inv(w, config)
    ensures Inv(Perform(w, Turn(answer), config), config)
  {
    hide Relies, Obeyed, Refused, Drives;
    if !w.raised && !w.failed && w.commands != [] {
      assert InSync(Obeyed(w.client, w.commands[0], config.targets)) by {
        ObeyedInSync(w.client, w.commands[0], config.targets);
      }
      assert Obeyed(w.client, Finished, config.targets) == w.client by { ObeyedQuestion(w.client, config.targets); }
      var after := Turned(w, answer, config.targets);
      RelyOn(w, after, Drained(w.client, w.commands, config.targets), config);
    }
  }

  lemma RelyOn(v: World, w: World, c: Client, config: Config)
    requires v.phase == w.phase && v.agente == w.agente && v.chosen == w.chosen
    ensures Relies(v, c, config) == Relies(w, c, config)
  {
  }

  lemma ObeyedInSync(c: Client, command: Command, targets: set<string>)
    requires InSync(c)
    ensures InSync(Obeyed(c, command, targets))
  {
  }

  lemma ObeyedQuestion(c: Client, targets: set<string>)
    ensures Obeyed(c, Finished, targets) == c
  {
  }

  lemma KeptByCheck(w: World, config: Config)
    requires Inv(w, config) && Enabled(w, Check)
    ensures Inv(Perform(w, Check, config), config)
  {
    hide Whole, Drained;
    assert [Done][1..] == [];
  }

  lemma {:induction false} InvHolds(w: World, actions: seq<Action>, config: Config)
    requires Initial(w) && Possible(w, actions, config)
    ensures Inv(Performed(w, actions, config), config)
  {
    hide Perform, Inv, Enabled;
    if actions == [] {
      InitialInv(w, config);
    } else {
      var n := |actions| - 1;
      assert forall i | 0 <= i < n :: actions[..n][..i] == actions[..i];
      InvHolds(w, actions[..n], config);
      Keeps(Performed(w, actions[..n], config), actions[n], config);
    }
  }

  lemma InitialInv(w: World, config: Config)
    requires Initial(w)
    ensures Inv(w, config)
  {
    hide Drained;
    DrainedNothing(w.client, config.targets);
  }

  lemma Keeps(w: World, action: Action, config: Config)
    requires Inv(w, config) && Enabled(w, action)
    ensures Inv(Perform(w, action, config), config)
  {
    hide Perform, Inv, Enabled;
    match action
    case Prepare(e) => KeptByPrepare(w, e, config);
    case CleanUp => KeptByCleanUp(w, config);
    case FinishUp => KeptByFinishUp(w, config);
    case Turn(answer) => KeptByTurn(w, answer, config);
    case Check => KeptByCheck(w, config);
  }

  // ----- what is promised -----

  /** The device shows the environment, and its beam leaves through exactly one shutter: the
      first one for a known target, the third one for none, otherwise the one chosen before. */
  predicate Matches(c: Client, e: Environment, chosen: nat, targets: set<string>) {
    && c.device.kV == Whole(e.kV) && c.device.mA == Whole(e.mA) && c.device.hv
    && c.device.open == {chosen}
    && (e.target in targets ==> chosen == 1)
    && (e.target !in targets && (e.target == "" || e.target in NONES) ==> chosen == 3)
  }

  predicate Settled(w: World, config: Config) {
    var d := w.client.device;
    match w.phase
    case Start => d.open == {}
    case Testing(e) =>
      if e.xray then Matches(w.client, e, w.chosen, config.targets)
      else d.open == {} && (config.turnOffHv && w.client.turnedOnOnce ==> !d.hv)
    case Cleaned(e) =>
      if e.xray && !config.beamOffBetweenTests then Matches(w.client, e, w.chosen, config.targets) else d.open == {}
    case Ended => d.open == {} && (config.turnOffHv ==> !d.hv)
  }

  lemma SettledWhen(w: World, config: Config)
    requires Inv(w, config) && !w.raised && !w.agente.pending
    ensures w.commands == [] && w.replies == [] && Settled(w, config)
  {
    hide Whole, Drained, IsNone;
    DrainedNothing(w.client, config.targets);
    if w.phase.Testing? || w.phase.Cleaned? {
      IsNoneIff(w.phase.env.target);
    }
  }

  /** In every run: once the agente is not pending, all commands have been executed, an
      error was raised exactly if the generator refused a command, and without an error
      the generator is as the phase demands. */
  lemma NotPendingIsSettled(w: World, actions: seq<Action>, config: Config)
    requires Initial(w) && Possible(w, actions, config)
    ensures var v := Performed(w, actions, config);
            !v.agente.pending && !v.raised ==> v.commands == [] && v.replies == [] && Settled(v, config)
    ensures var v := Performed(w, actions, config);
            !v.agente.pending ==> (v.raised <==> v.failed)
  {
    hide Performed, Settled;
    InvHolds(w, actions, config);
    var v := Performed(w, actions, config);
    if !v.raised && !v.agente.pending {
      SettledWhen(v, config);
    }
  }

  /** Looking at the replies leaves none, unless one of them was an error. */
  lemma AfterCheck(w: World, config: Config)
    requires Inv(w, config) && Enabled(w, Check)
    ensures var v := Perform(w, Check, config); (v.raised <==> v.failed) && (!v.raised ==> v.replies == [])
  {
    hide Relies, Drained;
    assert [Done][1..] == [];
  }

  /** While waiting there is a command for the client to take. */
  lemma Waiting(w: World, answer: Answer, config: Config)
    requires Inv(w, config) && !w.raised && w.agente.pending && w.replies == []
    ensures w.commands != []
    ensures Perform(w, Turn(answer), config).commands == w.commands[1..]
    ensures Perform(w, Turn(answer), config).phase == w.phase
    ensures !Perform(w, Turn(answer), config).raised
  {
    hide Relies, Drained, Obeyed, Refused, Drives;
  }

  /** Where the device shows an environment, a setting is exactly the one wanted if and only
      if a whole number was wanted. */
  lemma SettingsIff(c: Client, e: Environment, chosen: nat, targets: set<string>)
    requires Matches(c, e, chosen, targets)
    ensures c.device.kV as real == e.kV <==> e.kV.Floor as real == e.kV
    ensures c.device.mA as real == e.mA <==> e.mA.Floor as real == e.mA
  {
    WholeIff(e.kV);
    WholeIff(e.mA);
  }

  /** Numbers are cut off toward zero. */
  lemma WholeIff(x: real)
    ensures Whole(x) as real == x <==> x.Floor as real == x
    ensures x >= 0.0 ==> 0.0 <= Whole(x) as real <= x < Whole(x) as real + 1.0
    ensures x <= 0.0 ==> Whole(x) as real - 1.0 < x <= Whole(x) as real <= 0.0
  {
    assert x.Floor as real == x ==> (-x).Floor == -x.Floor;
  }

  // ----- a target that nobody knows -----

  function Turns(n: nat): seq<Action> {
    seq(n, _ => Turn(Obeys))
  }

  lemma {:induction false} TurnsDrain(w: World, config: Config)
    requires !w.failed && InSync(w.client) && Awaiting(w.commands) && w.replies == []
    ensures Performed(w, Turns(|w.commands|), config)
            == w.(client := Drained(w.client, w.commands, config.targets), commands := [], replies := [Done])
    decreases |w.commands|
  {
    hide Obeyed, Drives;
    var first, rest := w.commands[0], w.commands[1..];
    var v := Perform(w, Turn(Obeys), config);
    ObeyedQuestion(w.client, config.targets);
    DrainedNothing(w.client, config.targets);
    PerformedFirst(w, Turn(Obeys), Turns(|rest|), config);
    assert Turns(|w.commands|) == [Turn(Obeys)] + Turns(|rest|);
    if rest == [] {
      assert Turns(0) == [];
      assert first == Finished && w.replies + [Done] == [Done];
    } else {
      ObeyedInSync(w.client, first, config.targets);
      assert first != Finished;
      TurnsDrain(v, config);
    }
  }

  lemma {:induction false} PerformedFirst(w: World, action: Action, actions: seq<Action>, config: Config)
    ensures Performed(w, [action] + actions, config) == Performed(Perform(w, action, config), actions, config)
  {
    hide Perform;
    var all := [action] + actions;
    if actions == [] {
      assert all == [action] && all[..0] == [];
    } else {
      var n := |actions| - 1;
      assert all[..n + 1] == [action] + actions[..n];
      PerformedFirst(w, action, actions[..n], config);
    }
  }

  lemma PerformedLast(w: World, actions: seq<Action>, action: Action, config: Config)
    ensures Performed(w, actions + [action], config) == Perform(Performed(w, actions, config), action, config)
  {
    hide Perform;
    assert (actions + [action])[..|actions|] == actions;
  }

  lemma {:induction false} KeptByTurns(w: World, n: nat, config: Config)
    requires Inv(w, config)
    ensures Inv(Performed(w, Turns(n), config), config)
  {
    hide Perform, Inv;
    if n > 0 {
      KeptByTurns(w, n - 1, config);
      assert Turns(n) == Turns(n - 1) + [Turn(Obeys)];
      PerformedLast(w, Turns(n - 1), Turn(Obeys), config);
      KeptByTurn(Performed(w, Turns(n - 1), config), Obeys, config);
    }
  }

  lemma IdleWhen(w: World, e: Environment, config: Config)
    requires Inv(w, config) && Enabled(w, Prepare(e))
    ensures var v := Perform(w, Prepare(e), config);
            && !v.failed && !v.raised && InSync(v.client) && v.commands == Requests(w.agente, e, config) && v.replies == []
            && v.agente.pending && v.phase == Testing(e) && v.chosen == Chosen(w.client.shutter, e, config.targets)
            && v.client == w.client
  {
    hide Believes, Requests, Drained, Chosen;
    DrainedNothing(w.client, config.targets);
    assert w.commands + Requests(w.agente, e, config) == Requests(w.agente, e, config);
  }

  lemma CheckAnswer(w: World, config: Config)
    requires w.replies == [Done]
    ensures Perform(w, Check, config) == w.(agente := w.agente.(pending := false), replies := [], raised := false)
  {
    assert [Done][1..] == [];
    assert Poll(false, []) == Polled(false, false, []);
  }

  /** The whole handshake for a test, with a generator that obeys. */
  function Handshake(w: World, e: Environment, config: Config): seq<Action> {
    [Prepare(e)] + Turns(|Requests(w.agente, e, config)|) + [Check]
  }

  /** It finishes without an error whatever the target is. With an unknown target the beam
      leaves through the shutter that was in use before. */
  lemma HandshakeFinishes(w: World, e: Environment, config: Config)
    requires Inv(w, config) && Enabled(w, Prepare(e))
    ensures var v := Performed(w, Handshake(w, e, config), config);
            && !v.agente.pending && !v.raised && !v.failed && v.commands == [] && v.replies == []
            && v.phase == Testing(e) && Settled(v, config)
            && (e.xray ==> v.client.device.open
                           == if e.target in config.targets then {1}
                              else if e.target == "" || e.target in NONES then {3}
                              else {w.client.shutter})
  {
    hide Requests, Drained, Settled, Awaiting, Relies, Inv, Performed, Perform, IsNone;
    IsNoneIff(e.target);
    var requests := Requests(w.agente, e, config);
    var v := Perform(w, Prepare(e), config);
    IdleWhen(w, e, config);
    KeptByPrepare(w, e, config);
    RequestsAwait(w.agente, e, config);
    TurnsDrain(v, config);
    var u := Performed(v, Turns(|requests|), config);
    PerformedFirst(w, Prepare(e), Turns(|requests|), config);
    PerformedLast(w, [Prepare(e)] + Turns(|requests|), Check, config);
    KeptByTurns(v, |requests|, config);
    KeptByCheck(u, config);
    CheckAnswer(u, config);
    SettledWhen(Perform(u, Check, config), config);
    if e.xray {
      SettledShutter(Perform(u, Check, config), e, config);
    }
  }

  /** An unknown target at the very start: no error, and the direct beam is on. */
  lemma UnknownTarget(w: World, config: Config)
    requires Initial(w) && config.targets == {}
    ensures var e := Environment(true, 30.0, 10.0, "Mo");
            var v := Performed(w, Handshake(w, e, config), config);
            !v.agente.pending && !v.raised && v.client.device.open == {3}
  {
    hide Performed, Handshake;
    InitialInv(w, config);
    HandshakeFinishes(w, Environment(true, 30.0, 10.0, "Mo"), config);
  }

  lemma SettledShutter(w: World, e: Environment, config: Config)
    requires Settled(w, config) && w.phase == Testing(e) && e.xray
    ensures w.client.device.open == {w.chosen}
    ensures e.target in config.targets ==> w.chosen == 1
    ensures e.target !in config.targets && (e.target == "" || e.target in NONES) ==> w.chosen == 3
  {
  }

  // ----- at any time, not only when settled -----

  /** At most one shutter is open, the one in use, and none before the beam was first turned on. */
  predicate OneBeam(c: Client) {
    c.device.open <= {c.shutter} && (!c.turnedOnOnce ==> c.device.open == {})
  }

  lemma OneBeamKept(c: Client, command: Command, targets: set<string>)
    requires OneBeam(c)
    ensures OneBeam(Obeyed(c, command, targets))
  {
  }

  /** In every run: as long as the generator obeys, never are two shutters open, also while
      commands are on the way, and none is opened by choosing a target before the beam is on. */
  lemma {:induction false} NeverTwoBeams(w: World, actions: seq<Action>, config: Config)
    requires Initial(w) && !Performed(w, actions, config).failed
    ensures OneBeam(Performed(w, actions, config).client)
  {
    hide OneBeam, Obeyed, Perform;
    if actions == [] {
      assert OneBeam(w.client) by { NoBeam(w); }
    } else {
      var n := |actions| - 1;
      var v := Performed(w, actions[..n], config);
      StepBeam(v, actions[n], config);
      NeverTwoBeams(w, actions[..n], config);
    }
  }

  lemma NoBeam(w: World)
    requires Initial(w)
    ensures OneBeam(w.client)
  {
  }

  lemma StepBeam(v: World, action: Action, config: Config)
    requires !Perform(v, action, config).failed
    ensures !v.failed && (OneBeam(v.client) ==> OneBeam(Perform(v, action, config).client))
  {
    hide Obeyed, Refused, Drives;
    if OneBeam(v.client) && action.Turn? && v.commands != [] {
      OneBeamKept(v.client, v.commands[0], config.targets);
    }
  }

  /** The shutter that the targets of the tests so far leave in use. */
  function LastShutter(actions: seq<Action>, targets: set<string>): nat {
    if actions == [] then 3
    else
      var before := LastShutter(actions[..|actions| - 1], targets);
      match actions[|actions| - 1]
      case Prepare(e) =>
        if !e.xray then before
        else if e.target in targets then 1
        else if e.target == "" || e.target in NONES then 3
        else before
      case _ => before
  }

  lemma {:induction false} ChosenIsLast(w: World, actions: seq<Action>, config: Config)
    requires Initial(w)
    ensures Performed(w, actions, config).chosen == LastShutter(actions, config.targets)
  {
    hide Perform, IsNone;
    if actions != [] {
      var n := |actions| - 1;
      ChosenIsLast(w, actions[..n], config);
      ChosenStep(Performed(w, actions[..n], config), actions[n], config);
      if actions[n].Prepare? {
        IsNoneIff(actions[n].env.target);
      }
    }
  }

  lemma ChosenStep(w: World, action: Action, config: Config)
    ensures Perform(w, action, config).chosen
            == if action.Prepare? then Chosen(w.chosen, action.env, config.targets) else w.chosen
  {
    hide Chosen, Requests, Prepared, Obeyed, Refused, Drives;
  }
}
