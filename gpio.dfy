/**
 * The pin server: the controller's bookkeeping of initialized pins, the
 * physical pin levels, and the logic of the single-pin, multi-pin, read and
 * reset endpoints.
 *
 * Whether `RPi.GPIO` imported is the controller's constant `gpioAvailable`.
 * Which hardware calls raise during one request is a `Faults` parameter.  The
 * physical levels are a map from pin to level; a pin never driven reads LOW.
 */
module GpioServer {
  import opened Wrappers
  import opened Numerals

  /** BCM pins 0..27 are the ones the endpoints accept. */
  predicate ValidPin(pin: int)
  {
    0 <= pin <= 27
  }

  /** The pins for which `GPIO.setup`, `GPIO.output` and `GPIO.input` raise during one request. */
  datatype Faults = Faults(setup: set<int>, output: set<int>, input: set<int>)

  const NoFaults := Faults({}, {}, {})

  datatype PinRequest = PinRequest(pin: int, state: bool)

  datatype GPIOResponse = GPIOResponse(pin: int, state: bool, status: string, message: string)

  /** A handler's value, or the `HTTPException` it raises. */
  datatype HttpResult<T> = Ok(body: T) | HttpError(code: int, detail: string)

  /** The body of the read endpoint. */
  datatype PinReading = PinReading(pin: int, state: Option<bool>, message: string)

  datatype ResetEntry = ResetEntry(pin: int, state: bool, status: string)

  /** The body of the reset endpoint. */
  datatype ResetReport = ResetReport(status: string, message: string, pins: seq<ResetEntry>)

  // ---------------------------------------------------------------- messages

  function LevelName(state: bool): string
  {
    if state then "HIGH" else "LOW"
  }

  function SetMessage(pin: int, state: bool): string
  {
    "Pin " + IntToString(pin) + " set to " + LevelName(state)
  }

  function FailedMessage(pin: int): string
  {
    "Failed to control pin " + IntToString(pin)
  }

  function InvalidPinMessage(pin: int): string
  {
    "Invalid pin number " + IntToString(pin)
  }

  function InvalidPinDetail(pin: int): string
  {
    InvalidPinMessage(pin) + ". Use BCM pins 0-27"
  }

  function ReadMessage(pin: int, state: Option<bool>): string
  {
    "Pin " + IntToString(pin) + " state: " + (if state.Some? then LevelName(state.value) else "Unknown")
  }

  function ResetMessage(n: int): string
  {
    "Reset " + IntToString(n) + " pins"
  }

  // ---------------------------------------------------------------- the controller, on values

  /** `initialized_pins` and the physical levels of the pins. */
  datatype PinBank = PinBank(initialized: set<int>, levels: map<int, bool>)

  const NoPins := PinBank({}, map[])

  /** The physical level of a pin. */
  function Level(p: PinBank, pin: int): bool
  {
    if pin in p.levels then p.levels[pin] else false
  }

  /**
   * The state the controller keeps: only initialized pins are driven, and in
   * simulation mode nothing is ever initialized.
   */
  predicate Consistent(available: bool, p: PinBank)
  {
    && p.levels.Keys <= p.initialized
    && (!available ==> p.initialized == {})
  }

  datatype Outcome = Outcome(pins: PinBank, ok: bool)

  /** `setup_pin`. */
  function SetupSpec(available: bool, p: PinBank, pin: int, f: Faults): Outcome
  {
    if !available || pin in p.initialized then Outcome(p, true)
    else if pin in f.setup then Outcome(p, false)
    else Outcome(p.(initialized := p.initialized + {pin}), true)
  }

  /** `set_pin_state`: set the pin up, then drive it. */
  function SetSpec(available: bool, p: PinBank, pin: int, state: bool, f: Faults): Outcome
  {
    var setup := SetupSpec(available, p, pin, f);
    if !setup.ok then setup
    else if !available then Outcome(setup.pins, true)
    else if pin in f.output then Outcome(setup.pins, false)
    else Outcome(setup.pins.(levels := setup.pins.levels[pin := state]), true)
  }

  /** `get_pin_state`. */
  function ReadSpec(available: bool, p: PinBank, pin: int, f: Faults): Option<bool>
  {
    if available && pin in p.initialized && pin !in f.input then Some(Level(p, pin)) else None
  }

  // ---------------------------------------------------------------- the controller's properties

  /**
   * `setup_pin` adds at most the one pin, and only with GPIO available and a
   * setup that did not raise; in simulation mode it succeeds and changes nothing.
   */
  lemma SetupOnlyAddsPin(available: bool, p: PinBank, pin: int, f: Faults)
    ensures var o := SetupSpec(available, p, pin, f);
      && o.pins.levels == p.levels
      && o.pins.initialized == p.initialized + (if available && o.ok then {pin} else {})
      && (o.ok <==> !available || pin in p.initialized || pin !in f.setup)
      && (!available ==> o == Outcome(p, true))
  {
  }

  /** Setting a pin up twice is setting it up once. */
  lemma SetupIdempotent(available: bool, p: PinBank, pin: int, f: Faults, g: Faults)
    requires SetupSpec(available, p, pin, f).ok
    ensures var once := SetupSpec(available, p, pin, f);
      SetupSpec(available, once.pins, pin, g) == once
  {
  }

  /**
   * `set_pin_state` fails without writing when setup fails, writes exactly the
   * requested pin otherwise, and leaves every other pin's level alone.
   */
  lemma SetWritesOnlyThatPin(available: bool, p: PinBank, pin: int, state: bool, f: Faults)
    ensures var o := SetSpec(available, p, pin, state, f);
      && (forall q | q != pin :: Level(o.pins, q) == Level(p, q))
      && (available && pin !in p.initialized && pin in f.setup ==> o == Outcome(p, false))
      && (o.ok && available ==> pin in o.pins.initialized && Level(o.pins, pin) == state)
      && (!available ==> o == Outcome(p, true))
      && (o.ok <==> SetupSpec(available, p, pin, f).ok && (!available || pin !in f.output))
      && o.pins.initialized == SetupSpec(available, p, pin, f).pins.initialized
  {
  }

  /** A read returns nothing unless GPIO is available and the pin was initialized. */
  lemma ReadNoneUnlessInitialized(available: bool, p: PinBank, pin: int, f: Faults)
    ensures ReadSpec(available, p, pin, f).Some? ==> available && pin in p.initialized
    ensures available && pin in p.initialized && pin !in f.input ==> ReadSpec(available, p, pin, f) == Some(Level(p, pin))
  {
  }

  /** With GPIO available and no fault, a pin reads back the level just written. */
  lemma ReadAfterWrite(p: PinBank, pin: int, state: bool)
    ensures ReadSpec(true, SetSpec(true, p, pin, state, NoFaults).pins, pin, NoFaults) == Some(state)
  {
  }

  lemma SetKeepsConsistent(available: bool, p: PinBank, pin: int, state: bool, f: Faults)
    requires Consistent(available, p)
    ensures Consistent(available, SetSpec(available, p, pin, state, f).pins)
  {
  }

  // ---------------------------------------------------------------- the endpoints, on values

  datatype SingleOutcome = SingleOutcome(pins: PinBank, result: HttpResult<GPIOResponse>)

  /** `control_single_pin`. */
  function Single(available: bool, p: PinBank, req: PinRequest, f: Faults): SingleOutcome
  {
    if !ValidPin(req.pin) then SingleOutcome(p, HttpError(400, InvalidPinDetail(req.pin)))
    else
      var o := SetSpec(available, p, req.pin, req.state, f);
      if o.ok then SingleOutcome(o.pins, Ok(GPIOResponse(req.pin, req.state, "success", SetMessage(req.pin, req.state))))
      else SingleOutcome(o.pins, HttpError(500, FailedMessage(req.pin)))
  }

  datatype EntryOutcome = EntryOutcome(pins: PinBank, response: GPIOResponse)

  /** One entry of `control_multiple_pins`. */
  function Entry(available: bool, p: PinBank, req: PinRequest, f: Faults): EntryOutcome
  {
    if !ValidPin(req.pin) then EntryOutcome(p, GPIOResponse(req.pin, req.state, "error", InvalidPinMessage(req.pin)))
    else
      var o := SetSpec(available, p, req.pin, req.state, f);
      if o.ok then EntryOutcome(o.pins, GPIOResponse(req.pin, req.state, "success", SetMessage(req.pin, req.state)))
      else EntryOutcome(o.pins, GPIOResponse(req.pin, req.state, "error", FailedMessage(req.pin)))
  }

  datatype MultiOutcome = MultiOutcome(pins: PinBank, responses: seq<GPIOResponse>)

  /** `control_multiple_pins`: the entries in request order. */
  function Multi(available: bool, p: PinBank, reqs: seq<PinRequest>, f: Faults): MultiOutcome
    decreases |reqs|
  {
    if reqs == [] then MultiOutcome(p, [])
    else
      var e := Entry(available, p, reqs[0], f);
      var rest := Multi(available, e.pins, reqs[1..], f);
      MultiOutcome(rest.pins, [e.response] + rest.responses)
  }

  predicate Enumerates(order: seq<int>, s: set<int>)
  {
    && (forall i | 0 <= i < |order| :: order[i] in s)
    && (forall x | x in s :: x in order)
    && (forall i, j | 0 <= i < j < |order| :: order[i] != order[j])
  }

  datatype ResetOutcome = ResetOutcome(pins: PinBank, entries: seq<ResetEntry>)

  /** The loop of `reset_all_pins` over the pins in the order `list(initialized_pins)` gives. */
  function ResetLoop(available: bool, p: PinBank, order: seq<int>, f: Faults): ResetOutcome
    decreases |order|
  {
    if order == [] then ResetOutcome(p, [])
    else
      var o := SetSpec(available, p, order[0], false, f);
      var rest := ResetLoop(available, o.pins, order[1..], f);
      ResetOutcome(rest.pins, [ResetEntry(order[0], false, if o.ok then "success" else "error")] + rest.entries)
  }

  function EntryPins(entries: seq<ResetEntry>): (order: seq<int>)
    ensures |order| == |entries|
    ensures forall i | 0 <= i < |entries| :: order[i] == entries[i].pin
  {
    if entries == [] then [] else [entries[0].pin] + EntryPins(entries[1..])
  }

  // ---------------------------------------------------------------- the endpoints' properties

  /** The single-pin endpoint rejects a pin outside 0..27 with 400 before touching any state. */
  lemma SingleRejectsInvalid(available: bool, p: PinBank, req: PinRequest, f: Faults)
    ensures var s := Single(available, p, req, f);
      && (!ValidPin(req.pin) <==> s.result == HttpError(400, InvalidPinDetail(req.pin)))
      && (!ValidPin(req.pin) ==> s.pins == p)
  {
    if ValidPin(req.pin) {
      var s := Single(available, p, req, f);
      if s.result.HttpError? {
        assert s.result.code == 500;
      }
    }
  }

  /**
   * For a valid pin the single-pin endpoint and one entry of the multi-pin
   * endpoint do the same thing: success returns the entry, failure is a 500.
   */
  lemma SingleAgreesWithEntry(available: bool, p: PinBank, req: PinRequest, f: Faults)
    requires ValidPin(req.pin)
    ensures var s := Single(available, p, req, f);
      var e := Entry(available, p, req, f);
      && s.pins == e.pins
      && (e.response.status == "success" <==> s.result == Ok(e.response))
      && (e.response.status == "error" <==> s.result == HttpError(500, e.response.message))
  {
  }

  /** One response per request. */
  lemma {:induction false} MultiLength(available: bool, p: PinBank, reqs: seq<PinRequest>, f: Faults)
    ensures |Multi(available, p, reqs, f).responses| == |reqs|
    decreases |reqs|
  {
    if reqs != [] {
      MultiLength(available, Entry(available, p, reqs[0], f).pins, reqs[1..], f);
    }
  }

  /** Entry `i` is handled on the controller state that the entries before it left behind. */
  lemma {:induction false} MultiEntryAt(available: bool, p: PinBank, reqs: seq<PinRequest>, f: Faults, i: nat)
    requires i < |reqs|
    ensures var m := Multi(available, p, reqs, f);
      && i < |m.responses|
      && m.responses[i] == Entry(available, Multi(available, p, reqs[..i], f).pins, reqs[i], f).response
    decreases i
  {
    var e := Entry(available, p, reqs[0], f);
    if i == 0 {
      assert reqs[..0] == [];
    } else {
      MultiEntryAt(available, e.pins, reqs[1..], f, i - 1);
      assert reqs[..i][0] == reqs[0];
      assert reqs[..i][1..] == reqs[1..][..i - 1];
      assert reqs[1..][i - 1] == reqs[i];
    }
  }

  /**
   * The multi-pin responses: one per request, in request order, echoing its
   * pin and state.  An invalid pin gets the "Invalid pin number" error.  A
   * valid pin gets "set to HIGH/LOW" success exactly when `set_pin_state`,
   * run on the state the earlier entries left, succeeded, and the "Failed to
   * control pin" error otherwise.
   */
  lemma MultiResponses(available: bool, p: PinBank, reqs: seq<PinRequest>, f: Faults)
    ensures var m := Multi(available, p, reqs, f);
      && |m.responses| == |reqs|
      && forall i | 0 <= i < |reqs| ::
        var before := Multi(available, p, reqs[..i], f).pins;
        var ok := SetSpec(available, before, reqs[i].pin, reqs[i].state, f).ok;
        && m.responses[i].pin == reqs[i].pin
        && m.responses[i].state == reqs[i].state
        && (!ValidPin(reqs[i].pin) ==> m.responses[i] == GPIOResponse(reqs[i].pin, reqs[i].state, "error", InvalidPinMessage(reqs[i].pin)))
        && (ValidPin(reqs[i].pin) && ok ==> m.responses[i] == GPIOResponse(reqs[i].pin, reqs[i].state, "success", SetMessage(reqs[i].pin, reqs[i].state)))
        && (ValidPin(reqs[i].pin) && !ok ==> m.responses[i] == GPIOResponse(reqs[i].pin, reqs[i].state, "error", FailedMessage(reqs[i].pin)))
        && (ValidPin(reqs[i].pin) ==> (m.responses[i].status == "success" <==> ok))
  {
    MultiLength(available, p, reqs, f);
    forall i | 0 <= i < |reqs| {
      MultiEntryAt(available, p, reqs, f, i);
    }
  }

  /** The valid pins a multi-pin request names. */
  function RequestedPins(reqs: seq<PinRequest>): (pins: set<int>)
    ensures forall x | x in pins :: ValidPin(x)
    ensures forall i | 0 <= i < |reqs| && ValidPin(reqs[i].pin) :: reqs[i].pin in pins
    ensures forall x | x in pins :: exists i | 0 <= i < |reqs| :: reqs[i].pin == x
  {
    if reqs == [] then {}
    else
      var rest := RequestedPins(reqs[1..]);
      assert forall x | x in rest :: exists i | 0 <= i < |reqs| :: reqs[i].pin == x by {
        forall x | x in rest ensures exists i | 0 <= i < |reqs| :: reqs[i].pin == x {
          var j :| 0 <= j < |reqs[1..]| && reqs[1..][j].pin == x;
          assert reqs[j + 1].pin == x;
        }
      }
      (if ValidPin(reqs[0].pin) then {reqs[0].pin} else {}) + rest
  }

  /**
   * The multi-pin endpoint keeps the controller consistent and only
   * initializes pins that a valid entry asked for; invalid entries never
   * reach the controller.
   */
  lemma {:induction false} MultiGrowsOnlyRequested(available: bool, p: PinBank, reqs: seq<PinRequest>, f: Faults)
    requires Consistent(available, p)
    ensures var m := Multi(available, p, reqs, f);
      && Consistent(available, m.pins)
      && p.initialized <= m.pins.initialized <= p.initialized + RequestedPins(reqs)
      && (RequestedPins(reqs) == {} ==> m.pins == p)
    decreases |reqs|
  {
    if reqs != [] {
      var e := Entry(available, p, reqs[0], f);
      SetKeepsConsistent(available, p, reqs[0].pin, reqs[0].state, f);
      MultiGrowsOnlyRequested(available, e.pins, reqs[1..], f);
    }
  }

  /** A request of valid pins without faults succeeds entry by entry. */
  lemma {:induction false} MultiFaultFree(available: bool, p: PinBank, reqs: seq<PinRequest>)
    requires forall i | 0 <= i < |reqs| :: ValidPin(reqs[i].pin)
    ensures var m := Multi(available, p, reqs, NoFaults);
      && |m.responses| == |reqs|
      && forall i | 0 <= i < |reqs| :: m.responses[i].status == "success"
    decreases |reqs|
  {
    if reqs != [] {
      assert forall i | 0 <= i < |reqs[1..]| :: reqs[1..][i] == reqs[i + 1];
      MultiFaultFree(available, Entry(available, p, reqs[0], NoFaults).pins, reqs[1..]);
    }
  }

  /** The reset loop visits only initialized pins, so it never changes the set of them. */
  lemma {:induction false} ResetKeepsSet(available: bool, p: PinBank, order: seq<int>, f: Faults)
    requires forall i | 0 <= i < |order| :: order[i] in p.initialized
    ensures ResetLoop(available, p, order, f).pins.initialized == p.initialized
    decreases |order|
  {
    if order != [] {
      var o := SetSpec(available, p, order[0], false, f);
      assert o.pins.initialized == p.initialized;
      assert forall i | 0 <= i < |order[1..]| :: order[1..][i] == order[i + 1];
      ResetKeepsSet(available, o.pins, order[1..], f);
    }
  }

  /**
   * The reset loop reports every pin of its order, in that order, as LOW, with
   * success unless its output raised.
   */
  lemma {:induction false} ResetReportsEachPin(available: bool, p: PinBank, order: seq<int>, f: Faults)
    requires forall i | 0 <= i < |order| :: order[i] in p.initialized
    ensures var r := ResetLoop(available, p, order, f);
      && EntryPins(r.entries) == order
      && (forall i | 0 <= i < |order| :: !r.entries[i].state)
      && (forall i | 0 <= i < |order| ::
            r.entries[i].status == (if available && order[i] in f.output then "error" else "success"))
    decreases |order|
  {
    if order != [] {
      var o := SetSpec(available, p, order[0], false, f);
      assert o.pins.initialized == p.initialized;
      assert forall i | 0 <= i < |order[1..]| :: order[1..][i] == order[i + 1];
      ResetReportsEachPin(available, o.pins, order[1..], f);
      var r := ResetLoop(available, p, order, f);
      assert EntryPins(r.entries)[1..] == EntryPins(r.entries[1..]);
    }
  }

  /**
   * The reset loop drives each pin of its order LOW unless its output raised,
   * and leaves the levels of all other pins alone.
   */
  lemma {:induction false} ResetDrivesLow(available: bool, p: PinBank, order: seq<int>, f: Faults)
    requires forall i | 0 <= i < |order| :: order[i] in p.initialized
    requires forall i, j | 0 <= i < j < |order| :: order[i] != order[j]
    ensures var r := ResetLoop(available, p, order, f);
      && (forall i | 0 <= i < |order| :: available && order[i] !in f.output ==> !Level(r.pins, order[i]))
      && (forall q | q !in order :: Level(r.pins, q) == Level(p, q))
    decreases |order|
  {
    if order != [] {
      var o := SetSpec(available, p, order[0], false, f);
      SetWritesOnlyThatPin(available, p, order[0], false, f);
      assert o.pins.initialized == p.initialized;
      assert forall i | 0 <= i < |order[1..]| :: order[1..][i] == order[i + 1];
      ResetDrivesLow(available, o.pins, order[1..], f);
      var r := ResetLoop(available, p, order, f);
      assert order[0] !in order[1..];
      forall i | 0 <= i < |order| && available && order[i] !in f.output
        ensures !Level(r.pins, order[i])
      {
        if i > 0 {
          assert order[1..][i - 1] == order[i];
        }
      }
    }
  }

  /** A sequence without repeats lists a set of its own length. */
  lemma {:induction false} EnumerationSize(order: seq<int>, s: set<int>)
    requires Enumerates(order, s)
    ensures |order| == |s|
    decreases |order|
  {
    if order != [] {
      var x := order[0];
      assert Enumerates(order[1..], s - {x}) by {
        forall y | y in s - {x} ensures y in order[1..] {
          var k :| 0 <= k < |order| && order[k] == y;
          assert k != 0;
          assert order[1..][k - 1] == y;
        }
      }
      EnumerationSize(order[1..], s - {x});
    } else {
      assert forall x | x in s :: false;
      assert s == {};
    }
  }

  // ---------------------------------------------------------------- the object

  class GPIOController {
    const gpioAvailable: bool
    var initializedPins: set<int>
    var levels: map<int, bool>

    function Pins(): PinBank
      reads this
    {
      PinBank(initializedPins, levels)
    }

    predicate Valid()
      reads this
    {
      Consistent(gpioAvailable, Pins())
    }

    constructor (available: bool)
      ensures gpioAvailable == available && Pins() == NoPins && Valid()
    {
      gpioAvailable := available;
      initializedPins := {};
      levels := map[];
    }

    /** `setup_pin`. */
    method SetupPin(pin: int, f: Faults) returns (ok: bool)
      requires Valid()
      modifies this
      ensures Valid()
      ensures Outcome(Pins(), ok) == SetupSpec(gpioAvailable, old(Pins()), pin, f)
    {
      ok := true;
      if gpioAvailable && pin !in initializedPins {
        if pin in f.setup {
          ok := false;
        } else {
          initializedPins := initializedPins + {pin};
        }
      }
    }

    /** `set_pin_state`. */
    method SetPinState(pin: int, state: bool, f: Faults) returns (ok: bool)
      requires Valid()
      modifies this
      ensures Valid()
      ensures Outcome(Pins(), ok) == SetSpec(gpioAvailable, old(Pins()), pin, state, f)
    {
      ok := SetupPin(pin, f);
      if !ok {
        return;
      }
      if gpioAvailable {
        if pin in f.output {
          ok := false;
        } else {
          levels := levels[pin := state];
        }
      }
    }

    /** `get_pin_state`. */
    method GetPinState(pin: int, f: Faults) returns (state: Option<bool>)
      ensures state == ReadSpec(gpioAvailable, Pins(), pin, f)
      ensures state.Some? ==> gpioAvailable && pin in initializedPins
    {
      state := None;
      if gpioAvailable && pin in initializedPins && pin !in f.input {
        state := Some(Level(Pins(), pin));
      }
    }
  }

  // ---------------------------------------------------------------- the handlers

  /** `control_single_pin`. */
  method ControlSinglePin(c: GPIOController, req: PinRequest, f: Faults) returns (result: HttpResult<GPIOResponse>)
    requires c.Valid()
    modifies c
    ensures c.Valid()
    ensures SingleOutcome(c.Pins(), result) == Single(c.gpioAvailable, old(c.Pins()), req, f)
  {
    if !ValidPin(req.pin) {
      return HttpError(400, InvalidPinDetail(req.pin));
    }
    var success := c.SetPinState(req.pin, req.state, f);
    if success {
      result := Ok(GPIOResponse(req.pin, req.state, "success", SetMessage(req.pin, req.state)));
    } else {
      result := HttpError(500, FailedMessage(req.pin));
    }
  }

  /** The body of `control_multiple_pins`' loop for one entry. */
  method HandleEntry(c: GPIOController, req: PinRequest, f: Faults) returns (response: GPIOResponse)
    requires c.Valid()
    modifies c
    ensures c.Valid()
    ensures EntryOutcome(c.Pins(), response) == Entry(c.gpioAvailable, old(c.Pins()), req, f)
  {
    if !ValidPin(req.pin) {
      return GPIOResponse(req.pin, req.state, "error", InvalidPinMessage(req.pin));
    }
    var success := c.SetPinState(req.pin, req.state, f);
    if success {
      response := GPIOResponse(req.pin, req.state, "success", SetMessage(req.pin, req.state));
    } else {
      response := GPIOResponse(req.pin, req.state, "error", FailedMessage(req.pin));
    }
  }

  function PrependResponses(responses: seq<GPIOResponse>, m: MultiOutcome): MultiOutcome
  {
    MultiOutcome(m.pins, responses + m.responses)
  }

  lemma MultiStep(available: bool, p: PinBank, reqs: seq<PinRequest>, f: Faults)
    requires reqs != []
    ensures var e := Entry(available, p, reqs[0], f);
      Multi(available, p, reqs, f) == PrependResponses([e.response], Multi(available, e.pins, reqs[1..], f))
  {
  }

  /** `control_multiple_pins`. */
  method ControlMultiplePins(c: GPIOController, reqs: seq<PinRequest>, f: Faults) returns (responses: seq<GPIOResponse>)
    requires c.Valid()
    modifies c
    ensures c.Valid()
    ensures MultiOutcome(c.Pins(), responses) == Multi(c.gpioAvailable, old(c.Pins()), reqs, f)
  {
    responses := [];
    ghost var start := c.Pins();
    ghost var available := c.gpioAvailable;
    var i := 0;
    while i < |reqs|
      invariant 0 <= i <= |reqs|
      invariant c.Valid()
      invariant Multi(available, start, reqs, f) == PrependResponses(responses, Multi(available, c.Pins(), reqs[i..], f))
    {
      ghost var before := c.Pins();
      var response := HandleEntry(c, reqs[i], f);
      MultiAdvance(available, start, reqs, f, i, responses, before, response, c.Pins());
      responses := responses + [response];
      i := i + 1;
    }
  }

  /** The loop invariant of `control_multiple_pins`, carried across one entry. */
  lemma MultiAdvance(available: bool, start: PinBank, reqs: seq<PinRequest>, f: Faults, i: nat,
                     responses: seq<GPIOResponse>, before: PinBank, response: GPIOResponse, after: PinBank)
    requires i < |reqs|
    requires Multi(available, start, reqs, f) == PrependResponses(responses, Multi(available, before, reqs[i..], f))
    requires EntryOutcome(after, response) == Entry(available, before, reqs[i], f)
    ensures Multi(available, start, reqs, f) == PrependResponses(responses + [response], Multi(available, after, reqs[i + 1..], f))
  {
    MultiStep(available, before, reqs[i..], f);
    assert reqs[i..][1..] == reqs[i + 1..];
    assert reqs[i..][0] == reqs[i];
    var rest := Multi(available, after, reqs[i + 1..], f);
    assert responses + ([response] + rest.responses) == (responses + [response]) + rest.responses;
  }

  /** The read endpoint `GET /gpio/pin/{pin}`. */
  method ReadPin(c: GPIOController, pin: int, f: Faults) returns (result: HttpResult<PinReading>)
    ensures !ValidPin(pin) ==> result == HttpError(400, InvalidPinDetail(pin))
    ensures ValidPin(pin) ==> result == Ok(PinReading(pin, ReadSpec(c.gpioAvailable, c.Pins(), pin, f),
                                                      ReadMessage(pin, ReadSpec(c.gpioAvailable, c.Pins(), pin, f))))
  {
    if !ValidPin(pin) {
      return HttpError(400, InvalidPinDetail(pin));
    }
    var state := c.GetPinState(pin, f);
    result := Ok(PinReading(pin, state, ReadMessage(pin, state)));
  }

  /** `list(s)`: the elements of a set, each once, in an order the set does not promise. */
  method ListOf(s: set<int>) returns (order: seq<int>)
    ensures Enumerates(order, s)
  {
    order := [];
    var rest := s;
    while rest != {}
      invariant rest <= s
      invariant forall i | 0 <= i < |order| :: order[i] in s && order[i] !in rest
      invariant forall x | x in s :: x in rest || x in order
      invariant forall i, j | 0 <= i < j < |order| :: order[i] != order[j]
      decreases |rest|
    {
      assert exists y :: y in rest by {
        if forall y :: y !in rest {
          assert false;
        }
      }
      var x :| x in rest;
      order := order + [x];
      rest := rest - {x};
    }
  }

  function PrependEntries(entries: seq<ResetEntry>, r: ResetOutcome): ResetOutcome
  {
    ResetOutcome(r.pins, entries + r.entries)
  }

  /** The body of `reset_all_pins`' loop for one pin. */
  method ResetPin(c: GPIOController, pin: int, f: Faults) returns (entry: ResetEntry)
    requires c.Valid()
    modifies c
    ensures c.Valid()
    ensures entry.pin == pin
    ensures ResetLoop(c.gpioAvailable, old(c.Pins()), [pin], f) == ResetOutcome(c.Pins(), [entry])
  {
    var success := c.SetPinState(pin, false, f);
    entry := ResetEntry(pin, false, if success then "success" else "error");
  }

  /** The loop of `reset_all_pins` over the listed pins. */
  method ResetEach(c: GPIOController, order: seq<int>, f: Faults) returns (entries: seq<ResetEntry>)
    requires c.Valid()
    modifies c
    ensures c.Valid()
    ensures ResetOutcome(c.Pins(), entries) == ResetLoop(c.gpioAvailable, old(c.Pins()), order, f)
  {
    ghost var start := c.Pins();
    ghost var available := c.gpioAvailable;
    entries := [];
    var i := 0;
    while i < |order|
      invariant 0 <= i <= |order|
      invariant c.Valid()
      invariant ResetLoop(available, start, order, f) == PrependEntries(entries, ResetLoop(available, c.Pins(), order[i..], f))
    {
      ghost var before := c.Pins();
      var entry := ResetPin(c, order[i], f);
      ResetAdvance(available, start, order, f, i, entries, before, entry, c.Pins());
      entries := entries + [entry];
      i := i + 1;
    }
  }

  /** The loop invariant of `reset_all_pins`, carried across one pin. */
  lemma ResetAdvance(available: bool, start: PinBank, order: seq<int>, f: Faults, i: nat,
                     entries: seq<ResetEntry>, before: PinBank, entry: ResetEntry, after: PinBank)
    requires i < |order|
    requires ResetLoop(available, start, order, f) == PrependEntries(entries, ResetLoop(available, before, order[i..], f))
    requires ResetLoop(available, before, [order[i]], f) == ResetOutcome(after, [entry])
    ensures ResetLoop(available, start, order, f) == PrependEntries(entries + [entry], ResetLoop(available, after, order[i + 1..], f))
  {
    ResetLoopStep(available, before, order[i..], f);
    assert order[i..][1..] == order[i + 1..];
    assert order[i..][0] == order[i];
    var rest := ResetLoop(available, after, order[i + 1..], f);
    assert entries + ([entry] + rest.entries) == (entries + [entry]) + rest.entries;
  }

  /** `reset_all_pins`; the report lists the pins in the order it visited them. */
  method ResetAllPins(c: GPIOController, f: Faults) returns (report: ResetReport)
    requires c.Valid()
    modifies c
    ensures c.Valid()
    ensures Enumerates(EntryPins(report.pins), old(c.initializedPins))
    ensures ResetOutcome(c.Pins(), report.pins) == ResetLoop(c.gpioAvailable, old(c.Pins()), EntryPins(report.pins), f)
    ensures report.status == "success" && report.message == ResetMessage(|old(c.initializedPins)|)
    ensures !c.gpioAvailable ==> report.pins == [] && report.message == ResetMessage(0)
  {
    var order := ListOf(c.initializedPins);
    EnumerationSize(order, c.initializedPins);
    ResetReportsEachPin(c.gpioAvailable, c.Pins(), order, f);
    var entries := ResetEach(c, order, f);
    report := ResetReport("success", ResetMessage(|entries|), entries);
  }

  /** The reset loop over a non-empty order is its first pin followed by the rest. */
  lemma ResetLoopStep(available: bool, p: PinBank, order: seq<int>, f: Faults)
    requires order != []
    ensures var first := ResetLoop(available, p, [order[0]], f);
      ResetLoop(available, p, order, f) == PrependEntries(first.entries, ResetLoop(available, first.pins, order[1..], f))
  {
    assert [order[0]][1..] == [];
  }

  /**
   * The reset endpoint, whatever order it visits the pins in, reports each
   * initialized pin once, drives all of them LOW unless their output raised,
   * and leaves the set of initialized pins as it was.
   */
  lemma ResetAllInitialized(available: bool, p: PinBank, order: seq<int>, f: Faults)
    requires Enumerates(order, p.initialized)
    ensures var r := ResetLoop(available, p, order, f);
      && |r.entries| == |p.initialized|
      && r.pins.initialized == p.initialized
      && (forall x | x in p.initialized :: available && x !in f.output ==> !Level(r.pins, x))
      && (forall x | x !in p.initialized :: Level(r.pins, x) == Level(p, x))
      && (forall i | 0 <= i < |r.entries| :: r.entries[i].pin in p.initialized && !r.entries[i].state)
  {
    ResetKeepsSet(available, p, order, f);
    ResetReportsEachPin(available, p, order, f);
    ResetDrivesLow(available, p, order, f);
    EnumerationSize(order, p.initialized);
    var r := ResetLoop(available, p, order, f);
    forall x | x in p.initialized && available && x !in f.output
      ensures !Level(r.pins, x)
    {
      var i :| 0 <= i < |order| && order[i] == x;
    }
    forall i | 0 <= i < |r.entries|
      ensures r.entries[i].pin in p.initialized
    {
      assert EntryPins(r.entries)[i] == order[i];
    }
  }
}
