/**
 * The SSD1306 driver object: construction from a panel geometry, and the
 * sleep/wake power toggle. The bus is represented by the list of commands
 * the driver has handed to it, each an opcode with its payload, the same
 * shape as a record of the init sequence.
 */
module Ssd1306 {
  import opened Wrappers
  import opened CommandRecords
  import opened InitSequence

  /** Display off: the controller enters sleep mode. */
  const DisplayOff := Command(0xAE, [])
  /** Display on: the controller leaves sleep mode. */
  const DisplayOn := Command(0xAF, [])

  datatype PowerRequest = Sleep | Wake

  /** The driver's power flag together with the sleep/wake commands sent so far. */
  datatype PowerState = PowerState(awake: bool, sent: seq<Command>)

  /** State right after construction: awake, no sleep/wake command sent. */
  const Initial := PowerState(true, [])

  /** One sleep() or wake() call: a command is sent only when the state changes. */
  function Step(p: PowerState, request: PowerRequest): PowerState {
    match request
    case Sleep => if p.awake then PowerState(false, p.sent + [DisplayOff]) else p
    case Wake => if !p.awake then PowerState(true, p.sent + [DisplayOn]) else p
  }

  /** A sequence of sleep() and wake() calls, in order. */
  function Run(p: PowerState, requests: seq<PowerRequest>): PowerState
    decreases |requests|
  {
    if requests == [] then p else Run(Step(p, requests[0]), requests[1..])
  }

  /**
   * The sent commands alternate display off, display on, ..., starting with
   * display off, and the display is awake exactly when nothing was sent yet
   * or the last command sent was display on.
   */
  ghost predicate Consistent(p: PowerState) {
    (forall i :: 0 <= i < |p.sent| ==> p.sent[i] == (if i % 2 == 0 then DisplayOff else DisplayOn)) &&
    (p.awake <==> p.sent == [] || p.sent[|p.sent| - 1] == DisplayOn)
  }

  /** A request that changes the state sends exactly its one command; one that does not changes nothing. */
  lemma StepSendsAtMostOne(p: PowerState, request: PowerRequest)
    ensures Step(p, request).awake == (request == Wake)
    ensures p.awake != (request == Wake) ==>
              Step(p, request).sent == p.sent + [if request == Sleep then DisplayOff else DisplayOn]
    ensures p.awake == (request == Wake) ==> Step(p, request) == p
  {
  }

  /** Repeating a request has no further effect. */
  lemma StepIdempotent(p: PowerState, request: PowerRequest)
    ensures Step(Step(p, request), request) == Step(p, request)
  {
  }

  /** One sleep() or wake() call keeps the power state consistent. */
  lemma StepKeepsConsistent(p: PowerState, request: PowerRequest)
    requires Consistent(p)
    ensures Consistent(Step(p, request))
  {
  }

  /** From a consistent state, any sequence of sleep() and wake() calls keeps it consistent. */
  lemma {:induction false} RunKeepsConsistent(p: PowerState, requests: seq<PowerRequest>)
    requires Consistent(p)
    ensures Consistent(Run(p, requests))
    decreases |requests|
  {
    if requests != [] {
      StepKeepsConsistent(p, requests[0]);
      RunKeepsConsistent(Step(p, requests[0]), requests[1..]);
    }
  }

  /** Every run from construction alternates display off and display on, starting with display off. */
  lemma RunFromInitial(requests: seq<PowerRequest>)
    ensures var q := Run(Initial, requests);
            (forall i :: 0 <= i < |q.sent| ==> q.sent[i] == (if i % 2 == 0 then DisplayOff else DisplayOn)) &&
            (q.awake <==> q.sent == [] || q.sent[|q.sent| - 1] == DisplayOn)
  {
    RunKeepsConsistent(Initial, requests);
  }

  /**
   * A constructed driver. `initSequence` is the buffer handed to the display
   * framework; `sent` holds the commands sleep() and wake() passed to the bus.
   */
  class Display {
    const initSequence: array<Byte>
    var isAwake: bool
    var sent: seq<Command>

    function State(): PowerState
      reads this
    {
      PowerState(isAwake, sent)
    }

    ghost predicate Valid()
      reads this
    {
      Consistent(State())
    }

    /** Hands the patched buffer to the framework; the display starts awake. */
    constructor (initSequence: array<Byte>)
      ensures this.initSequence == initSequence
      ensures State() == Initial && Valid()
    {
      this.initSequence := initSequence;
      isAwake := true;
      sent := [];
    }

    /** The read-only power flag: true exactly when nothing was sent or the last command was display on. */
    function IsAwake(): (awake: bool)
      requires Valid()
      reads this
      ensures awake <==> sent == [] || sent[|sent| - 1] == DisplayOn
    {
      isAwake
    }

    method Sleep()
      requires Valid()
      modifies this
      ensures Valid()
      ensures State() == Step(old(State()), PowerRequest.Sleep)
    {
      if isAwake {
        sent := sent + [DisplayOff];
        isAwake := false;
        StepKeepsConsistent(old(State()), PowerRequest.Sleep);
      }
    }

    method Wake()
      requires Valid()
      modifies this
      ensures Valid()
      ensures State() == Step(old(State()), PowerRequest.Wake)
    {
      if !isAwake {
        sent := sent + [DisplayOn];
        isAwake := true;
        StepKeepsConsistent(old(State()), PowerRequest.Wake);
      }
    }
  }

  /**
   * Builds the init sequence for the geometry and, if every write fits in a
   * byte, constructs the driver around it.
   */
  method Create(width: int, height: int, rotation: Option<int>) returns (r: Result<Display, InitError>)
    ensures Patched(width, height, rotation).Err? ==> r == Err(Patched(width, height, rotation).error)
    ensures Patched(width, height, rotation).Ok? ==>
              r.Ok? && fresh(r.value) && fresh(r.value.initSequence) &&
              r.value.initSequence[..] == Patched(width, height, rotation).value &&
              r.value.State() == Initial && r.value.Valid()
  {
    var built := BuildInitSequence(width, height, rotation);
    match built
    case Err(e) =>
      r := Err(e);
    case Ok(buffer) =>
      var display := new Display(buffer);
      r := Ok(display);
  }
}
