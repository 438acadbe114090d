/** The state of the interpreted simulation (`src/simulation.rs`) and the contracts of its collaborators.

    Integration engines buffer, revert, predict and seek as `src/solvers/solver.rs` and
    `src/solvers/dense.rs` do. What a block, an integration formula or an event callback computes is a
    parameter of the model, a function of what the original can see. */
module SimState {
  import opened Wrappers

  // ---------------------------------------------------------------------------------------
  // Engines
  // ---------------------------------------------------------------------------------------

  /** How many buffered states an engine keeps: at least one. */
  type Depth = n: nat | n >= 1 witness 1

  function At(s: seq<real>, i: nat): real {
    if i < |s| then s[i] else 0.0
  }

  function Along(base: real, h: real, slope: real): real {
    base + h * slope
  }

  /** `history` holds buffered states, newest first; `stash` the true end state while a seek is open. */
  datatype Engine = Engine(
    x: seq<real>,
    history: seq<seq<real>>,
    depth: Depth,
    slopes: seq<seq<real>>,
    rows: seq<Option<seq<real>>>,
    stage: nat,
    dense: bool,
    stash: Option<seq<real>>)
  {
    function DenseClose(): Engine {
      this.(dense := false, stash := None)
    }

    /** Push the state onto the history, dropping the oldest entry when the history is full. */
    function Buffer(): Engine {
      DenseClose().(history := [x] + (if |history| >= depth then history[..|history| - 1] else history))
    }

    /** Return to the newest buffered state. */
    function Revert(): Engine {
      if history == [] then DenseClose() else DenseClose().(x := history[0], history := history[1..])
    }

    function SlopeSum(row: seq<real>, i: nat, n: nat): real {
      if n == 0 then 0.0
      else if n - 1 < |row| && n - 1 < |slopes| && slopes[n - 1] != [] then
        Along(SlopeSum(row, i, n - 1), row[n - 1], At(slopes[n - 1], i))
      else SlopeSum(row, i, n - 1)
    }

    predicate Predicts() {
      stage > 0 && history != [] && stage < |rows| && rows[stage].Some?
    }

    /** The start value of an implicit stage, from the slopes of the stages before it. */
    function Predict(dt: real): Engine {
      if Predicts() then
        this.(x := seq(|x|, i requires 0 <= i < |x| =>
                         Along(At(history[0], i), dt, SlopeSum(rows[stage].value, i, stage))))
      else this
    }

    predicate CanInterpolate() {
      dense && history != []
    }

    function TrueEnd(): seq<real> {
      stash.UnwrapOr(x)
    }

    /** Put back the end state that a seek displaced. */
    function SeekEnd(): Engine {
      this.(x := TrueEnd(), stash := None)
    }
  }

  // ---------------------------------------------------------------------------------------
  // Blocks, events, the queue of topology changes
  // ---------------------------------------------------------------------------------------

  datatype Event<Ev> = Event(id: nat, active: bool, data: Ev)

  datatype Block<Ev> = Block(id: nat, active: bool, engine: Option<Engine>, events: seq<Event<Ev>>)

  datatype PendingOp<Ev> =
    | AddBlock(block: Block<Ev>)
    | RemoveBlock(blockId: nat)
    | AddConnection(connection: nat)
    | RemoveConnection(connectionId: nat)
    | AddEvent(event: Event<Ev>)
    | RemoveEvent(eventId: nat)

  /** A detected event: how close to its crossing, and where in the step. */
  datatype Detection = Detection(event: nat, close: bool, ratio: real)

  datatype Sample<Sig> = Sample(time: real, dt: real, signals: Sig)

  /** `samples` is what the recording blocks hold; `actions` lists the event actions that ran. */
  datatype State<Sig, Ev> = State(
    time: real,
    running: bool,
    blocks: seq<Block<Ev>>,
    connections: seq<nat>,
    events: seq<Event<Ev>>,
    signals: Sig,
    pending: seq<PendingOp<Ev>>,
    stop: bool,
    hasGraph: bool,
    dirty: bool,
    broken: bool,
    samples: seq<Sample<Sig>>,
    actions: seq<(nat, real)>)

  // ---------------------------------------------------------------------------------------
  // What the model leaves open
  // ---------------------------------------------------------------------------------------

  datatype Assembly<Sig> = Assembly(signals: Sig, ok: bool)
  datatype Evaluation<Sig> = Evaluation(signals: Sig, stop: bool)
  datatype Solved = Solved(x: seq<real>, slopes: seq<seq<real>>, residual: real)
  datatype Stepped = Stepped(x: seq<real>, slopes: seq<seq<real>>, dense: bool, ok: bool, error: real,
    scale: Option<real>)
  datatype Found<Ev> = Found(data: Ev, active: bool, detected: bool, close: bool, ratio: real)

  /** The fixed settings of a simulation and its unseen collaborators. Event guards see the engines and
      signals; an event action and a reset may change anything but the clock and the records. */
  datatype World<!Sig, !Ev> = World(
    dt: real,
    dtMin: real,
    dtMax: Option<real>,
    denseEvents: bool,
    isAdaptive: bool,
    isImplicit: bool,
    stages: nat,
    stageTime: (nat, real, real) -> real,
    iterationsMax: nat,
    assemble: (seq<Block<Ev>>, seq<nat>, Sig) -> Assembly<Sig>,
    eval: (seq<Block<Ev>>, seq<nat>, Sig, real) -> Evaluation<Sig>,
    equip: Block<Ev> -> Block<Ev>,
    solve: (Block<Ev>, Sig, real, real) -> Solved,
    step: (Block<Ev>, Sig, real, real) -> Stepped,
    interpolate: (Engine, real) -> Option<seq<real>>,
    guard: (Event<Ev>, seq<Option<Engine>>, Sig, real) -> Ev,
    detect: (Event<Ev>, seq<Option<Engine>>, Sig, real) -> Found<Ev>,
    estimate: (Event<Ev>, real) -> Option<real>,
    act: (nat, State<Sig, Ev>, real) -> State<Sig, Ev>,
    reset: State<Sig, Ev> -> State<Sig, Ev>)

  function Engines<Ev>(blocks: seq<Block<Ev>>): (r: seq<Option<Engine>>)
    ensures |r| == |blocks| && forall i | 0 <= i < |r| :: r[i] == blocks[i].engine
  {
    seq(|blocks|, i requires 0 <= i < |blocks| => blocks[i].engine)
  }
}
