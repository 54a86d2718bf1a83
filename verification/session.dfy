/**
 * Sessions: any sequence of the engine's operations from a valid state keeps
 * the invariants, and a handle once revoked is never held again.
 */
module Session {
  import opened Wrappers
  import opened ApplicationModel
  import opened Views
  import opened ApplicationFunctions
  import opened Invariants
  import opened Start

  /**
   * The operations a user or the host can trigger. Unloading on its own is
   * not one: the engine unloads only inside `loadFile`.
   */
  datatype Op =
    | Open(files: seq<File>, test: File -> bool)   // a pick or a drop: `loadFile` at index 0
    | ReadDone(result: string)                     // the reader's load event
    | ResetAll
    | PopulateAll(values: map<EntryKey, Value>)
    | UpdateAll
    | Save(name: string, url: Url)                 // `download`
    | Collapse
    | Expand
    | Darken(dark: bool)

  /** Performs one operation. */
  function Apply(s: State, op: Op): Step {
    match op
    case Open(files, test) => LoadFile(s, files, test)
    case ReadDone(result) => Ok(LoadReader(s, result))
    case ResetAll => Ok(Reset(s))
    case PopulateAll(values) => Ok(Populate(s, values))
    case UpdateAll => Ok(Update(s))
    case Save(name, url) => Ok(Download(s, name, url))
    case Collapse => Ok(CollapseAll(s))
    case Expand => Ok(ExpandAll(s))
    case Darken(dark) => Ok(SetForceDark(s, dark))
  }

  /**
   * Performs `ops` in order. A thrown error ends only the handler that threw:
   * the next operation starts from the writes made before the throw.
   */
  function Run(s: State, ops: seq<Op>): State
    decreases |ops|
  {
    if |ops| == 0 then s
    else Run(Apply(s, ops[0]).state, ops[1..])
  }

  /** Every `download` in the run is handed an available URL. */
  ghost predicate Admissible(s: State, ops: seq<Op>)
    decreases |ops|
  {
    |ops| > 0 ==>
      && (ops[0].Save? ==> Available(s, ops[0].url))
      && Admissible(Apply(s, ops[0]).state, ops[1..])
  }

  /**
   * `t` is valid and follows `s`: no revocation forgotten, no minted number
   * taken back, and a single active output stays single.
   */
  ghost predicate Advances(s: State, t: State) {
    && Valid(t) && s.revocations <= t.revocations && s.next <= t.next
    && (SingleActive(s) ==> SingleActive(t))
  }

  /** The file operations keep the invariants, whether or not they throw. */
  lemma LifecycleOpsAdvance(s: State, op: Op)
    requires Valid(s)
    requires op.Open? || op.ReadDone?
    ensures Advances(s, Apply(s, op).state)
  {
    match op
    case Open(files, test) =>
      LoadFilePreservesValid(s, files, test, 0);
    case ReadDone(result) =>
      LoadReaderPreservesValid(s, result);
  }

  /** `reset` keeps the invariants. */
  lemma ResetAdvances(s: State)
    requires Valid(s)
    ensures Apply(s, ResetAll).Ok? && Advances(s, Apply(s, ResetAll).state)
  {
    ValidFrame(s, Reset(s));
  }

  /** `populate` keeps the invariants. */
  lemma PopulateAdvances(s: State, values: map<EntryKey, Value>)
    requires Valid(s)
    ensures Apply(s, PopulateAll(values)).Ok? && Advances(s, Apply(s, PopulateAll(values)).state)
  {
    ValidFrame(s, Populate(s, values));
  }

  /** `update` keeps the invariants. */
  lemma UpdateAdvances(s: State)
    requires Valid(s)
    ensures Apply(s, UpdateAll).Ok? && Advances(s, Apply(s, UpdateAll).state)
  {
    ValidFrame(s, Update(s));
  }

  /** The view actions keep the invariants. */
  lemma ViewOpsAdvance(s: State, op: Op)
    requires Valid(s)
    requires op.Collapse? || op.Expand? || op.Darken?
    ensures Apply(s, op).Ok? && Advances(s, Apply(s, op).state)
  {
    match op
    case Collapse => ValidFrame(s, CollapseAll(s));
    case Expand => ValidFrame(s, ExpandAll(s));
    case Darken(dark) => ValidFrame(s, SetForceDark(s, dark));
  }

  /** `download` of an available URL keeps the invariants. */
  lemma SaveAdvances(s: State, name: string, url: Url)
    requires Valid(s) && Available(s, url)
    ensures Apply(s, Save(name, url)).Ok? && Advances(s, Apply(s, Save(name, url)).state)
  {
    DownloadPreservesValid(s, name, url);
  }

  /** One operation keeps the invariants, never forgets a revocation and never reuses a minted number. */
  lemma ApplyAdvances(s: State, op: Op)
    requires Valid(s)
    requires op.Save? ==> Available(s, op.url)
    ensures Advances(s, Apply(s, op).state)
  {
    if op.Open? || op.ReadDone? {
      LifecycleOpsAdvance(s, op);
    } else if op.ResetAll? || op.PopulateAll? || op.UpdateAll? {
      match op {
        case ResetAll => ResetAdvances(s);
        case PopulateAll(values) => PopulateAdvances(s, values);
        case UpdateAll => UpdateAdvances(s);
      }
    } else if op.Save? {
      SaveAdvances(s, op.name, op.url);
    } else {
      ViewOpsAdvance(s, op);
    }
  }

  /**
   * Every admissible run, thrown errors included, keeps the invariants: at
   * most one output active, namely the view, and exactly one when that held
   * before; handles revoked at most once; no revocation forgotten.
   */
  lemma {:induction false} RunPreservesValid(s: State, ops: seq<Op>)
    requires Valid(s) && Admissible(s, ops)
    ensures Advances(s, Run(s, ops))
    decreases |ops|
  {
    if |ops| > 0 {
      var t := Apply(s, ops[0]).state;
      ApplyAdvances(s, ops[0]);
      RunPreservesValid(t, ops[1..]);
    }
  }

  /** A handle revoked before a run is held by no output after it, whether or not an operation threw. */
  lemma RevokedNeverHeldAgain(s: State, ops: seq<Op>, h: nat)
    requires Valid(s) && Admissible(s, ops)
    requires h in s.revocations
    ensures forall k :: k in OutputKeys ==> Run(s, ops).outputs[k].src != Blob(h)
  {
    RunPreservesValid(s, ops);
  }

  /** From startup, every admissible run ends with exactly one active output, the current view. */
  lemma SessionKeepsSingleActive(values: map<EntryKey, Value>, accordions: seq<bool>, ops: seq<Op>)
    requires Admissible(Init(values, accordions).state, ops)
    ensures SingleActive(Run(Init(values, accordions).state, ops))
    ensures Valid(Run(Init(values, accordions).state, ops))
  {
    RunPreservesValid(Init(values, accordions).state, ops);
  }
}
