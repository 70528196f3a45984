/** The state-machine helper of the editor: deleting models from their state machine, adding a
    new state of a chosen type to a container, and looking up a data-port model by id. */
module StateMachineHelper {
  import opened PyStrings

  type StateId = string

  /** `StateType` as the helper distinguishes it; any other value is `OtherStateType`. */
  datatype StateType =
    | Hierarchy
    | Execution
    | BarrierConcurrency
    | PreemptionConcurrency
    | OtherStateType(code: int)

  /** The kind of core state that is created for a type. */
  datatype StateKind =
    | HierarchyState
    | ExecutionState
    | BarrierConcurrencyState
    | PreemptiveConcurrencyState

  /** The core side of a container state, as far as the helper changes it. Only the contracts of
      its operations are relied on: each either fails and changes nothing or performs its
      change; the bodies are one admissible implementation. */
  class ContainerState {
    const stateId: StateId
    var states: map<StateId, StateKind>
    var transitions: set<int>
    var dataFlows: set<int>

    constructor (id: StateId)
      ensures stateId == id && states == map[] && transitions == {} && dataFlows == {}
    {
      stateId := id;
      states, transitions, dataFlows := map[], {}, {};
    }

    /** `remove_state`: on success the child is gone, the other children stay, and transitions
        and data flows may only lose members (the dependants of the removed child). */
    method RemoveState(id: StateId) returns (ok: bool)
      modifies this
      ensures ok ==> id in old(states) && states == old(states) - {id}
      ensures ok ==> transitions <= old(transitions) && dataFlows <= old(dataFlows)
      ensures !ok ==> states == old(states) && transitions == old(transitions) && dataFlows == old(dataFlows)
    {
      ok := id in states;
      if ok {
        states := states - {id};
      }
    }

    /** `remove_transition`. */
    method RemoveTransition(id: int) returns (ok: bool)
      modifies this
      ensures ok ==> id in old(transitions) && transitions == old(transitions) - {id}
      ensures !ok ==> transitions == old(transitions)
      ensures states == old(states) && dataFlows == old(dataFlows)
    {
      ok := id in transitions;
      if ok {
        transitions := transitions - {id};
      }
    }

    /** `remove_data_flow`. */
    method RemoveDataFlow(id: int) returns (ok: bool)
      modifies this
      ensures ok ==> id in old(dataFlows) && dataFlows == old(dataFlows) - {id}
      ensures !ok ==> dataFlows == old(dataFlows)
      ensures states == old(states) && transitions == old(transitions)
    {
      ok := id in dataFlows;
      if ok {
        dataFlows := dataFlows - {id};
      }
    }

    /** `add_state`: on success exactly the new child is added. The new state's id is drawn at
        random by the core; it is given as `id`. */
    method AddState(id: StateId, kind: StateKind) returns (ok: bool)
      modifies this
      ensures ok ==> id !in old(states) && states == old(states)[id := kind]
      ensures !ok ==> states == old(states)
      ensures transitions == old(transitions) && dataFlows == old(dataFlows)
    {
      ok := id !in states;
      if ok {
        states := states[id := kind];
      }
    }
  }

  /** The model of a data port or a scoped variable. */
  datatype PortModel = PortModel(dataPortId: int, name: string)

  /** The models the helper is handed. `parent` is the core state of the parent container model
      (`model.parent.state`), `null` when there is none. */
  datatype Model =
    | StateModel(stateId: StateId, parent: ContainerState?,
                 inputPorts: seq<PortModel>, outputPorts: seq<PortModel>)
    | ContainerStateModel(state: ContainerState, parent: ContainerState?,
                          inputPorts: seq<PortModel>, outputPorts: seq<PortModel>,
                          scopedVariables: seq<PortModel>)
    | TransitionModel(transitionId: int, parent: ContainerState?)
    | DataFlowModel(dataFlowId: int, parent: ContainerState?)
    | OtherModel
  {
    /** `isinstance(model, StateModel)`: container state models are state models too. */
    predicate IsStateModel()
    {
      StateModel? || ContainerStateModel?
    }

    function Id(): StateId
      requires IsStateModel()
    {
      if StateModel? then stateId else state.stateId
    }

    /** `model.parent.state`, null for a model that has no parent. */
    function Parent(): ContainerState?
    {
      if OtherModel? then null else parent
    }

    /** What deleting this model may change. */
    function Frame(): set<object>
    {
      if Parent() == null then {} else {Parent()}
    }
  }

  // ---------------------------------------------------------------------------
  // delete_model / delete_models
  // ---------------------------------------------------------------------------

  /** Deletes a state, transition or data-flow model from its parent container. Returns true
      exactly when the core removal succeeded; a state model without parent and any other kind
      of model are refused, and a removal that fails changes nothing. */
  method DeleteModel(model: Model) returns (deleted: bool)
    modifies model.Frame()
    ensures deleted ==> Deletable(model)
    ensures !deleted && model.Parent() != null ==>
      model.Parent().states == old(model.Parent().states) &&
      model.Parent().transitions == old(model.Parent().transitions) &&
      model.Parent().dataFlows == old(model.Parent().dataFlows)
    ensures deleted && model.IsStateModel() ==>
      model.Id() in old(model.Parent().states) &&
      model.Parent().states == old(model.Parent().states) - {model.Id()} &&
      model.Parent().transitions <= old(model.Parent().transitions) &&
      model.Parent().dataFlows <= old(model.Parent().dataFlows)
    ensures deleted && model.TransitionModel? ==>
      model.transitionId in old(model.Parent().transitions) &&
      model.Parent().transitions == old(model.Parent().transitions) - {model.transitionId} &&
      model.Parent().states == old(model.Parent().states) &&
      model.Parent().dataFlows == old(model.Parent().dataFlows)
    ensures deleted && model.DataFlowModel? ==>
      model.dataFlowId in old(model.Parent().dataFlows) &&
      model.Parent().dataFlows == old(model.Parent().dataFlows) - {model.dataFlowId} &&
      model.Parent().states == old(model.Parent().states) &&
      model.Parent().transitions == old(model.Parent().transitions)
  {
    deleted := false;
    match model
    case StateModel(_, parent, _, _) =>
      if parent != null {
        deleted := parent.RemoveState(model.Id());
      }
    case ContainerStateModel(_, parent, _, _, _) =>
      if parent != null {
        deleted := parent.RemoveState(model.Id());
      }
    case TransitionModel(id, parent) =>
      // `container_m.state` on a missing parent raises AttributeError, which is caught
      if parent != null {
        deleted := parent.RemoveTransition(id);
      }
    case DataFlowModel(id, parent) =>
      if parent != null {
        deleted := parent.RemoveDataFlow(id);
      }
    case OtherModel =>
  }

  /** The argument of `delete_models`: a single model or a list of models. */
  datatype ModelsArg = Single(model: Model) | Many(models: seq<Model>)

  /** `if not isinstance(models, list): models = [models]`. */
  function AsList(arg: ModelsArg): seq<Model>
  {
    match arg
    case Single(m) => [m]
    case Many(ms) => ms
  }

  /** Everything deleting the given models may change. */
  function FramesOf(models: seq<Model>): set<object>
  {
    set i, o | 0 <= i < |models| && o in models[i].Frame() :: o
  }

  /** Number of `true` entries. */
  function CountTrue(flags: seq<bool>): (n: nat)
    ensures n <= |flags|
    ensures n == 0 <==> forall i :: 0 <= i < |flags| ==> !flags[i]
  {
    if flags == [] then 0
    else CountTrue(flags[..|flags| - 1]) + (if flags[|flags| - 1] then 1 else 0)
  }

  /** A model `delete_model` can delete at all: a state, transition or data-flow model with a parent. */
  predicate Deletable(model: Model)
  {
    model.Parent() != null
  }

  /** The ids of the state models among the first `|deleted|` models that are flagged deleted
      and whose parent is `p`. */
  function DeletedStates(models: seq<Model>, deleted: seq<bool>, p: ContainerState): set<StateId>
    requires |deleted| <= |models|
  {
    set j | 0 <= j < |deleted| && deleted[j] && models[j].IsStateModel() && models[j].Parent() == p :: models[j].Id()
  }

  /** The same for transition models. */
  function DeletedTransitions(models: seq<Model>, deleted: seq<bool>, p: ContainerState): set<int>
    requires |deleted| <= |models|
  {
    set j | 0 <= j < |deleted| && deleted[j] && models[j].TransitionModel? && models[j].Parent() == p :: models[j].transitionId
  }

  /** The same for data-flow models. */
  function DeletedDataFlows(models: seq<Model>, deleted: seq<bool>, p: ContainerState): set<int>
    requires |deleted| <= |models|
  {
    set j | 0 <= j < |deleted| && deleted[j] && models[j].DataFlowModel? && models[j].Parent() == p :: models[j].dataFlowId
  }

  /** The contents of a container that deletions change. */
  datatype Contents = Contents(states: map<StateId, StateKind>, transitions: set<int>, dataFlows: set<int>)

  function ContentsOf(p: ContainerState): Contents
    reads p
  {
    Contents(p.states, p.transitions, p.dataFlows)
  }

  /** From `before` to `after` a container lost exactly the states `ds`, at least the transitions
      `dt` and data flows `df`, all of which it held before; beyond those only what a removed
      state takes along, so nothing else when no state was removed. */
  predicate LostExactly(before: Contents, after: Contents, ds: set<StateId>, dt: set<int>, df: set<int>)
  {
    ds <= before.states.Keys && dt <= before.transitions && df <= before.dataFlows &&
    after.states == before.states - ds &&
    after.transitions <= before.transitions - dt && after.dataFlows <= before.dataFlows - df &&
    (ds == {} ==> after.transitions == before.transitions - dt && after.dataFlows == before.dataFlows - df)
  }

  /** The container `p` lost exactly what the models flagged in `deleted` name in it. */
  twostate predicate DeletionsApplied(p: ContainerState, models: seq<Model>, deleted: seq<bool>)
    requires |deleted| <= |models|
    reads p
  {
    LostExactly(old(ContentsOf(p)), ContentsOf(p), DeletedStates(models, deleted, p),
                DeletedTransitions(models, deleted, p), DeletedDataFlows(models, deleted, p))
  }

  /** What one `DeleteModel` call that returned `ok` did to its model's parent. */
  predicate DeleteStep(m: Model, ok: bool, before: Contents, after: Contents)
  {
    if !ok then after == before
    else if m.IsStateModel() then
      m.Id() in before.states && after.states == before.states - {m.Id()} &&
      after.transitions <= before.transitions && after.dataFlows <= before.dataFlows
    else if m.TransitionModel? then
      m.transitionId in before.transitions && after == before.(transitions := before.transitions - {m.transitionId})
    else if m.DataFlowModel? then
      m.dataFlowId in before.dataFlows && after == before.(dataFlows := before.dataFlows - {m.dataFlowId})
    else after == before
  }

  /** Flagging one more model adds its id to the sets of its own parent and to no other. */
  lemma DeletedSnoc(models: seq<Model>, deleted: seq<bool>, ok: bool, p: ContainerState)
    requires |deleted| < |models|
    ensures var m := models[|deleted|];
      DeletedStates(models, deleted + [ok], p) ==
        DeletedStates(models, deleted, p) + (if ok && m.IsStateModel() && m.Parent() == p then {m.Id()} else {})
    ensures var m := models[|deleted|];
      DeletedTransitions(models, deleted + [ok], p) ==
        DeletedTransitions(models, deleted, p) + (if ok && m.TransitionModel? && m.Parent() == p then {m.transitionId} else {})
    ensures var m := models[|deleted|];
      DeletedDataFlows(models, deleted + [ok], p) ==
        DeletedDataFlows(models, deleted, p) + (if ok && m.DataFlowModel? && m.Parent() == p then {m.dataFlowId} else {})
  {
    var d := deleted + [ok];
    assert forall j :: 0 <= j < |deleted| ==> d[j] == deleted[j];
  }

  /** One more deletion keeps `LostExactly` for the container `p`, whether or not the model
      belongs to it. */
  lemma DeletionStep(c0: Contents, c1: Contents, c2: Contents, models: seq<Model>, deleted: seq<bool>, ok: bool,
                     p: ContainerState)
    requires |deleted| < |models|
    requires LostExactly(c0, c1, DeletedStates(models, deleted, p), DeletedTransitions(models, deleted, p),
                         DeletedDataFlows(models, deleted, p))
    requires models[|deleted|].Parent() == p ==> DeleteStep(models[|deleted|], ok, c1, c2)
    requires models[|deleted|].Parent() != p ==> c2 == c1
    ensures LostExactly(c0, c2, DeletedStates(models, deleted + [ok], p), DeletedTransitions(models, deleted + [ok], p),
                        DeletedDataFlows(models, deleted + [ok], p))
  {
    DeletedSnoc(models, deleted, ok, p);
    var m := models[|deleted|];
    if ok && m.Parent() == p && m.IsStateModel() {
      var ds := DeletedStates(models, deleted, p);
      assert c2.states == c0.states - (ds + {m.Id()});
    }
  }

  /** The contents of a model's parent just before and just after its `DeleteModel` call. */
  datatype StepContents = StepContents(before: Contents, after: Contents)

  /** The position of the last of the first `n` models whose parent is `p`, or -1 if none is. */
  function LastWithParent(models: seq<Model>, p: ContainerState, n: nat): (j: int)
    requires n <= |models|
    ensures -1 <= j < n
    ensures j >= 0 ==> models[j].Parent() == p
    ensures forall k :: j < k < n ==> models[k].Parent() != p
  {
    if n == 0 then -1
    else if models[n - 1].Parent() == p then n - 1
    else LastWithParent(models, p, n - 1)
  }

  /** The contents of `p` after the first `n` calls of a trace that starts from `initial`: what
      the last of those calls on `p` left, or `initial` when there was none. */
  function ContentsAfter(models: seq<Model>, steps: seq<StepContents>, p: ContainerState, initial: Contents, n: nat): Contents
    requires n <= |models| && n <= |steps|
  {
    var j := LastWithParent(models, p, n);
    if j < 0 then initial else steps[j].after
  }

  /** `deleted` and `steps` trace the `DeleteModel` calls on the first `n` models: each call on a
      model with a parent changed it as the returned flag says, starting from what the previous
      call on the same parent left, or from the parent's initial contents. */
  twostate predicate IsTrace(models: seq<Model>, deleted: seq<bool>, steps: seq<StepContents>, n: nat)
    requires n <= |models| && n <= |deleted| && n <= |steps|
  {
    forall k :: 0 <= k < n && models[k].Parent() != null ==>
      DeleteStep(models[k], deleted[k], steps[k].before, steps[k].after) &&
      steps[k].before == ContentsAfter(models, steps, models[k].Parent(), old(ContentsOf(models[k].Parent())), k)
  }

  /** A trace of `DeleteModel` calls on `p`, each starting where the previous one on `p` ended,
      amounts to `p` losing exactly what the flagged models name. */
  lemma {:induction false} TraceLost(models: seq<Model>, deleted: seq<bool>, steps: seq<StepContents>,
                                     p: ContainerState, initial: Contents, n: nat)
    requires |deleted| == |steps| == |models| && n <= |models|
    requires forall k :: 0 <= k < |models| && models[k].Parent() == p ==>
      DeleteStep(models[k], deleted[k], steps[k].before, steps[k].after)
    requires forall k :: 0 <= k < |models| && models[k].Parent() == p ==>
      steps[k].before == ContentsAfter(models, steps, p, initial, k)
    ensures LostExactly(initial, ContentsAfter(models, steps, p, initial, n),
                        DeletedStates(models, deleted[..n], p), DeletedTransitions(models, deleted[..n], p),
                        DeletedDataFlows(models, deleted[..n], p))
  {
    if n > 0 {
      TraceLost(models, deleted, steps, p, initial, n - 1);
      assert deleted[..n] == deleted[..n - 1] + [deleted[n - 1]];
      DeletionStep(initial, ContentsAfter(models, steps, p, initial, n - 1), ContentsAfter(models, steps, p, initial, n),
                   models, deleted[..n - 1], deleted[n - 1], p);
    }
  }

  /** Deletes every model in turn and counts the successes. `deleted` records, per model, what
      `DeleteModel` returned, and `steps` the parent's contents around each call; every parent
      ends with what the last call on it left. Summed up, each parent lost exactly what the
      flagged models name. */
  method DeleteModels(arg: ModelsArg) returns (numDeleted: nat, ghost deleted: seq<bool>, ghost steps: seq<StepContents>)
    modifies FramesOf(AsList(arg))
    ensures |deleted| == |AsList(arg)| && |steps| == |AsList(arg)|
    ensures numDeleted == CountTrue(deleted) && numDeleted <= |AsList(arg)|
    ensures forall i :: 0 <= i < |deleted| && deleted[i] ==> Deletable(AsList(arg)[i])
    ensures IsTrace(AsList(arg), deleted, steps, |AsList(arg)|)
    ensures forall i :: 0 <= i < |AsList(arg)| && AsList(arg)[i].Parent() != null ==>
      var p := AsList(arg)[i].Parent();
      ContentsOf(p) == ContentsAfter(AsList(arg), steps, p, old(ContentsOf(p)), |AsList(arg)|)
    ensures forall i :: 0 <= i < |AsList(arg)| && AsList(arg)[i].Parent() != null ==>
      DeletionsApplied(AsList(arg)[i].Parent(), AsList(arg), deleted)
  {
    var models := AsList(arg);
    numDeleted, deleted, steps := DeleteEach(models);
    assert deleted[..|models|] == deleted;
    forall k | 0 <= k < |models| && models[k].Parent() != null
      ensures DeletionsApplied(models[k].Parent(), models, deleted)
    {
      var p := models[k].Parent();
      TraceLost(models, deleted, steps, p, old(ContentsOf(p)), |models|);
    }
  }

  /** The loop of `DeleteModels`: calls `DeleteModel` on each model in turn and records the trace. */
  method DeleteEach(models: seq<Model>) returns (numDeleted: nat, ghost deleted: seq<bool>, ghost steps: seq<StepContents>)
    modifies FramesOf(models)
    ensures |deleted| == |models| && |steps| == |models|
    ensures numDeleted == CountTrue(deleted)
    ensures forall i :: 0 <= i < |deleted| && deleted[i] ==> Deletable(models[i])
    ensures IsTrace(models, deleted, steps, |models|)
    ensures forall i :: 0 <= i < |models| && models[i].Parent() != null ==>
      ContentsOf(models[i].Parent()) == ContentsAfter(models, steps, models[i].Parent(), old(ContentsOf(models[i].Parent())), |models|)
  {
    numDeleted := 0;
    deleted := [];
    steps := [];
    for i := 0 to |models|
      invariant |deleted| == i && |steps| == i
      invariant IsTrace(models, deleted, steps, i)
      invariant forall k :: 0 <= k < |models| && models[k].Parent() != null ==>
        ContentsOf(models[k].Parent()) == ContentsAfter(models, steps, models[k].Parent(), old(ContentsOf(models[k].Parent())), i)
      invariant numDeleted == CountTrue(deleted)
      invariant forall k :: 0 <= k < i && deleted[k] ==> Deletable(models[k])
    {
      assert models[i].Frame() <= FramesOf(models);
      label before:
      var ok := DeleteModel(models[i]);
      var q := models[i].Parent();
      ghost var step := if q == null then StepContents(Contents(map[], {}, {}), Contents(map[], {}, {}))
                        else StepContents(old@before(ContentsOf(q)), ContentsOf(q));
      ghost var steps' := steps + [step];
      ghost var deleted' := deleted + [ok];
      forall k | 0 <= k <= i && models[k].Parent() != null
        ensures DeleteStep(models[k], deleted'[k], steps'[k].before, steps'[k].after)
        ensures steps'[k].before == ContentsAfter(models, steps', models[k].Parent(), old(ContentsOf(models[k].Parent())), k)
      {
        var p := models[k].Parent();
        assert ContentsAfter(models, steps', p, old(ContentsOf(p)), k) == ContentsAfter(models, steps, p, old(ContentsOf(p)), k);
        if k < i {
          assert deleted'[k] == deleted[k] && steps'[k] == steps[k];
        }
      }
      forall k | 0 <= k < |models| && models[k].Parent() != null
        ensures ContentsOf(models[k].Parent()) == ContentsAfter(models, steps', models[k].Parent(), old(ContentsOf(models[k].Parent())), i + 1)
      {
        var p := models[k].Parent();
        if p != q {
          assert ContentsOf(p) == old@before(ContentsOf(p));
          assert ContentsAfter(models, steps', p, old(ContentsOf(p)), i + 1) == ContentsAfter(models, steps, p, old(ContentsOf(p)), i);
        }
      }
      forall k | 0 <= k <= i && deleted'[k]
        ensures Deletable(models[k])
      {
        if k < i {
          assert deleted'[k] == deleted[k];
        }
      }
      steps := steps';
      assert deleted'[..i] == deleted;
      deleted := deleted';
      if ok {
        numDeleted := numDeleted + 1;
      }
    }
  }

  // ---------------------------------------------------------------------------
  // add_state
  // ---------------------------------------------------------------------------

  /** The state created for a type: one kind for each of the four known types, none otherwise. */
  function NewStateKind(t: StateType): (kind: Option<StateKind>)
    ensures kind.None? <==> t.OtherStateType?
    ensures kind.Some? ==> TypeOfKind(kind.value) == t
  {
    match t
    case Hierarchy => Some(HierarchyState)
    case Execution => Some(ExecutionState)
    case BarrierConcurrency => Some(BarrierConcurrencyState)
    case PreemptionConcurrency => Some(PreemptiveConcurrencyState)
    case OtherStateType(_) => None
  }

  /** The type that creates a kind; the inverse of `NewStateKind`. */
  function TypeOfKind(kind: StateKind): StateType
  {
    match kind
    case HierarchyState => Hierarchy
    case ExecutionState => Execution
    case BarrierConcurrencyState => BarrierConcurrency
    case PreemptiveConcurrencyState => PreemptionConcurrency
  }

  /** Every kind is created by exactly one type. */
  lemma EveryKindHasOneType(kind: StateKind)
    ensures NewStateKind(TypeOfKind(kind)) == Some(kind)
  {
  }

  /** A Python call either returns a value or raises. */
  datatype Call<T> = Returned(value: T) | Raised

  function ContainerFrame(container: Option<Model>): set<object>
  {
    if container.Some? && container.value.ContainerStateModel? then {container.value.state} else {}
  }

  /** Adds a new state of type `stateType` to the container model. Refuses (false, nothing added)
      a missing container, a model that is not a container state model and an unknown type; on
      success exactly one child of the matching kind is added. An exception of the core's
      `add_state` propagates. `newStateId` is the id the new state draws at random. */
  method AddState(container: Option<Model>, stateType: StateType, newStateId: StateId) returns (r: Call<bool>)
    modifies ContainerFrame(container)
    ensures container.None? || !container.value.ContainerStateModel? ==> r == Returned(false)
    ensures NewStateKind(stateType).None? ==> r == Returned(false)
    ensures r == Returned(false) ==>
      container.None? || !container.value.ContainerStateModel? || NewStateKind(stateType).None?
    ensures r != Returned(true) && ContainerFrame(container) != {} ==>
      container.value.state.states == old(container.value.state.states)
    ensures ContainerFrame(container) != {} ==>
      container.value.state.transitions == old(container.value.state.transitions) &&
      container.value.state.dataFlows == old(container.value.state.dataFlows)
    ensures r == Returned(true) ==>
      container.Some? && container.value.ContainerStateModel? && NewStateKind(stateType).Some? &&
      newStateId !in old(container.value.state.states) &&
      container.value.state.states == old(container.value.state.states)[newStateId := NewStateKind(stateType).value]
  {
    if container.None? {
      return Returned(false);
    }
    if !container.value.IsStateModel() || !container.value.ContainerStateModel? {
      return Returned(false);
    }
    var kind := NewStateKind(stateType);
    if kind.None? {
      return Returned(false);
    }
    var ok := container.value.state.AddState(newStateId, kind.value);
    if !ok {
      return Raised;
    }
    return Returned(true);
  }

  // ---------------------------------------------------------------------------
  // get_data_port_model
  // ---------------------------------------------------------------------------

  /** No port before position `i` has the id. */
  predicate NoIdBefore(ports: seq<PortModel>, i: int, id: int)
    requires 0 <= i <= |ports|
  {
    forall j :: 0 <= j < i ==> ports[j].dataPortId != id
  }

  /** The first port model in `ports` with the id, if any. */
  function FirstPortWithId(ports: seq<PortModel>, id: int): (r: Option<PortModel>)
    ensures r.None? <==> forall i :: 0 <= i < |ports| ==> ports[i].dataPortId != id
    ensures r.Some? ==> r.value.dataPortId == id
    ensures r.Some? ==> exists i :: 0 <= i < |ports| && ports[i] == r.value && NoIdBefore(ports, i, id)
  {
    if ports == [] then None
    else if ports[0].dataPortId == id then Some(ports[0])
    else
      var r := FirstPortWithId(ports[1..], id);
      if r.Some? then
        var i :| 0 <= i < |ports[1..]| && ports[1..][i] == r.value && NoIdBefore(ports[1..], i, id);
        assert ports[i + 1] == r.value && NoIdBefore(ports, i + 1, id);
        r
      else r
  }

  /** The lists searched, in the order searched: scoped variables (container state models only),
      then input ports, then output ports. */
  function SearchOrder(model: Model): (r: seq<PortModel>)
    ensures !model.IsStateModel() ==> r == []
    ensures model.IsStateModel() ==> forall pm :: pm in r <==>
      pm in model.inputPorts || pm in model.outputPorts || (model.ContainerStateModel? && pm in model.scopedVariables)
  {
    match model
    case ContainerStateModel(_, _, inputs, outputs, scoped) => scoped + inputs + outputs
    case StateModel(_, _, inputs, outputs) => inputs + outputs
    case _ => []
  }

  /** Searching a concatenation searches the first part, then the second. */
  lemma {:induction false} FirstPortWithIdAppend(a: seq<PortModel>, b: seq<PortModel>, id: int)
    ensures FirstPortWithId(a + b, id) ==
      if FirstPortWithId(a, id).Some? then FirstPortWithId(a, id) else FirstPortWithId(b, id)
  {
    if a != [] {
      assert (a + b)[1..] == a[1..] + b;
      FirstPortWithIdAppend(a[1..], b, id);
    } else {
      assert a + b == b;
    }
  }

  /** The search order: a scoped variable wins over an input port, which wins over an output port. */
  lemma DataPortPriority(model: Model, id: int)
    requires model.ContainerStateModel?
    ensures FirstPortWithId(model.scopedVariables, id).Some? ==>
      FirstPortWithId(SearchOrder(model), id) == FirstPortWithId(model.scopedVariables, id)
    ensures FirstPortWithId(model.scopedVariables, id).None? && FirstPortWithId(model.inputPorts, id).Some? ==>
      FirstPortWithId(SearchOrder(model), id) == FirstPortWithId(model.inputPorts, id)
    ensures FirstPortWithId(model.scopedVariables, id).None? && FirstPortWithId(model.inputPorts, id).None? ==>
      FirstPortWithId(SearchOrder(model), id) == FirstPortWithId(model.outputPorts, id)
  {
    var s, i, o := model.scopedVariables, model.inputPorts, model.outputPorts;
    FirstPortWithIdAppend(s + i, o, id);
    FirstPortWithIdAppend(s, i, id);
  }

  /** `find_port_in_list`: the first port model in the list with the id. */
  method FindPortInList(ports: seq<PortModel>, id: int) returns (r: Option<PortModel>)
    ensures r == FirstPortWithId(ports, id)
  {
    for i := 0 to |ports|
      invariant FirstPortWithId(ports, id) == FirstPortWithId(ports[i..], id)
    {
      if ports[i].dataPortId == id {
        return Some(ports[i]);
      }
      assert ports[i..] == [ports[i]] + ports[i + 1..];
    }
    return None;
  }

  /** `get_data_port_model`: the model of the port with the given id, searched in scoped
      variables (container state models only), input ports and output ports, in that order;
      `None` exactly when no searched list holds the id. */
  method GetDataPortModel(model: Model, id: int) returns (r: Option<PortModel>)
    ensures r == FirstPortWithId(SearchOrder(model), id)
    ensures r.Some? ==> r.value.dataPortId == id
  {
    if model.ContainerStateModel? {
      for i := 0 to |model.scopedVariables|
        invariant forall j :: 0 <= j < i ==> model.scopedVariables[j].dataPortId != id
      {
        if model.scopedVariables[i].dataPortId == id {
          r := Some(model.scopedVariables[i]);
          FirstPortWithIdAppend(model.scopedVariables + model.inputPorts, model.outputPorts, id);
          FirstPortWithIdAppend(model.scopedVariables, model.inputPorts, id);
          return;
        }
      }
    }
    if model.IsStateModel() {
      r := FindPortInList(model.inputPorts, id);
      if r.None? {
        r := FindPortInList(model.outputPorts, id);
      }
      if model.ContainerStateModel? {
        DataPortPriority(model, id);
      } else {
        FirstPortWithIdAppend(model.inputPorts, model.outputPorts, id);
      }
      return;
    }
    r := None;
  }
}
