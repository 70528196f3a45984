/** The outcome editor of a state: the list of the state's outcomes with, for each, the
    transition that leaves it (to a sibling state, to the state itself or to an outcome of the
    parent), the drop-down lists the user picks a new target from, the handlers that turn a pick
    into a change of the parent's transitions, and the "add outcome" button. */
module StateOutcomes {
  import opened PyStrings

  type StateId = string

  // ---------------------------------------------------------------------------
  // What the controller reads: the edited state and its parent container
  // ---------------------------------------------------------------------------

  datatype Outcome = Outcome(outcomeId: int, name: string)

  /** A child state of the parent container, as far as the labels need it. */
  datatype ChildState = ChildState(stateId: StateId, name: string)

  /** A transition of a container. `None` stands for Python's `None` in each end. */
  datatype Transition = Transition(transitionId: int,
                                   fromState: Option<StateId>, fromOutcome: Option<int>,
                                   toState: Option<StateId>, toOutcome: Option<int>)

  /** The parent container: its outcomes, its children (the edited state among them) and its
      transitions, each in the order of the core's dictionaries. */
  datatype ParentState = ParentState(stateId: StateId, outcomes: seq<Outcome>,
                                     children: seq<ChildState>, transitions: seq<Transition>)

  /** The edited state model. `parent` is `None` for a root state; `internal` holds the state's
      own transitions when the model is a container state model and is `None` otherwise. */
  datatype EditedState = EditedState(stateId: StateId, outcomes: seq<Outcome>,
                                     parent: Option<ParentState>,
                                     internal: Option<seq<Transition>>)

  /** `outcomes.keys()`. */
  function OutcomeIds(outcomes: seq<Outcome>): set<int>
  {
    set i | 0 <= i < |outcomes| :: outcomes[i].outcomeId
  }

  /** `outcomes[id]`: the outcome with the id, `None` where Python raises KeyError. */
  function FindOutcome(outcomes: seq<Outcome>, id: int): (r: Option<Outcome>)
    ensures r.Some? ==> r.value.outcomeId == id
    ensures r.None? <==> id !in OutcomeIds(outcomes)
  {
    if outcomes == [] then None
    else if outcomes[0].outcomeId == id then Some(outcomes[0])
    else
      var r := FindOutcome(outcomes[1..], id);
      assert OutcomeIds(outcomes) == {outcomes[0].outcomeId} + OutcomeIds(outcomes[1..]) by {
        forall x | x in OutcomeIds(outcomes) ensures x in {outcomes[0].outcomeId} + OutcomeIds(outcomes[1..]) {
          var i :| 0 <= i < |outcomes| && outcomes[i].outcomeId == x;
          if i > 0 {
            assert outcomes[1..][i - 1] == outcomes[i];
          }
        }
        forall x | x in OutcomeIds(outcomes[1..]) ensures x in OutcomeIds(outcomes) {
          var i :| 0 <= i < |outcomes[1..]| && outcomes[1..][i].outcomeId == x;
          assert outcomes[i + 1] == outcomes[1..][i];
        }
      }
      r
  }

  /** `parent.states[id]`: the child with the id, `None` where Python raises KeyError. */
  function FindChild(children: seq<ChildState>, id: StateId): (r: Option<ChildState>)
    ensures r.Some? ==> r.value.stateId == id
    ensures r.None? <==> forall i :: 0 <= i < |children| ==> children[i].stateId != id
  {
    if children == [] then None
    else if children[0].stateId == id then Some(children[0])
    else
      var r := FindChild(children[1..], id);
      assert forall i :: 1 <= i < |children| ==> children[i] == children[1..][i - 1];
      r
  }

  // ---------------------------------------------------------------------------
  // What the controller builds
  // ---------------------------------------------------------------------------

  /** A row of a drop-down list: the sentinel row `[None, None, None]`, or a label, the target
      it stands for and the parent's id. */
  datatype ComboRow<T> = Sentinel | Choice(text: string, target: T, parentId: StateId)

  /** The label of a row, as the edit handlers receive it when the row is picked. */
  function LabelOf<T>(row: ComboRow<T>): Option<string>
  {
    if row.Sentinel? then None else Some(row.text)
  }

  /** An entry of `dict_to_other_state` or `dict_to_other_outcome`: the label shown, the target
      state id (`''` for a sibling target, the parent's id for a parent outcome) and the
      transition's id. */
  datatype TargetEntry = TargetEntry(text: string, toStateId: StateId, transitionId: int)

  /** An entry of `dict_from_other_state`: where an internal transition comes from. */
  datatype SourceEntry = SourceEntry(fromState: Option<StateId>, fromOutcome: Option<int>, transitionId: int)

  /** A row of the outcome list: id, name, the to-state column and the to-outcome column. */
  datatype OutcomeRow = OutcomeRow(outcomeId: int, name: string, toState: Option<string>, toOutcome: Option<string>)

  // ---------------------------------------------------------------------------
  // The drop-down lists
  // ---------------------------------------------------------------------------

  /** The to-state label of a child: `self.<id>` for the edited state, `<name>.<id>` for a sibling. */
  function StateLabel(c: ChildState, selfId: StateId): (text: string)
    ensures |text| > |c.stateId| && text[|text| - |c.stateId| - 1..] == "." + c.stateId
  {
    (if c.stateId == selfId then "self" else c.name) + "." + c.stateId
  }

  /** The to-outcome label of a parent outcome: `parent.<name>.<id>`. */
  function OutcomeLabel(o: Outcome): (text: string)
    ensures |text| > 7 && text[..7] == "parent."
    ensures var n := IntToString(o.outcomeId); |text| > |n| + 7 && text[|text| - |n| - 1..] == "." + n
  {
    "parent." + o.name + "." + IntToString(o.outcomeId)
  }

  /** One to-state row per child of the parent, in the parent's order. */
  function StateChoices(children: seq<ChildState>, selfId: StateId, parentId: StateId): (rows: seq<ComboRow<StateId>>)
    ensures |rows| == |children|
    ensures forall i :: 0 <= i < |children| ==>
      rows[i] == Choice(StateLabel(children[i], selfId), children[i].stateId, parentId)
  {
    if children == [] then []
    else
      var c := children[|children| - 1];
      StateChoices(children[..|children| - 1], selfId, parentId) + [Choice(StateLabel(c, selfId), c.stateId, parentId)]
  }

  /** One to-outcome row per outcome of the parent, in the parent's order. */
  function OutcomeChoices(outcomes: seq<Outcome>, parentId: StateId): (rows: seq<ComboRow<int>>)
    ensures |rows| == |outcomes|
    ensures forall i :: 0 <= i < |outcomes| ==>
      rows[i] == Choice(OutcomeLabel(outcomes[i]), outcomes[i].outcomeId, parentId)
  {
    if outcomes == [] then []
    else
      var o := outcomes[|outcomes| - 1];
      OutcomeChoices(outcomes[..|outcomes| - 1], parentId) + [Choice(OutcomeLabel(o), o.outcomeId, parentId)]
  }

  /** The to-state list: the sentinel, then, unless the state is a root state, its choices. */
  function ToStateCombo(s: EditedState): (rows: seq<ComboRow<StateId>>)
    ensures |rows| == 1 + (if s.parent.Some? then |s.parent.value.children| else 0)
    ensures rows[0] == Sentinel
  {
    [Sentinel] + if s.parent.Some? then StateChoices(s.parent.value.children, s.stateId, s.parent.value.stateId) else []
  }

  /** The to-outcome list: the sentinel, then, unless the state is a root state, its choices. */
  function ToOutcomeCombo(s: EditedState): (rows: seq<ComboRow<int>>)
    ensures |rows| == 1 + (if s.parent.Some? then |s.parent.value.outcomes| else 0)
    ensures rows[0] == Sentinel
  {
    [Sentinel] + if s.parent.Some? then OutcomeChoices(s.parent.value.outcomes, s.parent.value.stateId) else []
  }

  // ---------------------------------------------------------------------------
  // The tables of outgoing transitions
  // ---------------------------------------------------------------------------

  /** A parent transition that leaves one of the edited state's outcomes. */
  predicate LeavesFrom(s: EditedState, t: Transition)
  {
    t.fromState == Some(s.stateId) && t.fromOutcome.Some? && t.fromOutcome.value in OutcomeIds(s.outcomes)
  }

  /** A transition that ends in an outcome of the parent. */
  predicate ToParentOutcome(p: ParentState, t: Transition)
  {
    t.toState == Some(p.stateId)
  }

  /** The lookups the table building makes for a transition succeed: a transition to the parent
      names one of the parent's outcomes, any other one names one of the parent's children. */
  predicate Resolvable(p: ParentState, t: Transition)
  {
    if ToParentOutcome(p, t) then t.toOutcome.Some? && FindOutcome(p.outcomes, t.toOutcome.value).Some?
    else t.toState.Some? && FindChild(p.children, t.toState.value).Some?
  }

  /** Every transition the table building looks up resolves. */
  predicate AllResolvable(s: EditedState, p: ParentState, ts: seq<Transition>)
  {
    forall i :: 0 <= i < |ts| && LeavesFrom(s, ts[i]) ==> Resolvable(p, ts[i])
  }

  /** What the controller needs of the state it edits: the transitions of the parent that leave
      the state resolve. Otherwise the table building raises KeyError, which is not modelled; in
      particular a transition to a parent outcome must name the parent as its to-state. */
  predicate WellFormed(s: EditedState)
  {
    s.parent.Some? ==> AllResolvable(s, s.parent.value, s.parent.value.transitions)
  }

  /** The table entry of a resolvable transition leaving the state: for a transition to a parent
      outcome `<outcome name>.<outcome id>` and the parent's id, otherwise `self.<id>` or
      `<sibling name>.<id>` and `''`. */
  function TargetOf(s: EditedState, p: ParentState, t: Transition): (e: TargetEntry)
    requires Resolvable(p, t)
    ensures e.transitionId == t.transitionId
    ensures ToParentOutcome(p, t) ==>
      e.toStateId == p.stateId && "parent." + e.text == OutcomeLabel(FindOutcome(p.outcomes, t.toOutcome.value).value)
    ensures !ToParentOutcome(p, t) ==>
      e.toStateId == "" && e.text == StateLabel(FindChild(p.children, t.toState.value).value, s.stateId)
  {
    if ToParentOutcome(p, t) then
      var o := FindOutcome(p.outcomes, t.toOutcome.value).value;
      var text := o.name + "." + IntToString(t.toOutcome.value);
      assert "parent." + text == OutcomeLabel(o);
      TargetEntry(text, p.stateId, t.transitionId)
    else
      var c := FindChild(p.children, t.toState.value).value;
      TargetEntry((if c.stateId == s.stateId then "self" else c.name) + "." + t.toState.value,
                  "", t.transitionId)
  }

  /** Whether a transition is recorded in the to-outcome table (`toParent`) or in the to-state
      table (`!toParent`). */
  predicate Recorded(s: EditedState, p: ParentState, t: Transition, toParent: bool)
  {
    LeavesFrom(s, t) && ToParentOutcome(p, t) == toParent
  }

  /** `dict_to_other_outcome` (`toParent`) or `dict_to_other_state` (`!toParent`) after the
      transitions `ts` were visited in order: keyed by the from-outcome, a later transition
      overwriting an earlier one. */
  function TargetTable(s: EditedState, p: ParentState, ts: seq<Transition>, toParent: bool): (m: map<int, TargetEntry>)
    requires AllResolvable(s, p, ts)
    ensures forall o :: o in m ==> o in OutcomeIds(s.outcomes)
    ensures forall o :: o in m ==> m[o].toStateId == if toParent then p.stateId else ""
  {
    if ts == [] then map[]
    else
      var t := ts[|ts| - 1];
      var m := TargetTable(s, p, ts[..|ts| - 1], toParent);
      if Recorded(s, p, t, toParent) then m[t.fromOutcome.value := TargetOf(s, p, t)] else m
  }

  /** The to-state table of the state. */
  function ToOtherStateTable(s: EditedState): (m: map<int, TargetEntry>)
    requires WellFormed(s)
    ensures forall o :: o in m ==> o in OutcomeIds(s.outcomes) && m[o].toStateId == ""
  {
    if s.parent.None? then map[] else TargetTable(s, s.parent.value, s.parent.value.transitions, false)
  }

  /** The to-outcome table of the state. */
  function ToOtherOutcomeTable(s: EditedState): (m: map<int, TargetEntry>)
    requires WellFormed(s)
    ensures forall o :: o in m ==> o in OutcomeIds(s.outcomes) && s.parent.Some? && m[o].toStateId == s.parent.value.stateId
  {
    if s.parent.None? then map[] else TargetTable(s, s.parent.value, s.parent.value.transitions, true)
  }

  // ---------------------------------------------------------------------------
  // The table of incoming internal transitions
  // ---------------------------------------------------------------------------

  /** An internal transition that ends in one of the state's own outcomes (no to-state). */
  predicate EndsInOwnOutcome(t: Transition)
  {
    t.toState.None?
  }

  function SourceOf(t: Transition): SourceEntry
  {
    SourceEntry(t.fromState, t.fromOutcome, t.transitionId)
  }

  /** `dict_from_other_state` after the internal transitions `ts` were visited in order: each
      transition without a to-state is appended to the list of its to-outcome. */
  function FromOtherStateTable(ts: seq<Transition>): (m: map<Option<int>, seq<SourceEntry>>)
    ensures forall k :: k in m ==> 1 <= |m[k]| <= |ts|
  {
    if ts == [] then map[]
    else
      var t := ts[|ts| - 1];
      var m := FromOtherStateTable(ts[..|ts| - 1]);
      if EndsInOwnOutcome(t) then
        m[t.toOutcome := (if t.toOutcome in m then m[t.toOutcome] else []) + [SourceOf(t)]]
      else m
  }

  /** The incoming table of the state: empty unless the state is a container. */
  function FromOtherState(s: EditedState): (m: map<Option<int>, seq<SourceEntry>>)
    ensures s.internal.None? ==> m == map[]
    ensures forall k :: k in m ==> m[k] != []
  {
    if s.internal.None? then map[] else FromOtherStateTable(s.internal.value)
  }

  // ---------------------------------------------------------------------------
  // The outcome list
  // ---------------------------------------------------------------------------

  /** The row of an outcome: the to-state column shows the to-state label, or `parent` when the
      outcome leads to a parent outcome; the to-outcome column shows the to-outcome label. */
  function RowOf(o: Outcome, toState: map<int, TargetEntry>, toOutcome: map<int, TargetEntry>): (r: OutcomeRow)
    ensures r.outcomeId == o.outcomeId && r.name == o.name
    ensures r.toState.None? <==> o.outcomeId !in toState && o.outcomeId !in toOutcome
    ensures r.toOutcome.Some? <==> o.outcomeId in toOutcome
    ensures r.toOutcome.Some? ==> r.toState == Some("parent")
  {
    var id := o.outcomeId;
    OutcomeRow(id, o.name,
               if id in toOutcome then Some("parent") else if id in toState then Some(toState[id].text) else None,
               if id in toOutcome then Some(toOutcome[id].text) else None)
  }

  /** One row per outcome, in the state's order. */
  function ListRows(outcomes: seq<Outcome>, toState: map<int, TargetEntry>, toOutcome: map<int, TargetEntry>): (rows: seq<OutcomeRow>)
    ensures |rows| == |outcomes|
    ensures forall i :: 0 <= i < |outcomes| ==> rows[i] == RowOf(outcomes[i], toState, toOutcome)
  {
    if outcomes == [] then []
    else ListRows(outcomes[..|outcomes| - 1], toState, toOutcome) + [RowOf(outcomes[|outcomes| - 1], toState, toOutcome)]
  }

  // ---------------------------------------------------------------------------
  // The controller
  // ---------------------------------------------------------------------------

  /** The rows appended to the to-state list, one per child of the parent. */
  method StateRows(children: seq<ChildState>, selfId: StateId, parentId: StateId) returns (rows: seq<ComboRow<StateId>>)
    ensures rows == StateChoices(children, selfId, parentId)
  {
    rows := [];
    for i := 0 to |children|
      invariant rows == StateChoices(children[..i], selfId, parentId)
    {
      var c := children[i];
      if selfId != c.stateId {
        rows := rows + [Choice(c.name + "." + c.stateId, c.stateId, parentId)];
      } else {
        assert "self." + c.stateId == StateLabel(c, selfId);
        rows := rows + [Choice("self." + c.stateId, c.stateId, parentId)];
      }
      assert children[..i + 1] == children[..i] + [c];
    }
    assert children[..|children|] == children;
  }

  /** The rows appended to the to-outcome list, one per outcome of the parent. */
  method OutcomeRows(outcomes: seq<Outcome>, parentId: StateId) returns (rows: seq<ComboRow<int>>)
    ensures rows == OutcomeChoices(outcomes, parentId)
  {
    rows := [];
    for i := 0 to |outcomes|
      invariant rows == OutcomeChoices(outcomes[..i], parentId)
    {
      var o := outcomes[i];
      rows := rows + [Choice("parent." + o.name + "." + IntToString(o.outcomeId), o.outcomeId, parentId)];
      assert outcomes[..i + 1] == outcomes[..i] + [o];
    }
    assert outcomes[..|outcomes|] == outcomes;
  }

  /** The pass over the parent's transitions that fills the to-state and the to-outcome table. */
  method TargetTables(s: EditedState, p: ParentState) returns (toState: map<int, TargetEntry>, toOutcome: map<int, TargetEntry>)
    requires AllResolvable(s, p, p.transitions)
    ensures toState == TargetTable(s, p, p.transitions, false)
    ensures toOutcome == TargetTable(s, p, p.transitions, true)
  {
    var ts := p.transitions;
    toState, toOutcome := map[], map[];
    for i := 0 to |ts|
      invariant AllResolvable(s, p, ts[..i])
      invariant toState == TargetTable(s, p, ts[..i], false)
      invariant toOutcome == TargetTable(s, p, ts[..i], true)
    {
      var t := ts[i];
      assert ts[..i + 1] == ts[..i] + [t];
      if t.fromState == Some(s.stateId) && t.fromOutcome.Some? && t.fromOutcome.value in OutcomeIds(s.outcomes) {
        if t.toState == Some(p.stateId) {
          var toOutcomeName := FindOutcome(p.outcomes, t.toOutcome.value).value.name;
          toOutcome := toOutcome[t.fromOutcome.value :=
            TargetEntry(toOutcomeName + "." + IntToString(t.toOutcome.value), p.stateId, t.transitionId)];
        } else {
          var toStateName;
          if FindChild(p.children, t.toState.value).value.stateId == s.stateId {
            toStateName := "self";
          } else {
            toStateName := FindChild(p.children, t.toState.value).value.name;
          }
          toState := toState[t.fromOutcome.value :=
            TargetEntry(toStateName + "." + t.toState.value, "", t.transitionId)];
        }
      }
    }
    assert ts[..|ts|] == ts;
  }

  /** The pass over a container's own transitions that fills the incoming table. */
  method FromOtherStateEntries(ts: seq<Transition>) returns (table: map<Option<int>, seq<SourceEntry>>)
    ensures table == FromOtherStateTable(ts)
  {
    table := map[];
    for i := 0 to |ts|
      invariant table == FromOtherStateTable(ts[..i])
    {
      var t := ts[i];
      assert ts[..i + 1][..i] == ts[..i];
      if t.toState.None? {
        if t.toOutcome in table {
          table := table[t.toOutcome := table[t.toOutcome] + [SourceEntry(t.fromState, t.fromOutcome, t.transitionId)]];
        } else {
          assert [] + [SourceOf(t)] == [SourceOf(t)];
          table := table[t.toOutcome := [SourceEntry(t.fromState, t.fromOutcome, t.transitionId)]];
        }
      }
    }
    assert ts[..|ts|] == ts;
  }

  class StateOutcomesListController {
    var toStateComboList: seq<ComboRow<StateId>>
    var toOutcomeComboList: seq<ComboRow<int>>
    var dictToOtherState: map<int, TargetEntry>
    var dictToOtherOutcome: map<int, TargetEntry>
    var dictFromOtherState: map<Option<int>, seq<SourceEntry>>
    var listStore: seq<OutcomeRow>

    constructor ()
      ensures toStateComboList == [] && toOutcomeComboList == []
      ensures dictToOtherState == map[] && dictToOtherOutcome == map[] && dictFromOtherState == map[]
      ensures listStore == []
    {
      toStateComboList, toOutcomeComboList := [], [];
      dictToOtherState, dictToOtherOutcome, dictFromOtherState := map[], map[], map[];
      listStore := [];
    }

    /** `update_internal_data_base`: everything is cleared first, so the new tables and lists are
        a function of the state alone. The loops that fill each of them are the methods below. */
    method UpdateInternalDataBase(s: EditedState)
      requires WellFormed(s)
      modifies this
      ensures toStateComboList == ToStateCombo(s)
      ensures toOutcomeComboList == ToOutcomeCombo(s)
      ensures dictToOtherState == ToOtherStateTable(s)
      ensures dictToOtherOutcome == ToOtherOutcomeTable(s)
      ensures dictFromOtherState == FromOtherState(s)
      ensures listStore == old(listStore)
    {
      toStateComboList := [Sentinel];
      toOutcomeComboList := [Sentinel];
      dictToOtherState, dictToOtherOutcome, dictFromOtherState := map[], map[], map[];

      if s.parent.Some? {
        var p := s.parent.value;
        var stateRows := StateRows(p.children, s.stateId, p.stateId);
        toStateComboList := toStateComboList + stateRows;
        var outcomeRows := OutcomeRows(p.outcomes, p.stateId);
        toOutcomeComboList := toOutcomeComboList + outcomeRows;
        dictToOtherState, dictToOtherOutcome := TargetTables(s, p);
      }
      if s.internal.Some? {
        dictFromOtherState := FromOtherStateEntries(s.internal.value);
      }
    }

    /** `update_list_store` (row contents only): one row per outcome of the state. */
    method UpdateListStore(s: EditedState)
      modifies this
      ensures listStore == ListRows(s.outcomes, dictToOtherState, dictToOtherOutcome)
      ensures toStateComboList == old(toStateComboList) && toOutcomeComboList == old(toOutcomeComboList)
      ensures dictToOtherState == old(dictToOtherState) && dictToOtherOutcome == old(dictToOtherOutcome)
      ensures dictFromOtherState == old(dictFromOtherState)
    {
      listStore := [];
      for i := 0 to |s.outcomes|
        invariant listStore == ListRows(s.outcomes[..i], dictToOtherState, dictToOtherOutcome)
        invariant toStateComboList == old(toStateComboList) && toOutcomeComboList == old(toOutcomeComboList)
        invariant dictToOtherState == old(dictToOtherState) && dictToOtherOutcome == old(dictToOtherOutcome)
        invariant dictFromOtherState == old(dictFromOtherState)
      {
        var o := s.outcomes[i];
        var toState: Option<string> := None;
        if o.outcomeId in dictToOtherState {
          toState := Some(dictToOtherState[o.outcomeId].text);
        }
        var toOutcome: Option<string> := None;
        if o.outcomeId in dictToOtherOutcome {
          toOutcome := Some(dictToOtherOutcome[o.outcomeId].text);
          toState := Some("parent");
        }
        listStore := listStore + [OutcomeRow(o.outcomeId, o.name, toState, toOutcome)];
        assert s.outcomes[..i + 1] == s.outcomes[..i] + [o];
      }
      assert s.outcomes[..|s.outcomes|] == s.outcomes;
    }

    /** `update`: rebuild the tables, then the rows from them. */
    method Update(s: EditedState)
      requires WellFormed(s)
      modifies this
      ensures toStateComboList == ToStateCombo(s) && toOutcomeComboList == ToOutcomeCombo(s)
      ensures dictToOtherState == ToOtherStateTable(s) && dictToOtherOutcome == ToOtherOutcomeTable(s)
      ensures dictFromOtherState == FromOtherState(s)
      ensures listStore == ListRows(s.outcomes, ToOtherStateTable(s), ToOtherOutcomeTable(s))
    {
      UpdateInternalDataBase(s);
      UpdateListStore(s);
    }

    /** `on_to_state_edited` for the row of `outcomeId`, `identifier` being the picked label
        (`None` for the sentinel). `core` is the parent's core state, null for a root state;
        `newId` is the id the core draws for a new transition. A refusal of the core is caught;
        `raised` tells whether an exception escapes the handler. */
    method OnToStateEdited(outcomeId: int, identifier: Option<string>, selfId: StateId, core: ParentCore?, newId: int)
      returns (raised: bool)
      modifies core
      ensures var a := ToStateAction(ExistingTransition(dictToOtherState, dictToOtherOutcome, outcomeId),
                                     identifier, old(ViewOf(core)), selfId, outcomeId);
        (raised <==> a == Fail) && (core != null ==> Applied(a, old(core.transitions), core.transitions, newId))
    {
      var existing := ExistingTransition(dictToOtherState, dictToOtherOutcome, outcomeId);
      if existing.Some? {
        if core == null {
          return true;
        }
        var tid := existing.value;
        if identifier.Some? {
          var parts := Split(identifier.value, '.');
          if |parts| < 2 || tid !in core.transitions {
            return true;
          }
          if core.transitions[tid].toState != Some(parts[1]) {
            var _ := core.ModifyTarget(tid, parts[1], None);
          }
        } else {
          var _ := core.RemoveTransition(tid);
        }
      } else if identifier.Some? && core != null {
        var parts := Split(identifier.value, '.');
        if |parts| < 2 {
          return true;
        }
        var _ := core.AddTransition(selfId, outcomeId, parts[1], None, newId);
      }
      return false;
    }

    /** `on_to_outcome_edited` for the row of `outcomeId`; the arguments are those of
        `OnToStateEdited`. A failing removal is not caught here. */
    method OnToOutcomeEdited(outcomeId: int, identifier: Option<string>, selfId: StateId, core: ParentCore?, newId: int)
      returns (raised: bool)
      modifies core
      ensures var a := ToOutcomeAction(ExistingTransition(dictToOtherState, dictToOtherOutcome, outcomeId),
                                       identifier, old(ViewOf(core)), selfId, outcomeId);
        (raised <==> a == Fail || (a.RemoveTransition? && core.transitions == old(core.transitions))) &&
        (core != null ==> Applied(a, old(core.transitions), core.transitions, newId))
    {
      if core == null {
        return false;
      }
      var existing := ExistingTransition(dictToOtherState, dictToOtherOutcome, outcomeId);
      if existing.Some? {
        var tid := existing.value;
        if identifier.Some? {
          var parts := Split(identifier.value, '.');
          if |parts| < 3 || ParseInt(parts[2]).None? {
            return true;
          }
          var newToOutcome := ParseInt(parts[2]).value;
          if tid !in core.transitions {
            return true;
          }
          if core.transitions[tid].toOutcome != Some(newToOutcome) {
            var _ := core.ModifyTarget(tid, core.stateId, Some(newToOutcome));
          }
        } else {
          var ok := core.RemoveTransition(tid);
          return !ok;
        }
      } else if identifier.Some? {
        var parts := Split(identifier.value, '.');
        if |parts| < 3 || ParseInt(parts[2]).None? {
          return true;
        }
        var toOutcome := ParseInt(parts[2]).value;
        var _ := core.AddTransition(selfId, outcomeId, core.stateId, Some(toOutcome), newId);
      }
      return false;
    }

    /** `on_add`: with `n` outcomes besides the two fixed ones, tries `success<n+1>` and, when that
        name is refused, `success<n>`, stopping at the first name the core accepts. `tried` lists
        the names tried. */
    method OnAdd(state: OutcomeCore) returns (added: Option<int>, ghost tried: seq<string>)
      modifies state
      ensures |tried| <= |AttemptNames(|old(state.outcomes)| - 2)|
      ensures tried == AttemptNames(|old(state.outcomes)| - 2)[..|tried|]
      ensures added.Some? ==> |tried| >= 1 && added.value !in OutcomeIds(old(state.outcomes))
      ensures added.Some? ==> state.outcomes == old(state.outcomes) + [Outcome(added.value, tried[|tried| - 1])]
      ensures added.None? ==> tried == AttemptNames(|old(state.outcomes)| - 2)
      ensures added.None? ==> state.outcomes == old(state.outcomes)
    {
      added := None;
      tried := [];
      var n := |state.outcomes| - 2;
      var runId := n + 1;
      while runId > 0
        invariant runId == n + 1 || (runId == n && n >= 0)
        invariant tried == AttemptNames(n)[..n + 1 - runId]
        invariant added.None? && state.outcomes == old(state.outcomes)
        decreases runId
      {
        var name := "success" + IntToString(runId);
        tried := tried + [name];
        added := state.AddOutcome(name);
        if added.Some? {
          return;
        }
        if runId == n {
          return;
        }
        runId := runId - 1;
      }
    }
  }

  // ---------------------------------------------------------------------------
  // Properties of the tables
  // ---------------------------------------------------------------------------

  /** A transition recorded in the table selected by `toParent`, under the outcome `o`. */
  predicate RecordedFrom(s: EditedState, p: ParentState, t: Transition, toParent: bool, o: int)
  {
    Recorded(s, p, t, toParent) && t.fromOutcome == Some(o)
  }

  /** `ts[i]` is the last transition recorded under `o`. */
  predicate LastRecordedAt(s: EditedState, p: ParentState, ts: seq<Transition>, toParent: bool, o: int, i: int)
  {
    0 <= i < |ts| && RecordedFrom(s, p, ts[i], toParent, o) &&
    forall j :: i < j < |ts| ==> !RecordedFrom(s, p, ts[j], toParent, o)
  }

  /** An outcome is a key of a table exactly when some transition leaving it is recorded there. */
  lemma {:induction false} TargetTableKeys(s: EditedState, p: ParentState, ts: seq<Transition>, toParent: bool, o: int)
    requires AllResolvable(s, p, ts)
    ensures o in TargetTable(s, p, ts, toParent) <==>
      exists i :: 0 <= i < |ts| && RecordedFrom(s, p, ts[i], toParent, o)
  {
    if ts != [] {
      var pre, t := ts[..|ts| - 1], ts[|ts| - 1];
      TargetTableKeys(s, p, pre, toParent, o);
      if !RecordedFrom(s, p, t, toParent, o) {
        if exists i :: 0 <= i < |ts| && RecordedFrom(s, p, ts[i], toParent, o) {
          var i :| 0 <= i < |ts| && RecordedFrom(s, p, ts[i], toParent, o);
          assert i < |pre| && pre[i] == ts[i];
        }
        if exists i :: 0 <= i < |pre| && RecordedFrom(s, p, pre[i], toParent, o) {
          var i :| 0 <= i < |pre| && RecordedFrom(s, p, pre[i], toParent, o);
          assert pre[i] == ts[i];
        }
      }
    }
  }

  /** The entry of an outcome is that of the last transition recorded under it. */
  lemma {:induction false} TargetTableLast(s: EditedState, p: ParentState, ts: seq<Transition>, toParent: bool, o: int)
    requires AllResolvable(s, p, ts)
    requires o in TargetTable(s, p, ts, toParent)
    ensures exists i ::
      LastRecordedAt(s, p, ts, toParent, o, i) && TargetTable(s, p, ts, toParent)[o] == TargetOf(s, p, ts[i])
  {
    var pre, t := ts[..|ts| - 1], ts[|ts| - 1];
    if RecordedFrom(s, p, t, toParent, o) {
      assert LastRecordedAt(s, p, ts, toParent, o, |ts| - 1);
    } else {
      TargetTableLast(s, p, pre, toParent, o);
      var i :| LastRecordedAt(s, p, pre, toParent, o, i) && TargetTable(s, p, pre, toParent)[o] == TargetOf(s, p, pre[i]);
      assert forall j :: 0 <= j < |pre| ==> pre[j] == ts[j];
      assert LastRecordedAt(s, p, ts, toParent, o, i);
    }
  }

  /** Both facts together: keys, and the entry of the last recorded transition with its id. */
  lemma TargetTableEntry(s: EditedState, p: ParentState, ts: seq<Transition>, toParent: bool, o: int)
    requires AllResolvable(s, p, ts)
    ensures o in TargetTable(s, p, ts, toParent) <==>
      exists i :: 0 <= i < |ts| && RecordedFrom(s, p, ts[i], toParent, o)
    ensures o in TargetTable(s, p, ts, toParent) ==>
      exists i :: LastRecordedAt(s, p, ts, toParent, o, i) &&
        TargetTable(s, p, ts, toParent)[o] == TargetOf(s, p, ts[i]) &&
        TargetTable(s, p, ts, toParent)[o].transitionId == ts[i].transitionId
  {
    TargetTableKeys(s, p, ts, toParent, o);
    if o in TargetTable(s, p, ts, toParent) {
      TargetTableLast(s, p, ts, toParent, o);
    }
  }

  /** The core lets each outcome start at most one transition. */
  predicate OneExitPerOutcome(s: EditedState, ts: seq<Transition>)
  {
    forall i, j :: 0 <= i < j < |ts| && LeavesFrom(s, ts[i]) && LeavesFrom(s, ts[j]) ==>
      ts[i].fromOutcome != ts[j].fromOutcome
  }

  /** When each outcome starts at most one transition, no outcome is in both tables. */
  lemma TablesDisjoint(s: EditedState)
    requires WellFormed(s)
    requires s.parent.Some? ==> OneExitPerOutcome(s, s.parent.value.transitions)
    ensures ToOtherStateTable(s).Keys !! ToOtherOutcomeTable(s).Keys
  {
    if s.parent.Some? {
      var p := s.parent.value;
      var ts := p.transitions;
      forall o | o in ToOtherStateTable(s)
        ensures o !in ToOtherOutcomeTable(s)
      {
        TargetTableEntry(s, p, ts, false, o);
        TargetTableEntry(s, p, ts, true, o);
        var i :| 0 <= i < |ts| && RecordedFrom(s, p, ts[i], false, o);
        forall j | 0 <= j < |ts|
          ensures !RecordedFrom(s, p, ts[j], true, o)
        {
          if j < i && LeavesFrom(s, ts[j]) {
            assert ts[j].fromOutcome != ts[i].fromOutcome;
          } else if i < j && LeavesFrom(s, ts[j]) {
            assert ts[i].fromOutcome != ts[j].fromOutcome;
          }
        }
      }
    }
  }

  /** The internal transitions ending in the outcome `k`, in order, as table entries. */
  function Sources(ts: seq<Transition>, k: Option<int>): (r: seq<SourceEntry>)
    ensures |r| <= |ts|
  {
    if ts == [] then []
    else
      var t := ts[|ts| - 1];
      Sources(ts[..|ts| - 1], k) + if EndsInOwnOutcome(t) && t.toOutcome == k then [SourceOf(t)] else []
  }

  /** The incoming table lists, under each to-outcome, exactly the transitions ending there. */
  lemma {:induction false} FromOtherStateIsSources(ts: seq<Transition>, k: Option<int>)
    ensures k in FromOtherStateTable(ts) <==> Sources(ts, k) != []
    ensures k in FromOtherStateTable(ts) ==> FromOtherStateTable(ts)[k] == Sources(ts, k)
  {
    if ts != [] {
      FromOtherStateIsSources(ts[..|ts| - 1], k);
    }
  }

  /** An entry is listed under `k` exactly when it comes from a transition ending in `k`. */
  lemma {:induction false} SourcesExact(ts: seq<Transition>, k: Option<int>, e: SourceEntry)
    ensures e in Sources(ts, k) <==>
      exists i :: 0 <= i < |ts| && EndsInOwnOutcome(ts[i]) && ts[i].toOutcome == k && SourceOf(ts[i]) == e
  {
    if ts != [] {
      var pre, t := ts[..|ts| - 1], ts[|ts| - 1];
      SourcesExact(pre, k, e);
      assert forall i :: 0 <= i < |pre| ==> pre[i] == ts[i];
      if e in Sources(ts, k) && e !in Sources(pre, k) {
        assert SourceOf(t) == e && EndsInOwnOutcome(t) && t.toOutcome == k;
      }
    }
  }

  /** Transitions whose ids are pairwise distinct. */
  predicate DistinctIds(ts: seq<Transition>)
  {
    forall i, j :: 0 <= i < j < |ts| ==> ts[i].transitionId != ts[j].transitionId
  }

  /** No transition is listed twice: the entries under `k` have pairwise distinct ids. */
  lemma {:induction false} SourcesNoDuplicates(ts: seq<Transition>, k: Option<int>)
    requires DistinctIds(ts)
    ensures forall a, b :: 0 <= a < b < |Sources(ts, k)| ==>
      Sources(ts, k)[a].transitionId != Sources(ts, k)[b].transitionId
  {
    if ts != [] {
      var pre, t := ts[..|ts| - 1], ts[|ts| - 1];
      assert DistinctIds(pre);
      SourcesNoDuplicates(pre, k);
      var r := Sources(pre, k);
      if EndsInOwnOutcome(t) && t.toOutcome == k {
        forall a | 0 <= a < |r|
          ensures r[a].transitionId != t.transitionId
        {
          SourcesExact(pre, k, r[a]);
          var i :| 0 <= i < |pre| && EndsInOwnOutcome(pre[i]) && pre[i].toOutcome == k && SourceOf(pre[i]) == r[a];
          assert pre[i] == ts[i];
        }
      }
    }
  }

  // ---------------------------------------------------------------------------
  // Properties of the outcome list
  // ---------------------------------------------------------------------------

  /** Some parent transition leaves the outcome `o` for an outcome of the parent. */
  predicate ExitsToParent(s: EditedState, o: int)
  {
    s.parent.Some? &&
    exists i :: 0 <= i < |s.parent.value.transitions| &&
      RecordedFrom(s, s.parent.value, s.parent.value.transitions[i], true, o)
  }

  /** The to-state labels all contain a dot, so none of them reads `parent`. */
  lemma StateTextHasDot(s: EditedState, o: int)
    requires WellFormed(s)
    ensures o in ToOtherStateTable(s) ==> '.' in ToOtherStateTable(s)[o].text
  {
    if s.parent.Some? && o in ToOtherStateTable(s) {
      var p := s.parent.value;
      TargetTableEntry(s, p, p.transitions, false, o);
      var i :| LastRecordedAt(s, p, p.transitions, false, o, i) &&
        ToOtherStateTable(s)[o] == TargetOf(s, p, p.transitions[i]);
      var t := p.transitions[i];
      var c := FindChild(p.children, t.toState.value).value;
      var head := if c.stateId == s.stateId then "self" else c.name;
      assert (head + "." + t.toState.value)[|head|] == '.';
    }
  }

  /** The row of an outcome shows `parent` in its to-state column exactly when a transition
      leaves the outcome for an outcome of the parent, and then the to-outcome column is filled. */
  lemma ParentColumn(s: EditedState, k: int)
    requires WellFormed(s) && 0 <= k < |s.outcomes|
    ensures var row := ListRows(s.outcomes, ToOtherStateTable(s), ToOtherOutcomeTable(s))[k];
      (row.toState == Some("parent") <==> ExitsToParent(s, s.outcomes[k].outcomeId)) &&
      (row.toOutcome.Some? <==> ExitsToParent(s, s.outcomes[k].outcomeId))
  {
    var o := s.outcomes[k].outcomeId;
    StateTextHasDot(s, o);
    if s.parent.Some? {
      TargetTableEntry(s, s.parent.value, s.parent.value.transitions, true, o);
    }
    assert '.' !in "parent";
  }

  // ---------------------------------------------------------------------------
  // Round trips of the drop-down labels
  // ---------------------------------------------------------------------------

  /** A decimal numeral has no dot. */
  lemma NoDotInNumeral(i: int)
    ensures '.' !in IntToString(i)
  {
    var s := IntToString(i);
    forall k | 0 <= k < |s|
      ensures s[k] != '.'
    {
      assert IsDigit(s[k], 10) || s[k] == '-';
    }
  }

  /** `split('.')[1]` of a to-state label gives back the child's id, provided neither its name nor
      its id contains a dot. */
  lemma StateLabelRoundTrip(c: ChildState, selfId: StateId)
    requires '.' !in c.name && '.' !in c.stateId
    ensures |Split(StateLabel(c, selfId), '.')| == 2
    ensures Split(StateLabel(c, selfId), '.')[1] == c.stateId
  {
    var head := if c.stateId == selfId then "self" else c.name;
    assert Join([head, c.stateId], '.') == StateLabel(c, selfId);
    SplitJoin([head, c.stateId], '.');
  }

  /** `int(split('.')[2])` of a to-outcome label gives back the outcome's id, provided the
      outcome's name contains no dot. */
  lemma OutcomeLabelRoundTrip(o: Outcome)
    requires '.' !in o.name
    ensures |Split(OutcomeLabel(o), '.')| == 3
    ensures ParseInt(Split(OutcomeLabel(o), '.')[2]) == Some(o.outcomeId)
  {
    var n := IntToString(o.outcomeId);
    NoDotInNumeral(o.outcomeId);
    assert Join(["parent", o.name, n], '.') == OutcomeLabel(o) by {
      assert Join([o.name, n], '.') == o.name + "." + n;
      assert ["parent", o.name, n][1..] == [o.name, n];
    }
    SplitJoin(["parent", o.name, n], '.');
    ParseIntToString(o.outcomeId);
  }

  /** A dot in a sibling's name breaks the round trip: `split('.')[1]` then yields part of the name. */
  lemma DottedNameBreaksStateLabel()
    ensures Split(StateLabel(ChildState("x", "a.b"), "y"), '.')[1] == "b"
  {
    assert Join(["a", "b", "x"], '.') == StateLabel(ChildState("x", "a.b"), "y") by {
      assert ["a", "b", "x"][1..] == ["b", "x"];
    }
    SplitJoin(["a", "b", "x"], '.');
  }

  // ---------------------------------------------------------------------------
  // The core side the handlers change
  // ---------------------------------------------------------------------------

  /** The parent container on the core side, as far as the edit handlers change it: its
      transitions by id. Only the contracts of its operations are relied on: each either fails
      and changes nothing or performs its change; the bodies are one admissible implementation. */
  class ParentCore {
    const stateId: StateId
    var transitions: map<int, Transition>

    constructor (id: StateId, ts: map<int, Transition>)
      ensures stateId == id && transitions == ts
    {
      stateId := id;
      transitions := ts;
    }

    /** `add_transition`; `newId` is the id the core draws for the new transition. */
    method AddTransition(fromState: StateId, fromOutcome: int, toState: StateId, toOutcome: Option<int>, newId: int)
      returns (ok: bool)
      modifies this
      ensures ok ==> newId !in old(transitions)
      ensures ok ==> transitions == old(transitions)[newId := Transition(newId, Some(fromState), Some(fromOutcome), Some(toState), toOutcome)]
      ensures !ok ==> transitions == old(transitions)
    {
      ok := newId !in transitions;
      if ok {
        transitions := transitions[newId := Transition(newId, Some(fromState), Some(fromOutcome), Some(toState), toOutcome)];
      }
    }

    /** `remove_transition`. */
    method RemoveTransition(id: int) returns (ok: bool)
      modifies this
      ensures ok ==> id in old(transitions) && transitions == old(transitions) - {id}
      ensures !ok ==> transitions == old(transitions)
    {
      ok := id in transitions;
      if ok {
        transitions := transitions - {id};
      }
    }

    /** `transitions[id].modify_target(to_state, to_outcome)`: the transition keeps its source
        and gets the new target. */
    method ModifyTarget(id: int, toState: StateId, toOutcome: Option<int>) returns (ok: bool)
      modifies this
      ensures ok ==> id in old(transitions)
      ensures ok ==> transitions == old(transitions)[id := old(transitions)[id].(toState := Some(toState), toOutcome := toOutcome)]
      ensures !ok ==> transitions == old(transitions)
    {
      ok := id in transitions;
      if ok {
        transitions := transitions[id := transitions[id].(toState := Some(toState), toOutcome := toOutcome)];
      }
    }
  }

  /** What the handlers read of the parent: its id and its transitions. */
  datatype ParentView = ParentView(stateId: StateId, transitions: map<int, Transition>)

  /** `self.model.parent.state`, `None` for a root state. */
  function ViewOf(core: ParentCore?): Option<ParentView>
    reads core
  {
    if core == null then None else Some(ParentView(core.stateId, core.transitions))
  }

  // ---------------------------------------------------------------------------
  // The edit handlers
  // ---------------------------------------------------------------------------

  /** What a handler asks of the core. `Fail` is an exception the handler does not catch, raised
      before anything is changed (a label without enough parts, a non-numeric outcome id, a
      transition id the parent does not hold, the parent of a root state). */
  datatype EditAction =
    | NoAction
    | Fail
    | RemoveTransition(id: int)
    | Retarget(id: int, toState: StateId, toOutcome: Option<int>)
    | AddTransition(fromState: StateId, fromOutcome: int, toState: StateId, toOutcome: Option<int>)

  /** The transitions after the core was asked for `a`: unchanged, or changed exactly as asked. */
  predicate Applied(a: EditAction, before: map<int, Transition>, after: map<int, Transition>, newId: int)
  {
    match a
    case NoAction => after == before
    case Fail => after == before
    case RemoveTransition(id) => after == before || (id in before && after == before - {id})
    case Retarget(id, toState, toOutcome) =>
      after == before ||
      (id in before && after == before[id := before[id].(toState := Some(toState), toOutcome := toOutcome)])
    case AddTransition(fromState, fromOutcome, toState, toOutcome) =>
      after == before ||
      (newId !in before && after == before[newId := Transition(newId, Some(fromState), Some(fromOutcome), Some(toState), toOutcome)])
  }

  /** The transition already leaving an outcome, looked up in the to-state table first. */
  function ExistingTransition(toState: map<int, TargetEntry>, toOutcome: map<int, TargetEntry>, outcomeId: int): (e: Option<int>)
    ensures e.None? <==> outcomeId !in toState && outcomeId !in toOutcome
    ensures outcomeId in toState ==> e == Some(toState[outcomeId].transitionId)
    ensures e.Some? ==>
      (outcomeId in toState && e.value == toState[outcomeId].transitionId) ||
      (outcomeId in toOutcome && e.value == toOutcome[outcomeId].transitionId)
  {
    if outcomeId in toState then Some(toState[outcomeId].transitionId)
    else if outcomeId in toOutcome then Some(toOutcome[outcomeId].transitionId)
    else None
  }

  /** `on_to_state_edited`: the picked label's second dot-separated part is the new target state.
      An existing transition is retargeted (or removed when the sentinel is picked); otherwise,
      unless the state is a root state, a transition from the outcome is added. */
  function ToStateAction(existing: Option<int>, identifier: Option<string>, parent: Option<ParentView>,
                         selfId: StateId, outcomeId: int): (a: EditAction)
    ensures parent.None? ==> a == Fail || a == NoAction
    ensures a.RemoveTransition? ==> identifier.None? && existing == Some(a.id)
    ensures a.Retarget? ==>
      existing == Some(a.id) && parent.Some? && a.id in parent.value.transitions && a.toOutcome.None? &&
      parent.value.transitions[a.id].toState != Some(a.toState)
    ensures a.AddTransition? ==>
      existing.None? && parent.Some? && a.fromState == selfId && a.fromOutcome == outcomeId && a.toOutcome.None?
    ensures a.Retarget? || a.AddTransition? ==>
      identifier.Some? && |Split(identifier.value, '.')| >= 2 && a.toState == Split(identifier.value, '.')[1]
  {
    if existing.Some? then
      if parent.None? then Fail
      else if identifier.None? then RemoveTransition(existing.value)
      else
        var parts := Split(identifier.value, '.');
        if |parts| < 2 || existing.value !in parent.value.transitions then Fail
        else if parent.value.transitions[existing.value].toState == Some(parts[1]) then NoAction
        else Retarget(existing.value, parts[1], None)
    else if identifier.Some? && parent.Some? then
      var parts := Split(identifier.value, '.');
      if |parts| < 2 then Fail else AddTransition(selfId, outcomeId, parts[1], None)
    else NoAction
  }

  /** `on_to_outcome_edited`: the picked label's third dot-separated part is the id of the new
      target outcome of the parent. Nothing happens for a root state. */
  function ToOutcomeAction(existing: Option<int>, identifier: Option<string>, parent: Option<ParentView>,
                           selfId: StateId, outcomeId: int): (a: EditAction)
    ensures parent.None? ==> a == NoAction
    ensures a.RemoveTransition? ==> identifier.None? && existing == Some(a.id)
    ensures a.Retarget? ==>
      existing == Some(a.id) && parent.Some? && a.id in parent.value.transitions &&
      parent.value.transitions[a.id].toOutcome != a.toOutcome
    ensures a.AddTransition? ==> existing.None? && a.fromState == selfId && a.fromOutcome == outcomeId
    ensures a.Retarget? || a.AddTransition? ==>
      parent.Some? && a.toState == parent.value.stateId && identifier.Some? &&
      |Split(identifier.value, '.')| >= 3 && a.toOutcome == ParseInt(Split(identifier.value, '.')[2])
  {
    if parent.None? then NoAction
    else if identifier.None? then
      if existing.Some? then RemoveTransition(existing.value) else NoAction
    else
      var parts := Split(identifier.value, '.');
      if |parts| < 3 || ParseInt(parts[2]).None? then Fail
      else
        var to := ParseInt(parts[2]).value;
        if existing.None? then AddTransition(selfId, outcomeId, parent.value.stateId, Some(to))
        else if existing.value !in parent.value.transitions then Fail
        else if parent.value.transitions[existing.value].toOutcome == Some(to) then NoAction
        else Retarget(existing.value, parent.value.stateId, Some(to))
  }

  /** The outcome's entry in the tables names a transition that leaves it, and it has an entry
      exactly when such a transition exists. */
  lemma ExistingMatchesParent(s: EditedState, o: int)
    requires WellFormed(s) && s.parent.Some?
    ensures var ts := s.parent.value.transitions;
      var e := ExistingTransition(ToOtherStateTable(s), ToOtherOutcomeTable(s), o);
      (e.Some? <==> exists i :: 0 <= i < |ts| && LeavesFrom(s, ts[i]) && ts[i].fromOutcome == Some(o)) &&
      (e.Some? ==> exists i :: 0 <= i < |ts| && LeavesFrom(s, ts[i]) && ts[i].fromOutcome == Some(o) &&
                             ts[i].transitionId == e.value)
  {
    var p := s.parent.value;
    TargetTableEntry(s, p, p.transitions, false, o);
    TargetTableEntry(s, p, p.transitions, true, o);
    if exists i :: 0 <= i < |p.transitions| && LeavesFrom(s, p.transitions[i]) && p.transitions[i].fromOutcome == Some(o) {
      var i :| 0 <= i < |p.transitions| && LeavesFrom(s, p.transitions[i]) && p.transitions[i].fromOutcome == Some(o);
      assert RecordedFrom(s, p, p.transitions[i], ToParentOutcome(p, p.transitions[i]), o);
    }
  }

  /** Picking row `k` of the to-state list: the sentinel removes an existing transition; a child's
      row adds a transition from the outcome to that child, or retargets the existing one to it
      unless it already leads there. Names and ids must be free of dots. */
  lemma PickStateRow(s: EditedState, k: int, existing: Option<int>, parent: ParentView, outcomeId: int)
    requires s.parent.Some? && 0 <= k < |ToStateCombo(s)|
    requires forall c :: c in s.parent.value.children ==> '.' !in c.name && '.' !in c.stateId
    ensures var a := ToStateAction(existing, LabelOf(ToStateCombo(s)[k]), Some(parent), s.stateId, outcomeId);
      (k == 0 ==> a == if existing.Some? then RemoveTransition(existing.value) else NoAction) &&
      (k > 0 ==> var c := s.parent.value.children[k - 1];
        (existing.None? ==> a == AddTransition(s.stateId, outcomeId, c.stateId, None)) &&
        (existing.Some? && existing.value in parent.transitions ==>
          a == if parent.transitions[existing.value].toState == Some(c.stateId) then NoAction
               else Retarget(existing.value, c.stateId, None)))
  {
    if k > 0 {
      var c := s.parent.value.children[k - 1];
      assert c in s.parent.value.children;
      StateLabelRoundTrip(c, s.stateId);
    }
  }

  /** Picking row `k` of the to-outcome list: the sentinel removes an existing transition; an
      outcome's row adds a transition from the outcome to that parent outcome, or retargets the
      existing one to it unless it already leads there. Outcome names must be free of dots. */
  lemma PickOutcomeRow(s: EditedState, k: int, existing: Option<int>, parent: ParentView, outcomeId: int)
    requires s.parent.Some? && 0 <= k < |ToOutcomeCombo(s)|
    requires forall po :: po in s.parent.value.outcomes ==> '.' !in po.name
    ensures var a := ToOutcomeAction(existing, LabelOf(ToOutcomeCombo(s)[k]), Some(parent), s.stateId, outcomeId);
      (k == 0 ==> a == if existing.Some? then RemoveTransition(existing.value) else NoAction) &&
      (k > 0 ==> var po := s.parent.value.outcomes[k - 1];
        (existing.None? ==> a == AddTransition(s.stateId, outcomeId, parent.stateId, Some(po.outcomeId))) &&
        (existing.Some? && existing.value in parent.transitions ==>
          a == if parent.transitions[existing.value].toOutcome == Some(po.outcomeId) then NoAction
               else Retarget(existing.value, parent.stateId, Some(po.outcomeId))))
  {
    if k > 0 {
      var po := s.parent.value.outcomes[k - 1];
      assert po in s.parent.value.outcomes;
      assert LabelOf(ToOutcomeCombo(s)[k]) == Some(OutcomeLabel(po));
      OutcomeLabelRoundTrip(po);
      var parts := Split(OutcomeLabel(po), '.');
      assert |parts| >= 3 && ParseInt(parts[2]) == Some(po.outcomeId);
    }
  }

  // ---------------------------------------------------------------------------
  // Adding an outcome
  // ---------------------------------------------------------------------------

  /** An id above every id in use. */
  function NextOutcomeId(outcomes: seq<Outcome>): (id: int)
    ensures forall i :: 0 <= i < |outcomes| ==> outcomes[i].outcomeId < id
  {
    if outcomes == [] then 0
    else
      var rest := NextOutcomeId(outcomes[..|outcomes| - 1]);
      var last := outcomes[|outcomes| - 1].outcomeId;
      if last < rest then rest else last + 1
  }

  /** The edited state on the core side, as far as adding an outcome changes it. */
  class OutcomeCore {
    var outcomes: seq<Outcome>

    constructor (os: seq<Outcome>)
      ensures outcomes == os
    {
      outcomes := os;
    }

    /** `add_outcome`: refuses a name already in use; otherwise appends an outcome with that name
        and an unused id and returns the id. */
    method AddOutcome(name: string) returns (id: Option<int>)
      modifies this
      ensures id.None? ==> outcomes == old(outcomes)
      ensures id.Some? ==> id.value !in OutcomeIds(old(outcomes)) && outcomes == old(outcomes) + [Outcome(id.value, name)]
    {
      if exists i :: 0 <= i < |outcomes| && outcomes[i].name == name {
        return None;
      }
      var next := NextOutcomeId(outcomes);
      outcomes := outcomes + [Outcome(next, name)];
      return Some(next);
    }
  }

  /** `'success' + str(run_id)`. */
  function SuccessName(runId: int): (name: string)
    ensures |name| > 7 && name[..7] == "success" && ParseInt(name[7..]) == Some(runId)
  {
    var name := "success" + IntToString(runId);
    assert name[7..] == IntToString(runId);
    ParseIntToString(runId);
    name
  }

  /** Distinct run ids give distinct names. */
  lemma SuccessNameInjective(a: int, b: int)
    requires SuccessName(a) == SuccessName(b)
    ensures a == b
  {
    assert SuccessName(a)[7..] == IntToString(a);
    assert SuccessName(b)[7..] == IntToString(b);
    ParseIntToString(a);
    ParseIntToString(b);
  }

  /** The names `on_add` may try, in order, when the state has `n` outcomes besides the two
      fixed ones: `success<n+1>`, then `success<n>`; run ids below one are not tried. */
  function AttemptNames(n: int): (names: seq<string>)
    ensures |names| <= 2
  {
    if n >= 1 then [SuccessName(n + 1), SuccessName(n)]
    else if n == 0 then [SuccessName(1)]
    else []
  }

  /** `on_add` never tries the same name twice. */
  lemma AttemptNamesDistinct(n: int)
    ensures forall a, b :: 0 <= a < b < |AttemptNames(n)| ==> AttemptNames(n)[a] != AttemptNames(n)[b]
  {
    if n >= 1 && SuccessName(n + 1) == SuccessName(n) {
      SuccessNameInjective(n + 1, n);
    }
  }
}
