# Outcome editor, state-machine helper and global-variable order of the RAFCON editor

This project models three small parts of the RAFCON state-machine editor.

- **Outcome editor** (`StateOutcomesListController`, module `StateOutcomes`). It lists the outcomes of one state and the transition that leaves each of them. That transition can go to a sibling state, to the state itself or to an outcome of the parent.
  - `update_internal_data_base` clears its tables and refills them. The to-state and to-outcome drop-down lists start with a sentinel row. Two tables map an outcome id to its outgoing transition, one for transitions to sibling states and one for transitions to parent outcomes. A third table maps each outcome of a container to its incoming internal transitions.
  - `update_list_store` builds one row per outcome.
  - The two edit handlers take a picked drop-down label apart with `split('.')` and `int()`. They then ask the parent's core state to add, remove or retarget a transition.
  - `on_add` generates the name `success<N>` for a new outcome.
- **State-machine helper** (`StateMachineHelper`, module `StateMachineHelper`):
  - `delete_model` and `delete_models`, which delete state, transition and data-flow models and count the successes;
  - `add_state`, which dispatches on the state type;
  - `get_data_port_model`, which searches for a data port by id in a fixed priority order.
- **Global-variable list** (`GlobalVariableManagerModel`, module `GlobalVariableManager`).
  - `compare_global_variables` orders names by comparing the space-joined binary numerals of their characters.
  - `update_global_variables_list_store` refills the list store in that order.

The Python string operations these parts rely on are modelled once, in module `PyStrings`, with Python's semantics: `str.split` and `str.join`, `str(i)`, `int(s)` and `format(n, 'b')`. Python's `<` on str, which only the comparator uses, is modelled in `GlobalVariableManager`.

Calls into the core state machine are modelled as small classes whose operations either fail and change nothing, or make exactly their change. These are `remove_state`, `remove_transition`, `remove_data_flow`, `add_state`, `add_transition`, `modify_target` and `add_outcome`. Only these contracts are relied on; each body is one admissible implementation. Ids that the core draws itself are passed in as parameters: the id of a new state and the id of a new transition.

Python exceptions are modelled explicitly:
- A handler's ensures say whether an exception escapes it, and that nothing changed in that case. Examples are an `IndexError` from a label with too few parts, a `ValueError` from `int()`, and an `AttributeError` on the parent of a root state.
- `add_state` returns `Raised` when the core refuses the new state.

## Model

| member | source | states |
|---|---|---|
| PyStrings.Join | source/awesome_tool/mvc/models/global_variable_manager.py:51 | `' '.join(parts)` has at least one character per separator and starts with the first part |
| PyStrings.Split | source/rafcon/gui/controllers/state_editor/outcomes.py:119 | `str.split('.')` always yields at least one piece and no piece contains the separator |
| PyStrings.JoinSplit | source/rafcon/gui/controllers/state_editor/outcomes.py:119 | joining the pieces of a split with the separator gives back the string |
| PyStrings.SplitJoin | source/rafcon/gui/controllers/state_editor/outcomes.py:119 | splitting a join of at least one separator-free piece gives back exactly those pieces, which is what makes `split('.')[k]` recover a label's k-th part |
| PyStrings.Digits | source/awesome_tool/mvc/models/global_variable_manager.py:51 | `format(n, 'b')` (and the digits of `str(n)`) is a non-empty string of digits of the base, with a leading `0` only for zero |
| PyStrings.ValueOfDigits | source/awesome_tool/mvc/models/global_variable_manager.py:51 | the numeral of `n` reads back as `n` |
| PyStrings.DigitsInjective | source/awesome_tool/mvc/models/global_variable_manager.py:51 | distinct code points have distinct binary numerals |
| PyStrings.IntToString | source/rafcon/gui/controllers/state_editor/outcomes.py:242 | `str(i)` is non-empty and made of decimal digits, with at most a leading minus sign |
| PyStrings.ParseInt | source/rafcon/gui/controllers/state_editor/outcomes.py:167 | `int(s)` succeeds exactly on a non-empty decimal digit string or a `-`/`+` followed by one; anything else raises (`None`) |
| PyStrings.ParseIntToString | source/rafcon/gui/controllers/state_editor/outcomes.py:167 | `int(str(i)) == i`, so an outcome id written into a label is read back unchanged |
| GlobalVariableManager.CharBits | source/awesome_tool/mvc/models/global_variable_manager.py:51 | `format(ord(c), 'b')` is a non-empty string of binary digits |
| GlobalVariableManager.NameBitListReadsBack | source/awesome_tool/mvc/models/global_variable_manager.py:51 | the generator yields one binary numeral per character of the name, and the i-th reads back as the code point of the i-th character |
| GlobalVariableManager.NameBits | source/awesome_tool/mvc/models/global_variable_manager.py:51 | the space-joined encoding is empty exactly for the empty name |
| GlobalVariableManager.NameBitsAlphabet | source/awesome_tool/mvc/models/global_variable_manager.py:51-52 | the encoding holds only `0`, `1` and the separating space |
| GlobalVariableManager.NameBitsInjective | source/awesome_tool/mvc/models/global_variable_manager.py:51-52 | two names with the same space-joined binary encoding are the same name |
| GlobalVariableManager.StrLessLexicographic | source/awesome_tool/mvc/models/global_variable_manager.py:55 | Python's `<` on str holds exactly when the first string is a proper prefix of the second, or when at the first position where they differ the first string's character is smaller |
| GlobalVariableManager.StrLessIrreflexive | source/awesome_tool/mvc/models/global_variable_manager.py:55 | Python's `<` on str is irreflexive |
| GlobalVariableManager.StrLessAsymmetric | source/awesome_tool/mvc/models/global_variable_manager.py:55 | `a < b` and `b < a` never both hold |
| GlobalVariableManager.StrLessConnected | source/awesome_tool/mvc/models/global_variable_manager.py:55-58 | distinct strings are comparable, so the `else` branch means `bits1 < bits2` |
| GlobalVariableManager.StrLessTransitive | source/awesome_tool/mvc/models/global_variable_manager.py:55-58 | `<` on str is transitive |
| GlobalVariableManager.Compare | source/awesome_tool/mvc/models/global_variable_manager.py:44-58 | the comparator returns -1, 0 or 1 |
| GlobalVariableManager.CompareZeroIffEqual | source/awesome_tool/mvc/models/global_variable_manager.py:51-54 | the comparator returns 0 exactly when the two names are equal |
| GlobalVariableManager.CompareAntisymmetric | source/awesome_tool/mvc/models/global_variable_manager.py:53-58 | `compare(a, b) == -compare(b, a)` |
| GlobalVariableManager.CompareTransitive | source/awesome_tool/mvc/models/global_variable_manager.py:55-58 | `compare(a, b) < 0` and `compare(b, c) < 0` give `compare(a, c) < 0` |
| GlobalVariableManager.CompareTransitiveNonStrict | source/awesome_tool/mvc/models/global_variable_manager.py:53-58 | `compare(a, b) <= 0` and `compare(b, c) <= 0` give `compare(a, c) <= 0` |
| GlobalVariableManager.ListedBeforeIsStrictTotalOrder | source/awesome_tool/mvc/models/global_variable_manager.py:53-58 | "listed before" (`compare < 0`) is irreflexive, transitive and total on distinct names: a strict total order |
| GlobalVariableManager.NotCharacterOrder | source/awesome_tool/mvc/models/global_variable_manager.py:51-58 | the order is not character order: `'0' < 'A'` as characters, yet `compare('A', '0') == -1` (`1000001` sorts before `110000`) |
| GlobalVariableManager.KeyRows | source/awesome_tool/mvc/models/global_variable_manager.py:31-34 | the temporary store gets one row per key, in key order, holding the key and that key's representation |
| GlobalVariableManager.SortedRowsAreKeyRows | source/awesome_tool/mvc/models/global_variable_manager.py:31-42 | a row survives the sort exactly when its name is a key and it holds that key's representation |
| GlobalVariableManager.InsertRow | source/awesome_tool/mvc/models/global_variable_manager.py:35-38 | inserting a row into the sorted rows adds exactly that row |
| GlobalVariableManager.SortRows | source/awesome_tool/mvc/models/global_variable_manager.py:35-38 | the sorted model holds a permutation of the temporary store's rows |
| GlobalVariableManager.InsertRowSorted | source/awesome_tool/mvc/models/global_variable_manager.py:35-38 | inserting into rows in ascending comparator order keeps them in ascending order |
| GlobalVariableManager.SortRowsSorted | source/awesome_tool/mvc/models/global_variable_manager.py:35-38 | the sorted model is in ascending comparator order and a permutation of its input |
| GlobalVariableManager.SortedArrangementUnique | source/awesome_tool/mvc/models/global_variable_manager.py:35-38 | two ascending arrangements of the same rows with unique names are equal |
| GlobalVariableManager.AnyCorrectSortAgrees | source/awesome_tool/mvc/models/global_variable_manager.py:35-42 | whatever correct sort produced the rows, they are the rows this model computes (the sorted order does not depend on the sort algorithm) |
| GlobalVariableManager.GlobalVariableManagerModel.constructor | source/awesome_tool/mvc/models/global_variable_manager.py:27-28 | a new model's store is already filled with the sorted rows of the manager's keys |
| GlobalVariableManager.GlobalVariableManagerModel.UpdateGlobalVariablesListStore | source/awesome_tool/mvc/models/global_variable_manager.py:30-42 | after the refresh the store holds exactly one row per key, each with that key's representation, in ascending comparator order, as a permutation of the key rows, and nothing else |
| StateMachineHelper.ContainerState.RemoveState | source/awesome_tool/mvc/statemachine_helper.py:27 | the core's `remove_state` either fails and changes nothing, or removes exactly that child |
| StateMachineHelper.ContainerState.RemoveTransition | source/awesome_tool/mvc/statemachine_helper.py:35 | `remove_transition` either fails and changes nothing, or removes exactly that transition |
| StateMachineHelper.ContainerState.RemoveDataFlow | source/awesome_tool/mvc/statemachine_helper.py:43 | `remove_data_flow` either fails and changes nothing, or removes exactly that data flow |
| StateMachineHelper.ContainerState.AddState | source/awesome_tool/mvc/statemachine_helper.py:100 | `add_state` either fails and changes nothing, or adds exactly the new child |
| StateMachineHelper.DeleteModel | source/awesome_tool/mvc/statemachine_helper.py:15-49 | returns true only for a state, transition or data-flow model with a parent whose element the parent held; then exactly that element is gone. A removed transition or data flow leaves the parent's states and the other collection unchanged; a removed state may take transitions and data flows along. When it returns false nothing changes, in particular for a parentless state model and any other kind of model |
| StateMachineHelper.CountTrue | source/awesome_tool/mvc/statemachine_helper.py:59-66 | the count is at most the number of models and is zero exactly when no deletion succeeded |
| StateMachineHelper.DeleteModels | source/awesome_tool/mvc/statemachine_helper.py:52-66 | the result counts the models whose deletion returned true (between 0 and the number of models, only deletable ones). The ghost trace records each `delete_model` call: it changed the parent as its flag says, it started from what the previous call on the same parent left, and each parent ends with what the last call on it left. Summed up, each parent lost exactly the states of its counted models, at least their transitions and data flows, all of which it held, and, when none of its state models was counted, nothing beyond them |
| StateMachineHelper.DeleteEach | source/awesome_tool/mvc/statemachine_helper.py:58-65 | the loop calls `delete_model` on every model in list order; the count is the number of true results, and the trace links each call to the previous call on the same parent |
| StateMachineHelper.TraceLost | source/awesome_tool/mvc/statemachine_helper.py:62-64 | a chain of `delete_model` calls on one parent, each starting where the previous ended, leaves the parent having lost exactly what the flagged models name |
| StateMachineHelper.NewStateKind | source/awesome_tool/mvc/statemachine_helper.py:86-98 | each of the four known types creates exactly one kind of state, and any other type creates none |
| StateMachineHelper.EveryKindHasOneType | source/awesome_tool/mvc/statemachine_helper.py:87-94 | every kind is created by its own type; with `NewStateKind`'s contract, the type-to-kind dispatch is one-to-one |
| StateMachineHelper.AddState | source/awesome_tool/mvc/statemachine_helper.py:69-101 | returns false, with nothing added, exactly for a missing container, a model that is not a container state model and an unknown type. True means exactly one child of the matching kind was added; a failing core `add_state` raises. The container's transitions and data flows never change |
| StateMachineHelper.FirstPortWithId | source/awesome_tool/mvc/statemachine_helper.py:113-122 | finds nothing exactly when no port has the id; otherwise the found port has the id and no earlier port does |
| StateMachineHelper.SearchOrder | source/awesome_tool/mvc/statemachine_helper.py:124-134 | a state model's searched ports are exactly its input ports, its output ports and, for a container state model, its scoped variables; any other model has none |
| StateMachineHelper.FirstPortWithIdAppend | source/awesome_tool/mvc/statemachine_helper.py:128-134 | searching one list after another finds the first list's match if it has one, and the second list's otherwise |
| StateMachineHelper.DataPortPriority | source/awesome_tool/mvc/statemachine_helper.py:124-134 | a scoped variable wins over an input port, which wins over an output port |
| StateMachineHelper.FindPortInList | source/awesome_tool/mvc/statemachine_helper.py:113-122 | the loop returns the first port model in the list with the id, or `None` |
| StateMachineHelper.GetDataPortModel | source/awesome_tool/mvc/statemachine_helper.py:104-135 | the result is the first port with the id in scoped variables (containers only), input ports, then output ports; `None` only when no searched list holds the id, and any result has the requested id |
| StateOutcomes.FindOutcome | source/rafcon/gui/controllers/state_editor/outcomes.py:250 | `outcomes[id]` finds an outcome with that id, and fails exactly when the id is not a key |
| StateOutcomes.FindChild | source/rafcon/gui/controllers/state_editor/outcomes.py:255-258 | `parent.states[id]` finds the child with that id, and fails exactly when no child has it |
| StateOutcomes.StateLabel | source/rafcon/gui/controllers/state_editor/outcomes.py:233-239 | a to-state label ends with `.` and the child's id |
| StateOutcomes.OutcomeLabel | source/rafcon/gui/controllers/state_editor/outcomes.py:241-243 | a to-outcome label starts with `parent.` and ends with `.` and `str(outcome_id)` |
| StateOutcomes.StateChoices | source/rafcon/gui/controllers/state_editor/outcomes.py:233-239 | exactly one to-state row per child of the parent, in order: `self.<id>` for the state itself, `<name>.<id>` otherwise, each carrying the child's id and the parent's id |
| StateOutcomes.OutcomeChoices | source/rafcon/gui/controllers/state_editor/outcomes.py:241-243 | exactly one to-outcome row per parent outcome, labelled `parent.<name>.<id>`, carrying the outcome id and the parent's id |
| StateOutcomes.ToStateCombo | source/rafcon/gui/controllers/state_editor/outcomes.py:222-239 | the list starts with the single sentinel row; a root state gets nothing more, any other state one row per child of its parent |
| StateOutcomes.ToOutcomeCombo | source/rafcon/gui/controllers/state_editor/outcomes.py:224-243 | the list starts with the single sentinel row; a root state gets nothing more, any other state one row per parent outcome |
| StateOutcomes.TargetOf | source/rafcon/gui/controllers/state_editor/outcomes.py:248-261 | the entry carries the transition's id; for a transition to a parent outcome it names the parent and its text is that outcome's drop-down label without `parent.`; otherwise its target id is `''` and its text is the target child's to-state drop-down label |
| StateOutcomes.TargetTable | source/rafcon/gui/controllers/state_editor/outcomes.py:244-261 | every key is an outcome of the edited state, and every entry targets the parent (to-outcome table) or `''` (to-state table) |
| StateOutcomes.ToOtherStateTable | source/rafcon/gui/controllers/state_editor/outcomes.py:244-261 | `dict_to_other_state` is keyed by the state's own outcomes, each entry with target id `''` |
| StateOutcomes.ToOtherOutcomeTable | source/rafcon/gui/controllers/state_editor/outcomes.py:244-254 | `dict_to_other_outcome` is keyed by the state's own outcomes, each entry targeting the parent |
| StateOutcomes.FromOtherStateTable | source/rafcon/gui/controllers/state_editor/outcomes.py:262-269 | every key lists at least one and at most as many entries as there are internal transitions |
| StateOutcomes.FromOtherState | source/rafcon/gui/controllers/state_editor/outcomes.py:262-269 | a state that is not a container gets an empty table, and no key has an empty list |
| StateOutcomes.RowOf | source/rafcon/gui/controllers/state_editor/outcomes.py:273-281 | a row keeps the outcome's id and name; its to-state column is empty exactly when neither table has the outcome, its to-outcome column is filled exactly when the to-outcome table has it, and then the to-state column reads `parent` |
| StateOutcomes.ListRows | source/rafcon/gui/controllers/state_editor/outcomes.py:273-283 | exactly one row per outcome, in order, each built from that outcome's table entries |
| StateOutcomes.StateRows | source/rafcon/gui/controllers/state_editor/outcomes.py:233-239 | the loop over the parent's children appends exactly the to-state choices |
| StateOutcomes.OutcomeRows | source/rafcon/gui/controllers/state_editor/outcomes.py:241-243 | the loop over the parent's outcomes appends exactly the to-outcome choices |
| StateOutcomes.TargetTables | source/rafcon/gui/controllers/state_editor/outcomes.py:244-261 | the loop over the parent's transitions fills the two outgoing tables exactly as the table specification says |
| StateOutcomes.FromOtherStateEntries | source/rafcon/gui/controllers/state_editor/outcomes.py:262-269 | the loop over the container's own transitions fills the incoming table exactly as specified, appending to a key's list when it exists |
| StateOutcomes.StateOutcomesListController.UpdateInternalDataBase | source/rafcon/gui/controllers/state_editor/outcomes.py:218-269 | after the update the two lists and the three tables are functions of the edited state alone (everything is cleared first, so the update is idempotent); the list store is untouched |
| StateOutcomes.StateOutcomesListController.UpdateListStore | source/rafcon/gui/controllers/state_editor/outcomes.py:271-283 | the list store is rebuilt as one row per outcome from the current tables; nothing else changes |
| StateOutcomes.StateOutcomesListController.Update | source/rafcon/gui/controllers/state_editor/outcomes.py:298-300 | the tables, lists and rows all follow from the edited state |
| StateOutcomes.TargetTableKeys | source/rafcon/gui/controllers/state_editor/outcomes.py:244-261 | an outcome is a key of the to-state (to-outcome) table exactly when a parent transition leaving it for a sibling (for the parent) exists |
| StateOutcomes.TargetTableLast | source/rafcon/gui/controllers/state_editor/outcomes.py:251-261 | a later transition from the same outcome overwrites an earlier one: the entry is that of the last one |
| StateOutcomes.TargetTableEntry | source/rafcon/gui/controllers/state_editor/outcomes.py:244-261 | an outcome is a key of a table exactly when a transition leaving it is recorded there, and its entry (with the transition id) is that of the last such transition |
| StateOutcomes.TablesDisjoint | source/rafcon/gui/controllers/state_editor/outcomes.py:246-261 | when each outcome starts at most one transition, no outcome is in both the to-state and the to-outcome table |
| StateOutcomes.FromOtherStateIsSources | source/rafcon/gui/controllers/state_editor/outcomes.py:262-269 | the incoming table has a key exactly for the to-outcomes of transitions without a to-state, listing those transitions in order |
| StateOutcomes.SourcesExact | source/rafcon/gui/controllers/state_editor/outcomes.py:265-269 | an entry is listed under a to-outcome exactly when some transition ending there produced it, so nothing is lost or invented |
| StateOutcomes.SourcesNoDuplicates | source/rafcon/gui/controllers/state_editor/outcomes.py:265-269 | with distinct transition ids, no transition is listed twice |
| StateOutcomes.StateTextHasDot | source/rafcon/gui/controllers/state_editor/outcomes.py:259 | every to-state label contains a dot, so none reads `parent` |
| StateOutcomes.ParentColumn | source/rafcon/gui/controllers/state_editor/outcomes.py:273-283 | a row shows `parent` as its to-state exactly when a transition leaves its outcome for a parent outcome, and then its to-outcome column is filled |
| StateOutcomes.NoDotInNumeral | source/rafcon/gui/controllers/state_editor/outcomes.py:242 | `str(outcome_id)` contains no dot |
| StateOutcomes.StateLabelRoundTrip | source/rafcon/gui/controllers/state_editor/outcomes.py:119 | for a dot-free child name and id, `split('.')` of the to-state label has two parts and the second is the child's id |
| StateOutcomes.OutcomeLabelRoundTrip | source/rafcon/gui/controllers/state_editor/outcomes.py:167 | for a dot-free outcome name, `int(label.split('.')[2])` is the outcome's id |
| StateOutcomes.DottedNameBreaksStateLabel | source/rafcon/gui/controllers/state_editor/outcomes.py:235 | a sibling called `a.b` with id `x` yields `b`, not `x`, from `split('.')[1]`; the round trip needs dot-free names |
| StateOutcomes.StateOutcomesListController.constructor | source/rafcon/gui/controllers/state_editor/outcomes.py:48-62 | a new controller starts with empty drop-down lists, tables and list store |
| StateOutcomes.ParentCore.AddTransition | source/rafcon/gui/controllers/state_editor/outcomes.py:135-138 | the core's `add_transition` either fails and changes nothing, or adds exactly one transition under a fresh id |
| StateOutcomes.ParentCore.RemoveTransition | source/rafcon/gui/controllers/state_editor/outcomes.py:127 | `remove_transition` either fails and changes nothing, or removes exactly that transition |
| StateOutcomes.ParentCore.ModifyTarget | source/rafcon/gui/controllers/state_editor/outcomes.py:122 | `modify_target` either fails and changes nothing, or replaces only the target of that transition |
| StateOutcomes.StateOutcomesListController.OnToStateEdited | source/rafcon/gui/controllers/state_editor/outcomes.py:104-148 | the handler raises exactly when a label, a parent or a transition lookup fails. Otherwise the parent's transitions are unchanged or changed exactly as the edit asks: remove on the sentinel, retarget an existing transition, or add one from the outcome |
| StateOutcomes.StateOutcomesListController.OnToOutcomeEdited | source/rafcon/gui/controllers/state_editor/outcomes.py:150-190 | like the to-state handler, for targets among the parent's outcomes. A root state is ignored, and a failing removal raises because it is not caught |
| StateOutcomes.ExistingTransition | source/rafcon/gui/controllers/state_editor/outcomes.py:111-117 | there is an existing transition exactly when one of the tables has the outcome, and its id is that table entry's transition id, the to-state table looked up first |
| StateOutcomes.ToStateAction | source/rafcon/gui/controllers/state_editor/outcomes.py:104-148 | a root state never changes anything; a removal needs the sentinel and an existing transition; a retarget needs an existing transition the parent holds whose to-state differs; an addition needs no existing transition and leads from this outcome; the target of both is the picked label's second dot-separated part |
| StateOutcomes.ToOutcomeAction | source/rafcon/gui/controllers/state_editor/outcomes.py:150-190 | a root state is ignored; a removal needs the sentinel and an existing transition; a retarget needs an existing transition the parent holds whose to-outcome differs; an addition needs no existing transition and leads from this outcome; both target the parent and `int()` of the picked label's third part |
| StateOutcomes.ExistingMatchesParent | source/rafcon/gui/controllers/state_editor/outcomes.py:111-117 | an outcome has an existing transition in the tables exactly when a parent transition leaves it, and the id found is that transition's |
| StateOutcomes.PickStateRow | source/rafcon/gui/controllers/state_editor/outcomes.py:104-148 | picking the sentinel removes the existing transition. Picking a child's row adds a transition from the outcome to that child, or retargets the existing one to it unless it already leads there |
| StateOutcomes.PickOutcomeRow | source/rafcon/gui/controllers/state_editor/outcomes.py:150-190 | picking the sentinel removes the existing transition. Picking a parent outcome's row adds a transition to that parent outcome, or retargets the existing one unless it already leads there |
| StateOutcomes.OutcomeCore.AddOutcome | source/rafcon/gui/controllers/state_editor/outcomes.py:197 | `add_outcome` either refuses and changes nothing, or appends exactly one outcome with the name and an unused id |
| StateOutcomes.SuccessName | source/rafcon/gui/controllers/state_editor/outcomes.py:197 | `'success' + str(run_id)` starts with `success` and `int()` of the rest gives back the run id |
| StateOutcomes.SuccessNameInjective | source/rafcon/gui/controllers/state_editor/outcomes.py:197 | `'success' + str(run_id)` determines the run id |
| StateOutcomes.AttemptNames | source/rafcon/gui/controllers/state_editor/outcomes.py:194-202 | at most two names can be tried |
| StateOutcomes.AttemptNamesDistinct | source/rafcon/gui/controllers/state_editor/outcomes.py:195-197 | `on_add` never tries the same name twice |
| StateOutcomes.StateOutcomesListController.OnAdd | source/rafcon/gui/controllers/state_editor/outcomes.py:192-204 | tries `success<n+1>` first and then `success<n>`, with n the number of outcomes minus 2. It stops at the first name accepted, which becomes the one new outcome; when every attempt is refused, nothing changes |

## Left out

- GUI plumbing is not modelled: gtk list stores, cell renderers, signal connections, observers (`outcomes_changed` only calls `update`), `register_view`, `register_actions`, the clipboard, the shortcut manager and `StateOutcomesEditorController`. The model keeps only the row contents.
- Logging is not modelled. `select_entry` after `on_add` is not modelled either, because it only moves the GUI selection.
- `insert_self_transition_meta_data` is not modelled. It only writes GUI metadata for a transition from a state to itself (outcomes.py lines 144-145).
- `apply_new_outcome_name` and `remove_core_element` are not modelled. They forward a single call to the core's outcome name setter and `remove_outcome`, whose code is not part of this model.
- The core operations are modelled only by their contracts, not by their code, which is not part of this model. Their specific exception classes are merged:
  - Any refusal of `remove_transition`, `modify_target` and `add_transition` in a handler counts as caught, except the uncaught `remove_transition` in `on_to_outcome_edited`.
  - Any refusal of `remove_state`, `remove_transition` and `remove_data_flow` in `delete_model` counts as caught and returns false.
- StateOutcomes.StateOutcomesListController.UpdateInternalDataBase: requires that each parent transition leaving the state names an existing parent outcome or child; otherwise the source raises `KeyError`, and the model does not cover that failing update. In particular the requires takes for granted that a transition to a parent outcome carries the parent's id as `to_state`, as the handlers write it (outcomes.py line 185) and as line 248 tests it. Line 265 treats `to_state is None` as "to the container's own outcome"; a parent transition from this state written that way fails line 248's test and raises `KeyError` at line 255.
- PyStrings.ParseInt: Python's `int()` also accepts surrounding whitespace, and the model does not. Labels built by the editor contain none.
- GlobalVariableManager.CharBits: names are modelled as sequences of Unicode code points. Python 2 iterates a byte string, so `ord` yields its UTF-8 bytes, and non-ASCII names may be ordered differently (for example `ä` and `Ā`). Injectivity and the strict total order hold for bytes in the same way.
- StateOutcomes.TablesDisjoint: holds only under the core's rule that an outcome starts at most one transition. Without that rule the source may record one outcome in both tables, and the row then shows `parent`.
- The label round trips (StateOutcomes.StateLabelRoundTrip, StateOutcomes.OutcomeLabelRoundTrip) hold only for dot-free names and state ids. StateOutcomes.DottedNameBreaksStateLabel shows what goes wrong otherwise.
- GlobalVariableManager.SortRows: the gtk `TreeModelSort` is modelled by an insertion sort. GlobalVariableManager.AnyCorrectSortAgrees shows that every correct sort gives the same rows, since names are unique.
- The global-variable manager singleton is not modelled. Its `get_all_keys` and `get_representation` are parameters.
- Dictionaries the controller iterates over (the parent's children, outcomes and transitions, the state's outcomes and internal transitions) are modelled as sequences in their iteration order. That order is whatever the Python 2 dictionaries yield, which is arbitrary. The row orders of `StateOutcomes.StateChoices`, `StateOutcomes.OutcomeChoices` and `StateOutcomes.ListRows`, and which transition counts as "later" in `StateOutcomes.TargetTableLast`, follow that order. Dictionaries used only for lookup are modelled as maps. Aliasing between the controller's tables and the model objects is not modelled.
