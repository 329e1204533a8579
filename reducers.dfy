/**
 * `rootReducer`: three action types merge their data into a slice of the
 * state, two replace a slice, and every other action leaves the state as is.
 */
module Reducers {
  import opened Common
  import opened JsValue
  import opened Actions

  /** The top-level state object. */
  type State = map<string, Value>

  /** The slice a merging action type updates. */
  function MergedSlice(kind: string): Option<string>
  {
    if kind == UPDATE_SUMMARY_RESULTS then Some("summaryResults")
    else if kind == UPDATE_VARIANT_LOOKUP then Some("variantLookup")
    else if kind == UPDATE_PHENOTYPE_CORRELATIONS then Some("phenotypeCorrelations")
    else None
  }

  /** The slice a replacing action type sets. */
  function ReplacedSlice(kind: string): Option<string>
  {
    if kind == UPDATE_PHENOTYPES then Some("phenotypes")
    else if kind == UPDATE_PHENOTYPES_TREE then Some("phenotypesTree")
    else None
  }

  /**
   * `rootReducer(state, action)`: the state keeps every key it had, gains at
   * most the action's own slice, and every other key keeps its value.
   */
  function RootReducer(state: State, action: Action): (r: State)
    ensures forall k :: k in r <==> k in state || Some(k) == MergedSlice(action.kind) || Some(k) == ReplacedSlice(action.kind)
    ensures forall k :: k in state && Some(k) != MergedSlice(action.kind) && Some(k) != ReplacedSlice(action.kind) ==> r[k] == state[k]
  {
    match action.kind
    case "UPDATE_SUMMARY_RESULTS" =>
      state["summaryResults" := Obj(Overlay(OwnProps(Get(state, "summaryResults")), OwnProps(action.data)))]
    case "UPDATE_VARIANT_LOOKUP" =>
      state["variantLookup" := Obj(Overlay(OwnProps(Get(state, "variantLookup")), OwnProps(action.data)))]
    case "UPDATE_PHENOTYPE_CORRELATIONS" =>
      state["phenotypeCorrelations" := Obj(Overlay(OwnProps(Get(state, "phenotypeCorrelations")), OwnProps(action.data)))]
    case "UPDATE_PHENOTYPES" =>
      state["phenotypes" := action.data]
    case "UPDATE_PHENOTYPES_TREE" =>
      state["phenotypesTree" := action.data]
    case _ => state
  }

  /**
   * A merging action sets its slice to the old slice overlaid by the action's
   * data: keys of the data win, every other key of the slice is kept.
   */
  lemma MergeOverlaysSlice(state: State, action: Action)
    requires MergedSlice(action.kind).Some?
    ensures var slice := MergedSlice(action.kind).value;
      var prior := OwnProps(Get(state, slice));
      var data := OwnProps(action.data);
      var r := RootReducer(state, action);
      slice in r && r[slice].Obj? &&
      r[slice].props.Keys == prior.Keys + data.Keys &&
      (forall k :: k in data ==> r[slice].props[k] == data[k]) &&
      (forall k :: k in prior && k !in data ==> r[slice].props[k] == prior[k])
  {
  }

  /** A replacing action sets its slice to the action's data, whatever was there. */
  lemma ReplaceSetsSlice(state: State, action: Action)
    requires ReplacedSlice(action.kind).Some?
    ensures var slice := ReplacedSlice(action.kind).value;
      RootReducer(state, action) == state[slice := action.data]
  {
  }

  /** Every action changes at most its own top-level slice. */
  lemma OnlyOwnSliceChanges(state: State, action: Action, key: string)
    requires Some(key) != MergedSlice(action.kind) && Some(key) != ReplacedSlice(action.kind)
    ensures key in RootReducer(state, action) <==> key in state
    ensures key in state ==> RootReducer(state, action)[key] == state[key]
  {
  }

  /** An action type the reducer does not handle leaves the state unchanged. */
  lemma UnhandledIsIdentity(state: State, action: Action)
    requires MergedSlice(action.kind).None? && ReplacedSlice(action.kind).None?
    ensures RootReducer(state, action) == state
  {
  }

  /**
   * The summary table, summary SNP and phenotype category actions are among
   * those: this reducer ignores them.
   */
  lemma TableActionsAreIgnored(state: State, key: string, data: Value)
    ensures RootReducer(state, UpdateSummaryTable(key, data)) == state
    ensures RootReducer(state, SetSummaryTableLoading(data)) == state
    ensures RootReducer(state, UpdateSummarySnp(key, data)) == state
    ensures RootReducer(state, SetSummarySnpLoading(data)) == state
    ensures RootReducer(state, UpdateSummarySnpTable(key, data)) == state
    ensures RootReducer(state, UpdatePhenotypeCategories(data)) == state
  {
    UnhandledIsIdentity(state, UpdateSummaryTable(key, data));
    UnhandledIsIdentity(state, UpdateSummarySnp(key, data));
    UnhandledIsIdentity(state, UpdateSummarySnpTable(key, data));
    UnhandledIsIdentity(state, UpdatePhenotypeCategories(data));
  }

  /** Each remaining creator's action reaches the slice it is named after. */
  lemma CreatorsReachTheirSlices(state: State, data: Value)
    ensures MergedSlice(UpdateSummaryResults(data).kind) == Some("summaryResults")
    ensures MergedSlice(UpdateVariantLookup(data).kind) == Some("variantLookup")
    ensures MergedSlice(UpdatePhenotypeCorrelations(data).kind) == Some("phenotypeCorrelations")
    ensures RootReducer(state, UpdatePhenotypes(data)) == state["phenotypes" := data]
    ensures RootReducer(state, UpdatePhenotypesTree(data)) == state["phenotypesTree" := data]
  {
  }

  /** A merging action, written with its slice. */
  lemma MergeForm(state: State, action: Action)
    requires MergedSlice(action.kind).Some?
    ensures var slice := MergedSlice(action.kind).value;
      RootReducer(state, action) == state[slice := Obj(Overlay(OwnProps(Get(state, slice)), OwnProps(action.data)))]
  {
  }

  /** Dispatching the same action twice is dispatching it once. */
  lemma ReducerIdempotent(state: State, action: Action)
    ensures RootReducer(RootReducer(state, action), action) == RootReducer(state, action)
  {
    if MergedSlice(action.kind).Some? {
      var slice := MergedSlice(action.kind).value;
      var data := OwnProps(action.data);
      var once := RootReducer(state, action);
      MergeForm(state, action);
      MergeForm(once, action);
      assert Overlay(Overlay(OwnProps(Get(state, slice)), data), data) == Overlay(OwnProps(Get(state, slice)), data);
    }
  }

  /** Two merges into one slice are one merge of the overlaid data. */
  lemma MergesCompose(state: State, kind: string, d1: Value, d2: Value)
    requires MergedSlice(kind).Some?
    ensures RootReducer(RootReducer(state, Action(kind, None, d1)), Action(kind, None, d2))
         == RootReducer(state, Action(kind, None, Obj(Overlay(OwnProps(d1), OwnProps(d2)))))
  {
    var slice := MergedSlice(kind).value;
    var base := OwnProps(Get(state, slice));
    var first := RootReducer(state, Action(kind, None, d1));
    MergeForm(state, Action(kind, None, d1));
    MergeForm(first, Action(kind, None, d2));
    MergeForm(state, Action(kind, None, Obj(Overlay(OwnProps(d1), OwnProps(d2)))));
    assert Overlay(Overlay(base, OwnProps(d1)), OwnProps(d2)) == Overlay(base, Overlay(OwnProps(d1), OwnProps(d2)));
  }
}
