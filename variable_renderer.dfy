// impl/service/variable_renderer.py: VariableRenderer.render_variable. Its
// SelectionCriteria, RenderStrategy, dtime range and validate_selection_space
// repeat impl/business/selector/space_selector.py and are the ones of module
// SpaceSelector. The join and filter logic the method is meant to run is not
// written in the source: past validation it always raises.

module VariableRenderer {
  import opened Wrappers
  import opened SpaceSelector

  const NonConformingMessage: string := "Selection criteria do not conform to the derived render strategies."

  /**
   * render_variable: derives the strategies, validates the criteria against
   * them, raises ValueError when they do not conform and NotImplementedError
   * otherwise; a value missing from its column raises KeyError first. The
   * table and column names the source takes are never read and are left out.
   * It never returns normally, and the ValueError arises exactly when some
   * axis is picked by an empty list while the data has rows.
   */
  method RenderVariable(criteria: Selector) returns (r: Result<()>)
    ensures r.Err?
    ensures ToFactorRepresentation(criteria).Err? ==> r.error == ToFactorRepresentation(criteria).error
    ensures ToFactorRepresentation(criteria).Ok? ==>
              (r.error == ValueError(NonConformingMessage) <==> EmptyPickOnRows(criteria))
    ensures ToFactorRepresentation(criteria).Ok? && !EmptyPickOnRows(criteria) ==> r.error == NotImplementedError("")
  {
    var strategies := DetermineStrategies(criteria);
    if strategies.Err? {
      return Err(strategies.error);
    }
    var valid := ValidateSelectionSpace(strategies.value, criteria);
    DerivedStrategiesValid(criteria);
    if valid == Ok(false) {
      return Err(ValueError(NonConformingMessage));
    }
    return Err(NotImplementedError(""));
  }
}
