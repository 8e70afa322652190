/**
 * The plain records of the package: the action kinds
 * (`models/user_event_action.py`), an extraction recipe
 * (`models/widget_attribute.py`, `models/widget_mapping.py`) and the value
 * pair a widget carries (`WidgetValues`).
 */
module Models {
  import opened Values

  /** The kind of user interaction an event reports. */
  datatype UserEventAction = StartTracking | Click | Change | Submit | Other

  /** The enum member's string value. */
  function ActionValue(a: UserEventAction): string
  {
    match a
    case StartTracking => "start_tracking"
    case Click => "click"
    case Change => "change"
    case Submit => "submit"
    case Other => "other"
  }

  /**
   * `UserEventAction(s)`: the member whose value is `s`, or ValueError when
   * no member has that value.
   */
  function ActionFromValue(s: string): (r: Result<UserEventAction>)
    ensures forall a :: r == Ok(a) <==> ActionValue(a) == s
    ensures r.Err? ==> r.error == ValueError
  {
    if s == "start_tracking" then Ok(StartTracking)
    else if s == "click" then Ok(Click)
    else if s == "change" then Ok(Change)
    else if s == "submit" then Ok(Submit)
    else if s == "other" then Ok(Other)
    else Err(ValueError)
  }

  /**
   * Where one attribute of a widget call may be found: the position it
   * takes when passed positionally (none if it cannot be) and its keyword.
   */
  datatype WidgetAttribute = WidgetAttribute(index: Option<nat>, name: string)

  /**
   * How to read one Streamlit widget function's call. The attributes are a
   * dict from attribute name (`"label"`, `"key"`, `"action"`, ...) to where
   * to find it, in declaration order.
   */
  datatype WidgetMapping = WidgetMapping(
    stWidgetName: string,
    extractionAttributes: seq<(string, WidgetAttribute)>,
    actionType: UserEventAction,
    documentationUrl: string)

  /** A widget's current value and the one before it (both None by default). */
  datatype WidgetValues = WidgetValues(current: Value, previous: Value)

  const EMPTY_VALUES := WidgetValues(VNone, VNone)
}
