/**
 * The callback installed in place of a widget's own callback
 * (`widgets/user_event_logger.py`). On every interaction it refreshes the
 * widget's value from the session state, emits one event and then runs the
 * developer's callback.
 *
 * The session state is the snapshot `session_state_fn()` returns at the time
 * of the call, a dict from widget key to value; the developer's callback is
 * run by a function passed in, since its code is not part of the model.
 */
module EventLogging {
  import opened Values
  import opened Models
  import opened WidgetModel
  import opened UserEvents
  import opened Host

  const TEXT_INPUT_WIDGET_TYPES: set<string> := {"text_input", "text_area"}

  const REDACTED := VStr("[REDACTED]")

  /** The masking rule: every value when all are masked, text widgets' when text is. */
  predicate MaskApplies(widgetType: string, maskTextInputValues: bool, maskAllValues: bool)
  {
    maskAllValues || (maskTextInputValues && widgetType in TEXT_INPUT_WIDGET_TYPES)
  }

  /** The value recorded for a widget once the masking rule is applied. */
  function Masked(v: Value, widgetType: string, maskTextInputValues: bool, maskAllValues: bool): (r: Value)
    ensures MaskApplies(widgetType, maskTextInputValues, maskAllValues) ==> r == REDACTED
    ensures !MaskApplies(widgetType, maskTextInputValues, maskAllValues) ==> r == v
  {
    if MaskApplies(widgetType, maskTextInputValues, maskAllValues) then REDACTED else v
  }

  /**
   * Masking everything overrides the text flag; the text flag alone leaves
   * other widget types as they are; with neither flag nothing is masked.
   */
  lemma MaskingPrecedence(v: Value, widgetType: string, maskTextInputValues: bool)
    ensures Masked(v, widgetType, maskTextInputValues, true) == REDACTED
    ensures widgetType !in TEXT_INPUT_WIDGET_TYPES ==> Masked(v, widgetType, maskTextInputValues, false) == v
    ensures Masked(v, "text_input", true, false) == REDACTED && Masked(v, "text_area", true, false) == REDACTED
    ensures Masked(v, widgetType, false, false) == v
  {
  }

  /**
   * `session_state_fn()[widget.id]`: the stored value, or None when the
   * lookup raises (a missing key is a KeyError; an id that is not a string
   * key is never found).
   */
  function SessionLookup(sessionState: map<string, Value>, id: Value): (r: Option<Value>)
    ensures r.Some? <==> id.VStr? && id.s in sessionState
    ensures r.Some? ==> r.value == sessionState[id.s]
  {
    if id.VStr? && id.s in sessionState then Some(sessionState[id.s]) else None
  }

  /**
   * The value `_extract_and_update_widget_value` records, if any: only for a
   * change widget with a session-state function, only when the lookup
   * succeeds with a value that is not None, and masked as configured.
   */
  function ObservedValue(
    actionType: UserEventAction, hasSessionStateFn: bool, sessionState: map<string, Value>,
    id: Value, widgetType: string, maskTextInputValues: bool, maskAllValues: bool): (r: Option<Value>)
    ensures r.Some? <==>
      && actionType == Change && hasSessionStateFn
      && id.VStr? && id.s in sessionState && sessionState[id.s] != VNone
    ensures r.Some? ==> r.value == Masked(sessionState[id.s], widgetType, maskTextInputValues, maskAllValues)
  {
    if actionType == Change && hasSessionStateFn then
      match SessionLookup(sessionState, id)
      case None => None
      case Some(v) =>
        if v != VNone then Some(Masked(v, widgetType, maskTextInputValues, maskAllValues)) else None
    else None
  }

  /** A click widget's values are never refreshed, whatever the session state holds. */
  lemma ClickNeverObserves(hasSessionStateFn: bool, sessionState: map<string, Value>, id: Value,
                           widgetType: string, maskTextInputValues: bool, maskAllValues: bool)
    ensures ObservedValue(Click, hasSessionStateFn, sessionState, id, widgetType, maskTextInputValues, maskAllValues) == None
  {
  }

  /** A widget's values after a refresh that observed `observed`. */
  function Refreshed(values: WidgetValues, observed: Option<Value>): (r: WidgetValues)
    ensures observed.None? ==> r == values
    ensures observed.Some? ==> r.current == observed.value && r.previous == values.current
  {
    match observed
    case None => values
    case Some(v) => UpdatedValues(values, v)
  }

  /** The event one interaction emits. */
  function InteractionEvent(actionType: UserEventAction, widget: Widget, args: seq<Value>, kwargs: Entries): (e: UserEvent)
    ensures e.action == actionType && e.widget == Some(widget)
    ensures e.sessionId.None? && e.userId.None? && e.pageName.None?
    ensures e.extra == VDict([("args", VTuple(args)), ("kwargs", VDict(kwargs))])
  {
    UserEvent(None, None, None, actionType, Some(widget), VDict([("args", VTuple(args)), ("kwargs", VDict(kwargs))]))
  }

  class UserEventLogger {
    const widget: Widget
    const actionType: UserEventAction
    /** The developer's own callback; VNone when there is none. */
    const originalElementCallback: Value
    const hasLoggerFn: bool
    const hasSessionStateFn: bool
    const maskTextInputValues: bool
    const maskAllValues: bool

    constructor (widget: Widget, actionType: UserEventAction, originalElementCallback: Value,
                 hasLoggerFn: bool, hasSessionStateFn: bool,
                 maskTextInputValues: bool, maskAllValues: bool)
      ensures this.widget == widget && this.actionType == actionType
      ensures this.originalElementCallback == originalElementCallback
      ensures this.hasLoggerFn == hasLoggerFn && this.hasSessionStateFn == hasSessionStateFn
      ensures this.maskTextInputValues == maskTextInputValues && this.maskAllValues == maskAllValues
    {
      this.widget := widget;
      this.actionType := actionType;
      this.originalElementCallback := originalElementCallback;
      this.hasLoggerFn := hasLoggerFn;
      this.hasSessionStateFn := hasSessionStateFn;
      this.maskTextInputValues := maskTextInputValues;
      this.maskAllValues := maskAllValues;
    }

    /** `_extract_and_update_widget_value`: lookup failures leave the widget as it was. */
    method ExtractAndUpdateWidgetValue(sessionState: map<string, Value>)
      modifies widget`values
      ensures widget.values == Refreshed(old(widget.values),
        ObservedValue(actionType, hasSessionStateFn, sessionState, widget.id, widget.widgetType,
                      maskTextInputValues, maskAllValues))
    {
      if actionType == Change && hasSessionStateFn {
        var lookup := SessionLookup(sessionState, widget.id);
        if lookup.Some? {
          var widgetValue := lookup.value;
          if widgetValue != VNone {
            if maskAllValues || (maskTextInputValues && widget.widgetType in TEXT_INPUT_WIDGET_TYPES) {
              widgetValue := REDACTED;
            }
            widget.UpdateValue(widgetValue);
          }
        }
      }
    }

    /**
     * `logging_callback_fn`: refresh the widget, hand one event to the
     * logger when there is one, then run the developer's callback with the
     * same arguments and return what it returns (None without a callback).
     * The event shares the widget, which already holds the refreshed value.
     */
    method LoggingCallbackFn(args: seq<Value>, kwargs: Entries, sessionState: map<string, Value>,
                             runCallback: Invocation -> Value)
      returns (emitted: Option<UserEvent>, invoked: Option<Invocation>, result: Value)
      modifies widget`values
      ensures widget.values == Refreshed(old(widget.values),
        ObservedValue(actionType, hasSessionStateFn, sessionState, widget.id, widget.widgetType,
                      maskTextInputValues, maskAllValues))
      ensures emitted == if hasLoggerFn then Some(InteractionEvent(actionType, widget, args, kwargs)) else None
      ensures invoked == if originalElementCallback != VNone then Some(Invocation(originalElementCallback, args, kwargs)) else None
      ensures result == if invoked.Some? then runCallback(invoked.value) else VNone
    {
      ExtractAndUpdateWidgetValue(sessionState);
      emitted := None;
      if hasLoggerFn {
        emitted := Some(InteractionEvent(actionType, widget, args, kwargs));
      }
      invoked := None;
      result := VNone;
      if originalElementCallback != VNone {
        invoked := Some(Invocation(originalElementCallback, args, kwargs));
        result := runCallback(invoked.value);
      }
    }
  }
}
