/**
 * The event record (`models/user_event.py`): construction with action
 * normalisation, copy-with-one-field-changed, and conversion to a dict.
 */
module UserEvents {
  import opened Values
  import opened Models
  import opened WidgetModel
  import CleanValues

  /** What may be passed as `action`: an enum member or a string. */
  datatype ActionArg = ActionMember(member: UserEventAction) | ActionString(s: string)

  /**
   * An event once constructed: its action is always an enum member. The
   * widget is shared with the event logger that produced the event.
   */
  datatype UserEvent = UserEvent(
    sessionId: Option<string>,
    userId: Option<string>,
    pageName: Option<string>,
    action: UserEventAction,
    widget: Option<Widget>,
    extra: Value)

  /** `UserEvent()`: every field at its default. */
  const DEFAULT_EVENT := UserEvent(None, None, None, Other, None, VNone)

  /**
   * `UserEvent(...)` followed by `__post_init__`: a string action is turned
   * into the member with that value, and an unknown one is a ValueError.
   */
  function NewUserEvent(
    sessionId: Option<string>, userId: Option<string>, pageName: Option<string>,
    action: ActionArg, widget: Option<Widget>, extra: Value): (r: Result<UserEvent>)
    ensures r.Ok? <==> action.ActionMember? || exists a :: ActionValue(a) == action.s
    ensures r.Err? ==> r.error == ValueError
    ensures r.Ok? ==>
      && r.value.sessionId == sessionId && r.value.userId == userId && r.value.pageName == pageName
      && r.value.widget == widget && r.value.extra == extra
      && (action.ActionMember? ==> r.value.action == action.member)
      && (action.ActionString? ==> ActionValue(r.value.action) == action.s)
  {
    match action
    case ActionMember(a) => Ok(UserEvent(sessionId, userId, pageName, a, widget, extra))
    case ActionString(s) =>
      match ActionFromValue(s)
      case Ok(a) => Ok(UserEvent(sessionId, userId, pageName, a, widget, extra))
      case Err(e) => Err(e)
  }

  /** `with_session_id`: a new event that differs from `e` in the session id only. */
  function WithSessionId(e: UserEvent, sessionId: string): (r: UserEvent)
    ensures r.sessionId == Some(sessionId)
    ensures r.(sessionId := e.sessionId) == e
  {
    e.(sessionId := Some(sessionId))
  }

  /** `with_user_id`: a new event that differs from `e` in the user id only. */
  function WithUserId(e: UserEvent, userId: string): (r: UserEvent)
    ensures r.userId == Some(userId)
    ensures r.(userId := e.userId) == e
  {
    e.(userId := Some(userId))
  }

  /** `with_page_name`: a new event that differs from `e` in the page name only. */
  function WithPageName(e: UserEvent, pageName: Option<string>): (r: UserEvent)
    ensures r.pageName == pageName
    ensures r.(pageName := e.pageName) == e
  {
    e.(pageName := pageName)
  }

  /** Setting the identifiers in either order gives the same event. */
  lemma WithIdsCommute(e: UserEvent, sessionId: string, userId: string, pageName: Option<string>)
    ensures WithUserId(WithSessionId(e, sessionId), userId) == WithSessionId(WithUserId(e, userId), sessionId)
    ensures WithPageName(WithSessionId(e, sessionId), pageName) == WithSessionId(WithPageName(e, pageName), sessionId)
    ensures WithPageName(WithUserId(e, userId), pageName) == WithUserId(WithPageName(e, pageName), userId)
  {
  }

  /** Setting a field twice keeps only the last value. */
  lemma WithLastWins(e: UserEvent, s1: string, s2: string, p1: Option<string>, p2: Option<string>)
    ensures WithSessionId(WithSessionId(e, s1), s2) == WithSessionId(e, s2)
    ensures WithUserId(WithUserId(e, s1), s2) == WithUserId(e, s2)
    ensures WithPageName(WithPageName(e, p1), p2) == WithPageName(e, p2)
  {
  }

  /** An optional string as a Python value. */
  function OptionalStr(o: Option<string>): (v: Value)
    ensures v == VNone <==> o.None?
  {
    match o
    case None => VNone
    case Some(s) => VStr(s)
  }

  /** The objects `to_dict` reads: the widget, when there is one. */
  function WidgetFootprint(e: UserEvent): set<object>
  {
    if e.widget.Some? then {e.widget.value} else {}
  }

  /**
   * `to_dict`: the six fields in declaration order; the action becomes its
   * string value, the widget its own dict, and a falsy `extra` None.
   */
  function ToDict(e: UserEvent): (r: Value)
    reads WidgetFootprint(e)
    ensures r.VDict? && UniqueKeys(r.entries)
    ensures Keys(r.entries) == ["session_id", "user_id", "page_name", "action", "widget", "extra"]
    ensures r.entries[0].1 == OptionalStr(e.sessionId)
    ensures r.entries[1].1 == OptionalStr(e.userId)
    ensures r.entries[2].1 == OptionalStr(e.pageName)
    ensures r.entries[3].1 == VStr(ActionValue(e.action))
    ensures r.entries[4].1 == if e.widget.Some? then e.widget.value.ToDict() else VNone
    ensures r.entries[5].1 == if Truthy(e.extra) then e.extra else VNone
  {
    VDict([
      ("session_id", OptionalStr(e.sessionId)),
      ("user_id", OptionalStr(e.userId)),
      ("page_name", OptionalStr(e.pageName)),
      ("action", VStr(ActionValue(e.action))),
      ("widget", if e.widget.Some? then e.widget.value.ToDict() else VNone),
      ("extra", if Truthy(e.extra) then e.extra else VNone)])
  }

  /** A default event, once cleaned, records only its action. */
  lemma DefaultEventRecord()
    ensures CleanValues.CleanValues(ToDict(DEFAULT_EVENT)) == VDict([("action", VStr("other"))])
  {
    var es := ToDict(DEFAULT_EVENT).entries;
    assert es == [("session_id", VNone), ("user_id", VNone), ("page_name", VNone),
                  ("action", VStr("other")), ("widget", VNone), ("extra", VNone)];
    CleanValues.CleanEntriesCons(es[5..]);
    CleanValues.CleanEntriesCons(es[4..]);
    CleanValues.CleanEntriesCons(es[3..]);
    CleanValues.CleanEntriesCons(es[2..]);
    CleanValues.CleanEntriesCons(es[1..]);
    CleanValues.CleanEntriesCons(es);
    assert es[5..][1..] == [];
    assert es[4..][1..] == es[5..];
    assert es[3..][1..] == es[4..];
    assert es[2..][1..] == es[3..];
    assert es[1..][1..] == es[2..];
  }

  /** No action value is one of the strings cleaning treats as empty. */
  lemma ActionValueNotEmpty(a: UserEventAction)
    ensures !CleanValues.CheckIfEmptyOrNone(VStr(ActionValue(a)))
  {
    match a
    case StartTracking =>
    case Click =>
    case Change =>
    case Submit =>
    case Other =>
  }

  /**
   * A cleaned record keeps the action always, and keeps `extra` exactly when
   * it is truthy and not one of the values cleaning treats as empty.
   */
  lemma CleanedRecordKeepsAction(e: UserEvent)
    ensures var cleaned := CleanValues.CleanValues(ToDict(e));
      && Get(cleaned.entries, "action") == Some(VStr(ActionValue(e.action)))
      && ("extra" in Keys(cleaned.entries) <==> Truthy(e.extra) && !CleanValues.CheckIfEmptyOrNone(e.extra))
  {
    var r := ToDict(e);
    var action := VStr(ActionValue(e.action));
    CleanedDictKeeps(r.entries, action, e.extra);
    ActionValueNotEmpty(e.action);
    assert CleanValues.CleanValues(action) == action;
    assert CleanValues.CleanValues(r) == VDict(CleanValues.CleanEntries(r.entries));
  }

  /** The two entries of an event record that cleaning is asked about. */
  lemma CleanedDictKeeps(es: Entries, action: Value, extra: Value)
    requires UniqueKeys(es)
    requires Keys(es) == ["session_id", "user_id", "page_name", "action", "widget", "extra"]
    requires es[3].1 == action
    requires es[5].1 == if Truthy(extra) then extra else VNone
    ensures var cleaned := CleanValues.CleanEntries(es);
      && Get(cleaned, "action") == (if CleanValues.CheckIfEmptyOrNone(action) then None else Some(CleanValues.CleanValues(action)))
      && ("extra" in Keys(cleaned) <==> Truthy(extra) && !CleanValues.CheckIfEmptyOrNone(extra))
  {
    assert Keys(es)[3] == es[3].0 && Keys(es)[5] == es[5].0;
    GetAt(es, 3);
    GetAt(es, 5);
    CleanValues.CleanDictGet(es, "action");
    CleanValues.CleanDictGet(es, "extra");
  }
}
