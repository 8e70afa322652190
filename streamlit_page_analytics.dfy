/**
 * The tracker (`streamlit_page_analytics.py`): it enriches and logs events,
 * and installs and removes the widget wrappers in Streamlit's two
 * namespaces, `st` and `st.sidebar`, remembering every original it replaced.
 *
 * The namespaces are modelled as two maps from attribute name to function;
 * `hasattr`/`getattr`/`setattr` become membership, lookup and update.
 */
module PageAnalytics {
  import opened Values
  import opened Models
  import opened Host
  import opened MappingKeys
  import opened UserEvents
  import CleanValues
  import Config
  import Wrapping

  const ST := "st"
  const SIDEBAR := "st.sidebar"

  /** `logging.INFO`. */
  const INFO := 20

  // ---------------------------------------------------------------------------
  // Installing and removing wrappers, as a specification on values
  // ---------------------------------------------------------------------------

  /** Both namespaces and the table of replaced originals. */
  datatype Install = Install(
    st: map<string, FnToken>,
    sidebar: map<string, FnToken>,
    originals: map<WidgetMappingKey, FnToken>)

  /** The namespace a container name designates (`"st.sidebar"` or otherwise `"st"`). */
  function Container(s: Install, containerName: string): map<string, FnToken>
  {
    if containerName == SIDEBAR then s.sidebar else s.st
  }

  /** `s` with the namespace named `containerName` replaced by `c`. */
  function WithContainer(s: Install, containerName: string, c: map<string, FnToken>): Install
  {
    if containerName == SIDEBAR then s.(sidebar := c) else s.(st := c)
  }

  /** A name present in a namespace and bound to something other than a wrapper. */
  predicate Wrappable(c: map<string, FnToken>, name: string)
  {
    name in c && !IsWrapper(c[name])
  }

  /**
   * One step of `_wrap_st_functions`: a name the container lacks, or one
   * already bound to a wrapper, is skipped; otherwise the original is
   * recorded under (container, name) and replaced by a wrapper over it.
   */
  function WrapOne(s: Install, m: WidgetMapping, containerName: string): (r: Install)
    ensures !Wrappable(Container(s, containerName), m.stWidgetName) ==> r == s
    ensures Wrappable(Container(s, containerName), m.stWidgetName) ==>
      var key := WidgetMappingKey(containerName, m.stWidgetName);
      var original := Container(s, containerName)[m.stWidgetName];
      && r.originals == s.originals[key := original]
      && Container(r, containerName) == Container(s, containerName)[m.stWidgetName := Wrapper(m, original)]
  {
    var c := Container(s, containerName);
    if !Wrappable(c, m.stWidgetName) then s
    else
      var original := c[m.stWidgetName];
      var r := s.(originals := s.originals[WidgetMappingKey(containerName, m.stWidgetName) := original]);
      WithContainer(r, containerName, c[m.stWidgetName := Wrapper(m, original)])
  }

  /** One mapping, in `st` and then in `st.sidebar`. */
  function WrapMapping(s: Install, m: WidgetMapping): Install
  {
    WrapOne(WrapOne(s, m, ST), m, SIDEBAR)
  }

  /** `_wrap_st_functions` over the mappings `ms`, in order. */
  function WrapAll(s: Install, ms: seq<WidgetMapping>): Install
    decreases |ms|
  {
    if ms == [] then s else WrapMapping(WrapAll(s, ms[..|ms| - 1]), ms[|ms| - 1])
  }

  /** The widget names recorded for one container. */
  function RecordedNames(originals: map<WidgetMappingKey, FnToken>, containerName: string): set<string>
  {
    set k | k in originals && k.containerName == containerName :: k.widgetName
  }

  /** A namespace after every original recorded for it is set back. */
  function RestoreInto(c: map<string, FnToken>, originals: map<WidgetMappingKey, FnToken>, containerName: string)
    : (r: map<string, FnToken>)
    ensures forall n :: n in r <==> n in c || WidgetMappingKey(containerName, n) in originals
    ensures forall n :: n in r ==>
      r[n] == if WidgetMappingKey(containerName, n) in originals then originals[WidgetMappingKey(containerName, n)] else c[n]
  {
    assert forall n :: WidgetMappingKey(containerName, n) in originals ==> n in RecordedNames(originals, containerName);
    map n | n in c.Keys + RecordedNames(originals, containerName) ::
      if WidgetMappingKey(containerName, n) in originals then originals[WidgetMappingKey(containerName, n)] else c[n]
  }

  /** `unwrap_st_functions`: every recorded original set back, then the table emptied. */
  function Restored(s: Install): Install
  {
    Install(RestoreInto(s.st, s.originals, ST), RestoreInto(s.sidebar, s.originals, SIDEBAR), map[])
  }

  /**
   * How an installed state relates to the state `s0` before any wrapping:
   * the same names, and each name either untouched or wrapped over its
   * original, which is recorded; and nothing else is recorded.
   */
  predicate TracksContainer(s0: Install, s: Install, containerName: string)
  {
    var c0 := Container(s0, containerName);
    var c := Container(s, containerName);
    && c.Keys == c0.Keys
    && forall n :: n in c0 ==>
         if WidgetMappingKey(containerName, n) in s.originals then
           && s.originals[WidgetMappingKey(containerName, n)] == c0[n]
           && c[n].Wrapper? && c[n].original == c0[n]
         else c[n] == c0[n]
  }

  predicate Tracks(s0: Install, s: Install)
  {
    && TracksContainer(s0, s, ST)
    && TracksContainer(s0, s, SIDEBAR)
    && forall k :: k in s.originals ==>
         (k.containerName == ST || k.containerName == SIDEBAR) && k.widgetName in Container(s0, k.containerName)
  }

  lemma WrapOneTracks(s0: Install, s: Install, m: WidgetMapping, containerName: string)
    requires containerName == ST || containerName == SIDEBAR
    requires Tracks(s0, s)
    ensures Tracks(s0, WrapOne(s, m, containerName))
  {
    var r := WrapOne(s, m, containerName);
    if Wrappable(Container(s, containerName), m.stWidgetName) {
      var key := WidgetMappingKey(containerName, m.stWidgetName);
      assert key !in s.originals;
      var other := if containerName == ST then SIDEBAR else ST;
      assert Container(r, other) == Container(s, other);
      forall n | n in Container(s0, other)
        ensures WidgetMappingKey(other, n) in r.originals <==> WidgetMappingKey(other, n) in s.originals
      {
      }
    }
  }

  lemma {:induction false} WrapAllTracks(s0: Install, s: Install, ms: seq<WidgetMapping>)
    requires Tracks(s0, s)
    ensures Tracks(s0, WrapAll(s, ms))
    decreases |ms|
  {
    if ms != [] {
      var n := |ms| - 1;
      WrapAllTracks(s0, s, ms[..n]);
      var t := WrapAll(s, ms[..n]);
      WrapOneTracks(s0, t, ms[n], ST);
      WrapOneTracks(s0, WrapOne(t, ms[n], ST), ms[n], SIDEBAR);
    }
  }

  /** Every name of the mappings that a namespace holds is bound to a wrapper. */
  predicate AllWrapped(s: Install, ms: seq<WidgetMapping>)
  {
    forall i :: 0 <= i < |ms| ==>
      && !Wrappable(s.st, ms[i].stWidgetName)
      && !Wrappable(s.sidebar, ms[i].stWidgetName)
  }

  /** Wrapping never unwraps, adds or removes a name. */
  lemma WrapOneMonotone(s: Install, m: WidgetMapping, containerName: string)
    requires containerName == ST || containerName == SIDEBAR
    ensures var r := WrapOne(s, m, containerName);
      && r.st.Keys == s.st.Keys && r.sidebar.Keys == s.sidebar.Keys
      && (forall n :: !Wrappable(s.st, n) ==> !Wrappable(r.st, n))
      && (forall n :: !Wrappable(s.sidebar, n) ==> !Wrappable(r.sidebar, n))
      && !Wrappable(Container(r, containerName), m.stWidgetName)
  {
  }

  lemma {:induction false} WrapAllWraps(s: Install, ms: seq<WidgetMapping>)
    ensures AllWrapped(WrapAll(s, ms), ms)
    decreases |ms|
  {
    if ms != [] {
      var n := |ms| - 1;
      WrapAllWraps(s, ms[..n]);
      var t := WrapAll(s, ms[..n]);
      var t1 := WrapOne(t, ms[n], ST);
      WrapOneMonotone(t, ms[n], ST);
      WrapOneMonotone(t1, ms[n], SIDEBAR);
      assert forall i :: 0 <= i < n ==> ms[..n][i] == ms[i];
    }
  }

  /** Where every name is already wrapped, wrapping changes nothing. */
  lemma {:induction false} WrapAllSkipsWrapped(s: Install, ms: seq<WidgetMapping>)
    requires AllWrapped(s, ms)
    ensures WrapAll(s, ms) == s
    decreases |ms|
  {
    if ms != [] {
      var n := |ms| - 1;
      assert AllWrapped(s, ms[..n]);
      WrapAllSkipsWrapped(s, ms[..n]);
    }
  }

  /** Starting to track a second time installs nothing new and records nothing new. */
  lemma WrapAllIdempotent(s: Install, ms: seq<WidgetMapping>)
    ensures WrapAll(WrapAll(s, ms), ms) == WrapAll(s, ms)
  {
    WrapAllWraps(s, ms);
    WrapAllSkipsWrapped(WrapAll(s, ms), ms);
  }

  /** Restoring a tracked state gives back the namespaces it started from. */
  lemma RestoredTracked(s0: Install, s: Install)
    requires Tracks(s0, s)
    ensures Restored(s) == Install(s0.st, s0.sidebar, map[])
  {
    var r := Restored(s);
    assert r.st == s0.st by {
      assert forall n :: n in r.st <==> n in s0.st;
    }
    assert r.sidebar == s0.sidebar by {
      assert forall n :: n in r.sidebar <==> n in s0.sidebar;
    }
  }

  /**
   * Wrapping once or twice from an empty table and then unwrapping leaves
   * every attribute of both namespaces as it was, and an empty table.
   */
  lemma WrapThenUnwrapRestores(st: map<string, FnToken>, sidebar: map<string, FnToken>, ms: seq<WidgetMapping>)
    ensures var s0 := Install(st, sidebar, map[]);
      && Restored(WrapAll(s0, ms)) == s0
      && Restored(WrapAll(WrapAll(s0, ms), ms)) == s0
  {
    var s0 := Install(st, sidebar, map[]);
    WrapAllTracks(s0, s0, ms);
    RestoredTracked(s0, WrapAll(s0, ms));
    WrapAllIdempotent(s0, ms);
  }

  /**
   * Every name of the mappings that a namespace held, bound to something
   * other than a wrapper, ends up wrapped over that function, which is
   * recorded under (container, name).
   */
  lemma WrapAllRecordsOriginals(st: map<string, FnToken>, sidebar: map<string, FnToken>, ms: seq<WidgetMapping>, i: nat)
    requires i < |ms|
    ensures var s0 := Install(st, sidebar, map[]);
      var s := WrapAll(s0, ms);
      var name := ms[i].stWidgetName;
      && (Wrappable(st, name) ==>
            && WidgetMappingKey(ST, name) in s.originals && name in s.st
            && s.originals[WidgetMappingKey(ST, name)] == st[name]
            && s.st[name].Wrapper? && s.st[name].original == st[name])
      && (Wrappable(sidebar, name) ==>
            && WidgetMappingKey(SIDEBAR, name) in s.originals && name in s.sidebar
            && s.originals[WidgetMappingKey(SIDEBAR, name)] == sidebar[name]
            && s.sidebar[name].Wrapper? && s.sidebar[name].original == sidebar[name])
  {
    var s0 := Install(st, sidebar, map[]);
    WrapAllTracks(s0, s0, ms);
    WrapAllWraps(s0, ms);
  }

  // ---------------------------------------------------------------------------
  // The wrapping loop as written
  // ---------------------------------------------------------------------------

  /**
   * One step of `_wrap_st_functions` as written: `WrappedWidget` is
   * constructed with a `mask_text_input_values` keyword its constructor does
   * not declare, so every step that gets as far as building a wrapper raises
   * TypeError before anything is recorded or replaced.
   */
  function WrapOneAsWritten(s: Install, m: WidgetMapping, containerName: string): (r: Result<Install>)
    ensures r.Err? <==> Wrappable(Container(s, containerName), m.stWidgetName)
    ensures r.Err? ==> r.error == TypeError
    ensures r.Ok? ==> r.value == s
  {
    if Wrappable(Container(s, containerName), m.stWidgetName) then Err(TypeError) else Ok(s)
  }

  /** The loop as written: the first exception ends it. */
  function WrapAllAsWritten(s: Install, ms: seq<WidgetMapping>): Result<Install>
    decreases |ms|
  {
    if ms == [] then Ok(s)
    else
      match WrapOneAsWritten(s, ms[0], ST)
      case Err(e) => Err(e)
      case Ok(s1) =>
        match WrapOneAsWritten(s1, ms[0], SIDEBAR)
        case Err(e) => Err(e)
        case Ok(s2) => WrapAllAsWritten(s2, ms[1..])
  }

  /** Some mapping names a function of either namespace that is not a wrapper yet. */
  predicate AnyWrappable(s: Install, ms: seq<WidgetMapping>)
  {
    exists i :: 0 <= i < |ms| && (Wrappable(s.st, ms[i].stWidgetName) || Wrappable(s.sidebar, ms[i].stWidgetName))
  }

  /**
   * As written, starting to track raises TypeError as soon as there is
   * anything to wrap, and otherwise changes nothing: no widget is ever
   * wrapped.
   */
  lemma {:induction false} WrapAllAsWrittenRaises(s: Install, ms: seq<WidgetMapping>)
    ensures WrapAllAsWritten(s, ms) == if AnyWrappable(s, ms) then Err(TypeError) else Ok(s)
    decreases |ms|
  {
    if ms != [] {
      WrapAllAsWrittenRaises(s, ms[1..]);
      if !Wrappable(s.st, ms[0].stWidgetName) && !Wrappable(s.sidebar, ms[0].stWidgetName) {
        assert AnyWrappable(s, ms) <==> AnyWrappable(s, ms[1..]) by {
          if AnyWrappable(s, ms) {
            var i :| 0 <= i < |ms| && (Wrappable(s.st, ms[i].stWidgetName) || Wrappable(s.sidebar, ms[i].stWidgetName));
            assert ms[1..][i - 1] == ms[i];
          }
          if AnyWrappable(s, ms[1..]) {
            var i :| 0 <= i < |ms[1..]| && (Wrappable(s.st, ms[1..][i].stWidgetName) || Wrappable(s.sidebar, ms[1..][i].stWidgetName));
            assert ms[i + 1] == ms[1..][i];
          }
        }
      } else {
        assert AnyWrappable(s, ms) by {
          assert Wrappable(s.st, ms[0].stWidgetName) || Wrappable(s.sidebar, ms[0].stWidgetName);
        }
      }
    }
  }

  /**
   * With Streamlit's own `st.button` in place, starting to track as written
   * raises TypeError, where the corrected loop installs a wrapper over it.
   */
  lemma StartTrackingAsWrittenFails(st: map<string, FnToken>, sidebar: map<string, FnToken>)
    requires "button" in st && st["button"] == Native("streamlit.elements.widgets.button", 0)
    ensures WrapAllAsWritten(Install(st, sidebar, map[]), Config.Mappings()) == Err(TypeError)
    ensures var s := WrapAll(Install(st, sidebar, map[]), Config.Mappings());
      WidgetMappingKey(ST, "button") in s.originals && s.originals[WidgetMappingKey(ST, "button")] == st["button"]
  {
    var s := Install(st, sidebar, map[]);
    assert Config.Mappings()[0].stWidgetName == "button";
    assert Wrappable(s.st, "button");
    WrapAllAsWrittenRaises(s, Config.Mappings());
    WrapAllRecordsOriginals(st, sidebar, Config.Mappings(), 0);
  }

  // ---------------------------------------------------------------------------
  // Logging events
  // ---------------------------------------------------------------------------

  /** What `log_event` may be handed: an event, or some other object. */
  datatype LogArgument = EventArg(event: UserEvent) | OtherArg(other: Value)

  /** One line handed to the logger: the level and the record before JSON encoding. */
  datatype LogLine = LogLine(level: int, record: Value)

  function ArgumentFootprint(a: LogArgument): set<object>
  {
    if a.EventArg? then WidgetFootprint(a.event) else {}
  }

  /** The record logged for `e`: the event with the tracker's ids, as a cleaned dict. */
  function EnrichedRecord(e: UserEvent, sessionId: string, userId: string): (r: Value)
    reads WidgetFootprint(e)
    ensures r.VDict?
  {
    CleanValues.CleanValues(ToDict(WithUserId(WithSessionId(e, sessionId), userId)))
  }

  /**
   * The logged record carries the tracker's session and user ids whatever
   * the event held (an id that cleaning treats as empty is dropped), and the
   * event's action.
   */
  lemma EnrichedRecordIds(e: UserEvent, sessionId: string, userId: string)
    ensures var r := EnrichedRecord(e, sessionId, userId);
      && Get(r.entries, "session_id") == (if CleanValues.CheckIfEmptyOrNone(VStr(sessionId)) then None else Some(VStr(sessionId)))
      && Get(r.entries, "user_id") == (if CleanValues.CheckIfEmptyOrNone(VStr(userId)) then None else Some(VStr(userId)))
      && Get(r.entries, "action") == Some(VStr(ActionValue(e.action)))
  {
    var enriched := WithUserId(WithSessionId(e, sessionId), userId);
    var d := ToDict(enriched);
    var r := EnrichedRecord(e, sessionId, userId);
    assert r == VDict(CleanValues.CleanEntries(d.entries));
    assert Get(r.entries, "session_id") == (if CleanValues.CheckIfEmptyOrNone(VStr(sessionId)) then None else Some(VStr(sessionId))) by {
      GetAt(d.entries, 0);
      CleanValues.CleanDictGet(d.entries, "session_id");
    }
    assert Get(r.entries, "user_id") == (if CleanValues.CheckIfEmptyOrNone(VStr(userId)) then None else Some(VStr(userId))) by {
      GetAt(d.entries, 1);
      CleanValues.CleanDictGet(d.entries, "user_id");
    }
    CleanedRecordKeepsAction(enriched);
  }

  // ---------------------------------------------------------------------------
  // The tracker
  // ---------------------------------------------------------------------------

  /** Streamlit's two namespaces, patched in place. */
  class Namespaces {
    var st: map<string, FnToken>
    var sidebar: map<string, FnToken>

    constructor (st: map<string, FnToken>, sidebar: map<string, FnToken>)
      ensures this.st == st && this.sidebar == sidebar
    {
      this.st := st;
      this.sidebar := sidebar;
    }
  }

  class StreamlitPageAnalytics {
    var originalMappings: map<WidgetMappingKey, FnToken>
    const name: string
    var sessionId: string
    var userId: string
    const logLevel: int
    /** Stored, but no wrapper receives it (see `WrapOneAsWritten`). */
    const maskTextInputValues: bool

    constructor (name: string, sessionId: string, userId: string, logLevel: int, maskTextInputValues: bool)
      ensures originalMappings == map[]
      ensures this.name == name && this.sessionId == sessionId && this.userId == userId
      ensures this.logLevel == logLevel && this.maskTextInputValues == maskTextInputValues
    {
      originalMappings := map[];
      this.name := name;
      this.sessionId := sessionId;
      this.userId := userId;
      this.logLevel := logLevel;
      this.maskTextInputValues := maskTextInputValues;
    }

    /** `StreamlitPageAnalytics(name)`: both ids "unknown", level INFO, no masking. */
    constructor WithDefaults(name: string)
      ensures originalMappings == map[]
      ensures this.name == name && sessionId == "unknown" && userId == "unknown"
      ensures logLevel == INFO && !maskTextInputValues
    {
      originalMappings := map[];
      this.name := name;
      sessionId := "unknown";
      userId := "unknown";
      logLevel := INFO;
      maskTextInputValues := false;
    }

    /**
     * `log_event`: TypeError for anything but an event; otherwise one line
     * at the configured level holding the enriched, cleaned record.
     */
    function LogEvent(a: LogArgument): (r: Result<LogLine>)
      reads this, ArgumentFootprint(a)
      ensures r.Err? <==> a.OtherArg?
      ensures r.Err? ==> r.error == TypeError
      ensures r.Ok? ==> r.value == LogLine(logLevel, EnrichedRecord(a.event, sessionId, userId))
    {
      match a
      case OtherArg(_) => Err(TypeError)
      case EventArg(e) => Ok(LogLine(logLevel, EnrichedRecord(e, sessionId, userId)))
    }

    method SetUserId(userId: string)
      modifies this`userId
      ensures this.userId == userId
    {
      this.userId := userId;
    }

    method SetSessionId(sessionId: string)
      modifies this`sessionId
      ensures this.sessionId == sessionId
    {
      this.sessionId := sessionId;
    }

    /** The namespaces and the table as one value. */
    function State(ns: Namespaces): Install
      reads this, ns
    {
      Install(ns.st, ns.sidebar, originalMappings)
    }

    /** One (mapping, container) step of the wrapping loop. */
    method WrapInto(ns: Namespaces, m: WidgetMapping, containerName: string)
      requires containerName == ST || containerName == SIDEBAR
      modifies this`originalMappings, ns
      ensures State(ns) == WrapOne(old(State(ns)), m, containerName)
    {
      var container := if containerName == ST then ns.st else ns.sidebar;
      if m.stWidgetName !in container {
        return;
      }
      var originalElementFn := container[m.stWidgetName];
      if ModuleOf(originalElementFn) == WRAPPED_WIDGET_MODULE {
        return;
      }
      var wrappedWidget := new Wrapping.WrappedWidget(m, originalElementFn);
      originalMappings := originalMappings[WidgetMappingKey(containerName, m.stWidgetName) := originalElementFn];
      if containerName == ST {
        ns.st := ns.st[m.stWidgetName := wrappedWidget.Token()];
      } else {
        ns.sidebar := ns.sidebar[m.stWidgetName := wrappedWidget.Token()];
      }
    }

    /** `_wrap_st_functions`, with the wrapper built as its constructor allows. */
    method WrapStFunctions(ns: Namespaces)
      modifies this`originalMappings, ns
      ensures State(ns) == WrapAll(old(State(ns)), Config.Mappings())
    {
      var mappings := Config.Mappings();
      for i := 0 to |mappings|
        invariant State(ns) == WrapAll(old(State(ns)), mappings[..i])
      {
        WrapInto(ns, mappings[i], ST);
        WrapInto(ns, mappings[i], SIDEBAR);
        assert mappings[..i + 1][..i] == mappings[..i];
      }
      assert mappings[..|mappings|] == mappings;
    }

    /** `unwrap_st_functions`: the table's entries in any order, then the table emptied. */
    method UnwrapStFunctions(ns: Namespaces)
      modifies this`originalMappings, ns
      ensures State(ns) == Restored(old(State(ns)))
    {
      ghost var st0, sidebar0 := ns.st, ns.sidebar;
      var remaining := originalMappings.Keys;
      ghost var done: set<WidgetMappingKey> := {};
      while remaining != {}
        invariant originalMappings == old(originalMappings)
        invariant done + remaining == originalMappings.Keys
        invariant ns.st == RestoreInto(st0, Restrict(originalMappings, done), ST)
        invariant ns.sidebar == RestoreInto(sidebar0, Restrict(originalMappings, done), SIDEBAR)
        decreases remaining
      {
        var key :| key in remaining;
        RestoreStep(st0, originalMappings, done, key, ST);
        RestoreStep(sidebar0, originalMappings, done, key, SIDEBAR);
        if key.containerName == ST {
          ns.st := ns.st[key.widgetName := originalMappings[key]];
        } else if key.containerName == SIDEBAR {
          ns.sidebar := ns.sidebar[key.widgetName := originalMappings[key]];
        }
        remaining := remaining - {key};
        done := done + {key};
      }
      RestrictAll(originalMappings);
      originalMappings := map[];
    }

    /** `start_tracking`. */
    method StartTracking(ns: Namespaces)
      modifies this`originalMappings, ns
      ensures State(ns) == WrapAll(old(State(ns)), Config.Mappings())
    {
      WrapStFunctions(ns);
    }

    /** `stop_tracking`. */
    method StopTracking(ns: Namespaces)
      modifies this`originalMappings, ns
      ensures State(ns) == Restored(old(State(ns)))
    {
      UnwrapStFunctions(ns);
    }
  }

  /** The entries of `o` whose keys are in `keys`. */
  function Restrict(o: map<WidgetMappingKey, FnToken>, keys: set<WidgetMappingKey>): (r: map<WidgetMappingKey, FnToken>)
    ensures forall k :: k in r <==> k in o && k in keys
    ensures forall k :: k in r ==> r[k] == o[k]
  {
    map k | k in o && k in keys :: o[k]
  }

  /** Restricting a table to all its keys gives the table. */
  lemma RestrictAll(o: map<WidgetMappingKey, FnToken>)
    ensures Restrict(o, o.Keys) == o
  {
  }

  /** Restoring one more recorded entry sets one more attribute of its own container. */
  lemma RestoreStep(c: map<string, FnToken>, o: map<WidgetMappingKey, FnToken>, done: set<WidgetMappingKey>,
                    key: WidgetMappingKey, containerName: string)
    requires key in o
    ensures RestoreInto(c, Restrict(o, done + {key}), containerName) ==
      if key.containerName == containerName then
        RestoreInto(c, Restrict(o, done), containerName)[key.widgetName := o[key]]
      else RestoreInto(c, Restrict(o, done), containerName)
  {
    if key.containerName == containerName {
      RestoreStepOwn(c, o, done, key);
    } else {
      RestoreStepOther(c, o, done, key, containerName);
    }
  }

  /** The entry's own container gains its original. */
  lemma RestoreStepOwn(c: map<string, FnToken>, o: map<WidgetMappingKey, FnToken>, done: set<WidgetMappingKey>,
                       key: WidgetMappingKey)
    requires key in o
    ensures RestoreInto(c, Restrict(o, done + {key}), key.containerName) ==
      RestoreInto(c, Restrict(o, done), key.containerName)[key.widgetName := o[key]]
  {
    var after := RestoreInto(c, Restrict(o, done + {key}), key.containerName);
    var before := RestoreInto(c, Restrict(o, done), key.containerName);
    assert key == WidgetMappingKey(key.containerName, key.widgetName);
    assert after.Keys == before.Keys + {key.widgetName};
  }

  /** Any other container is left as it was. */
  lemma RestoreStepOther(c: map<string, FnToken>, o: map<WidgetMappingKey, FnToken>, done: set<WidgetMappingKey>,
                         key: WidgetMappingKey, containerName: string)
    requires key in o && key.containerName != containerName
    ensures RestoreInto(c, Restrict(o, done + {key}), containerName) == RestoreInto(c, Restrict(o, done), containerName)
  {
    var after := RestoreInto(c, Restrict(o, done + {key}), containerName);
    var before := RestoreInto(c, Restrict(o, done), containerName);
    assert after.Keys == before.Keys;
  }
}
