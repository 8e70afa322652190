/**
 * The function installed in place of a Streamlit widget function
 * (`widgets/wrapped_widget.py`). It reads the call with the widget's
 * recipe, then calls the original function with the label first, the key
 * forced to the widget id and the callback keyword pointing at a fresh
 * event logger.
 */
module Wrapping {
  import opened Values
  import opened Models
  import opened WidgetModel
  import opened Host
  import opened Extraction
  import opened EventLogging
  import CleanValues
  import Config

  /** The keyword the recipe's callback is passed under, when it declares one. */
  function ActionKeyword(m: WidgetMapping): (r: Option<string>)
    ensures r.Some? <==> "action" in Keys(m.extractionAttributes)
    ensures r.Some? ==> r.value == Get(m.extractionAttributes, "action").value.name
  {
    match Get(m.extractionAttributes, "action")
    case None => None
    case Some(attr) => Some(attr.name)
  }

  /** The widget's `extra`: the caller's own arguments, cleaned. */
  function CallRecord(args: seq<Value>, kwargs: Entries): (r: Value)
    ensures r.VDict? && Keys(r.entries) == ["args", "kwargs"]
    ensures r.entries[0].1.VList? && |r.entries[0].1.items| == |args|
    ensures forall i :: 0 <= i < |args| ==> r.entries[0].1.items[i] == CleanValues.CleanValues(args[i])
    ensures r.entries[1].1 == VDict(CleanValues.CleanEntries(kwargs))
  {
    VDict([("args", CleanValues.CleanValues(VList(args))), ("kwargs", CleanValues.CleanValues(VDict(kwargs)))])
  }

  /**
   * The keyword arguments forwarded: what extraction left, with the key
   * forced to the widget id and then the callback keyword, if any, set to
   * the logger's callback.
   */
  function ForwardedKwargs(remaining: Entries, id: Value, actionKeyword: Option<string>): Entries
  {
    var withKey := Put(remaining, "key", id);
    if actionKeyword.Some? then Put(withKey, actionKeyword.value, VLoggingCallback) else withKey
  }

  /** The call `wrapped_widget_fn` makes of the original function. */
  function ForwardedCall(m: WidgetMapping, original: FnToken, args: seq<Value>, kwargs: Entries,
                         crc32Hash: Value -> string): HostCall
  {
    var x := ExtractAll(m.extractionAttributes, args, kwargs);
    var widgetLabel := GetOrNone(x.extracted, "label");
    var id := WidgetId(GetOrNone(x.extracted, "key"), widgetLabel, crc32Hash);
    HostCall(original, [widgetLabel] + x.args, ForwardedKwargs(x.kwargs, id, ActionKeyword(m)))
  }

  /**
   * What reaches the original function: the label first and then exactly
   * the positional arguments extraction left, in their order; as keywords,
   * those extraction left plus "key" and the callback keyword, and nothing
   * else. "key" holds the widget id (unless the callback keyword is itself
   * "key"), the callback keyword the logger's callback, and every other
   * keyword the caller passed its own value when the recipe does not look
   * for it, and is gone when it does.
   */
  lemma ForwardedCallContract(m: WidgetMapping, original: FnToken, args: seq<Value>, kwargs: Entries,
                              crc32Hash: Value -> string)
    requires UniqueKeys(kwargs)
    ensures
      var call := ForwardedCall(m, original, args, kwargs, crc32Hash);
      var x := ExtractAll(m.extractionAttributes, args, kwargs);
      var widgetLabel := GetOrNone(x.extracted, "label");
      var id := WidgetId(GetOrNone(x.extracted, "key"), widgetLabel, crc32Hash);
      && call.fn == original
      && call.args == [widgetLabel] + x.args
      && Reinserted(call.args[1..], PositionallyTaken(m.extractionAttributes, args, kwargs)) == args
      && UniqueKeys(call.kwargs)
      && (forall k :: k in Keys(call.kwargs) <==> k in Keys(x.kwargs) || k == "key" || Some(k) == ActionKeyword(m))
      && (ActionKeyword(m) != Some("key") ==> Get(call.kwargs, "key") == Some(id))
      && (ActionKeyword(m).Some? ==> Get(call.kwargs, ActionKeyword(m).value) == Some(VLoggingCallback))
      && (forall k :: k in Keys(kwargs) && k != "key" && Some(k) != ActionKeyword(m) ==>
            Get(call.kwargs, k) == if NamedByRecipe(k, m.extractionAttributes) then None else Get(kwargs, k))
  {
    var x := ExtractAll(m.extractionAttributes, args, kwargs);
    var widgetLabel := GetOrNone(x.extracted, "label");
    var id := WidgetId(GetOrNone(x.extracted, "key"), widgetLabel, crc32Hash);
    var call := ForwardedCall(m, original, args, kwargs, crc32Hash);
    assert call.args[1..] == x.args;
    ExtractAllReinsert(m.extractionAttributes, args, kwargs);
    assert call.kwargs == ForwardedKwargs(x.kwargs, id, ActionKeyword(m));
    ForwardedKwargsShape(x.kwargs, id, ActionKeyword(m));
    forall k | k in Keys(kwargs) && k != "key" && Some(k) != ActionKeyword(m)
      ensures Get(call.kwargs, k) == if NamedByRecipe(k, m.extractionAttributes) then None else Get(kwargs, k)
    {
      if !NamedByRecipe(k, m.extractionAttributes) {
        UnnamedKwargSurvives(m.extractionAttributes, args, kwargs, k);
      }
    }
  }

  /**
   * The keywords forwarded are those left, "key" and the callback keyword;
   * every other one keeps its value.
   */
  lemma ForwardedKwargsShape(remaining: Entries, id: Value, actionKeyword: Option<string>)
    requires UniqueKeys(remaining)
    ensures var fw := ForwardedKwargs(remaining, id, actionKeyword);
      && UniqueKeys(fw)
      && (forall k :: k in Keys(fw) <==> k in Keys(remaining) || k == "key" || Some(k) == actionKeyword)
      && (forall k :: k != "key" && Some(k) != actionKeyword ==> Get(fw, k) == Get(remaining, k))
      && (actionKeyword != Some("key") ==> Get(fw, "key") == Some(id))
      && (actionKeyword.Some? ==> Get(fw, actionKeyword.value) == Some(VLoggingCallback))
  {
    var withKey := Put(remaining, "key", id);
    forall k
      ensures Get(withKey, k) == if k == "key" then Some(id) else Get(remaining, k)
    {
      GetPut(remaining, "key", id, k);
    }
    if actionKeyword.Some? {
      forall k
        ensures Get(Put(withKey, actionKeyword.value, VLoggingCallback), k) ==
          if k == actionKeyword.value then Some(VLoggingCallback) else Get(withKey, k)
      {
        GetPut(withKey, actionKeyword.value, VLoggingCallback, k);
      }
    }
  }

  /**
   * `st.button(label, key)`: the key given positionally is not recognised,
   * so the original function gets it back as its second positional
   * argument and, by keyword, a key computed from the label. The same holds
   * for every recipe of the standard layout.
   */
  lemma PositionalKeyForwardedTwice(m: WidgetMapping, original: FnToken, crc32Hash: Value -> string,
                                    widgetLabel: Value, key: Value)
    requires Config.StandardRecipe(m) && m.extractionAttributes[2].1.name != "key"
    requires widgetLabel != VNone
    ensures ForwardedCall(m, original, [widgetLabel, key], [], crc32Hash) ==
      HostCall(original, [widgetLabel, key],
               [("key", VStr(DEFAULT_ELEMENT_ID_PREFIX + crc32Hash(widgetLabel))),
                (m.extractionAttributes[2].1.name, VLoggingCallback)])
  {
    var id := WidgetId(VNone, widgetLabel, crc32Hash);
    TwoPositionalUnfolded(m, original, crc32Hash, widgetLabel, key);
    StandardActionKeyword(m);
    KwargsWhenNonePassed(id, m.extractionAttributes[2].1.name);
  }

  /** The call with a label and one more positional argument, before the keywords are built. */
  lemma TwoPositionalUnfolded(m: WidgetMapping, original: FnToken, crc32Hash: Value -> string,
                           widgetLabel: Value, key: Value)
    requires Config.StandardRecipe(m) && widgetLabel != VNone
    ensures ForwardedCall(m, original, [widgetLabel, key], [], crc32Hash) ==
      HostCall(original, [widgetLabel, key], ForwardedKwargs([], WidgetId(VNone, widgetLabel, crc32Hash), ActionKeyword(m)))
  {
    var args := [widgetLabel, key];
    var x := Extraction([key], [], [("label", widgetLabel), ("key", VNone), ("action", VNone)]);
    assert [widgetLabel] + x.args == args;
    PositionalKeyShiftsAfterLabel(m, widgetLabel, key);
    ExtractedLabelAndKey(widgetLabel);
    ForwardedCallFrom(m, original, args, [], crc32Hash, x, widgetLabel, VNone);
  }

  /** What the extraction yields for the label and the key when only the label is found. */
  lemma ExtractedLabelAndKey(widgetLabel: Value)
    ensures var extracted := [("label", widgetLabel), ("key", VNone), ("action", VNone)];
      GetOrNone(extracted, "label") == widgetLabel && GetOrNone(extracted, "key") == VNone
  {
    var extracted := [("label", widgetLabel), ("key", VNone), ("action", VNone)];
    assert UniqueKeys(extracted);
    GetAt(extracted, 0);
    GetAt(extracted, 1);
  }

  /** `ForwardedCall` unfolded over a known extraction result. */
  lemma ForwardedCallFrom(m: WidgetMapping, original: FnToken, args: seq<Value>, kwargs: Entries,
                          crc32Hash: Value -> string, x: Extraction, widgetLabel: Value, key: Value)
    requires x == ExtractAll(m.extractionAttributes, args, kwargs)
    requires GetOrNone(x.extracted, "label") == widgetLabel && GetOrNone(x.extracted, "key") == key
    ensures ForwardedCall(m, original, args, kwargs, crc32Hash) ==
      HostCall(original, [widgetLabel] + x.args, ForwardedKwargs(x.kwargs, WidgetId(key, widgetLabel, crc32Hash), ActionKeyword(m)))
  {
  }

  /** A standard recipe's callback keyword is that of its third attribute. */
  lemma StandardActionKeyword(m: WidgetMapping)
    requires Config.StandardRecipe(m)
    ensures ActionKeyword(m) == Some(m.extractionAttributes[2].1.name)
  {
    Config.StandardRecipeExtractable(m);
    GetAt(m.extractionAttributes, 2);
  }

  /**
   * A caller's own `key=` and callback survive wrapping. With a recipe of the
   * standard layout, a truthy key the caller passed is the widget id and is
   * forwarded as `key=`; a callback passed under the recipe's action keyword
   * is the one `WrappedWidgetFn` hands to the logger to call.
   */
  lemma CallerKeyAndCallbackKept(m: WidgetMapping, original: FnToken, args: seq<Value>, kwargs: Entries,
                                 crc32Hash: Value -> string)
    requires Config.StandardRecipe(m) && UniqueKeys(kwargs)
    ensures var x := ExtractAll(m.extractionAttributes, args, kwargs);
      var action := m.extractionAttributes[2].1.name;
      && ("key" in Keys(kwargs) && Truthy(Get(kwargs, "key").value) ==>
            && WidgetId(GetOrNone(x.extracted, "key"), GetOrNone(x.extracted, "label"), crc32Hash)
               == Get(kwargs, "key").value
            && (action != "key" ==>
                  Get(ForwardedCall(m, original, args, kwargs, crc32Hash).kwargs, "key")
                  == Some(Get(kwargs, "key").value)))
      && (action in Keys(kwargs) && action != "label" && action != "key" ==>
            GetOrNone(x.extracted, "action") == Get(kwargs, action).value)
  {
    var x := ExtractAll(m.extractionAttributes, args, kwargs);
    var id := WidgetId(GetOrNone(x.extracted, "key"), GetOrNone(x.extracted, "label"), crc32Hash);
    StandardKeywordsExtracted(m, args, kwargs);
    StandardActionKeyword(m);
    ForwardedKwargsShape(x.kwargs, id, ActionKeyword(m));
  }

  /** The keywords forwarded when the caller passed none. */
  lemma KwargsWhenNonePassed(id: Value, actionKeyword: string)
    requires actionKeyword != "key"
    ensures ForwardedKwargs([], id, Some(actionKeyword)) == [("key", id), (actionKeyword, VLoggingCallback)]
  {
    assert Put([], "key", id) == [("key", id)];
  }

  class WrappedWidget {
    const widgetMapping: WidgetMapping
    const originalWidgetFunction: FnToken

    /**
     * The event sink and the session-state function are the controller's
     * own and always present; no masking flag is accepted.
     */
    constructor (widgetMapping: WidgetMapping, widgetFn: FnToken)
      ensures this.widgetMapping == widgetMapping && this.originalWidgetFunction == widgetFn
    {
      this.widgetMapping := widgetMapping;
      this.originalWidgetFunction := widgetFn;
    }

    /** The bound `wrapped_widget_fn`, as it is installed in a namespace. */
    function Token(): (f: FnToken)
      ensures IsWrapper(f) && f.Wrapper?
      ensures f.mapping == widgetMapping && f.original == originalWidgetFunction
    {
      Wrapper(widgetMapping, originalWidgetFunction)
    }

    /**
     * `wrapped_widget_fn`: reads the call, builds the widget and (when the
     * recipe declares a callback) its logger, and makes exactly one call of
     * the original function, whose result it returns. `runHost` stands for
     * the original function's behaviour.
     */
    method WrappedWidgetFn(args: seq<Value>, kwargs: Entries, crc32Hash: Value -> string,
                           runHost: HostCall -> Value)
      returns (forwarded: HostCall, logger: UserEventLogger?, result: Value)
      requires Config.Extractable(widgetMapping)
      ensures forwarded == ForwardedCall(widgetMapping, originalWidgetFunction, args, kwargs, crc32Hash)
      ensures result == runHost(forwarded)
      ensures logger != null <==> "action" in Keys(widgetMapping.extractionAttributes)
      ensures logger != null ==>
        var x := ExtractAll(widgetMapping.extractionAttributes, args, kwargs);
        var w := logger.widget;
        && fresh(logger) && fresh(w)
        && w.id == WidgetId(GetOrNone(x.extracted, "key"), GetOrNone(x.extracted, "label"), crc32Hash)
        && w.widgetType == widgetMapping.stWidgetName
        && w.widgetLabel == GetOrNone(x.extracted, "label")
        && w.values == WidgetValues(GetOrNone(x.extracted, "value"), VNone)
        && w.extra == CallRecord(args, kwargs)
        && logger.actionType == widgetMapping.actionType
        && logger.originalElementCallback == GetOrNone(x.extracted, "action")
        && logger.hasLoggerFn && logger.hasSessionStateFn
        && !logger.maskTextInputValues && !logger.maskAllValues
    {
      var attrs := widgetMapping.extractionAttributes;
      var extractor := new WidgetAttributeExtractor(widgetMapping.stWidgetName, attrs, args, kwargs);
      var r := extractor.ExtractWidget(CallRecord(args, kwargs), crc32Hash);
      var extracted := r.value;
      var argsToUse := [extracted.widget.widgetLabel] + extracted.unextractedArgs;
      var kwargsToUse := extracted.unextractedKwargs;
      kwargsToUse := Put(kwargsToUse, "key", extracted.widget.id);
      logger := null;
      if "action" in Keys(attrs) {
        logger := new UserEventLogger(extracted.widget, widgetMapping.actionType,
                                      extracted.originalActionCallbackFn, true, true, false, false);
        kwargsToUse := Put(kwargsToUse, Get(attrs, "action").value.name, VLoggingCallback);
      }
      forwarded := HostCall(originalWidgetFunction, argsToUse, kwargsToUse);
      result := runHost(forwarded);
    }
  }
}
