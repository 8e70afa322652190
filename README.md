# streamlit-page-analytics: the argument-interception core, in Dafny

streamlit-page-analytics records what users do with the widgets of a
Streamlit page. `start_tracking` replaces each widget function of the two
namespaces, `st` and `st.sidebar`, with a wrapper and remembers the
original. On each call the wrapper does the following:

- It reads the call with the widget's recipe from `MAPPINGS`: the label,
  the key and the developer's callback, taken from the keyword arguments or
  from a position and removed as they are taken.
- It derives the widget id: the key when it is truthy, otherwise
  `"pg-trk-"` followed by the CRC-32 of the label.
- It calls the original function with the label first, `key` forced to the
  id and the callback keyword pointing at an event logger.

When the widget fires, the logger reads the widget's value from the
session state, masks it as configured, updates the widget, hands one
`UserEvent` to the tracker's `log_event` and runs the developer's callback.
`log_event` stamps the tracker's session and user ids on the event, turns
it into a dict and prunes empty values with `clean_values`.
`stop_tracking` puts every recorded original back and empties the table.

The model follows the source file by file:

| module | file | form |
|---|---|---|
| `Values` | (Python values and dicts) | datatypes; dicts as insertion-ordered association lists |
| `Models` | `models/user_event_action.py`, `models/widget_attribute.py`, `models/widget_mapping.py` | datatypes |
| `MappingKeys` | `models/widget_mapping_key.py` | datatype and functions |
| `Config` | `config.py` | the constant recipe table and lemmas about it |
| `CleanValues` | `utils/clean_values.py` | recursive functions |
| `WidgetModel` | `models/widget.py` | class `Widget`, updated in place |
| `UserEvents` | `models/user_event.py` | datatype with functional updates |
| `Extraction` | `widgets/widget_attribute_extractor.py` | class `WidgetAttributeExtractor`, proved against `TakeAttribute` / `ExtractAll` |
| `EventLogging` | `widgets/user_event_logger.py` | class `UserEventLogger`, proved against `ObservedValue` / `Refreshed` |
| `Host` | (Streamlit functions and developer callbacks) | tokens for function objects and calls |
| `Wrapping` | `widgets/wrapped_widget.py` | class `WrappedWidget`, proved against `ForwardedCall` |
| `PageAnalytics` | `streamlit_page_analytics.py` | class `StreamlitPageAnalytics` over class `Namespaces`, proved against `WrapAll` / `Restored` |

Python values are modelled as `Values.Value`: None, bools, ints, strings,
lists, tuples, string-keyed dicts, opaque application objects, and the
logging callback a wrapped call creates. The session state is the
snapshot dict that `st.session_state.to_dict()` returns. Three things are
passed in as function-typed parameters because their code is outside the
model: the CRC-32 (`get_crc32_hash` and `zlib.crc32`), the original
Streamlit function's behaviour, and the developer's callback.

A few facts about the code shape the model:

- `start_tracking` takes no page name.
- The tracker's constructor has no `mask_all_values` argument. The flag
  exists only on `UserEventLogger`, and nothing sets it.
- `mask_text_input_values` never reaches a logger (see Findings).

`models/widget_values.py` is not part of this model. `WidgetValues` is
modelled as the pair (current, previous), both None by default, and
`asdict` as the dict of those two fields.

## Model

| member | source | states |
|---|---|---|
| `Models.ActionFromValue` | streamlit_page_analytics/models/user_event_action.py:18-35 | `UserEventAction(s)` yields exactly the member whose value is `s`; any other string is a ValueError |
| `MappingKeys.Eq` | streamlit_page_analytics/models/widget_mapping_key.py:26-33 | comparing with a non-key yields NotImplemented; two keys are equal iff both fields are equal |
| `MappingKeys.EqSymmetric` | streamlit_page_analytics/models/widget_mapping_key.py:26-33 | key equality is symmetric |
| `MappingKeys.FormatWithoutFields` | streamlit_page_analytics/models/widget_mapping_key.py:37-38 | `str.format` on a template without `{` returns the template whatever the arguments |
| `MappingKeys.Hash` | streamlit_page_analytics/models/widget_mapping_key.py:35-38 | the hash lies in [0, 2^32) |
| `MappingKeys.HashIsConstant` | streamlit_page_analytics/models/widget_mapping_key.py:35-38 | `"%s.%s".format(...)` is `"%s.%s"`, so every key hashes the same input and all hashes are equal |
| `MappingKeys.HashConsistentWithEq` | streamlit_page_analytics/models/widget_mapping_key.py:26-38 | equal keys have equal hashes |
| `Config.Mappings` | streamlit_page_analytics/config.py:25-166 | the table holds exactly 14 recipes |
| `Config.MappingsShape` | streamlit_page_analytics/config.py:27-165 | every recipe declares label, key and action in that order; label at index 0 under "label", key under "key"; label index < key index < action index |
| `Config.StandardRecipeExtractable` | streamlit_page_analytics/config.py:27-165 | a recipe of that layout has unique attribute names, exactly "label", "key", "action" |
| `Config.MappingsActions` | streamlit_page_analytics/config.py:27-165 | the button alone is CLICK, with `on_click`; every other recipe is CHANGE, with `on_change` |
| `Config.MappingsDistinct` | streamlit_page_analytics/config.py:25-166 | widget names are pairwise distinct |
| `CleanValues.CleanValues` | streamlit_page_analytics/utils/clean_values.py:31-52 | a dict stays a dict with no None value left; a list keeps its length and has each element cleaned; anything else (tuples, 0, False) is returned unchanged |
| `CleanValues.CleanEntries` | streamlit_page_analytics/utils/clean_values.py:43-48 | the cleaned dict is no longer than the input, holds no None value and only keys of the input |
| `CleanValues.CleanEntriesMembers` | streamlit_page_analytics/utils/clean_values.py:18-48 | an entry is kept, with its value cleaned, exactly when its original value is not None, "", "[]", "{}", [], {} or () |
| `CleanValues.CleanEntriesUnique` | streamlit_page_analytics/utils/clean_values.py:43-48 | cleaning a well-formed dict gives a well-formed dict |
| `CleanValues.CleanDictGet` | streamlit_page_analytics/utils/clean_values.py:43-48 | looking a key up after cleaning gives None for a missing or empty value, else the cleaned value |
| `CleanValues.CleanEntriesOrder` | streamlit_page_analytics/utils/clean_values.py:44-48 | kept entries keep their keys and relative order |
| `CleanValues.CleanValuesNotIdempotent` | streamlit_page_analytics/utils/clean_values.py:44-48 | emptiness is tested before recursing: `{"outer": {"inner": None}}` cleans to `{"outer": {}}`, and a second pass gives `{}` |
| `WidgetModel.UpdatedValues` | streamlit_page_analytics/models/widget.py:45-48 | after an update, current is the new value and previous the old current |
| `WidgetModel.ValuesRecord` | streamlit_page_analytics/models/widget.py:50-57 | the values dict has exactly the keys current, previous, holding the two values |
| `WidgetModel.WidgetRecord` | streamlit_page_analytics/models/widget.py:50-57 | the widget dict has exactly id, type, label, values, extra, in that order, holding the fields |
| `WidgetModel.Widget.Default` | streamlit_page_analytics/models/widget.py:37-43 | defaults: id, type and label "unknown", empty values, extra None |
| `WidgetModel.Widget.constructor` | streamlit_page_analytics/models/widget.py:37-43 | every field holds its argument |
| `WidgetModel.Widget.UpdateValue` | streamlit_page_analytics/models/widget.py:45-48 | only `values` changes, to the shifted pair; id, type, label and extra are untouched |
| `WidgetModel.Widget.ToDict` | streamlit_page_analytics/models/widget.py:50-57 | `to_dict` is the widget dict of the current fields |
| `WidgetModel.UpdateTwice` | streamlit_page_analytics/models/widget.py:45-48 | after two updates, previous holds the first value and current the second |
| `WidgetModel.FirstUpdateHasNoPrevious` | streamlit_page_analytics/models/widget.py:45-48 | one update from defaults leaves no "previous" after cleaning; "current" survives iff the value is not empty |
| `UserEvents.NewUserEvent` | streamlit_page_analytics/models/user_event.py:42-59 | construction succeeds iff the action is a member or the value of one, and then the action is that member; otherwise ValueError; the other fields are kept |
| `UserEvents.WithSessionId` | streamlit_page_analytics/models/user_event.py:61-73 | the copy has the new session id and equals the original in every other field |
| `UserEvents.WithUserId` | streamlit_page_analytics/models/user_event.py:75-87 | the copy has the new user id and equals the original in every other field |
| `UserEvents.WithPageName` | streamlit_page_analytics/models/user_event.py:89-101 | the copy has the new page name and equals the original in every other field |
| `UserEvents.WithIdsCommute` | streamlit_page_analytics/models/user_event.py:61-101 | the three `with_*` updates commute |
| `UserEvents.WithLastWins` | streamlit_page_analytics/models/user_event.py:61-101 | setting a field twice keeps only the last value |
| `UserEvents.ToDict` | streamlit_page_analytics/models/user_event.py:103-125 | exactly the six keys in order; action as its string value; the widget's own dict or None; a falsy extra becomes None |
| `UserEvents.DefaultEventRecord` | streamlit_page_analytics/models/user_event.py:42-125 | a default event, cleaned, is `{"action": "other"}` |
| `UserEvents.ActionValueNotEmpty` | streamlit_page_analytics/models/user_event_action.py:18-35 | no action value is a string cleaning treats as empty |
| `UserEvents.CleanedRecordKeepsAction` | streamlit_page_analytics/models/user_event.py:103-125 | a cleaned event record always keeps the action, and keeps extra iff it is truthy and not empty |
| `Extraction.TakeAttribute` | streamlit_page_analytics/widgets/widget_attribute_extractor.py:106-123 | a present keyword wins (even with a None value), is returned and deleted, positions untouched; else a usable position's element is returned and removed, kwargs untouched; else None and nothing changes; at most one entry goes |
| `Extraction.TakeAttributeRoundTrip` | streamlit_page_analytics/widgets/widget_attribute_extractor.py:106-123 | putting the taken value back where it came from restores the positional list exactly and every keyword lookup |
| `Extraction.TakeKeepsOrder` | streamlit_page_analytics/widgets/widget_attribute_extractor.py:113-121 | the remaining positional arguments keep their relative order |
| `Extraction.ExtractAll` | streamlit_page_analytics/widgets/widget_attribute_extractor.py:73-84 | one extracted entry per attribute in recipe order; the positionals left are an ordered subsequence of the caller's; for a well-formed dict, a keyword is left iff the caller passed it and no attribute looks for it (a named keyword goes even when its value is None), with its own value; at most one entry goes per attribute |
| `Extraction.PositionallyTaken` | streamlit_page_analytics/widgets/widget_attribute_extractor.py:113-121 | at most one positional argument is taken per attribute, and none of them is None |
| `Extraction.ExtractAllReinsert` | streamlit_page_analytics/widgets/widget_attribute_extractor.py:73-121 | extraction removes exactly the positionally taken arguments: inserting each back at its index, last removal first, gives the caller's list again |
| `Extraction.ExtractedAt` | streamlit_page_analytics/widgets/widget_attribute_extractor.py:73-123 | the value extracted for each attribute is what `check_and_get_attribute` takes from the call as the earlier attributes left it; a value taken by position is one of those `PositionallyTaken` records, and an attribute found neither way yields None |
| `Extraction.ExtractedFromKeyword` | streamlit_page_analytics/widgets/widget_attribute_extractor.py:73-111 | a keyword the caller passed, and no earlier attribute looks for, is extracted under the attribute's name with the caller's value |
| `Extraction.KeywordExtractedUnder` | streamlit_page_analytics/widgets/widget_attribute_extractor.py:73-111 | the same, read through the extracted dict |
| `Extraction.ThreeKeywordsExtracted` | streamlit_page_analytics/widgets/widget_attribute_extractor.py:73-111 | for the first three attributes of a recipe with distinct names, each keyword the caller passed and no earlier attribute claims is extracted with the caller's value |
| `Extraction.StandardKeywordsExtracted` | streamlit_page_analytics/widgets/widget_attribute_extractor.py:73-111 | for a recipe of the standard layout, `label=` and `key=` passed by the caller are the extracted label and key, and a callback passed under the action keyword is the extracted action |
| `Extraction.UnnamedKwargSurvives` | streamlit_page_analytics/widgets/widget_attribute_extractor.py:73-84 | a keyword no attribute looks for keeps its value through extraction |
| `Extraction.PositionalKeyShiftsAfterLabel` | streamlit_page_analytics/widgets/widget_attribute_extractor.py:79-83 | positions index the shortened list: for every recipe, `(label, key)` passed positionally yields the label, no key and no action, and leaves the key positional |
| `Extraction.GetOrNone` | streamlit_page_analytics/widgets/widget_attribute_extractor.py:57-71 | `dict.get(name, None)`: None for a missing name, the stored value otherwise |
| `Extraction.WidgetId` | streamlit_page_analytics/widgets/widget_attribute_extractor.py:51-55 | the id is the key when truthy, else the prefix plus the label's CRC-32; it is always truthy |
| `Extraction.WidgetIdWithoutKey` | streamlit_page_analytics/widgets/widget_attribute_extractor.py:51-55 | every falsy key, None and "" alike, gives the same label-derived id |
| `Extraction.PinnedWidgetIds` | streamlit_page_analytics/widgets/widget_attribute_extractor.py:51-55 | with the test suite's CRC-32 values the two unkeyed widgets get `pg-trk-15113830` and `pg-trk-1613747494` |
| `Extraction.RecipeWidgetsStartEmpty` | streamlit_page_analytics/widgets/widget_attribute_extractor.py:57-65 | no recipe declares "value", so the widget's current value starts as None |
| `Extraction.WidgetAttributeExtractor.constructor` | streamlit_page_analytics/widgets/widget_attribute_extractor.py:31-43 | the extractor holds its own copies of the arguments |
| `Extraction.WidgetAttributeExtractor.CheckAndGetAttribute` | streamlit_page_analytics/widgets/widget_attribute_extractor.py:86-123 | KeyError iff the name is not in the recipe, with nothing changed; otherwise the held arguments become those `TakeAttribute` leaves and its value is returned |
| `Extraction.WidgetAttributeExtractor.ExtractAllAttributes` | streamlit_page_analytics/widgets/widget_attribute_extractor.py:73-84 | the loop's result and the held arguments are those of `ExtractAll` over the original call |
| `Extraction.WidgetAttributeExtractor.ExtractWidget` | streamlit_page_analytics/widgets/widget_attribute_extractor.py:45-71 | KeyError iff the recipe lacks key or label; otherwise a fresh widget with the derived id, the recipe name as type, the label, current = extracted "value", the given extra, the extracted callback and the remaining arguments |
| `EventLogging.Masked` | streamlit_page_analytics/widgets/user_event_logger.py:87-91 | the value becomes "[REDACTED]" exactly when masking everything, or masking text and the type is text_input or text_area |
| `EventLogging.MaskingPrecedence` | streamlit_page_analytics/widgets/user_event_logger.py:35-91 | masking everything overrides the text flag; the text flag masks only the two text types; no flag, no masking |
| `EventLogging.SessionLookup` | streamlit_page_analytics/widgets/user_event_logger.py:84-97 | a value is found iff the id is a string key present in the session state (a missing id only warns) |
| `EventLogging.ObservedValue` | streamlit_page_analytics/widgets/user_event_logger.py:76-97 | a value is observed iff the action is CHANGE, a state function is configured, the id is present and its value is not None; it is then the masked value |
| `EventLogging.ClickNeverObserves` | streamlit_page_analytics/widgets/user_event_logger.py:78-81 | a CLICK widget's value is never refreshed |
| `EventLogging.Refreshed` | streamlit_page_analytics/widgets/user_event_logger.py:85-92 | no observation leaves the values unchanged; an observation becomes current and shifts the old current into previous |
| `EventLogging.InteractionEvent` | streamlit_page_analytics/widgets/user_event_logger.py:61-68 | the event carries the action type, this widget, no ids, and extra `{"args", "kwargs"}` |
| `EventLogging.UserEventLogger.constructor` | streamlit_page_analytics/widgets/user_event_logger.py:37-55 | every configuration field holds its argument |
| `EventLogging.UserEventLogger.ExtractAndUpdateWidgetValue` | streamlit_page_analytics/widgets/user_event_logger.py:76-97 | the widget's values become `Refreshed(old, ObservedValue(...))`: failures leave the widget as it was |
| `EventLogging.UserEventLogger.LoggingCallbackFn` | streamlit_page_analytics/widgets/user_event_logger.py:57-74 | the widget is refreshed first; exactly one event when a sink is present; the developer's callback is called once with exactly the received arguments and its result returned, else None |
| `Wrapping.ActionKeyword` | streamlit_page_analytics/widgets/wrapped_widget.py:87-97 | a callback keyword exists iff the recipe declares "action", and it is that attribute's keyword |
| `Wrapping.CallRecord` | streamlit_page_analytics/widgets/wrapped_widget.py:72-77 | extra is exactly `{"args": ..., "kwargs": ...}`: the caller's positionals with each element cleaned, and the caller's keyword dict cleaned, both taken before extraction |
| `Wrapping.ForwardedCallContract` | streamlit_page_analytics/widgets/wrapped_widget.py:79-97 | the original function gets the label first and then exactly the positionals extraction left (putting the taken ones back gives the caller's list); its keywords are exactly those left plus "key" and the callback keyword; "key" is the id, the callback keyword the logger's callback; every other keyword of the caller keeps its value when no attribute names it and is gone when one does; with no "action" no callback keyword is added |
| `Wrapping.ForwardedKwargsShape` | streamlit_page_analytics/widgets/wrapped_widget.py:82-97 | the forwarded keywords are those left, "key" and the callback keyword (if any), with "key" holding the id and the callback keyword the logger's callback; every other keyword keeps its value |
| `Wrapping.CallerKeyAndCallbackKept` | streamlit_page_analytics/widgets/wrapped_widget.py:79-97 | with a standard recipe, a truthy `key=` of the caller is the widget id and is forwarded as `key=`; a callback passed under the action keyword is the extracted action, which `WrappedWidgetFn` hands to the logger as `originalElementCallback` |
| `Wrapping.PositionalKeyForwardedTwice` | streamlit_page_analytics/widgets/wrapped_widget.py:79-97 | a key passed positionally reaches the original function positionally, while `key=` holds the label-derived id |
| `Wrapping.KwargsWhenNonePassed` | streamlit_page_analytics/widgets/wrapped_widget.py:82-97 | with no keyword from the caller, exactly `key=<id>` then the callback keyword set to the logger's callback are forwarded |
| `Wrapping.WrappedWidget.constructor` | streamlit_page_analytics/widgets/wrapped_widget.py:35-47 | the wrapper holds the recipe and the original function |
| `Wrapping.WrappedWidget.Token` | streamlit_page_analytics/widgets/wrapped_widget.py:49-108 | the bound `wrapped_widget_fn` carries the wrapper module marker, the recipe and the original |
| `Wrapping.WrappedWidget.WrappedWidgetFn` | streamlit_page_analytics/widgets/wrapped_widget.py:49-108 | exactly one call of the original, equal to `ForwardedCall`, whose result is returned; a fresh logger iff the recipe declares "action", over a fresh widget built from the extraction, with no masking |
| `PageAnalytics.WrapOne` | streamlit_page_analytics/streamlit_page_analytics.py:266-296 | a missing or already wrapped name is skipped; otherwise the original is recorded under (container, name) and replaced by a wrapper over it |
| `PageAnalytics.RestoreInto` | streamlit_page_analytics/streamlit_page_analytics.py:310-322 | every recorded name of the container is set to its original; other names are untouched |
| `PageAnalytics.WrapOneTracks` | streamlit_page_analytics/streamlit_page_analytics.py:266-296 | one wrapping step keeps every name either untouched or wrapped over its recorded original |
| `PageAnalytics.WrapAllTracks` | streamlit_page_analytics/streamlit_page_analytics.py:261-296 | the whole wrapping loop keeps that invariant |
| `PageAnalytics.WrapOneMonotone` | streamlit_page_analytics/streamlit_page_analytics.py:266-296 | a step adds or removes no name, unwraps nothing, and leaves its own name wrapped |
| `PageAnalytics.WrapAllWraps` | streamlit_page_analytics/streamlit_page_analytics.py:261-296 | after the loop every mapped name present in either namespace is a wrapper |
| `PageAnalytics.WrapAllSkipsWrapped` | streamlit_page_analytics/streamlit_page_analytics.py:271-276 | when every name is already wrapped, the loop changes nothing |
| `PageAnalytics.WrapAllIdempotent` | streamlit_page_analytics/streamlit_page_analytics.py:261-296 | wrapping twice is wrapping once |
| `PageAnalytics.WrapAllRecordsOriginals` | streamlit_page_analytics/streamlit_page_analytics.py:291-296 | every wrappable mapped name ends up wrapped over its original, which is recorded under (container, name) |
| `PageAnalytics.RestoredTracked` | streamlit_page_analytics/streamlit_page_analytics.py:310-324 | unwrapping a tracked state gives back the pre-wrap namespaces and an empty table |
| `PageAnalytics.WrapThenUnwrapRestores` | streamlit_page_analytics/streamlit_page_analytics.py:261-324 | wrap (once or twice) then unwrap leaves both namespaces as they were and the table empty |
| `PageAnalytics.WrapOneAsWritten` | streamlit_page_analytics/streamlit_page_analytics.py:278-285 | as written, building a wrapper raises TypeError exactly when there is something to wrap; otherwise nothing changes |
| `PageAnalytics.WrapAllAsWrittenRaises` | streamlit_page_analytics/streamlit_page_analytics.py:261-296 | as written, the loop raises TypeError iff some mapped name is wrappable, and otherwise changes nothing |
| `PageAnalytics.StartTrackingAsWrittenFails` | streamlit_page_analytics/streamlit_page_analytics.py:213-224 | with Streamlit's own `st.button` in place, tracking as written raises, while the corrected loop wraps and records it |
| `PageAnalytics.EnrichedRecordIds` | streamlit_page_analytics/streamlit_page_analytics.py:200-211 | the logged record carries the tracker's session and user ids (unless empty) whatever the event held, and the event's action |
| `PageAnalytics.StreamlitPageAnalytics.constructor` | streamlit_page_analytics/streamlit_page_analytics.py:83-114 | the originals table starts empty; ids, level and masking flag hold their arguments |
| `PageAnalytics.StreamlitPageAnalytics.WithDefaults` | streamlit_page_analytics/streamlit_page_analytics.py:83-114 | defaults: both ids "unknown", level INFO, no masking, empty table |
| `PageAnalytics.StreamlitPageAnalytics.LogEvent` | streamlit_page_analytics/streamlit_page_analytics.py:187-211 | TypeError iff the argument is not an event; otherwise one line at the configured level holding the enriched, cleaned record |
| `PageAnalytics.StreamlitPageAnalytics.SetUserId` | streamlit_page_analytics/streamlit_page_analytics.py:239-241 | only the user id changes, to the argument |
| `PageAnalytics.StreamlitPageAnalytics.SetSessionId` | streamlit_page_analytics/streamlit_page_analytics.py:243-245 | only the session id changes, to the argument |
| `PageAnalytics.StreamlitPageAnalytics.WrapInto` | streamlit_page_analytics/streamlit_page_analytics.py:266-296 | one loop step changes the namespaces and the table as `WrapOne` says |
| `PageAnalytics.StreamlitPageAnalytics.WrapStFunctions` | streamlit_page_analytics/streamlit_page_analytics.py:247-296 | the loop over `MAPPINGS` leaves the state `WrapAll` gives (with the wrapper built as its constructor allows) |
| `PageAnalytics.StreamlitPageAnalytics.UnwrapStFunctions` | streamlit_page_analytics/streamlit_page_analytics.py:298-324 | restoring the entries one by one, in any order, and clearing the table leaves the state `Restored` gives |
| `PageAnalytics.StreamlitPageAnalytics.StartTracking` | streamlit_page_analytics/streamlit_page_analytics.py:213-224 | starting to track is the wrapping loop |
| `PageAnalytics.StreamlitPageAnalytics.StopTracking` | streamlit_page_analytics/streamlit_page_analytics.py:226-237 | stopping is the unwrapping loop |

## Left out

- Monkey-patching of the live `streamlit` module is modelled as two maps from name to function token. `hasattr`, `getattr` and `setattr` become membership, lookup and update.
- Functions are compared by identity through tokens, and the wrapper-module marker comes from the token's kind. Python's `__module__` machinery is not modelled.
- JSON encoding (`json.dumps(..., default=str)`), the `logging` sinks and the debug log lines are left out. `log_event` returns the level and the record it would hand to the logger.
- The `logger` constructor argument and `setLevel` are left out, because they only configure the logging library.
- `__enter__`, `__exit__` and the `track` static method are left out. They only call the constructor, `start_tracking` and `stop_tracking`.
- `get_crc32_hash` and `zlib.crc32` are function parameters. `utils/hashing.py` is not part of this model, and no CRC is computed.
- `copy_list` and `copy_dict` are not part of this model. Under value semantics their copies are the values themselves.
- The session state is the snapshot `st.session_state.to_dict()` returns, passed as a map. Streamlit's widget-state machinery is not modelled.
- The original Streamlit function and the developer's callback are function parameters. Their effects on the page are outside the model.
- The event sink and the session-state function are always present in the wrappers the controller builds. `UserEventLogger` keeps both as flags, so a logger without them is also modelled.
- Python's variadic calls are modelled as a positional sequence plus an ordered keyword dict. Callables are opaque values.
- The `WrappedWidget` masking flag is not modelled, because its constructor accepts none. Every logger it builds has masking off.
- UserEvents.ToDict is modelled only for actions that are enum members. An action set to a plain string after construction (rather than normalised by `__post_init__`) is not modelled.
- Wrapping.WrappedWidget.WrappedWidgetFn requires a recipe that declares "label" and "key". Every recipe in `MAPPINGS` does (`Config.MappingsShape`, `Config.StandardRecipeExtractable`). For any other recipe the source raises KeyError, and that path is modelled only in `Extraction.WidgetAttributeExtractor.ExtractWidget`.
- Extraction.WidgetAttributeExtractor.ExtractAllAttributes requires a recipe with unique attribute names. A Python dict always has unique names.
- MappingKeys.Format models only automatically numbered `{}` fields of `str.format`. That is enough to show that the `%s` template used by `__hash__` has none.
- The user-facing string rendering of dates and times, and other objects serialised with `default=str`, are left out.

## Findings

| source | as written | input that shows it | evidently intended | confidence | as-written member | corrected member |
|---|---|---|---|---|---|---|
| streamlit_page_analytics/streamlit_page_analytics.py:278-285 | `WrappedWidget(...)` is called with `mask_text_input_values=`, a keyword its constructor (streamlit_page_analytics/widgets/wrapped_widget.py:35-41) does not declare, so `start_tracking` raises TypeError at the first widget it would wrap | `start_tracking()` with Streamlit's own `st.button` in place | every mapped function is wrapped and its original recorded | not executed | `PageAnalytics.WrapAllAsWrittenRaises` | `PageAnalytics.WrapAllRecordsOriginals` |
