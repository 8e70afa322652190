/**
 * The UI element an event is about (`models/widget.py`). A widget is a
 * mutable record: the event logger that owns it updates its values on every
 * interaction.
 */
module WidgetModel {
  import opened Values
  import opened Models
  import CleanValues

  /** The values after `update_value(newValue)`: the old current one becomes the previous one. */
  function UpdatedValues(values: WidgetValues, newValue: Value): (r: WidgetValues)
    ensures r.current == newValue && r.previous == values.current
  {
    WidgetValues(newValue, values.current)
  }

  /** `asdict` of a `WidgetValues`. */
  function ValuesRecord(values: WidgetValues): (r: Value)
    ensures r.VDict? && Keys(r.entries) == ["current", "previous"]
    ensures r.entries[0].1 == values.current && r.entries[1].1 == values.previous
  {
    VDict([("current", values.current), ("previous", values.previous)])
  }

  /** `asdict` of a widget with these field values. */
  function WidgetRecord(id: Value, widgetType: string, widgetLabel: Value, values: WidgetValues, extra: Value): (r: Value)
    ensures r.VDict? && Keys(r.entries) == ["id", "type", "label", "values", "extra"]
    ensures UniqueKeys(r.entries)
    ensures r.entries[0].1 == id && r.entries[1].1 == VStr(widgetType) && r.entries[2].1 == widgetLabel
    ensures r.entries[3].1 == ValuesRecord(values) && r.entries[4].1 == extra
  {
    VDict([("id", id), ("type", VStr(widgetType)), ("label", widgetLabel), ("values", ValuesRecord(values)), ("extra", extra)])
  }

  class Widget {
    var id: Value
    var widgetType: string
    var widgetLabel: Value
    var values: WidgetValues
    var extra: Value

    /** `Widget()`: every field at its default. */
    constructor Default()
      ensures id == VStr("unknown") && widgetType == "unknown" && widgetLabel == VStr("unknown")
      ensures values == EMPTY_VALUES && extra == VNone
    {
      id := VStr("unknown");
      widgetType := "unknown";
      widgetLabel := VStr("unknown");
      values := EMPTY_VALUES;
      extra := VNone;
    }

    /** `Widget(id=..., type=..., label=..., values=..., extra=...)`. */
    constructor (id: Value, widgetType: string, widgetLabel: Value, values: WidgetValues, extra: Value)
      ensures this.id == id && this.widgetType == widgetType && this.widgetLabel == widgetLabel
      ensures this.values == values && this.extra == extra
    {
      this.id := id;
      this.widgetType := widgetType;
      this.widgetLabel := widgetLabel;
      this.values := values;
      this.extra := extra;
    }

    /** `update_value`: shifts the current value into `previous`; nothing else changes. */
    method UpdateValue(newValue: Value)
      modifies this`values
      ensures values == UpdatedValues(old(values), newValue)
    {
      values := WidgetValues(newValue, values.current);
    }

    /** `to_dict`: the widget's fields as a dict. */
    function ToDict(): (r: Value)
      reads this
      ensures r == WidgetRecord(id, widgetType, widgetLabel, values, extra)
    {
      WidgetRecord(id, widgetType, widgetLabel, values, extra)
    }
  }

  /** After two updates, `previous` holds the first value and `current` the second. */
  lemma UpdateTwice(values: WidgetValues, first: Value, second: Value)
    ensures UpdatedValues(UpdatedValues(values, first), second) == WidgetValues(second, first)
  {
  }

  /**
   * A widget updated once from its defaults has nothing under "previous"
   * once its record is cleaned, while "current" survives when it is not
   * empty.
   */
  lemma FirstUpdateHasNoPrevious(newValue: Value)
    ensures
      var cleaned := CleanValues.CleanValues(ValuesRecord(UpdatedValues(EMPTY_VALUES, newValue)));
      && "previous" !in Keys(cleaned.entries)
      && ("current" in Keys(cleaned.entries) <==> !CleanValues.CheckIfEmptyOrNone(newValue))
  {
    var es := ValuesRecord(UpdatedValues(EMPTY_VALUES, newValue)).entries;
    CleanValues.CleanDictGet(es, "previous");
    CleanValues.CleanDictGet(es, "current");
  }
}
