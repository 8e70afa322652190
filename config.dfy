/**
 * The widgets the package intercepts and where each one's label, key and
 * callback sit in its call (`config.py`).
 */
module Config {
  import opened Values
  import opened Models

  /**
   * A recipe the extractor can work with: a well-formed attribute dict that
   * declares the label and the key.
   */
  predicate Extractable(m: WidgetMapping)
  {
    && UniqueKeys(m.extractionAttributes)
    && "label" in Keys(m.extractionAttributes)
    && "key" in Keys(m.extractionAttributes)
  }

  /** `MAPPINGS`, in declaration order. */
  function Mappings(): (ms: seq<WidgetMapping>)
    ensures |ms| == 14
  {
    [
      WidgetMapping(
        "button",
        [("label", WidgetAttribute(Some(0), "label")),
         ("key", WidgetAttribute(Some(1), "key")),
         ("action", WidgetAttribute(Some(3), "on_click"))],
        Click,
        ""),
      WidgetMapping(
        "checkbox",
        [("label", WidgetAttribute(Some(0), "label")),
         ("key", WidgetAttribute(Some(2), "key")),
         ("action", WidgetAttribute(Some(4), "on_change"))],
        Change,
        ""),
      WidgetMapping(
        "radio",
        [("label", WidgetAttribute(Some(0), "label")),
         ("key", WidgetAttribute(Some(4), "key")),
         ("action", WidgetAttribute(Some(6), "on_change"))],
        Change,
        ""),
      WidgetMapping(
        "selectbox",
        [("label", WidgetAttribute(Some(0), "label")),
         ("key", WidgetAttribute(Some(4), "key")),
         ("action", WidgetAttribute(Some(6), "on_change"))],
        Change,
        ""),
      WidgetMapping(
        "multiselect",
        [("label", WidgetAttribute(Some(0), "label")),
         ("key", WidgetAttribute(Some(4), "key")),
         ("action", WidgetAttribute(Some(6), "on_change"))],
        Change,
        ""),
      WidgetMapping(
        "slider",
        [("label", WidgetAttribute(Some(0), "label")),
         ("key", WidgetAttribute(Some(6), "key")),
         ("action", WidgetAttribute(Some(8), "on_change"))],
        Change,
        ""),
      WidgetMapping(
        "select_slider",
        [("label", WidgetAttribute(Some(0), "label")),
         ("key", WidgetAttribute(Some(4), "key")),
         ("action", WidgetAttribute(Some(6), "on_change"))],
        Change,
        ""),
      WidgetMapping(
        "text_input",
        [("label", WidgetAttribute(Some(0), "label")),
         ("key", WidgetAttribute(Some(3), "key")),
         ("action", WidgetAttribute(Some(7), "on_change"))],
        Change,
        ""),
      WidgetMapping(
        "number_input",
        [("label", WidgetAttribute(Some(0), "label")),
         ("key", WidgetAttribute(Some(6), "key")),
         ("action", WidgetAttribute(Some(8), "on_change"))],
        Change,
        ""),
      WidgetMapping(
        "text_area",
        [("label", WidgetAttribute(Some(0), "label")),
         ("key", WidgetAttribute(Some(4), "key")),
         ("action", WidgetAttribute(Some(6), "on_change"))],
        Change,
        ""),
      WidgetMapping(
        "date_input",
        [("label", WidgetAttribute(Some(0), "label")),
         ("key", WidgetAttribute(Some(4), "key")),
         ("action", WidgetAttribute(Some(6), "on_change"))],
        Change,
        ""),
      WidgetMapping(
        "time_input",
        [("label", WidgetAttribute(Some(0), "label")),
         ("key", WidgetAttribute(Some(2), "key")),
         ("action", WidgetAttribute(Some(4), "on_change"))],
        Change,
        ""),
      WidgetMapping(
        "file_uploader",
        [("label", WidgetAttribute(Some(0), "label")),
         ("key", WidgetAttribute(Some(3), "key")),
         ("action", WidgetAttribute(Some(5), "on_change"))],
        Change,
        ""),
      WidgetMapping(
        "color_picker",
        [("label", WidgetAttribute(Some(0), "label")),
         ("key", WidgetAttribute(Some(2), "key")),
         ("action", WidgetAttribute(Some(4), "on_change"))],
        Change,
        "")
    ]
  }

  /**
   * The layout every recipe follows: label, key and action, in that order,
   * the label first in the call and the key before the callback.
   */
  predicate StandardRecipe(m: WidgetMapping)
  {
    var attrs := m.extractionAttributes;
    && |attrs| == 3
    && attrs[0] == ("label", WidgetAttribute(Some(0), "label"))
    && attrs[1].0 == "key" && attrs[1].1.name == "key"
    && attrs[2].0 == "action"
    && attrs[1].1.index.Some? && attrs[2].1.index.Some?
    && 0 < attrs[1].1.index.value < attrs[2].1.index.value
    && m.documentationUrl == ""
  }

  /** A recipe of the standard layout is one the extractor can work with. */
  lemma StandardRecipeExtractable(m: WidgetMapping)
    requires StandardRecipe(m)
    ensures Extractable(m)
    ensures Keys(m.extractionAttributes) == ["label", "key", "action"]
  {
    assert Keys(m.extractionAttributes)[0] == "label";
    assert Keys(m.extractionAttributes)[1] == "key";
  }

  /** Every recipe follows the standard layout. */
  lemma MappingsShape()
    ensures forall i :: 0 <= i < |Mappings()| ==> StandardRecipe(Mappings()[i])
  {
  }

  /**
   * Only the button is a click, and it alone takes `on_click`; every other
   * widget is a change taking `on_change`.
   */
  lemma MappingsActions()
    ensures forall m :: m in Mappings() ==>
      && (m.actionType == Click <==> m.stWidgetName == "button")
      && (m.actionType == Click ==> m.extractionAttributes[2].1.name == "on_click")
      && (m.actionType != Click ==> m.actionType == Change && m.extractionAttributes[2].1.name == "on_change")
  {
  }

  /** No widget is listed twice. */
  lemma MappingsDistinct()
    ensures forall i, j :: 0 <= i < j < |Mappings()| ==> Mappings()[i].stWidgetName != Mappings()[j].stWidgetName
  {
  }
}
