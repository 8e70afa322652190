/**
 * The key under which an original Streamlit function is remembered
 * (`models/widget_mapping_key.py`): Python equality and hashing.
 */
module MappingKeys {

  datatype WidgetMappingKey = WidgetMappingKey(containerName: string, widgetName: string)

  /** The right operand of `==`: another key, or some other object. */
  datatype Operand = Key(key: WidgetMappingKey) | NotAKey

  /** What `__eq__` returns. */
  datatype EqResult = Bool(b: bool) | NotImplemented

  /** `WidgetMappingKey.__eq__`. */
  function Eq(self: WidgetMappingKey, other: Operand): (r: EqResult)
    ensures other.NotAKey? <==> r == NotImplemented
    ensures other.Key? ==> (r == Bool(true) <==> self == other.key)
  {
    match other
    case NotAKey => NotImplemented
    case Key(k) => Bool(self.containerName == k.containerName && self.widgetName == k.widgetName)
  }

  /**
   * `str.format(template, *args)` for templates whose only replacement
   * fields are automatically numbered `{}`; a template with no `{` is
   * returned as it is.
   */
  function Format(template: string, args: seq<string>): string
    decreases |template|
  {
    if template == [] then []
    else if |template| >= 2 && template[0] == '{' && template[1] == '}' && args != [] then
      args[0] + Format(template[2..], args[1..])
    else [template[0]] + Format(template[1..], args)
  }

  /** A template without replacement fields formats to itself, whatever the arguments. */
  lemma {:induction false} FormatWithoutFields(template: string, args: seq<string>)
    requires '{' !in template
    ensures Format(template, args) == template
  {
    if template != [] {
      assert template[0] != '{';
      assert '{' !in template[1..];
      FormatWithoutFields(template[1..], args);
      assert [template[0]] + template[1..] == template;
    }
  }

  const HASH_TEMPLATE := "%s.%s"

  /** The string `__hash__` feeds to CRC-32. */
  function HashInput(self: WidgetMappingKey): string
  {
    Format(HASH_TEMPLATE, [self.containerName, self.widgetName])
  }

  /**
   * `WidgetMappingKey.__hash__`: the CRC-32 of the formatted key, masked to
   * 32 bits. `crc32` stands for `zlib.crc32` on the UTF-8 encoding.
   */
  function Hash(self: WidgetMappingKey, crc32: string -> int): (h: int)
    ensures 0 <= h < 0x1_0000_0000
  {
    crc32(HashInput(self)) % 0x1_0000_0000
  }

  /**
   * The format string uses `%s` rather than `{}`, so every key hashes the
   * same input and therefore the same value.
   */
  lemma HashIsConstant(a: WidgetMappingKey, b: WidgetMappingKey, crc32: string -> int)
    ensures HashInput(a) == HASH_TEMPLATE
    ensures Hash(a, crc32) == Hash(b, crc32)
  {
    FormatWithoutFields(HASH_TEMPLATE, [a.containerName, a.widgetName]);
    FormatWithoutFields(HASH_TEMPLATE, [b.containerName, b.widgetName]);
  }

  /** Equality between keys is symmetric. */
  lemma EqSymmetric(a: WidgetMappingKey, b: WidgetMappingKey)
    ensures Eq(a, Key(b)) == Eq(b, Key(a))
  {
  }

  /** Equal keys have equal hashes. */
  lemma HashConsistentWithEq(a: WidgetMappingKey, b: WidgetMappingKey, crc32: string -> int)
    requires Eq(a, Key(b)) == Bool(true)
    ensures Hash(a, crc32) == Hash(b, crc32)
  {
  }
}
