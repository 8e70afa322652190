/**
 * What the package sees of its host: function objects living in Streamlit's
 * namespaces, the call it finally makes to one of them, and the call of a
 * developer callback. Calling into Streamlit or into application code is
 * outside the model; where a result is needed it comes from a function
 * passed in as a parameter.
 */
module Host {
  import opened Values
  import opened Models

  /** The module that defines `WrappedWidget.wrapped_widget_fn`. */
  const WRAPPED_WIDGET_MODULE := "streamlit_page_analytics.widgets.wrapped_widget"

  /**
   * A function object bound in a namespace: either one defined elsewhere
   * (its `__module__` and an identity) or the bound `wrapped_widget_fn` of
   * a `WrappedWidget` built from a recipe over the original it replaced.
   */
  datatype FnToken =
    | Native(moduleName: string, ident: nat)
    | Wrapper(mapping: WidgetMapping, original: FnToken)

  /** The function's `__module__`. */
  function ModuleOf(f: FnToken): string
  {
    match f
    case Native(m, _) => m
    case Wrapper(_, _) => WRAPPED_WIDGET_MODULE
  }

  /** The origin-module marker by which an installed wrapper is recognised. */
  predicate IsWrapper(f: FnToken)
  {
    ModuleOf(f) == WRAPPED_WIDGET_MODULE
  }

  /** A call of a Streamlit function with positional and keyword arguments. */
  datatype HostCall = HostCall(fn: FnToken, args: seq<Value>, kwargs: Entries)

  /** A call of a developer-supplied callable with the arguments it receives. */
  datatype Invocation = Invocation(callee: Value, args: seq<Value>, kwargs: Entries)
}
