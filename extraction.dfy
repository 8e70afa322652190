/**
 * Reading a widget call (`widgets/widget_attribute_extractor.py`): the
 * extractor holds its own copies of the call's positional list and keyword
 * dict and removes every attribute it takes from them, one attribute at a
 * time, in the order the recipe declares them.
 */
module Extraction {
  import opened Values
  import opened Models
  import opened WidgetModel
  import Config

  const DEFAULT_ELEMENT_ID_PREFIX := "pg-trk-"

  /** Where one attribute was found. */
  datatype Found = FromKeyword | FromPosition(index: nat) | NotFound

  /** The outcome of taking one attribute: its value and what is left of the call. */
  datatype Taken = Taken(value: Value, args: seq<Value>, kwargs: Entries, found: Found)

  /** The attribute can be read from the positional list as it stands. */
  predicate PositionUsable(attr: WidgetAttribute, args: seq<Value>)
  {
    && args != []
    && attr.index.Some?
    && |args| > attr.index.value
    && args[attr.index.value] != VNone
  }

  /**
   * One `check_and_get_attribute`: the keyword is tried first, then the
   * position; whichever supplies the value loses that entry.
   */
  function TakeAttribute(attr: WidgetAttribute, args: seq<Value>, kwargs: Entries): (t: Taken)
    ensures t.found.FromKeyword? <==> attr.name in Keys(kwargs)
    ensures t.found.FromPosition? <==> attr.name !in Keys(kwargs) && PositionUsable(attr, args)
    ensures t.found.FromKeyword? ==>
      Get(kwargs, attr.name) == Some(t.value) && t.args == args && t.kwargs == Remove(kwargs, attr.name)
    ensures t.found.FromPosition? ==>
      && attr.index == Some(t.found.index) && t.found.index < |args|
      && t.value == args[t.found.index] && t.value != VNone
      && t.args == args[..t.found.index] + args[t.found.index + 1..] && t.kwargs == kwargs
    ensures t.found.NotFound? ==> t.value == VNone && t.args == args && t.kwargs == kwargs
    ensures |t.args| + |t.kwargs| + (if t.found.NotFound? then 0 else 1) == |args| + |kwargs|
  {
    if attr.name in Keys(kwargs) then
      Taken(Get(kwargs, attr.name).value, args, Remove(kwargs, attr.name), FromKeyword)
    else if PositionUsable(attr, args) then
      var i := attr.index.value;
      Taken(args[i], args[..i] + args[i + 1..], kwargs, FromPosition(i))
    else
      Taken(VNone, args, kwargs, NotFound)
  }

  /**
   * Putting the taken value back where it came from gives the call again:
   * the positional list exactly, the keyword dict up to the position of the
   * re-inserted key.
   */
  lemma TakeAttributeRoundTrip(attr: WidgetAttribute, args: seq<Value>, kwargs: Entries)
    requires UniqueKeys(kwargs)
    ensures var t := TakeAttribute(attr, args, kwargs);
      match t.found
      case FromKeyword =>
        && t.args == args
        && forall k :: Get(Put(t.kwargs, attr.name, t.value), k) == Get(kwargs, k)
      case FromPosition(i) =>
        t.kwargs == kwargs && t.args[..i] + [t.value] + t.args[i..] == args
      case NotFound =>
        t.args == args && t.kwargs == kwargs
  {
    var t := TakeAttribute(attr, args, kwargs);
    match t.found
    case FromKeyword =>
      forall k
        ensures Get(Put(t.kwargs, attr.name, t.value), k) == Get(kwargs, k)
      {
        GetPut(t.kwargs, attr.name, t.value, k);
        GetRemove(kwargs, attr.name, k);
      }
    case FromPosition(i) =>
      assert t.args[..i] == args[..i];
      assert t.args[i..] == args[i + 1..];
      assert args == args[..i] + [args[i]] + args[i + 1..];
    case NotFound =>
  }

  /** The state of the call after all attributes are taken, and what they yielded. */
  datatype Extraction = Extraction(args: seq<Value>, kwargs: Entries, extracted: Entries)

  /** Some attribute of the recipe is looked for under keyword `k`. */
  predicate NamedByRecipe(k: string, attrs: seq<(string, WidgetAttribute)>)
  {
    exists i :: 0 <= i < |attrs| && attrs[i].1.name == k
  }

  /**
   * `_extract_all_attributes`: every attribute in declaration order, each
   * step working on what the previous ones left. Positions therefore index
   * the list as already shortened.
   */
  function ExtractAll(attrs: seq<(string, WidgetAttribute)>, args: seq<Value>, kwargs: Entries): (x: Extraction)
    decreases |attrs|
    ensures Keys(x.extracted) == Keys(attrs)
    ensures IsSubsequence(x.args, args)
    ensures forall i :: 0 <= i < |x.kwargs| ==> x.kwargs[i] in kwargs
    ensures forall k :: k in Keys(kwargs) && !NamedByRecipe(k, attrs) ==> k in Keys(x.kwargs)
    ensures |args| + |kwargs| <= |x.args| + |x.kwargs| + |attrs|
    ensures UniqueKeys(kwargs) ==> UniqueKeys(x.kwargs)
    ensures UniqueKeys(kwargs) ==> forall k :: k in Keys(x.kwargs) ==> !NamedByRecipe(k, attrs)
  {
    if attrs == [] then
      IsSubsequenceRefl(args);
      Extraction(args, kwargs, [])
    else
      var n := |attrs| - 1;
      var prev := ExtractAll(attrs[..n], args, kwargs);
      var t := TakeAttribute(attrs[n].1, prev.args, prev.kwargs);
      var x := Extraction(t.args, t.kwargs, prev.extracted + [(attrs[n].0, t.value)]);
      ExtractKeys(attrs, n, prev.extracted, t.value);
      TakeKeepsOrder(attrs[n].1, prev.args, prev.kwargs);
      IsSubsequenceTrans(x.args, prev.args, args);
      ExtractStep(attrs, n, kwargs, prev.kwargs, TakeAttribute(attrs[n].1, prev.args, prev.kwargs));
      x
  }

  /**
   * The positional arguments extraction removes, in the order it removes
   * them, each with the index it is removed from.
   */
  function PositionallyTaken(attrs: seq<(string, WidgetAttribute)>, args: seq<Value>, kwargs: Entries)
    : (ts: seq<(nat, Value)>)
    decreases |attrs|
    ensures |ts| <= |attrs|
    ensures forall j :: 0 <= j < |ts| ==> ts[j].1 != VNone
  {
    if attrs == [] then []
    else
      var n := |attrs| - 1;
      var prev := ExtractAll(attrs[..n], args, kwargs);
      var t := TakeAttribute(attrs[n].1, prev.args, prev.kwargs);
      PositionallyTaken(attrs[..n], args, kwargs) + (if t.found.FromPosition? then [(t.found.index, t.value)] else [])
  }

  /**
   * `list.insert` of every removed argument at its index, the last removal
   * undone first (an index past the end appends, as `list.insert` does).
   */
  function Reinserted(rest: seq<Value>, taken: seq<(nat, Value)>): (r: seq<Value>)
    decreases |taken|
    ensures |r| == |rest| + |taken|
  {
    if taken == [] then rest
    else
      var i := taken[|taken| - 1].0;
      var v := taken[|taken| - 1].1;
      var back := if i <= |rest| then rest[..i] + [v] + rest[i..] else rest + [v];
      Reinserted(back, taken[..|taken| - 1])
  }

  /**
   * Extraction removes exactly the positionally taken arguments: putting
   * them back where they were taken from gives the caller's list again.
   */
  lemma {:induction false} ExtractAllReinsert(attrs: seq<(string, WidgetAttribute)>, args: seq<Value>, kwargs: Entries)
    ensures Reinserted(ExtractAll(attrs, args, kwargs).args, PositionallyTaken(attrs, args, kwargs)) == args
    ensures |args| == |ExtractAll(attrs, args, kwargs).args| + |PositionallyTaken(attrs, args, kwargs)|
    decreases |attrs|
  {
    if attrs != [] {
      var n := |attrs| - 1;
      var prev := ExtractAll(attrs[..n], args, kwargs);
      var t := TakeAttribute(attrs[n].1, prev.args, prev.kwargs);
      var before := PositionallyTaken(attrs[..n], args, kwargs);
      ExtractAllReinsert(attrs[..n], args, kwargs);
      LastStep(attrs, args, kwargs, prev, t, before);
      if t.found.FromPosition? {
        TakenFromPosition(attrs[n].1, prev.args, prev.kwargs, t);
        ReinsertLast(t.args, before, t.found.index, t.value, prev.args);
      }
    }
  }

  /**
   * What extraction yields for attribute `j`: the value `check_and_get_attribute`
   * takes from the call as the first `j` attributes left it. When that value
   * came from a position it is one of the positionally taken arguments, and
   * when it was found neither way it is None.
   */
  lemma {:induction false} ExtractedAt(attrs: seq<(string, WidgetAttribute)>, args: seq<Value>, kwargs: Entries, j: nat)
    requires j < |attrs|
    ensures var prev := ExtractAll(attrs[..j], args, kwargs);
      var t := TakeAttribute(attrs[j].1, prev.args, prev.kwargs);
      && ExtractAll(attrs, args, kwargs).extracted[j] == (attrs[j].0, t.value)
      && (t.found.FromPosition? ==> (t.found.index, t.value) in PositionallyTaken(attrs, args, kwargs))
      && (t.found.NotFound? ==> ExtractAll(attrs, args, kwargs).extracted[j].1 == VNone)
    decreases |attrs|
  {
    var n := |attrs| - 1;
    var prev := ExtractAll(attrs[..n], args, kwargs);
    var t := TakeAttribute(attrs[n].1, prev.args, prev.kwargs);
    var before := PositionallyTaken(attrs[..n], args, kwargs);
    LastStep(attrs, args, kwargs, prev, t, before);
    if j < n {
      PrefixOfPrefix(attrs, n, j);
      ExtractedAt(attrs[..n], args, kwargs, j);
      var prevJ := ExtractAll(attrs[..j], args, kwargs);
      var tJ := TakeAttribute(attrs[j].1, prevJ.args, prevJ.kwargs);
      if tJ.found.FromPosition? && t.found.FromPosition? {
        InExtension(before, [(t.found.index, t.value)], (tJ.found.index, tJ.value));
      }
    } else {
      assert j == n;
      if t.found.FromPosition? {
        assert (before + [(t.found.index, t.value)])[|before|] == (t.found.index, t.value);
      }
    }
  }

  lemma InExtension<T>(a: seq<T>, b: seq<T>, x: T)
    requires x in a
    ensures x in a + b
  {
  }

  /** A prefix of a prefix is a prefix. */
  lemma PrefixOfPrefix<T>(s: seq<T>, n: nat, j: nat)
    requires j < n <= |s|
    ensures s[..n][..j] == s[..j] && s[..n][j] == s[j]
  {
  }

  /**
   * A keyword the caller passed, and that no earlier attribute claims, is
   * extracted with the caller's value.
   */
  lemma ExtractedFromKeyword(attrs: seq<(string, WidgetAttribute)>, args: seq<Value>, kwargs: Entries, j: nat)
    requires UniqueKeys(kwargs) && j < |attrs|
    requires attrs[j].1.name in Keys(kwargs)
    requires forall i :: 0 <= i < j ==> attrs[i].1.name != attrs[j].1.name
    ensures ExtractAll(attrs, args, kwargs).extracted[j] == (attrs[j].0, Get(kwargs, attrs[j].1.name).value)
  {
    ExtractedAt(attrs, args, kwargs, j);
    assert !NamedByRecipe(attrs[j].1.name, attrs[..j]);
    UnnamedKwargSurvives(attrs[..j], args, kwargs, attrs[j].1.name);
  }

  /**
   * For a recipe of the standard layout, the label, the key and the callback
   * the caller passed by keyword are what extraction yields under "label",
   * "key" and "action" (the callback when its keyword is neither "label"
   * nor "key", which the first two attributes would claim first).
   */
  lemma StandardKeywordsExtracted(m: WidgetMapping, args: seq<Value>, kwargs: Entries)
    requires Config.StandardRecipe(m) && UniqueKeys(kwargs)
    ensures var attrs := m.extractionAttributes;
      var x := ExtractAll(attrs, args, kwargs);
      && ("label" in Keys(kwargs) ==> GetOrNone(x.extracted, "label") == Get(kwargs, "label").value)
      && ("key" in Keys(kwargs) ==> GetOrNone(x.extracted, "key") == Get(kwargs, "key").value)
      && (attrs[2].1.name in Keys(kwargs) && attrs[2].1.name != "label" && attrs[2].1.name != "key" ==>
            GetOrNone(x.extracted, "action") == Get(kwargs, attrs[2].1.name).value)
  {
    Config.StandardRecipeExtractable(m);
    var attrs := m.extractionAttributes;
    ThreeKeywordsExtracted(attrs, args, kwargs);
  }

  /** `StandardKeywordsExtracted` for any three distinct attributes. */
  lemma ThreeKeywordsExtracted(attrs: seq<(string, WidgetAttribute)>, args: seq<Value>, kwargs: Entries)
    requires UniqueKeys(kwargs) && UniqueKeys(attrs) && |attrs| >= 3
    ensures attrs[0].1.name in Keys(kwargs) ==>
      GetOrNone(ExtractAll(attrs, args, kwargs).extracted, attrs[0].0) == Get(kwargs, attrs[0].1.name).value
    ensures attrs[1].1.name in Keys(kwargs) && attrs[1].1.name != attrs[0].1.name ==>
      GetOrNone(ExtractAll(attrs, args, kwargs).extracted, attrs[1].0) == Get(kwargs, attrs[1].1.name).value
    ensures attrs[2].1.name in Keys(kwargs) && attrs[2].1.name != attrs[0].1.name && attrs[2].1.name != attrs[1].1.name ==>
      GetOrNone(ExtractAll(attrs, args, kwargs).extracted, attrs[2].0) == Get(kwargs, attrs[2].1.name).value
  {
    if attrs[0].1.name in Keys(kwargs) {
      assert GetOrNone(ExtractAll(attrs, args, kwargs).extracted, attrs[0].0) == Get(kwargs, attrs[0].1.name).value by {
        KeywordExtractedUnder(attrs, args, kwargs, 0);
      }
    }
    if attrs[1].1.name in Keys(kwargs) && attrs[1].1.name != attrs[0].1.name {
      assert GetOrNone(ExtractAll(attrs, args, kwargs).extracted, attrs[1].0) == Get(kwargs, attrs[1].1.name).value by {
        KeywordExtractedUnder(attrs, args, kwargs, 1);
      }
    }
    if attrs[2].1.name in Keys(kwargs) && attrs[2].1.name != attrs[0].1.name && attrs[2].1.name != attrs[1].1.name {
      assert GetOrNone(ExtractAll(attrs, args, kwargs).extracted, attrs[2].0) == Get(kwargs, attrs[2].1.name).value by {
        forall i | 0 <= i < 2
          ensures attrs[i].1.name != attrs[2].1.name
        {
          if i == 1 {
          }
        }
        KeywordExtractedUnder(attrs, args, kwargs, 2);
      }
    }
  }

  /** `ExtractedFromKeyword`, read through the extracted dict. */
  lemma KeywordExtractedUnder(attrs: seq<(string, WidgetAttribute)>, args: seq<Value>, kwargs: Entries, j: nat)
    requires UniqueKeys(kwargs) && UniqueKeys(attrs) && j < |attrs|
    requires attrs[j].1.name in Keys(kwargs)
    requires forall i :: 0 <= i < j ==> attrs[i].1.name != attrs[j].1.name
    ensures GetOrNone(ExtractAll(attrs, args, kwargs).extracted, attrs[j].0) == Get(kwargs, attrs[j].1.name).value
  {
    var x := ExtractAll(attrs, args, kwargs);
    ExtractedFromKeyword(attrs, args, kwargs, j);
    assert forall i :: 0 <= i < |x.extracted| ==> x.extracted[i].0 == Keys(attrs)[i];
    GetAt(x.extracted, j);
  }

  /** An argument taken by position goes back at that position. */
  lemma TakenFromPosition(attr: WidgetAttribute, args: seq<Value>, kwargs: Entries, t: Taken)
    requires t == TakeAttribute(attr, args, kwargs) && t.found.FromPosition?
    ensures t.found.index <= |t.args|
    ensures t.args[..t.found.index] + [t.value] + t.args[t.found.index..] == args
  {
    var i := t.found.index;
    assert t.args[..i] == args[..i];
    assert t.args[i..] == args[i + 1..];
    assert args == args[..i] + [args[i]] + args[i + 1..];
  }

  /** The fold's last step, for both the remaining arguments and the taken ones. */
  lemma LastStep(attrs: seq<(string, WidgetAttribute)>, args: seq<Value>, kwargs: Entries,
                 prev: Extraction, t: Taken, before: seq<(nat, Value)>)
    requires attrs != []
    requires prev == ExtractAll(attrs[..|attrs| - 1], args, kwargs)
    requires t == TakeAttribute(attrs[|attrs| - 1].1, prev.args, prev.kwargs)
    requires before == PositionallyTaken(attrs[..|attrs| - 1], args, kwargs)
    ensures ExtractAll(attrs, args, kwargs).args == t.args
    ensures ExtractAll(attrs, args, kwargs).extracted == prev.extracted + [(attrs[|attrs| - 1].0, t.value)]
    ensures t.found.FromPosition? ==> PositionallyTaken(attrs, args, kwargs) == before + [(t.found.index, t.value)]
    ensures !t.found.FromPosition? ==> PositionallyTaken(attrs, args, kwargs) == before && t.args == prev.args
  {
    assert before + [] == before;
  }

  /** Undoing one more removal, the last one first. */
  lemma ReinsertLast(rest: seq<Value>, before: seq<(nat, Value)>, i: nat, v: Value, back: seq<Value>)
    requires i <= |rest| && back == rest[..i] + [v] + rest[i..]
    ensures Reinserted(rest, before + [(i, v)]) == Reinserted(back, before)
  {
    var ts := before + [(i, v)];
    assert ts[..|ts| - 1] == before;
  }

  /** One more attribute extracted under its own name keeps the names in recipe order. */
  lemma ExtractKeys(attrs: seq<(string, WidgetAttribute)>, n: nat, prevExtracted: Entries, v: Value)
    requires n + 1 == |attrs| && Keys(prevExtracted) == Keys(attrs[..n])
    ensures Keys(prevExtracted + [(attrs[n].0, v)]) == Keys(attrs)
  {
    assert attrs == attrs[..n] + [attrs[n]];
    KeysAppend(attrs[..n], [attrs[n]]);
    KeysAppend(prevExtracted, [(attrs[n].0, v)]);
  }

  /** One more attribute keeps what `ExtractAll` promises of the keyword arguments. */
  lemma ExtractStep(attrs: seq<(string, WidgetAttribute)>, n: nat, kwargs: Entries, prevKwargs: Entries, t: Taken)
    requires n + 1 == |attrs|
    requires t.found.FromKeyword? ==> t.kwargs == Remove(prevKwargs, attrs[n].1.name)
    requires !t.found.FromKeyword? ==> t.kwargs == prevKwargs
    requires forall i :: 0 <= i < |prevKwargs| ==> prevKwargs[i] in kwargs
    requires forall k :: k in Keys(kwargs) && !NamedByRecipe(k, attrs[..n]) ==> k in Keys(prevKwargs)
    requires UniqueKeys(kwargs) ==> UniqueKeys(prevKwargs)
    requires UniqueKeys(kwargs) ==> forall k :: k in Keys(prevKwargs) ==> !NamedByRecipe(k, attrs[..n])
    requires t.found.FromKeyword? <==> attrs[n].1.name in Keys(prevKwargs)
    ensures forall i :: 0 <= i < |t.kwargs| ==> t.kwargs[i] in kwargs
    ensures forall k :: k in Keys(kwargs) && !NamedByRecipe(k, attrs) ==> k in Keys(t.kwargs)
    ensures UniqueKeys(kwargs) ==> UniqueKeys(t.kwargs)
    ensures UniqueKeys(kwargs) ==> forall k :: k in Keys(t.kwargs) ==> !NamedByRecipe(k, attrs)
  {
    NamedByPrefix(attrs, n);
    assert attrs[..n + 1] == attrs;
    if UniqueKeys(kwargs) {
      forall k | k in Keys(t.kwargs)
        ensures !NamedByRecipe(k, attrs)
      {
        var j := IndexOf(t.kwargs, k);
        assert t.kwargs[j] in prevKwargs;
        var j' :| 0 <= j' < |prevKwargs| && prevKwargs[j'] == t.kwargs[j];
        assert Keys(prevKwargs)[j'] == k;
        if NamedByRecipe(k, attrs) {
          NamedByLast(attrs, n, k);
          assert false;
        }
      }
    }
  }

  /** A keyword named by a recipe is named by all but its last attribute, or by the last. */
  lemma NamedByLast(attrs: seq<(string, WidgetAttribute)>, n: nat, k: string)
    requires n + 1 == |attrs| && NamedByRecipe(k, attrs)
    ensures NamedByRecipe(k, attrs[..n]) || attrs[n].1.name == k
  {
    var i :| 0 <= i < |attrs| && attrs[i].1.name == k;
    if i < n {
      assert attrs[..n][i].1.name == k;
    }
  }

  /** Taking one attribute leaves the remaining positional arguments in order. */
  lemma TakeKeepsOrder(attr: WidgetAttribute, args: seq<Value>, kwargs: Entries)
    ensures IsSubsequence(TakeAttribute(attr, args, kwargs).args, args)
  {
    var t := TakeAttribute(attr, args, kwargs);
    if t.found.FromPosition? {
      IsSubsequenceDelete(args, t.found.index);
    } else {
      IsSubsequenceRefl(args);
    }
  }

  /** A keyword named by a prefix of the recipe, or by its next attribute, is named by the longer recipe. */
  lemma NamedByPrefix(attrs: seq<(string, WidgetAttribute)>, n: nat)
    requires n < |attrs|
    ensures forall k :: NamedByRecipe(k, attrs[..n]) ==> NamedByRecipe(k, attrs[..n + 1])
    ensures NamedByRecipe(attrs[n].1.name, attrs[..n + 1])
  {
    forall k | NamedByRecipe(k, attrs[..n])
      ensures NamedByRecipe(k, attrs[..n + 1])
    {
      var i :| 0 <= i < n && attrs[..n][i].1.name == k;
      assert attrs[..n + 1][i].1.name == k;
    }
    assert attrs[..n + 1][n].1.name == attrs[n].1.name;
  }

  /**
   * A keyword argument that no attribute is looked for under survives
   * extraction with its value.
   */
  lemma UnnamedKwargSurvives(attrs: seq<(string, WidgetAttribute)>, args: seq<Value>, kwargs: Entries, k: string)
    requires UniqueKeys(kwargs)
    requires k in Keys(kwargs) && !NamedByRecipe(k, attrs)
    ensures Get(ExtractAll(attrs, args, kwargs).kwargs, k) == Get(kwargs, k)
  {
    var x := ExtractAll(attrs, args, kwargs);
    var i := IndexOf(x.kwargs, k);
    assert x.kwargs[i] in kwargs;
  }

  /**
   * Positions index the list as already shortened: for a call such as
   * `st.button(label, key)` the label is taken from position 0, after which
   * the key's position (1 or later) is past the end of what is left, so the
   * key is not extracted and stays positional. This holds for every recipe
   * of the standard layout.
   */
  lemma PositionalKeyShiftsAfterLabel(m: WidgetMapping, widgetLabel: Value, second: Value)
    requires Config.StandardRecipe(m) && widgetLabel != VNone
    ensures ExtractAll(m.extractionAttributes, [widgetLabel, second], []) ==
      Extraction([second], [], [("label", widgetLabel), ("key", VNone), ("action", VNone)])
  {
    var attrs := m.extractionAttributes;
    var args := [widgetLabel, second];
    var x2 := Extraction([second], [], [("label", widgetLabel), ("key", VNone)]);
    LabelThenNoKey(attrs, widgetLabel, second);
    LastNothingFound(attrs, args, x2);
  }

  /** The label and then nothing for an attribute whose position lies past the one argument left. */
  lemma LabelThenNoKey(attrs: seq<(string, WidgetAttribute)>, widgetLabel: Value, second: Value)
    requires 1 < |attrs| && attrs[0] == ("label", WidgetAttribute(Some(0), "label")) && widgetLabel != VNone
    requires attrs[1].0 == "key" && attrs[1].1.index.Some? && attrs[1].1.index.value >= 1
    ensures ExtractAll(attrs[..2], [widgetLabel, second], []) ==
      Extraction([second], [], [("label", widgetLabel), ("key", VNone)])
  {
    LabelFromPositionZero(attrs, widgetLabel, second);
    NothingMoreFound(attrs, 1, [widgetLabel, second], Extraction([second], [], [("label", widgetLabel)]));
  }

  /** The fold's last attribute, found neither by keyword nor by position. */
  lemma LastNothingFound(attrs: seq<(string, WidgetAttribute)>, args: seq<Value>, prev: Extraction)
    requires 0 < |attrs| && prev == ExtractAll(attrs[..|attrs| - 1], args, []) && prev.kwargs == []
    requires attrs[|attrs| - 1].1.index.Some? && attrs[|attrs| - 1].1.index.value >= |prev.args|
    ensures ExtractAll(attrs, args, []) == Extraction(prev.args, [], prev.extracted + [(attrs[|attrs| - 1].0, VNone)])
  {
  }

  /** The first attribute, at position 0, takes the first positional argument. */
  lemma LabelFromPositionZero(attrs: seq<(string, WidgetAttribute)>, widgetLabel: Value, second: Value)
    requires 0 < |attrs| && attrs[0] == ("label", WidgetAttribute(Some(0), "label")) && widgetLabel != VNone
    ensures ExtractAll(attrs[..1], [widgetLabel, second], []) == Extraction([second], [], [("label", widgetLabel)])
  {
    var args := [widgetLabel, second];
    assert attrs[..1][..0] == [];
    assert args[..0] + args[1..] == [second];
  }

  /** An attribute with no keyword and no usable position yields None and changes nothing. */
  lemma NothingMoreFound(attrs: seq<(string, WidgetAttribute)>, n: nat, args: seq<Value>, prev: Extraction)
    requires n < |attrs| && prev == ExtractAll(attrs[..n], args, []) && prev.kwargs == []
    requires attrs[n].1.index.Some? && attrs[n].1.index.value >= |prev.args|
    ensures ExtractAll(attrs[..n + 1], args, []) == Extraction(prev.args, [], prev.extracted + [(attrs[n].0, VNone)])
  {
    assert attrs[..n + 1][..n] == attrs[..n];
  }

  /** `extracted_attributes.get(name, None)`. */
  function GetOrNone(d: Entries, name: string): (v: Value)
    ensures name !in Keys(d) ==> v == VNone
    ensures name in Keys(d) ==> Some(v) == Get(d, name)
  {
    match Get(d, name)
    case None => VNone
    case Some(v) => v
  }

  /**
   * The widget id: the key when it is truthy, otherwise the prefix followed
   * by the CRC-32 of the label (`get_crc32_hash`, a decimal string).
   */
  function WidgetId(key: Value, widgetLabel: Value, crc32Hash: Value -> string): (id: Value)
    ensures Truthy(id)
    ensures Truthy(key) ==> id == key
    ensures !Truthy(key) ==> id == VStr(DEFAULT_ELEMENT_ID_PREFIX + crc32Hash(widgetLabel))
  {
    if Truthy(key) then key else VStr(DEFAULT_ELEMENT_ID_PREFIX + crc32Hash(widgetLabel))
  }

  /**
   * Any falsy key (None, "", 0, an empty collection) takes the hash path, so
   * the id depends on the label alone: two calls with the same label and no
   * key get the same id.
   */
  lemma WidgetIdWithoutKey(key1: Value, key2: Value, widgetLabel: Value, crc32Hash: Value -> string)
    requires !Truthy(key1) && !Truthy(key2)
    ensures WidgetId(key1, widgetLabel, crc32Hash) == WidgetId(key2, widgetLabel, crc32Hash)
    ensures WidgetId(VNone, widgetLabel, crc32Hash) == WidgetId(VStr(""), widgetLabel, crc32Hash)
  {
  }

  /**
   * The ids the widget tests expect for two unkeyed widgets, given the
   * decimal CRC-32 strings of their labels.
   */
  lemma PinnedWidgetIds(crc32Hash: Value -> string)
    requires crc32Hash(VStr("Test Button Without Key")) == "15113830"
    requires crc32Hash(VStr("Test Text Input without key")) == "1613747494"
    ensures WidgetId(VNone, VStr("Test Button Without Key"), crc32Hash) == VStr("pg-trk-15113830")
    ensures WidgetId(VNone, VStr("Test Text Input without key"), crc32Hash) == VStr("pg-trk-1613747494")
  {
  }

  /**
   * No recipe declares a "value" attribute, so every widget read with one
   * of them starts with no current value.
   */
  lemma RecipeWidgetsStartEmpty(i: nat, args: seq<Value>, kwargs: Entries)
    requires i < |Config.Mappings()|
    ensures GetOrNone(ExtractAll(Config.Mappings()[i].extractionAttributes, args, kwargs).extracted, "value") == VNone
  {
    Config.MappingsShape();
    Config.StandardRecipeExtractable(Config.Mappings()[i]);
  }

  /** The result of `extract_widget`. */
  datatype ExtractedWidget = ExtractedWidget(
    widget: Widget,
    unextractedArgs: seq<Value>,
    unextractedKwargs: Entries,
    originalActionCallbackFn: Value)

  class WidgetAttributeExtractor {
    const widgetType: string
    const extractionAttributes: seq<(string, WidgetAttribute)>
    var arguments: seq<Value>
    var kwarguments: Entries

    /** Takes its own copies of the call's arguments. */
    constructor (widgetType: string, extractionAttributes: seq<(string, WidgetAttribute)>,
                 arguments: seq<Value>, kwarguments: Entries)
      ensures this.widgetType == widgetType && this.extractionAttributes == extractionAttributes
      ensures this.arguments == arguments && this.kwarguments == kwarguments
    {
      this.widgetType := widgetType;
      this.extractionAttributes := extractionAttributes;
      this.arguments := arguments;
      this.kwarguments := kwarguments;
    }

    /**
     * `check_and_get_attribute`: KeyError for a name the recipe does not
     * declare; otherwise one step of `TakeAttribute` on the held arguments.
     */
    method CheckAndGetAttribute(attributeName: string) returns (r: Result<Value>)
      modifies this
      ensures r.Err? <==> attributeName !in Keys(extractionAttributes)
      ensures r.Err? ==> r.error == KeyError && arguments == old(arguments) && kwarguments == old(kwarguments)
      ensures r.Ok? ==>
        var t := TakeAttribute(Get(extractionAttributes, attributeName).value, old(arguments), old(kwarguments));
        r.value == t.value && arguments == t.args && kwarguments == t.kwargs
    {
      if attributeName !in Keys(extractionAttributes) {
        return Err(KeyError);
      }
      var attribute := Get(extractionAttributes, attributeName).value;
      if attribute.name in Keys(kwarguments) {
        var value := Get(kwarguments, attribute.name).value;
        kwarguments := Remove(kwarguments, attribute.name);
        return Ok(value);
      }
      if arguments != [] && attribute.index.Some? && |arguments| > attribute.index.value
         && arguments[attribute.index.value] != VNone {
        var i := attribute.index.value;
        var value := arguments[i];
        arguments := arguments[..i] + arguments[i + 1..];
        return Ok(value);
      }
      return Ok(VNone);
    }

    /**
     * `_extract_all_attributes`: the remaining arguments are the held lists
     * after every attribute has been taken from them (the tuple shares them
     * with the extractor, so it sees the removals).
     */
    method ExtractAllAttributes() returns (remainingArgs: seq<Value>, remainingKwargs: Entries, extracted: Entries)
      requires UniqueKeys(extractionAttributes)
      modifies this
      ensures Extraction(remainingArgs, remainingKwargs, extracted) ==
        ExtractAll(extractionAttributes, old(arguments), old(kwarguments))
      ensures arguments == remainingArgs && kwarguments == remainingKwargs
    {
      extracted := [];
      for i := 0 to |extractionAttributes|
        invariant Extraction(arguments, kwarguments, extracted) ==
          ExtractAll(extractionAttributes[..i], old(arguments), old(kwarguments))
      {
        var name := extractionAttributes[i].0;
        assert Keys(extractionAttributes)[i] == name;
        GetAt(extractionAttributes, i);
        var r := CheckAndGetAttribute(name);
        extracted := extracted + [(name, r.value)];
        assert extractionAttributes[..i + 1][..i] == extractionAttributes[..i];
      }
      assert extractionAttributes[..|extractionAttributes|] == extractionAttributes;
      remainingArgs, remainingKwargs := arguments, kwarguments;
    }

    /**
     * `extract_widget`: a fresh widget built from the extracted attributes,
     * the callback, and what is left of the call. KeyError when the recipe
     * declares no key or no label (the arguments are consumed all the same).
     */
    method ExtractWidget(extra: Value, crc32Hash: Value -> string) returns (r: Result<ExtractedWidget>)
      requires UniqueKeys(extractionAttributes)
      modifies this
      ensures var x := ExtractAll(extractionAttributes, old(arguments), old(kwarguments));
        arguments == x.args && kwarguments == x.kwargs
      ensures r.Err? <==> "key" !in Keys(extractionAttributes) || "label" !in Keys(extractionAttributes)
      ensures r.Err? ==> r.error == KeyError
      ensures r.Ok? ==>
        var x := ExtractAll(extractionAttributes, old(arguments), old(kwarguments));
        var w := r.value.widget;
        && fresh(w)
        && w.id == WidgetId(GetOrNone(x.extracted, "key"), GetOrNone(x.extracted, "label"), crc32Hash)
        && w.widgetType == widgetType
        && w.widgetLabel == GetOrNone(x.extracted, "label")
        && w.values == WidgetValues(GetOrNone(x.extracted, "value"), VNone)
        && w.extra == extra
        && r.value.originalActionCallbackFn == GetOrNone(x.extracted, "action")
        && r.value.unextractedArgs == x.args
        && r.value.unextractedKwargs == x.kwargs
    {
      var remainingArgs, remainingKwargs, extracted := ExtractAllAttributes();
      if "key" !in Keys(extracted) || "label" !in Keys(extracted) {
        return Err(KeyError);
      }
      var widgetLabel := Get(extracted, "label").value;
      var widgetId := WidgetId(Get(extracted, "key").value, widgetLabel, crc32Hash);
      var widget := new Widget(widgetId, widgetType, widgetLabel,
                               WidgetValues(GetOrNone(extracted, "value"), VNone), extra);
      return Ok(ExtractedWidget(widget, remainingArgs, remainingKwargs, GetOrNone(extracted, "action")));
    }
  }
}
