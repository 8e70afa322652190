/**
 * Pruning of empty values before an event record is serialised
 * (`utils/clean_values.py`).
 */
module CleanValues {
  import opened Values

  /** The values `_check_if_empty_or_none` treats as empty. */
  predicate CheckIfEmptyOrNone(v: Value)
  {
    || v == VNone
    || v == VStr("")
    || v == VStr("[]")
    || v == VStr("{}")
    || v == VList([])
    || v == VDict([])
    || v == VTuple([])
  }

  /**
   * `clean_values`: a dict loses its empty entries and keeps the others, each
   * cleaned in turn; a list has every element cleaned; anything else is
   * returned as it is.
   */
  function CleanValues(v: Value): (r: Value)
    decreases v
    ensures r == VNone <==> v == VNone
    ensures v.VDict? <==> r.VDict?
    ensures v.VList? <==> r.VList?
    ensures v.VList? ==> |r.items| == |v.items|
    ensures v.VList? ==> forall i :: 0 <= i < |v.items| ==> r.items[i] == CleanValues(v.items[i])
    ensures r.VDict? ==> forall e :: e in r.entries ==> e.1 != VNone
    ensures !v.VDict? && !v.VList? ==> r == v
  {
    match v
    case VDict(entries) => VDict(CleanEntries(entries))
    case VList(items) => VList(seq(|items|, i requires 0 <= i < |items| => CleanValues(items[i])))
    case _ => v
  }

  /** The dict comprehension of `clean_values`, entry by entry. */
  function CleanEntries(es: Entries): (r: Entries)
    decreases es
    ensures |r| <= |es|
    ensures forall e :: e in r ==> e.1 != VNone
    ensures forall k :: k in Keys(r) ==> k in Keys(es)
  {
    if es == [] then []
    else
      var e := es[0];
      assert e.1 < e;
      var rest := CleanEntries(es[1..]);
      assert Keys(es) == [e.0] + Keys(es[1..]);
      assert forall i :: 1 <= i < |es| ==> es[i] == es[1..][i - 1];
      if CheckIfEmptyOrNone(e.1) then rest
      else
        var r := [(e.0, CleanValues(e.1))] + rest;
        assert Keys(r) == [e.0] + Keys(rest);
        r
  }

  /**
   * The comprehension keeps exactly the entries whose value is not empty,
   * each with its value cleaned.
   */
  lemma {:induction false} CleanEntriesMembers(es: Entries)
    ensures forall i :: 0 <= i < |es| && !CheckIfEmptyOrNone(es[i].1) ==> (es[i].0, CleanValues(es[i].1)) in CleanEntries(es)
    ensures forall e :: e in CleanEntries(es) ==>
      exists i :: 0 <= i < |es| && !CheckIfEmptyOrNone(es[i].1) && e == (es[i].0, CleanValues(es[i].1))
  {
    if es != [] {
      CleanEntriesMembers(es[1..]);
      assert forall i :: 1 <= i < |es| ==> es[i] == es[1..][i - 1];
    }
  }

  /** Cleaning keeps the dict well formed. */
  lemma {:induction false} CleanEntriesUnique(es: Entries)
    requires UniqueKeys(es)
    ensures UniqueKeys(CleanEntries(es))
  {
    if es != [] {
      CleanEntriesUnique(es[1..]);
      assert Keys(es) == [es[0].0] + Keys(es[1..]);
      var rest := CleanEntries(es[1..]);
      assert es[0].0 !in Keys(rest);
    }
  }

  /**
   * For a well-formed dict, a key survives cleaning exactly when its value
   * is not empty, and then it maps to its value cleaned.
   */
  lemma CleanDictGet(es: Entries, k: string)
    requires UniqueKeys(es)
    ensures Get(CleanEntries(es), k) ==
      match Get(es, k)
      case None => None
      case Some(x) => if CheckIfEmptyOrNone(x) then None else Some(CleanValues(x))
  {
    var r := CleanEntries(es);
    CleanEntriesUnique(es);
    CleanEntriesMembers(es);
    match Get(es, k)
    case None =>
    case Some(x) =>
      var i := IndexOf(es, k);
      if !CheckIfEmptyOrNone(x) {
        assert (k, CleanValues(x)) in r;
        var j :| 0 <= j < |r| && r[j] == (k, CleanValues(x));
      } else {
        forall e | e in r
          ensures e.0 != k
        {
          var m :| 0 <= m < |es| && !CheckIfEmptyOrNone(es[m].1) && e == (es[m].0, CleanValues(es[m].1));
          assert es[m].0 == k ==> m == i;
        }
        assert forall j :: 0 <= j < |r| ==> r[j] in r;
      }
  }

  /** Kept entries keep their keys and their relative order. */
  lemma {:induction false} CleanEntriesOrder(es: Entries)
    ensures IsSubsequence(Keys(CleanEntries(es)), Keys(es))
  {
    if es != [] {
      CleanEntriesOrder(es[1..]);
      CleanEntriesCons(es);
      var r, rest := CleanEntries(es), CleanEntries(es[1..]);
      assert Keys(es)[1..] == Keys(es[1..]);
      if !CheckIfEmptyOrNone(es[0].1) {
        assert Keys(r)[0] == Keys(es)[0];
        assert Keys(r)[1..] == Keys(rest);
      }
    }
  }

  /** One step of the comprehension, without unfolding the cleaned value. */
  lemma CleanEntriesCons(es: Entries)
    requires es != []
    ensures CheckIfEmptyOrNone(es[0].1) ==> CleanEntries(es) == CleanEntries(es[1..])
    ensures !CheckIfEmptyOrNone(es[0].1) ==>
      && |CleanEntries(es)| == 1 + |CleanEntries(es[1..])|
      && CleanEntries(es)[0].0 == es[0].0
      && CleanEntries(es)[1..] == CleanEntries(es[1..])
  {
  }

  /**
   * Emptiness is tested before recursing, so a nested dict that cleans down
   * to `{}` survives the first pass and is removed by a second one.
   */
  lemma CleanValuesNotIdempotent()
    ensures
      var v := VDict([("outer", VDict([("inner", VNone)]))]);
      && CleanValues(v) == VDict([("outer", VDict([]))])
      && CleanValues(CleanValues(v)) == VDict([])
  {
    var inner := [("inner", VNone)];
    assert CleanEntries(inner) == [];
    var outer := [("outer", VDict(inner))];
    assert CleanEntries(outer) == [("outer", VDict([]))];
    assert CleanEntries([("outer", VDict([]))]) == [];
  }
}
