/** The select field wrapper: how a chosen option (or options) is stored in
    the form field, and how the stored value is turned back into the
    option(s) the select displays, for single, multi and grouped selects. */
module Select {
  import opened Common
  import opened Text

  datatype SelectOption = SelectOption(caption: string, value: string)

  datatype Group = Group(caption: string, options: seq<SelectOption>)

  /** A field value: a string (a single select, or an unset field) or a list
      of option values (a multi select). */
  datatype FieldValue = Str(s: string) | List(items: seq<string>)

  /** What the select is handed as its current value. */
  datatype Shown = Many(options: seq<SelectOption>) | One(option: Option<SelectOption>)

  // ---------------------------------------------------------------------
  // Storing a choice

  /** A multi-select change: the values of the chosen options, in the order chosen. */
  function ChangeMulti(chosen: seq<SelectOption>): (r: FieldValue)
    ensures r.List? && |r.items| == |chosen|
    ensures forall i :: 0 <= i < |chosen| ==> r.items[i] == chosen[i].value
  {
    List(seq(|chosen|, i requires 0 <= i < |chosen| => chosen[i].value))
  }

  /** A single-select change: the chosen option's value. */
  function ChangeSingle(chosen: SelectOption): (r: FieldValue)
    ensures r == Str(chosen.value)
  {
    Str(chosen.value)
  }

  // ---------------------------------------------------------------------
  // Displaying a stored value

  /** `value.includes(v)`: membership for a list, substring search for a string. */
  predicate ValueIncludes(value: FieldValue, v: string) {
    match value
    case List(items) => v in items
    case Str(s) => Includes(s, v)
  }

  /** The placeholder option `{ label: placeholder || '', value: '' }`. */
  function Placeholder(placeholder: Option<string>): (r: SelectOption)
    ensures r.value == []
    ensures placeholder.Some? ==> r.caption == placeholder.value
    ensures placeholder.None? ==> r.caption == []
  {
    SelectOption(placeholder.GetOr(""), "")
  }

  /** Index of the first option whose value is `s`, or `|data|`. */
  function FindIndex(data: seq<SelectOption>, s: string): (i: nat)
    ensures i <= |data|
    ensures i < |data| ==> data[i].value == s
    ensures forall j :: 0 <= j < i ==> data[j].value != s
  {
    if data == [] || data[0].value == s then 0 else 1 + FindIndex(data[1..], s)
  }

  /** `data.find(option => option.value === value)`. */
  function Find(data: seq<SelectOption>, value: FieldValue): (r: Option<SelectOption>)
    ensures r.None? <==> value.List? || forall j :: 0 <= j < |data| ==> data[j].value != value.s
    ensures r.Some? ==> value.Str? && r.value in data && r.value.value == value.s
  {
    if value.List? then None
    else
      var i := FindIndex(data, value.s);
      if i < |data| then Some(data[i]) else None
  }

  /** The multi-select display: `[]` for an empty list; otherwise the data
      options whose value the stored value includes, in data order. */
  function MultiSelection(data: seq<SelectOption>, value: FieldValue): (r: seq<SelectOption>)
    ensures value == List([]) ==> r == []
    ensures forall i :: 0 <= i < |r| ==> r[i] in data && ValueIncludes(value, r[i].value)
    ensures value != List([]) ==>
      forall i :: 0 <= i < |data| && ValueIncludes(value, data[i].value) ==> data[i] in r
  {
    if value == List([]) then []
    else Filter(data, (o: SelectOption) => ValueIncludes(value, o.value))
  }

  /** The single-select display: the placeholder for `''`, otherwise the first
      data option with the stored value, if any. */
  function SingleSelection(data: seq<SelectOption>, placeholder: Option<string>, value: FieldValue)
    : (r: Option<SelectOption>)
    ensures value == Str([]) ==> r == Some(Placeholder(placeholder))
    ensures value != Str([]) ==> r == Find(data, value)
  {
    if value == Str("") then Some(Placeholder(placeholder)) else Find(data, value)
  }

  /** `handleSelection`. */
  function HandleSelection(isMulti: bool, data: seq<SelectOption>, placeholder: Option<string>, value: FieldValue)
    : (r: Shown)
    ensures isMulti ==> r == Many(MultiSelection(data, value))
    ensures !isMulti ==> r == One(SingleSelection(data, placeholder, value))
  {
    if isMulti then Many(MultiSelection(data, value)) else One(SingleSelection(data, placeholder, value))
  }

  /** The options of all groups, group after group (the `reduce` in the source). */
  function Flatten(groups: seq<Group>): (r: seq<SelectOption>)
    ensures forall g, o :: 0 <= g < |groups| && o in groups[g].options ==> o in r
    ensures forall o :: o in r ==> exists g :: 0 <= g < |groups| && o in groups[g].options
  {
    if groups == [] then [] else groups[0].options + Flatten(groups[1..])
  }

  /** `handleGroupSelection`: the placeholder for `''`, otherwise the first
      option across the groups with the stored value.  A multi select is
      displayed the same way. */
  function GroupSelection(groups: seq<Group>, placeholder: Option<string>, value: FieldValue)
    : (r: Option<SelectOption>)
    ensures value == Str([]) ==> r == Some(Placeholder(placeholder))
    ensures value != Str([]) ==> r == Find(Flatten(groups), value)
  {
    if value == Str("") then Some(Placeholder(placeholder)) else Find(Flatten(groups), value)
  }

  // ---------------------------------------------------------------------
  // Round trip of a multi selection

  predicate Distinct<T(==)>(s: seq<T>) {
    forall i, j :: 0 <= i < j < |s| ==> s[i] != s[j]
  }

  predicate DistinctValues(data: seq<SelectOption>) {
    forall i, j :: 0 <= i < j < |data| ==> data[i].value != data[j].value
  }

  function Elements<T>(s: seq<T>): set<T> {
    set i | 0 <= i < |s| :: s[i]
  }

  lemma ElementsIn<T>(s: seq<T>)
    ensures forall x :: x in Elements(s) <==> x in s
  {
    forall x | x in s
      ensures x in Elements(s)
    {
      var i :| 0 <= i < |s| && s[i] == x;
    }
  }

  lemma {:induction false} DistinctCard<T>(s: seq<T>)
    requires Distinct(s)
    ensures |Elements(s)| == |s|
  {
    if s != [] {
      DistinctCard(s[1..]);
      assert Elements(s) == {s[0]} + Elements(s[1..]);
      assert s[0] !in Elements(s[1..]);
    }
  }

  lemma {:induction false} FilterDistinct<T>(s: seq<T>, p: T -> bool)
    requires Distinct(s)
    ensures Distinct(Filter(s, p))
  {
    if s != [] {
      FilterDistinct(s[1..], p);
      var r := Filter(s[1..], p);
      assert s[0] !in s[1..];
      assert forall i :: 0 <= i < |r| ==> r[i] in s[1..];
    }
  }

  /** Storing a multi selection of distinct data options and displaying it
      again gives back exactly those options, reordered to data order. */
  lemma MultiRoundTrip(data: seq<SelectOption>, chosen: seq<SelectOption>)
    requires DistinctValues(data)
    requires Distinct(chosen) && chosen != []
    requires forall i :: 0 <= i < |chosen| ==> chosen[i] in data
    ensures MultiSelection(data, ChangeMulti(chosen)) == Filter(data, (o: SelectOption) => o in chosen)
    ensures forall o :: o in MultiSelection(data, ChangeMulti(chosen)) <==> o in chosen
    ensures |MultiSelection(data, ChangeMulti(chosen))| == |chosen|
  {
    var v := ChangeMulti(chosen);
    var p := (o: SelectOption) => ValueIncludes(v, o.value);
    var q := (o: SelectOption) => o in chosen;
    forall i | 0 <= i < |data|
      ensures p(data[i]) == q(data[i])
    {
      if p(data[i]) {
        var k :| 0 <= k < |chosen| && v.items[k] == data[i].value;
        var j :| 0 <= j < |data| && data[j] == chosen[k];
        assert data[j].value == data[i].value;
        assert i == j;
      }
    }
    FilterSame(data, p, q);
    var r := Filter(data, q);
    assert Distinct(data) by {
      forall i, j | 0 <= i < j < |data| ensures data[i] != data[j] {
        assert data[i].value != data[j].value;
      }
    }
    FilterDistinct(data, q);
    ElementsIn(r);
    ElementsIn(chosen);
    assert Elements(r) == Elements(chosen);
    DistinctCard(r);
    DistinctCard(chosen);
  }

  lemma {:induction false} FilterSame<T>(s: seq<T>, p: T -> bool, q: T -> bool)
    requires forall i :: 0 <= i < |s| ==> p(s[i]) == q(s[i])
    ensures Filter(s, p) == Filter(s, q)
  {
    if s != [] {
      FilterSame(s[1..], p, q);
    }
  }

  /** With a string as the stored value, a multi select matches by substring:
      `"WB_PHONE"` also displays the `PHONE` option, which the list
      `["WB_PHONE"]` does not. */
  lemma MultiStringMatchesSubstrings()
    ensures MultiSelection([SelectOption("PHONE", "PHONE"), SelectOption("WB", "WB_PHONE")], Str("WB_PHONE"))
      == [SelectOption("PHONE", "PHONE"), SelectOption("WB", "WB_PHONE")]
    ensures MultiSelection([SelectOption("PHONE", "PHONE"), SelectOption("WB", "WB_PHONE")], List(["WB_PHONE"]))
      == [SelectOption("WB", "WB_PHONE")]
  {
    var s := "WB_PHONE";
    assert Includes(s, "PHONE") by {
      assert StartsWith(s[3..], "PHONE");
      assert Includes(s[3..], "PHONE");
      assert s[1..][1..][1..] == s[3..];
    }
    assert Includes(s, "WB_PHONE") by {
      assert StartsWith(s, "WB_PHONE");
    }
    assert "PHONE" != "WB_PHONE";
  }
}
