/** The file field: how a chosen file's name is shortened for display, how
    the names are joined, and how deleting a preview, clearing the field and
    the value check on every change update the field and the previews. */
module FileInput {
  import opened Common
  import opened Text

  /** The longest file name shown without shortening, plus one. */
  const MaxFileNameLength: int := 20
  /** The separator between the names of several chosen files. */
  const NameSeparator: string := " & "

  datatype File = File(name: string, size: nat, mime: string)

  /** An element of the field's list: a `File` (an object with a `name`), an
      object without a `name` (what a `File` becomes after a JSON round trip),
      a primitive other than `null`/`undefined`, or `null`/`undefined`. */
  datatype Entry = Named(file: File) | Nameless | Primitive | Nullish

  /** The field's value: `null`/`undefined`, or a list. */
  datatype FieldValue = Absent | Entries(entries: seq<Entry>)

  // ---------------------------------------------------------------------
  // Shortening a name

  /** The index `lastIndexOf('.')` returns. */
  function LastDot(s: string): int {
    LastIndexOf(s, '.')
  }

  /** `fileName.slice(lastDotIndex)`: from the last dot, or the last character
      when there is no dot. */
  function Extension(s: string): string {
    Slice(s, LastDot(s), |s|)
  }

  /** `fileName.slice(0, lastDotIndex)`: before the last dot, or all but the
      last character when there is no dot. */
  function Stem(s: string): string {
    Slice(s, 0, LastDot(s))
  }

  /** Stem and extension always split the name exactly. */
  lemma StemExtension(s: string)
    requires s != []
    ensures Stem(s) + Extension(s) == s
    ensures LastDot(s) >= 0 ==> Stem(s) == s[..LastDot(s)] && Extension(s) == s[LastDot(s)..]
    ensures LastDot(s) < 0 ==> Stem(s) == s[..|s| - 1] && Extension(s) == [s[|s| - 1]]
  {
    var d := LastDot(s);
    if d < 0 {
      assert s == s[..|s| - 1] + [s[|s| - 1]];
    } else {
      assert s == s[..d] + s[d..];
    }
  }

  /** `getShortFileName(fileName, maxLength)`: `null` for an empty name; the
      name itself when stem, extension and one more character fit; otherwise
      the head of the stem, `"..."`, the stem's tail and the extension. */
  function GetShortFileName(s: string, maxLength: int): Option<string> {
    if s == [] then None
    else
      var dot, ext, stem := LastDot(s), Extension(s), Stem(s);
      if |stem| + |ext| + 1 <= maxLength then Some(s)
      else
        var maxNameLength := maxLength - |ext| - 6;
        Some(Slice(stem, 0, maxNameLength) + "..." + Slice(stem, dot - 6, dot) + ext)
  }

  /** The empty name is the only one without a result. */
  lemma ShortNameNullIffEmpty(s: string, maxLength: int)
    ensures GetShortFileName(s, maxLength).None? <==> s == []
  {
  }

  /** A name whose length plus one fits is kept; a longer one keeps the start
      of its stem, `...`, the six characters before the last dot and the extension. */
  lemma ShortNameKeptWhenFits(s: string, maxLength: int)
    requires s != []
    ensures |s| + 1 <= maxLength ==> GetShortFileName(s, maxLength) == Some(s)
    ensures |s| + 1 > maxLength ==>
      GetShortFileName(s, maxLength) == Some(Slice(Stem(s), 0, maxLength - |Extension(s)| - 6) + "..." +
           Slice(Stem(s), LastDot(s) - 6, LastDot(s)) + Extension(s))
  {
    StemExtension(s);
  }

  /** A shortened name is a head of the stem, `"..."`, a tail part of the
      stem, and the extension; so it ends with the extension. */
  lemma ShortNameShape(s: string, maxLength: int)
    requires |s| + 1 > maxLength && s != []
    ensures var r := GetShortFileName(s, maxLength).value;
      exists head, mid ::
        && r == head + "..." + mid + Extension(s)
        && StartsWith(Stem(s), head)
        && Includes(Stem(s), mid)
    ensures EndsWith(GetShortFileName(s, maxLength).value, Extension(s))
  {
    StemExtension(s);
    var stem, ext, dot := Stem(s), Extension(s), LastDot(s);
    var head := Slice(stem, 0, maxLength - |ext| - 6);
    var mid := Slice(stem, dot - 6, dot);
    SliceIsInfix(stem, 0, maxLength - |ext| - 6);
    SliceIsInfix(stem, dot - 6, dot);
    var r := head + "..." + mid + ext;
    assert r == GetShortFileName(s, maxLength).value;
    assert r[|r| - |ext|..] == ext;
  }

  /** A slice starts at some position of the string it is taken from. */
  lemma SliceIsInfix(s: string, start: int, end: int)
    ensures StartsWith(s, Slice(s, 0, end))
    ensures Includes(s, Slice(s, start, end))
  {
    var from, to := SliceIndex(start, |s|), SliceIndex(end, |s|);
    var t := Slice(s, start, end);
    IncludesAt(s, t, if from < to then from else 0);
  }

  /** `t` occurs at position `k`. */
  lemma {:induction false} IncludesAt(s: string, t: string, k: nat)
    requires k <= |s| && StartsWith(s[k..], t)
    ensures Includes(s, t)
    decreases k
  {
    if k > 0 {
      assert s[1..][k - 1..] == s[k..];
      IncludesAt(s[1..], t, k - 1);
    } else {
      assert s[0..] == s;
    }
  }

  /** With a dot, an extension of at most `maxLength - 6` characters and a
      stem of at least 6, a shortened name is exactly `maxLength + 3`
      characters long: it does not fit the limit it was shortened for. */
  lemma ShortNameLength(s: string, maxLength: int)
    requires s != [] && |s| + 1 > maxLength
    requires LastDot(s) >= 6
    requires |Extension(s)| <= maxLength - 6
    ensures |GetShortFileName(s, maxLength).value| == maxLength + 3
  {
    StemExtension(s);
  }

  /** Without a dot the last character counts as the extension, and the
      stem's tail is taken one character short of its end. */
  lemma ShortNameWithoutDot(s: string, maxLength: int)
    requires s != [] && |s| + 1 > maxLength && LastDot(s) < 0
    requires |s| >= 8 && 7 <= maxLength <= |s|
    ensures GetShortFileName(s, maxLength) ==
      Some(s[..maxLength - 7] + "..." + s[|s| - 8..|s| - 2] + [s[|s| - 1]])
  {
    StemExtension(s);
    var stem := Stem(s);
    assert |Extension(s)| == 1 && |stem| == |s| - 1;
    assert Slice(stem, 0, maxLength - 7) == s[..maxLength - 7];
    assert Slice(stem, -7, -1) == stem[|stem| - 7..|stem| - 1];
    assert stem[|stem| - 7..|stem| - 1] == s[|s| - 8..|s| - 2];
  }

  // ---------------------------------------------------------------------
  // The text shown in the field

  /** The text one list element other than `null`/`undefined` contributes:
      the shortened name, or `''` where the name is missing or empty (`join`
      writes `null` as `''`). Destructuring `{ name }` out of `null` or
      `undefined` throws instead. */
  function EntryText(e: Entry): string
    requires !e.Nullish?
  {
    match e
    case Named(f) => GetShortFileName(f.name, MaxFileNameLength).GetOr("")
    case _ => ""
  }

  function EntryTexts(es: seq<Entry>): (r: seq<string>)
    requires forall i :: 0 <= i < |es| ==> !es[i].Nullish?
    ensures |r| == |es|
    ensures forall i :: 0 <= i < |es| ==> r[i] == EntryText(es[i])
  {
    seq(|es|, i requires 0 <= i < |es| => EntryText(es[i]))
  }

  /** Whether the list holds a `null` or `undefined` element. */
  predicate HasNullish(es: seq<Entry>) {
    exists i :: 0 <= i < |es| && es[i].Nullish?
  }

  /** The field's text: the shortened names joined by `" & "`, or `''` when
      there is no list or it is empty; `None` where the render throws, on a
      `null` or `undefined` element of a non-empty list. */
  function DisplayText(v: FieldValue): (r: Option<string>)
    ensures r.None? <==> v.Entries? && HasNullish(v.entries)
    ensures v.Absent? || v.entries == [] ==> r == Some("")
  {
    if v.Entries? && |v.entries| > 0 then
      if HasNullish(v.entries) then None else Some(Join(EntryTexts(v.entries), NameSeparator))
    else Some("")
  }

  /** A primitive or a nameless object is shown as an empty name, and takes
      its place between the separators. */
  lemma NamelessShownEmpty(f: File, e: Entry)
    requires e.Nameless? || e.Primitive?
    ensures DisplayText(Entries([e, Named(f)])) ==
      Some(NameSeparator + GetShortFileName(f.name, MaxFileNameLength).GetOr(""))
  {
    var es := [e, Named(f)];
    assert !HasNullish(es);
    var ts := EntryTexts(es);
    assert ts == ["", EntryText(Named(f))];
    assert ts[1..] == [EntryText(Named(f))];
    assert Join(ts[1..], NameSeparator) == EntryText(Named(f));
    assert Join(ts, NameSeparator) == "" + NameSeparator + EntryText(Named(f));
    assert "" + NameSeparator + EntryText(Named(f)) == NameSeparator + EntryText(Named(f));
    assert DisplayText(Entries(es)) == Some(Join(ts, NameSeparator));
  }

  /** Files whose names fit are shown by their full names, in order, joined
      by `" & "`. */
  lemma DisplayShortNames(files: seq<File>)
    requires files != []
    requires forall i :: 0 <= i < |files| ==> files[i].name != [] && |files[i].name| + 1 <= MaxFileNameLength
    ensures DisplayText(Entries(seq(|files|, i requires 0 <= i < |files| => Named(files[i]))))
      == Some(Join(seq(|files|, i requires 0 <= i < |files| => files[i].name), NameSeparator))
  {
    var es := seq(|files|, i requires 0 <= i < |files| => Named(files[i]));
    var names := seq(|files|, i requires 0 <= i < |files| => files[i].name);
    forall i | 0 <= i < |files|
      ensures EntryTexts(es)[i] == names[i]
    {
      ShortNameKeptWhenFits(files[i].name, MaxFileNameLength);
    }
    assert !HasNullish(es);
    assert EntryTexts(es) == names;
  }

  /** The value check accepts a list whose first element has a name. */
  predicate HoldsFiles(v: FieldValue) {
    v.Entries? && |v.entries| > 0 && v.entries[0].Named?
  }

  /** `Array.from(value || [])`. */
  function EntryList(v: FieldValue): seq<Entry> {
    if v.Entries? then v.entries else []
  }

  // ---------------------------------------------------------------------
  // The field and its previews

  /** The field's value in the form and the data URLs of the previews. */
  class FileField {
    var value: FieldValue
    var previews: seq<string>

    constructor (value: FieldValue, previews: seq<string>)
      ensures this.value == value && this.previews == previews
    {
      this.value := value;
      this.previews := previews;
    }

    /** The effect that runs on every change of the value: anything but a
        list starting with a named element becomes `null`. */
    method Normalise()
      modifies this
      ensures value == if HoldsFiles(old(value)) then old(value) else Absent
      ensures previews == old(previews)
    {
      if !HoldsFiles(value) {
        value := Absent;
      }
    }

    /** Deleting preview `index` removes that element from the previews and
        from the field's list; an emptied list becomes `null`. */
    method DeleteImage(index: int)
      modifies this
      ensures previews == if 0 <= index < |old(previews)| then old(previews)[..index] + old(previews)[index + 1..] else old(previews)
      ensures var es := EntryList(old(value));
        var kept := if 0 <= index < |es| then es[..index] + es[index + 1..] else es;
        value == if |kept| > 0 then Entries(kept) else Absent
    {
      RemoveIndexSlices(previews, index);
      RemoveIndexSlices(EntryList(value), index);
      previews := RemoveIndex(previews, index);
      var newFileList := RemoveIndex(EntryList(value), index);
      value := if |newFileList| > 0 then Entries(newFileList) else Absent;
    }

    /** The clear button: the field becomes `null` and the previews empty. */
    method Clear()
      modifies this
      ensures value == Absent && previews == []
      ensures DisplayText(value) == Some("")
    {
      value := Absent;
      previews := [];
    }
  }
}
