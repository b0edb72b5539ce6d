/** `<Persist name=... />`: keeps a draft of a Formik form under one storage
    key, drops the draft once the form reports the status `"submitted"`, and
    restores the draft when the form mounts. */
module PersistForm {
  import opened Common
  import opened Json
  import opened Formik

  /** The keys of `ignore`, as a set. */
  function Ignored(ignore: seq<string>): set<string> {
    set i | 0 <= i < |ignore| :: ignore[i]
  }

  /** `_.omit(values, ignore)`: the values without the ignored keys. */
  function Omit(values: map<string, Json>, ignore: seq<string>): (r: map<string, Json>)
    ensures r.Keys == values.Keys - Ignored(ignore)
    ensures forall k :: k in r ==> r[k] == values[k]
  {
    map k | k in values && k !in Ignored(ignore) :: values[k]
  }

  /** What the storage holds after `saveForm(data)`: the entry under `name` is
      removed when the status is `"submitted"` and otherwise becomes the state
      with the ignored values left out; no other key changes. */
  function SaveResult(items: map<string, FormState>, name: string, ignore: seq<string>, data: FormState)
    : (r: map<string, FormState>)
    ensures data.status == Some(Submitted) ==> name !in r
    ensures data.status != Some(Submitted) ==>
      name in r && r[name] == data.(values := Omit(data.values, ignore))
    ensures forall k :: k != name ==> (k in r <==> k in items)
    ensures forall k :: k != name && k in r ==> r[k] == items[k]
  {
    var saved := data.(values := Omit(data.values, ignore));
    if saved.status == Some(Submitted) then items - {name} else items[name := saved]
  }

  datatype UpdateAction = NoChange | SubmitCallback | Save

  /** What `componentDidUpdate` does when the form state goes from `prev` to
      `cur`: nothing on deep-equal states; `onFormSubmit` when the submit
      counter rose while no status is set; a save otherwise. */
  function OnUpdate(prev: FormState, cur: FormState): (a: UpdateAction)
    ensures a == NoChange <==> prev == cur
    ensures a == SubmitCallback <==> prev != cur && cur.submitCount > prev.submitCount && cur.status.None?
  {
    if prev == cur then NoChange
    else if cur.submitCount > prev.submitCount && cur.status.None? then SubmitCallback
    else Save
  }

  /** The storage after `componentDidUpdate`. */
  function AfterUpdate(items: map<string, FormState>, name: string, ignore: seq<string>, prev: FormState, cur: FormState)
    : map<string, FormState>
  {
    if OnUpdate(prev, cur) == Save then SaveResult(items, name, ignore, cur) else items
  }

  /** A change that sets the status to `"submitted"` always removes the draft,
      whatever the submit counter did. */
  lemma SubmittedClearsDraft(items: map<string, FormState>, name: string, ignore: seq<string>, prev: FormState, cur: FormState)
    requires prev != cur && cur.status == Some(Submitted)
    ensures OnUpdate(prev, cur) == Save
    ensures name !in AfterUpdate(items, name, ignore, prev, cur)
  {
  }

  /** A stored draft never carries the status `"submitted"` nor an ignored value. */
  predicate CleanDraft(items: map<string, FormState>, name: string, ignore: seq<string>) {
    name in items ==>
      items[name].status != Some(Submitted) && items[name].values.Keys !! Ignored(ignore)
  }

  /** The storage after the form has gone through the states `run`, starting from `prev`. */
  function Replay(items: map<string, FormState>, name: string, ignore: seq<string>, prev: FormState, run: seq<FormState>)
    : map<string, FormState>
    decreases |run|
  {
    if run == [] then items
    else Replay(AfterUpdate(items, name, ignore, prev, run[0]), name, ignore, run[0], run[1..])
  }

  /** Over any run of updates the draft stays clean and every other storage
      key keeps its entry. */
  lemma {:induction false} ReplayKeepsDraftClean(items: map<string, FormState>, name: string, ignore: seq<string>,
                                                 prev: FormState, run: seq<FormState>)
    requires CleanDraft(items, name, ignore)
    ensures CleanDraft(Replay(items, name, ignore, prev, run), name, ignore)
    ensures forall k :: k != name ==>
      (k in Replay(items, name, ignore, prev, run) <==> k in items)
    ensures forall k :: k != name && k in items ==> Replay(items, name, ignore, prev, run)[k] == items[k]
    decreases |run|
  {
    if run != [] {
      var next := AfterUpdate(items, name, ignore, prev, run[0]);
      assert CleanDraft(next, name, ignore);
      ReplayKeepsDraftClean(next, name, ignore, run[0], run[1..]);
    }
  }

  /** The state `setFormikState` receives on mount: the stored draft with
      `isSubmitting` forced off, or the current state when nothing is stored. */
  function Restore(stored: Option<FormState>, current: FormState): (r: FormState)
    ensures stored.Some? ==> r == stored.value.(isSubmitting := false)
    ensures stored.None? ==> r == current
  {
    match stored
    case Some(s) => s.(isSubmitting := false)
    case None => current
  }

  /** The values `handleValidation` receives on mount. */
  function ValidationInput(stored: Option<FormState>, current: FormState): (r: map<string, Json>)
    ensures r == Restore(stored, current).values
  {
    if stored.Some? then stored.value.values else current.values
  }

  /** A `Storage` (the browser's `localStorage` by default): entries by key. */
  class Storage {
    var items: map<string, FormState>

    constructor (items: map<string, FormState>)
      ensures this.items == items
    {
      this.items := items;
    }

    function GetItem(key: string): (r: Option<FormState>)
      reads this
      ensures r.Some? <==> key in items
      ensures r.Some? ==> r.value == items[key]
    {
      if key in items then Some(items[key]) else None
    }

    method SetItem(key: string, value: FormState)
      modifies this
      ensures items == old(items)[key := value]
    {
      items := items[key := value];
    }

    method RemoveItem(key: string)
      modifies this
      ensures items == old(items) - {key}
    {
      items := items - {key};
    }
  }

  datatype MountOutcome = Mounted | NoNameError | NoFormikError

  /** `PersistImpl` with its props. */
  class Persist {
    const name: string
    const ignore: seq<string>
    const storage: Storage
    const formik: Form?
    const hasOnFormSubmit: bool
    const hasHandleValidation: bool
    /** How many times `onFormSubmit` has run. */
    var submitCallbacks: nat
    /** The arguments `handleValidation` has received, in order. */
    var validated: seq<map<string, Json>>

    constructor (name: string, ignore: seq<string>, storage: Storage, formik: Form?,
                 hasOnFormSubmit: bool, hasHandleValidation: bool)
      ensures this.name == name && this.ignore == ignore && this.storage == storage
      ensures this.formik == formik && this.hasOnFormSubmit == hasOnFormSubmit
      ensures this.hasHandleValidation == hasHandleValidation
      ensures submitCallbacks == 0 && validated == []
    {
      this.name := name;
      this.ignore := ignore;
      this.storage := storage;
      this.formik := formik;
      this.hasOnFormSubmit := hasOnFormSubmit;
      this.hasHandleValidation := hasHandleValidation;
      submitCallbacks := 0;
      validated := [];
    }

    /** `saveForm(data)` on the props snapshot of the form: the snapshot's
        values lose the ignored keys before it is stored, while the form's
        own state is left alone. */
    method SaveForm(data: FormState)
      modifies storage
      ensures storage.items == SaveResult(old(storage.items), name, ignore, data)
    {
      var saved := data.(values := Omit(data.values, ignore));
      if saved.status == Some(Submitted) {
        storage.RemoveItem(name);
        return;
      }
      storage.SetItem(name, saved);
    }

    method HandleFormSubmit()
      modifies this
      ensures submitCallbacks == old(submitCallbacks) + (if hasOnFormSubmit then 1 else 0)
      ensures validated == old(validated)
    {
      if hasOnFormSubmit {
        submitCallbacks := submitCallbacks + 1;
      }
    }

    /** `componentDidUpdate` with the form state of the previous render. */
    method DidUpdate(prev: FormState)
      requires formik != null
      modifies this, storage
      ensures storage.items == AfterUpdate(old(storage.items), name, ignore, prev, formik.state)
      ensures submitCallbacks == old(submitCallbacks) +
        (if OnUpdate(prev, formik.state) == SubmitCallback && hasOnFormSubmit then 1 else 0)
      ensures validated == old(validated) && formik.state == old(formik.state)
    {
      var action := OnUpdate(prev, formik.state);
      if action == SubmitCallback {
        HandleFormSubmit();
      } else if action == Save {
        SaveForm(formik.state);
      }
    }

    /** `componentDidMount`, with the storage read taken as settled at once. */
    method DidMount() returns (outcome: MountOutcome)
      modifies this, formik
      ensures name == [] ==> outcome == NoNameError
      ensures name != [] && formik == null ==> outcome == NoFormikError
      ensures outcome == Mounted <==> name != [] && formik != null
      ensures outcome == Mounted ==>
        formik.state == Restore(storage.GetItem(name), old(formik.state))
      ensures outcome == Mounted && hasHandleValidation ==>
        validated == old(validated) + [ValidationInput(storage.GetItem(name), old(formik.state))]
      ensures outcome != Mounted || !hasHandleValidation ==> validated == old(validated)
      ensures outcome != Mounted && formik != null ==> formik.state == old(formik.state)
      ensures submitCallbacks == old(submitCallbacks)
    {
      if name == [] {
        return NoNameError;
      }
      if formik == null {
        return NoFormikError;
      }
      var stored := storage.GetItem(name);
      var current := formik.state;
      if stored.Some? {
        formik.SetFormikState(stored.value.(isSubmitting := false));
      }
      if hasHandleValidation {
        validated := validated + [ValidationInput(stored, current)];
      }
      outcome := Mounted;
    }
  }
}
