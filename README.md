# WB orders front end — a verified model of its form and routing logic

This project models the logic in the React front end of a small service. Customers use it to
place orders for pick-up from the Wildberries marketplace, and administrators use it to review
those orders. The model covers:

- **The customer's order form** (`src/pages/wb-order.tsx`):
  - the validation schema: a three-word Latin or Cyrillic name, phones, a five-character order
    code, QR pictures, and the rule that either the marketplace phone and code or a QR picture
    must be given;
  - the capitalisation of the name;
  - the payload sent on submit;
  - the base 64 `data:` URL built from the QR code the server returns;
  - the submit handler's effect on the form and its toasts.
- **The sign-up form** (`src/pages/signup.tsx`):
  - its schema, where the password mismatch is reported on both password fields;
  - its payload;
  - its submit handler.
- **`<Persist>`** (`src/components/persist-form.tsx`): keeps a draft of a Formik form in
  storage, drops it once the form's status is `"submitted"`, and restores it on mount.
- **The file input** (`src/components/file-input.tsx`):
  - the shortening of long file names;
  - the `" & "`-joined display text;
  - deleting one picture, clearing all, and normalising the field's value.
- **The select** (`src/components/select.tsx`): how a field value maps to the selected
  option(s), and back on change.
- **The admin orders page** (`src/pages/admin/wb-orders.tsx`):
  - decoding the status filter and the search-type filter from the query string;
  - the round trip through the filter form;
  - the query-string updaters, which change only their own key;
  - the update payload;
  - the row highlighting;
  - the infinite-scroll `Waypoint`, which appears once, after the last page.
- **The router table** (`src/App.tsx`):
  - the two regular expressions applied to every page file found under `./pages/`, modelled
    as explicit lazy backtracking searches;
  - the routes they produce;
  - the filtering of unmatched keys;
  - the Suspense fallback lookup;
  - the trailing catch-all route.

Library behaviour the code relies on is modelled in modules of its own:

| module | models | source |
|---|---|---|
| `Text` | JavaScript whitespace, `toUpperCase`/`toLowerCase` on Latin and Cyrillic, `slice`, `lastIndexOf` and `join` | — |
| `Split` | `split(/\s+/)` and `trim` | — |
| `Json` | `JSON.stringify` of a string array, with a parser that reads it back | — |
| `Base64` | `btoa` | section 4 of RFC 4648 |
| `UrlParams` | `URLSearchParams` as an ordered list of pairs | WHATWG URL standard |
| `Formik` | the part of a Formik form that the pages touch | — |

External predicates are parameters:

- phone validity (`isPossiblePhoneNumber`);
- e-mail validity (zod's `.email()`);
- `JSON.parse`;
- the result of each GraphQL mutation.

## Model

| member | source | states |
|---|---|---|
| AdminOrders.GetSortByStatus | src/pages/admin/wb-orders.tsx:139-149 | the result is one of the three statuses or `ALL`; it is a status exactly when the upper-cased parameter is one, and then it is that upper-cased parameter |
| AdminOrders.SortByStatusIgnoresCase | src/pages/admin/wb-orders.tsx:142-146 | two parameters with the same upper-case form decode to the same status |
| AdminOrders.SortByStatusIdempotent | src/pages/admin/wb-orders.tsx:139-149 | decoding is idempotent; every status and `ALL` decodes to itself |
| AdminOrders.SortByStatusExamples | src/pages/admin/wb-orders.tsx:139-149 | `''` and `'all'` give `ALL`; `'rejected'` gives `REJECTED` |
| AdminOrders.ValidTypes | src/pages/admin/wb-orders.tsx:159-161 | keeps only valid search types, never more than the parsed elements |
| AdminOrders.ValidTypesAppend | src/pages/admin/wb-orders.tsx:159-161 | filtering the valid search types distributes over concatenation, so order and duplicates are kept |
| AdminOrders.ValidTypesKeepsValid | src/pages/admin/wb-orders.tsx:159-161 | an array of valid types is kept whole |
| AdminOrders.GetSearchType | src/pages/admin/wb-orders.tsx:151-172 | never empty; only valid types; a parse failure or a non-array gives the full list; a non-empty valid filtering is returned as is |
| AdminOrders.DecodeFilter | src/pages/admin/wb-orders.tsx:203-211 | the decoded filter has a valid status, a non-empty search-type list and page size 30; a missing `q` gives the empty query |
| AdminOrders.FilterRoundTrip | src/pages/admin/wb-orders.tsx:343-352 | writing a status and a non-empty list of valid types and decoding gives them back and leaves the text query unchanged, for any `JSON.parse` that reads back what `JSON.stringify` wrote |
| AdminOrders.FilterRoundTripWithParser | src/pages/admin/wb-orders.tsx:343-352 | the same round trip with the concrete string-array parser |
| AdminOrders.WriteFilter | src/pages/admin/wb-orders.tsx:342-353 | computes the query after the filter submit: `set` of the status, then of the stringified types; `FilterRoundTrip` states what decoding it gives |
| AdminOrders.UpdatePayload | src/pages/admin/wb-orders.tsx:300-312 | the update input carries the `edit` id and the chosen status, the loaded order's fields when there is one, and `''`/`null`/`0` defaults otherwise |
| AdminOrders.RowState | src/pages/admin/wb-orders.tsx:560-608 | a row is a skeleton exactly while the list refetches after success and the row is the one being updated; otherwise it is highlighted as added for the new order's id, or as updated for the mutation's id |
| AdminOrders.WaypointRequestsPage | src/pages/admin/wb-orders.tsx:696-702 | the next page is requested exactly when no fetch is running and there is a next page |
| AdminOrders.GroupRows | src/pages/admin/wb-orders.tsx:558-694 | a page with no orders renders one "no data" row; otherwise one row per order, in order |
| AdminOrders.Groups | src/pages/admin/wb-orders.tsx:556-705 | computes the rows of all pages, with the Waypoint after the last page; stated by `GroupsWaypoint` and its two parts |
| AdminOrders.GroupsWaypointCount | src/pages/admin/wb-orders.tsx:695-703 | the pages render exactly one Waypoint when there is a page, none otherwise |
| AdminOrders.GroupsWaypointLast | src/pages/admin/wb-orders.tsx:695-703 | with a page, the last item rendered for the pages is the Waypoint |
| AdminOrders.GroupsWaypoint | src/pages/admin/wb-orders.tsx:556-705 | over all pages the Waypoint appears exactly once, after the last page, and not at all with no pages |
| AdminOrders.BodyWaypoint | src/pages/admin/wb-orders.tsx:330-741 | no body at all when the list query is in error, since the page throws its error first; otherwise no Waypoint while the query is stale or pending, and else exactly one, followed only by loading skeleton rows |
| AdminOrders.Body | src/pages/admin/wb-orders.tsx:330-741 | the table body: none exactly when the list query is in error (`throw infWbOrdersError`), else skeletons while stale or pending, else the page groups and the next-page skeletons; stated by `BodyWaypoint` |
| AdminOrders.OrdersPage.OnSearchChange | src/pages/admin/wb-orders.tsx:426-440 | empty text deletes `q`, other text sets it; no other parameter changes |
| AdminOrders.OrdersPage.OnClearSearch | src/pages/admin/wb-orders.tsx:454-461 | `q` is deleted and nothing else changes |
| AdminOrders.OrdersPage.HandleEditOpen | src/pages/admin/wb-orders.tsx:264-274 | `edit` is set to the id, the editor opens, and no other parameter changes |
| AdminOrders.OrdersPage.HandleEditClose | src/pages/admin/wb-orders.tsx:276-285 | with the form mounted, the editor closes and only `edit` is deleted; otherwise nothing changes |
| AdminOrders.OrdersPage.HandleSubmit | src/pages/admin/wb-orders.tsx:287-320 | submitting stops; an empty status does nothing else; otherwise the payload is sent only when the form is mounted and dirty, and `handleEditClose` then closes the editor and deletes `edit` while the form is mounted, and changes nothing when it is not |
| AdminOrders.OrdersPage.OnFilterSubmit | src/pages/admin/wb-orders.tsx:342-353 | sets `sort_by_status` and `search_type`, leaving every other parameter as it was |
| AdminOrders.OrdersPage.OnOrderLoaded | src/pages/admin/wb-orders.tsx:322-328 | the editor is open exactly when an order was loaded |
| UrlParams.IndexOf | src/pages/admin/wb-orders.tsx:268 | the index of the first pair with the name, or the length when there is none |
| UrlParams.Get | src/pages/admin/wb-orders.tsx:196 | `get` finds nothing exactly when no pair has the name |
| UrlParams.DeleteSpec | src/pages/admin/wb-orders.tsx:281 | after `delete` the name is absent, and `get` on every other name is unchanged |
| UrlParams.DeleteRemovesName | src/pages/admin/wb-orders.tsx:281 | no pair left by `delete` has the name |
| UrlParams.DeleteKeepsOthers | src/pages/admin/wb-orders.tsx:433 | `delete` keeps the value and the count of every other name |
| UrlParams.Delete | src/pages/admin/wb-orders.tsx:281 | computes `delete`; stated by `DeleteSpec`, `DeleteRemovesName` and `DeleteKeepsOthers` |
| UrlParams.SetSpec | src/pages/admin/wb-orders.tsx:437 | after `set` the name occurs once with the new value, and `get` on every other name is unchanged |
| UrlParams.SetReadsName | src/pages/admin/wb-orders.tsx:437 | a single pair with the name among others reads back its value and is counted once |
| UrlParams.Set | src/pages/admin/wb-orders.tsx:268 | computes `set`; stated by `SetSpec` and `SetReadsName` |
| UrlParams.GetConcat | src/pages/admin/wb-orders.tsx:203 | `get` on a concatenation reads the first part when it has the name, else the second |
| UrlParams.SearchParams.SetParam | src/pages/admin/wb-orders.tsx:347-348 | the pairs become `set` of the old pairs, and the name reads back the value |
| UrlParams.SearchParams.DeleteParam | src/pages/admin/wb-orders.tsx:281 | the pairs become `delete` of the old pairs, and the name reads back nothing |
| Json.EscapeChar | src/pages/admin/wb-orders.tsx:348 | a character is copied unchanged exactly when it is not a quote, a backslash or a control character |
| Json.EscapePlain | src/pages/admin/wb-orders.tsx:348 | a string of plain characters is written unescaped |
| Json.StringifyStrings | src/pages/admin/wb-orders.tsx:348 | computes `JSON.stringify` of a string array; `ParseStringify` states that it reads back |
| Json.ParseItemsJoin | src/pages/admin/wb-orders.tsx:155 | the parser reads the comma-joined quoted items back as the list of strings |
| Json.ParseStringify | src/pages/admin/wb-orders.tsx:155 | parsing the stringified array of plain strings gives that array |
| Json.ParseStringArray | src/pages/admin/wb-orders.tsx:155 | a parser for arrays of strings without whitespace between tokens, standing in for `JSON.parse` in `AdminOrders.FilterRoundTripWithParser`; `ParseStringify` states that it reads back what `StringifyStrings` writes |
| Base64.Value | src/pages/wb-order.tsx:134 | a character with a 6-bit value is the encoding of that value |
| Base64.EncodeShape | src/pages/wb-order.tsx:134-139 | the encoding has 4 characters per started group of 3 bytes, each from the alphabet or `=` |
| Base64.Encode | src/pages/wb-order.tsx:134-139 | computes the base 64 encoding; `EncodeShape` states its shape and `DecodeEncode` its inverse |
| Base64.Decode | src/pages/wb-order.tsx:141 | the decoder for the base 64 part of the `data:` URL, against which `Encode` is proved (`DecodeEncode`) |
| Base64.DecodeEncode | src/pages/wb-order.tsx:134-139 | decoding the encoding gives back the bytes |
| Base64.Btoa | src/pages/wb-order.tsx:134 | `btoa` succeeds exactly on strings whose characters are all below 256 |
| Common.Filter | src/components/select.tsx:86-88 | the result holds exactly the elements that satisfy the predicate, no more of them than the input |
| Common.FilterAppend | src/App.tsx:59-67 | filtering distributes over concatenation |
| Common.RemoveIndexSlices | src/components/file-input.tsx:112 | filtering out one index removes exactly that element, and an index out of range removes nothing |
| Common.RemoveIndex | src/components/file-input.tsx:112-117 | `filter((_, i) => i !== index)`; `RemoveIndexSlices` states that it drops exactly that element |
| Text.CaseMapsIdempotent | src/pages/wb-order.tsx:152-153 | upper- and lower-casing a character are idempotent, and upper-casing ignores an earlier lower-casing |
| Text.UpperChar | src/pages/wb-order.tsx:152 | upper-casing keeps whitespace as whitespace and changes only lower-case letters |
| Text.LowerChar | src/pages/wb-order.tsx:153 | lower-casing keeps whitespace as whitespace and changes only upper-case letters |
| Text.LowerIdempotent | src/App.tsx:44 | lower-casing a string is idempotent |
| Text.Upper | src/pages/wb-order.tsx:153 | computes `toUpperCase` character by character; stated by `UpperChar` and `CaseMapsIdempotent` |
| Text.Lower | src/App.tsx:44 | computes `toLowerCase` character by character; stated by `LowerChar` and `LowerIdempotent` |
| Text.Join | src/components/file-input.tsx:83 | computes `join`; stated by `JoinLast` and `Split.SplitJoin` |
| Text.Slice | src/components/file-input.tsx:236-237 | `slice` with JavaScript's clamping of negative and large indexes never gives more than the string |
| Text.JoinLast | src/pages/wb-order.tsx:155 | a join ends with its whole last part |
| Text.LastIndexOf | src/components/file-input.tsx:235 | the last position holding the character, or -1 when there is none |
| Split.SplitJoin | src/pages/wb-order.tsx:154-155 | splitting at whitespace the single-space join of words gives those words |
| Split.WordsAreWords | src/pages/wb-order.tsx:54 | the words of a text are non-empty and hold no whitespace |
| Split.TrimOfTrimmed | src/pages/wb-order.tsx:155 | trimming a text that neither starts nor ends with whitespace changes nothing |
| Split.SplitTrimIsWords | src/pages/wb-order.tsx:54 | splitting the trimmed text gives its words, or `[""]` when it has none |
| Split.SplitWs | src/pages/wb-order.tsx:154 | computes `split(/\s+/)`; stated by `SplitJoin` and `SplitTrimIsWords` |
| Split.Trim | src/pages/wb-order.tsx:155 | computes `trim`; stated by `TrimOfTrimmed` |
| Select.ChangeMulti | src/components/select.tsx:52-55 | a multi-select stores the chosen options' values, in order |
| Select.ChangeSingle | src/components/select.tsx:56 | a single select stores the chosen option's value |
| Select.Placeholder | src/components/select.tsx:64-66 | the placeholder option has the empty value and the placeholder, or `''`, as its caption |
| Select.FindIndex | src/components/select.tsx:97-99 | `find` stops at the first option whose value matches |
| Select.Find | src/components/select.tsx:97-101 | an option is found exactly when the value is a string that some option carries, and it carries that value |
| Select.MultiSelection | src/components/select.tsx:81-91 | an empty list selects nothing; otherwise exactly the options whose value the field value includes |
| Select.ValueIncludes | src/components/select.tsx:87 | `value.includes(option.value)`: membership for a list, substring search for a string |
| Select.SingleSelection | src/components/select.tsx:93-101 | the empty string selects the placeholder; otherwise the option found |
| Select.HandleSelection | src/components/select.tsx:80-102 | multi and single selection, chosen by `isMulti` |
| Select.Flatten | src/components/select.tsx:68-71 | the flattened options are exactly those of the groups |
| Select.GroupSelection | src/components/select.tsx:59-78 | the empty string selects the placeholder; otherwise the option found among all groups |
| Select.FilterDistinct | src/components/select.tsx:86-88 | filtering keeps a list free of duplicates |
| Select.MultiRoundTrip | src/components/select.tsx:51-91 | choosing distinct options and reading the selection back gives the same options, in the data's order |
| Select.MultiStringMatchesSubstrings | src/components/select.tsx:86-88 | an instance of substring matching on a string value: `WB_PHONE` selects the option `PHONE` as well as `WB_PHONE` |
| FileInput.StemExtension | src/components/file-input.tsx:235-237 | stem and extension split the name exactly, at the last dot or before the last character |
| FileInput.GetShortFileName | src/components/file-input.tsx:233-248 | computes the short name; stated by `ShortNameNullIffEmpty`, `ShortNameKeptWhenFits`, `ShortNameShape`, `ShortNameLength` and `ShortNameWithoutDot` |
| FileInput.ShortNameNullIffEmpty | src/components/file-input.tsx:233-234 | there is no short name exactly for the empty name |
| FileInput.ShortNameKeptWhenFits | src/components/file-input.tsx:238-247 | a name whose length plus one fits is kept; a longer one becomes the start of its stem, `...`, the six characters before the last dot, and the extension |
| FileInput.ShortNameShape | src/components/file-input.tsx:244-247 | a shortened name is a prefix of the stem, `...`, an infix of the stem, and the extension |
| FileInput.ShortNameLength | src/components/file-input.tsx:244-247 | with a dot at 6 or later and a short extension, the shortened name is 3 longer than the limit |
| FileInput.ShortNameWithoutDot | src/components/file-input.tsx:235-247 | without a dot, `slice(-1)` takes the last character as the extension, and the middle comes from the end of the name |
| FileInput.EntryTexts | src/components/file-input.tsx:80-84 | one text per element that is not `null`/`undefined`, in order |
| FileInput.EntryList | src/components/file-input.tsx:115 | `Array.from(value \|\| [])`: the list, or empty for `null` |
| FileInput.EntryText | src/components/file-input.tsx:82 | the short name an element contributes; stated through `DisplayShortNames` and `NamelessShownEmpty` |
| FileInput.DisplayText | src/components/file-input.tsx:80-84 | the render throws exactly on a `null`/`undefined` element of a list; no list or an empty one shows `''` |
| FileInput.DisplayShortNames | src/components/file-input.tsx:80-84 | files whose names fit are shown by their full names joined with `" & "` |
| FileInput.NamelessShownEmpty | src/components/file-input.tsx:82-83 | a primitive or an object without `name` is shown as an empty name between the separators |
| FileInput.FileField.Normalise | src/components/file-input.tsx:53-64 | a value whose first element is not a named file becomes `null`; otherwise nothing changes |
| FileInput.FileField.DeleteImage | src/components/file-input.tsx:111-119 | the preview and the file at the index are removed; an empty list becomes `null` |
| FileInput.FileField.Clear | src/components/file-input.tsx:121-125 | the value becomes `null`, the previews empty, and the display text empty |
| FileInput.HoldsFiles | src/components/file-input.tsx:54-55 | the effect's test that the first element is an object with a `name`; stated by `FileField.Normalise` |
| PersistForm.Omit | src/components/persist-form.tsx:25 | the values without the ignored keys, the rest unchanged |
| PersistForm.SaveResult | src/components/persist-form.tsx:23-33 | status `"submitted"` removes the entry; otherwise the entry becomes the state with the ignored values left out; other keys are untouched |
| PersistForm.OnUpdate | src/components/persist-form.tsx:38-47 | nothing happens on equal states; the submit callback runs exactly when the counter rose and no status is set; otherwise the form is saved |
| PersistForm.AfterUpdate | src/components/persist-form.tsx:35-48 | the storage after one update; stated by `SubmittedClearsDraft` and `ReplayKeepsDraftClean` |
| PersistForm.SubmittedClearsDraft | src/components/persist-form.tsx:38-46 | a change that sets the status to `"submitted"` always saves, which removes the draft |
| PersistForm.ReplayKeepsDraftClean | src/components/persist-form.tsx:35-48 | over any run of updates the stored draft never has the status `"submitted"` or an ignored value, and other keys are kept |
| PersistForm.Restore | src/components/persist-form.tsx:66-78 | a stored draft is restored with `isSubmitting` off; with none, the state stays |
| PersistForm.ValidationInput | src/components/persist-form.tsx:80-86 | validation receives the restored values |
| PersistForm.Storage.GetItem | src/components/persist-form.tsx:66 | an item is found exactly when its key is stored |
| PersistForm.Persist.SaveForm | src/components/persist-form.tsx:23-33 | the storage becomes the save result of the form snapshot: the entry removed on `"submitted"`, else the snapshot without the ignored values; nothing else is written |
| PersistForm.Persist.HandleFormSubmit | src/components/persist-form.tsx:90-94 | the callback runs once when it is given |
| PersistForm.Persist.DidUpdate | src/components/persist-form.tsx:35-48 | the storage follows the update action, the submit callback runs exactly on `SubmitCallback`, and neither the form state nor the validation calls change |
| PersistForm.Persist.DidMount | src/components/persist-form.tsx:50-88 | it fails without a name or a form; otherwise it restores the draft and hands the values to validation; the submit callback never runs |
| Formik.Initial | src/pages/wb-order.tsx:179 | `resetForm` brings back the initial values with no status, no errors, no touched fields and a zero counter |
| Formik.Prepared | src/pages/signup.tsx:143 | an empty string reaches the schema as `undefined` |
| Formik.Form.Dirty | src/pages/admin/wb-orders.tsx:314 | `dirty`: the values differ from the initial ones |
| Formik.Form.SetSubmitting | src/pages/wb-order.tsx:211 | only `isSubmitting` changes, to the given flag |
| Formik.Form.SetStatus | src/pages/wb-order.tsx:180 | only the status changes, to the given one |
| Formik.Form.ResetForm | src/pages/wb-order.tsx:179 | the state becomes `Initial` of the initial values |
| Formik.Form.SetFormikState | src/components/persist-form.tsx:77 | the state becomes the given one |
| Formik.Form.SetFieldValue | src/components/select.tsx:54-56 | only the one field's value changes, to the given one |
| Toasts.Truthy | src/pages/signup.tsx:93 | `if (toastIdRef.current)`: an id is set and is not `0` |
| OrderForm.FullNameIffWords | src/pages/wb-order.tsx:53-59 | a name is valid exactly when it has three whitespace-separated words made of name letters |
| OrderForm.IsNameLetter | src/pages/wb-order.tsx:55 | a character of `[a-zа-я]` under the `i` flag: Latin letters and U+0410..U+044F |
| OrderForm.IsNamePart | src/pages/wb-order.tsx:55-57 | `namePattern.test(part)`: a non-empty run of name letters |
| OrderForm.IsFullName | src/pages/wb-order.tsx:51-59 | the name rule; `FullNameIffWords` characterises it by words |
| OrderForm.YoRejected | src/pages/wb-order.tsx:55 | `ё` and `Ё` lie outside `[а-я]`, so a name holding one is rejected |
| OrderForm.NameLetterCases | src/pages/wb-order.tsx:55 | upper- and lower-casing a name letter gives a name letter |
| OrderForm.Capitalize | src/pages/wb-order.tsx:152-153 | capitalising keeps the length of the word |
| OrderForm.Caps | src/pages/wb-order.tsx:155 | capitalises each part, in order |
| OrderForm.CapitalizeChars | src/pages/wb-order.tsx:152-153 | capitalising keeps whitespace and name letters where they were |
| OrderForm.CapitalizeIdempotent | src/pages/wb-order.tsx:152-153 | capitalising twice is capitalising once |
| OrderForm.CapsIdempotent | src/pages/wb-order.tsx:155 | capitalising every part twice is capitalising them once |
| OrderForm.FilterCaps | src/pages/wb-order.tsx:154-155 | dropping empty pieces commutes with capitalising them |
| OrderForm.FormatNameIsWords | src/pages/wb-order.tsx:154-155 | the formatted name is the capitalised words joined by single spaces |
| OrderForm.FormatNameWords | src/pages/wb-order.tsx:154-155 | the words of the formatted name are the capitalised words of the input |
| OrderForm.FormatNameIdempotent | src/pages/wb-order.tsx:154-155 | formatting twice is formatting once |
| OrderForm.FormatKeepsFullName | src/pages/wb-order.tsx:154-155 | a valid name stays valid once formatted |
| OrderForm.FormatName | src/pages/wb-order.tsx:154-155 | computes the submitted name; stated by `FormatNameIsWords`, `FormatNameWords`, `FormatNameIdempotent` and `FormatKeepsFullName` |
| OrderForm.QrIssues | src/pages/wb-order.tsx:79-93 | corrected: the QR field is reported on exactly when it holds files that are too large or of a rejected type, a missing field accepted like `null` |
| OrderForm.SizesOk | src/pages/wb-order.tsx:83-86 | `files.every(file => file.size <= MAX_FILE_SIZE)` |
| OrderForm.TypesOk | src/pages/wb-order.tsx:88-91 | `files.every(file => ACCEPTED_IMAGE_TYPES.includes(file.type))` |
| OrderForm.QrIssuesAsWritten | src/pages/wb-order.tsx:83-93 | the two `QR` refinements as written, where `undefined` fails both; `AbsentQrRejectedAsWritten` and `QrIssuesAgree` state how it differs from `QrIssues` |
| OrderForm.DeliveryGiven | src/pages/wb-order.tsx:95-101 | the object rule: both marketplace fields, or a `QR` value that is a list; `DeliveryReportedOnQr` and `EmptyQrListSendsNothing` state its effect |
| OrderForm.AbsentQrRejectedAsWritten | src/pages/wb-order.tsx:83-93 | as written, an `undefined` QR value fails both refinements |
| OrderForm.QrIssuesAgree | src/pages/wb-order.tsx:83-93 | the corrected check agrees with the code on `null` and on lists |
| OrderForm.ValidateAsWritten | src/pages/wb-order.tsx:49-107 | the schema with the `QR` refinements as written; stated by `ValidateAsWrittenIff` |
| OrderForm.Validate | src/pages/wb-order.tsx:49-107 | the schema with the corrected `QR` refinements; stated by `ValidateIff`, `MissingRequiredSkipsDelivery` and `DeliveryReportedOnQr` |
| OrderForm.SchemaIssues | src/pages/wb-order.tsx:49-107 | the issue order shared by both schemas: fields in declaration order, then the object rule unless the name or phone is missing |
| OrderForm.ValidateIff | src/pages/wb-order.tsx:49-107 | the corrected schema reports nothing exactly for a valid order |
| OrderForm.ValidateAsWrittenIff | src/pages/wb-order.tsx:49-107 | the schema as written reports nothing exactly for a valid order whose `QR` is present, and agrees with the corrected one whenever `QR` is present |
| OrderForm.MissingRequiredSkipsDelivery | src/pages/wb-order.tsx:49-107 | a missing name or phone is reported, and the object rule does not run |
| OrderForm.DeliveryReportedOnQr | src/pages/wb-order.tsx:95-106 | with neither both marketplace fields nor a QR list, the last issue is the delivery rule, on `QR` |
| OrderForm.FirstFile | src/pages/wb-order.tsx:159 | the first file of a non-empty QR list, else nothing |
| OrderForm.Payload | src/pages/wb-order.tsx:152-175 | computes the mutation input; stated by `PayloadOfValid` and `EmptyQrListSendsNothing` |
| OrderForm.PayloadOfValid | src/pages/wb-order.tsx:152-175 | an order the corrected schema accepts sends a formatted three-word name, the phone, and a way to receive the order; by `ValidateAsWrittenIff` this covers every order the written schema accepts |
| OrderForm.EmptyQrListSendsNothing | src/pages/wb-order.tsx:97-98 | an empty QR list passes the delivery rule, yet no QR, code or marketplace phone is sent |
| OrderForm.FromCharCodes | src/pages/wb-order.tsx:135-138 | one character per byte, with that code |
| OrderForm.CharCodes | src/pages/wb-order.tsx:135-138 | the reduce appends one character per byte, with that code, after the accumulator |
| OrderForm.BtoaOfCharCodes | src/pages/wb-order.tsx:134-139 | `btoa` of the byte string is the base 64 encoding of the bytes |
| OrderForm.QrCodeUrl | src/pages/wb-order.tsx:125-147 | the effect throws exactly on a `null` buffer, and leaves the URL as it was exactly when there is no QR file or the buffer is neither `null` nor an object with `data` |
| OrderForm.QrCodeUrlEncodesBytes | src/pages/wb-order.tsx:125-147 | a buffer with data gives a `data:` URL whose base 64 part decodes back to the bytes |
| OrderForm.DataUrl | src/pages/wb-order.tsx:141 | `data:${type};base64,${base64}`; `QrCodeUrlEncodesBytes` states that its base 64 part decodes to the bytes |
| OrderForm.OrderPage.ReplaceToast | src/pages/wb-order.tsx:186-195 | a truthy previous toast is closed, then the new one is shown and remembered |
| OrderForm.OrderPage.HandleSubmit | src/pages/wb-order.tsx:149-213 | success resets the form with status `"submitted"` and shows the confirmation, with no toast; a GraphQL or `Error` failure closes a truthy previous toast, shows its message and sets `"error"`; any other failure only sets `"error"`; submitting always stops |
| OrderForm.OrderPage.CreatedClearsDraft | src/pages/wb-order.tsx:179-180 | if `<Persist name='wb-order'>` is still mounted for an update that sees the state a successful submit leaves, that update removes the draft |
| OrderForm.OrderPage.NewOrder | src/pages/wb-order.tsx:362 | the confirmation goes away; toasts and payloads are untouched |
| OrderForm.OrderPage.ShowsConfirmation | src/pages/wb-order.tsx:294 | `data && isReset`; `HandleSubmit` and `NewOrder` state when it holds |
| Signup.ValidateIff | src/pages/signup.tsx:26-48 | the schema reports nothing exactly when the e-mail is given and valid and both passwords are given and equal |
| Signup.Validate | src/pages/signup.tsx:26-48 | computes the schema's issues; stated by `ValidateIff`, `MismatchOnBoth`, `NameNeverReported` and `MissingEmailRequired` |
| Signup.MismatchOnBoth | src/pages/signup.tsx:41-48 | the mismatch is reported on `confirm` and on `password` exactly when the e-mail and both passwords are present and differ, as the last two issues |
| Signup.NameNeverReported | src/pages/signup.tsx:28 | the name is optional: never reported, and it does not change the issues |
| Signup.MissingEmailRequired | src/pages/signup.tsx:29-33 | a missing e-mail is reported as required, not as malformed |
| Signup.Payload | src/pages/signup.tsx:77-85 | the payload carries the e-mail and the password, with the name defaulting to `''` |
| Signup.PayloadDropsConfirm | src/pages/signup.tsx:77-85 | the confirmation is never sent, and an absent name is sent as `''` |
| Signup.PayloadOfValid | src/pages/signup.tsx:77-85 | a valid sign-up sends a valid e-mail and the password typed twice |
| Signup.SignupPage.DidMount | src/pages/signup.tsx:68-72 | a signed-in user is sent to `/` |
| Signup.SignupPage.ReplaceToast | src/pages/signup.tsx:93-103 | a truthy previous toast is closed, then the new one is shown and remembered |
| Signup.SignupPage.HandleSubmit | src/pages/signup.tsx:74-135 | with no form ref nothing happens; success resets with status `"submitted"`, refetches, closes a truthy previous toast, shows the welcome toast and goes to `/`; a GraphQL or `Error` failure closes a truthy previous toast, shows its message and sets `"error"`; submitting always stops |
| Signup.SignupPage.CreatedClearsDraft | src/pages/signup.tsx:89-90 | if `<Persist name='signup-form'>` is still mounted for an update that sees the state a successful sign-up leaves, that update removes the draft and keeps every other one |
| Routes.LazyEnd | src/App.tsx:22 | a lazy group's end, when it exists, lies between its start and the end of the key |
| Routes.LazyEndSpec | src/App.tsx:22 | a lazy group ends at the first position, reachable through `.`, where the rest of the pattern matches, and fails when there is none |
| Routes.SearchSpec | src/App.tsx:22 | `match` finds the leftmost start at which the pattern matches, or none when it matches nowhere |
| Routes.DynamicMatch | src/App.tsx:22 | the dynamic pattern's captures; stated by `NoBracketNotDynamic`, `NoSlashNotDynamic` and the page-route lemmas |
| Routes.RegularMatch | src/App.tsx:41 | the regular pattern's name capture; stated by `RegularMatchOfKey` and `GlobKeyMatches` |
| Routes.RouteOf | src/App.tsx:21-55 | the route of one key, dynamic first; stated by `RouteOfDynamic`, `RegularPageRoute` and `TopLevelParamRoute` |
| Routes.DynamicRoute | src/App.tsx:24-38 | the name and path of a dynamic route; stated by `DynamicRoutePath` and `DynamicRouteUnnested` |
| Routes.RegularRoute | src/App.tsx:42-52 | the lower-cased name, `home` at `/`, and the fallback; stated by `PlainStemRoute` and `TrailingIndexDropped` |
| Routes.Search | src/App.tsx:22 | a found start lies at or after the search start, and the pattern matches there |
| Routes.FallbackFor | src/App.tsx:45 | only `admin/wb-orders` has its own skeleton fallback |
| Routes.Present | src/App.tsx:59-67 | the kept routes are exactly the non-null ones, in order |
| Routes.FilteredRoutes | src/App.tsx:59-67 | the routes that are not `null`, in key order; stated by `Present` and `AllGlobKeysRouted` |
| Routes.LayoutChildren | src/App.tsx:69-80 | the layout's child routes; stated by `CatchAllLast` |
| Routes.GlobKeyMatches | src/App.tsx:41-52 | every key the glob yields matches the regular pattern, so it gets a route |
| Routes.AllGlobKeysRouted | src/App.tsx:21-67 | no glob key is dropped: one route per key, in order |
| Routes.RoutePathNotStar | src/App.tsx:21-55 | no page route takes the catch-all path `*` |
| Routes.CatchAllLast | src/App.tsx:72-77 | the layout's children are the page routes followed by `*` rendering NotFound |
| Routes.RouteName | src/App.tsx:41 | the captured name is a prefix of the stem |
| Routes.RegularContinues | src/App.tsx:41 | the regular pattern may end its name group right before `/index.tsx`, `/.tsx`, `index.tsx` or `.tsx` at the end |
| Routes.KeySuffix | src/App.tsx:41 | a key ends in `x.tsx` exactly when its stem ends in `x` |
| Routes.RegularNameEnd | src/App.tsx:41 | the lazy name group of a page key ends right before the part of the stem that the route name drops |
| Routes.RegularMatchOfKey | src/App.tsx:41-43 | the regular pattern captures the stem without a trailing `/index`, `index` or `/` |
| Routes.NoBracketNotDynamic | src/App.tsx:22-24 | a key without `[` never matches the dynamic pattern |
| Routes.RegularPageRoute | src/App.tsx:41-51 | a page without `[` gets the regular route of its captured name |
| Routes.TrailingIndexDropped | src/App.tsx:41-49 | a stem ending in `index` is served at the path of the stem without it, and without a `/` before it |
| Routes.RouteNameOfIndex | src/App.tsx:41 | a stem ending in `index` is named without it, and without a `/` right before it |
| Routes.PlainStemRoute | src/App.tsx:44-50 | a page whose stem has no `[` and no trailing `index` or `/` is served at its lower-cased stem, `home` at `/`, with its fallback |
| Routes.DynamicPageRoute | src/App.tsx:22-38 | `<dir>/[<param>].tsx` gives the path `<dir>/:<param>`, with no leading `/` |
| Routes.NestedPageRoute | src/App.tsx:22-38 | `<dir>/[<param>]/<nested>.tsx` gives `<dir>/:<param>/<nested>`; a nested `index` is dropped |
| Routes.NestedParamRoute | src/App.tsx:22-38 | a second nested segment is appended after `:` with no `/`: `<dir>/:<param>/<nested>:<nestedParam>` |
| Routes.DynamicRoutePath | src/App.tsx:27-36 | the path of a dynamic route, by cases of the nested captures |
| Routes.DynamicRouteUnnested | src/App.tsx:33-36 | with no nested captures, the route is named `<dir>/<param>` and served at `<dir>/:<param>` with the spinner fallback |
| Routes.RouteOfDynamic | src/App.tsx:22-39 | a key the dynamic pattern matches gets the dynamic route of its captures |
| Routes.NoSlashNotDynamic | src/App.tsx:22-24 | a key with no `/` after `./pages/` never matches the dynamic pattern |
| Routes.TopLevelParamRoute | src/App.tsx:22-49 | a top-level `[<param>].tsx` is not dynamic and is served at `/[<param>]`, lower-cased |

## Left out

- JSX rendering, Chakra layout and styling, and theme and colour-mode values are UI and are not modelled.
- React Query hooks, GraphQL requests and the new-order subscription are network behaviour. Each mutation's settlement is a parameter (`Outcome`), and the loaded order is an input.
- The stale-query flag (`useDeferredValue`, `useTransition`) and the fetch statuses are inputs of the row and body functions. React's scheduling is not modelled.
- `Promise`s settle at once:
  - the storage read in `<Persist>`'s mount is taken as already settled;
  - the file input's `FileReader` previews (`handleFileChange`) are not modelled, and the previews list is part of the field's state.
- Toast ids are natural numbers supplied by the caller. The toast library itself is not modelled.
- `isPossiblePhoneNumber`, zod's `.email()` and `JSON.parse` are function parameters. `Json` proves that a concrete parser for string arrays inverts `JSON.stringify`, so the round-trip premise can be met.
- Formik states are stored as values. Their `JSON.stringify`/`JSON.parse` through storage is taken as the identity.
- The `URLSearchParams` copy through `toString()` is taken as the identity.
- `toUpperCase`/`toLowerCase` are modelled for ASCII and for Cyrillic U+0400..U+045F only. JavaScript maps all of Unicode.
- The name pattern's `i` flag is modelled as the ranges `a-z`, `A-Z` and U+0410..U+044F. Characters outside them whose upper case falls inside (U+1C80..U+1C88) are not accepted by the model.
- String lengths count Unicode scalar values, not UTF-16 code units. This matters only for the 20-character file-name limit and the 5-character order code, with characters outside the Basic Multilingual Plane.
- The server's `buffer.data` is taken as bytes. The truncation `new Uint8Array` applies to values outside 0..255 is not modelled.
- React Router's matching and ranking of route paths is not modelled. The model stops at the route table.
- `import.meta.glob` is the list of keys the route functions receive. The glob itself is not modelled.
- `Loadable`/`lazy` components are represented by the page key.
- The select's `data` prop is a list. An `undefined` `data` behaves like the empty list.
- `handleGroupSelection`'s multi branch is empty in the code (a TODO), and the model treats it the same way.
- The Waypoint guard follows src/pages/admin/wb-orders.tsx:698. It tests `isFetchingInfinite`, the query's `isFetching` (any fetch running), not only `isFetchingNextPage`.
- `<Persist>`'s `debounce` prop is declared but never read, so it has no model.
- OnUpdate: `componentDidUpdate` compares the whole Formik bag (src/components/persist-form.tsx:38), including `isValidating`, `dirty` and `initialValues`. The model compares only the stored `FormState` slice, so an update that changes only those flags is `NoChange` in the model and a save in the source.
- SaveForm: `saveForm` also reassigns `values` on the props snapshot it receives, which a later comparison against that snapshot would see. The model leaves the snapshot and the form untouched, and no page passes `ignore`.
- The order of React renders is not modelled. `CreatedClearsDraft` holds only if `<Persist>` is still mounted for the update that sees the `"submitted"` state. Sign-up calls `navigate('/')` right after `setStatus('submitted')` (src/pages/signup.tsx:89-104). The order page swaps the form for the confirmation once `isReset` is set (src/pages/wb-order.tsx:183, 294). If React batches these updates, the page unmounts `<Persist>` in the same render, and the draft, the typed passwords included, stays in storage.
- Routes.LazyEnd: its contract states only the bounds of the result, because its characterisation by the first position where the rest of the pattern matches is the separate lemma `Routes.LazyEndSpec`.

## Findings

| source | as written | input that shows it | evidently intended | confidence | as-written member | corrected member |
|---|---|---|---|---|---|---|
| src/pages/wb-order.tsx:83-93 | `files === null \|\| files?.every(...)` is `undefined` (falsy) when the `QR` value is `undefined`, so both refinements fail even though the field is declared `.optional()` | form values with a valid name, phone, marketplace phone and order code but no `QR` key, for example a restored draft saved before the field existed: the schema reports the size and the type message on `QR` and the order cannot be sent | an absent `QR` passes both refinements, like `null` | medium, not executed | OrderForm.ValidateAsWrittenIff | OrderForm.ValidateIff |
