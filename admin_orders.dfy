/** The administrators' order list: the filter that lives in the URL query
    string (`sort_by_status`, `search_type`, `q`, `edit`), the edit dialog's
    submit, and how each row and the end of the list are rendered. */
module AdminOrders {
  import opened Common
  import opened Text
  import opened Json
  import opened UrlParams
  import opened Formik

  /** The values of the order status enumeration, in declaration order. */
  const Statuses: seq<string> := ["ASSEMBLED", "NOT_ASSEMBLED", "REJECTED"]
  /** The status filter meaning "no filter". */
  const All: string := "ALL"
  /** The values of the search type enumeration, in declaration order. */
  const SearchTypes: seq<string> := ["ID", "NAME", "PHONE", "WB_PHONE"]
  /** Orders per page. */
  const Take: nat := 30
  /** Skeleton rows shown while the first page loads. */
  const LoadingRows: nat := 8
  /** Skeleton rows shown while a further page loads. */
  const NextPageRows: nat := 15

  const SortKey: string := "sort_by_status"
  const SearchTypeKey: string := "search_type"
  const QueryKey: string := "q"
  const EditKey: string := "edit"

  // ---------------------------------------------------------------------
  // Decoding the filter from the query string

  /** `getSortByStatus`: the upper-cased parameter when it names a status,
      `"ALL"` otherwise. */
  function GetSortByStatus(param: string): (r: string)
    ensures r in Statuses || r == All
    ensures r in Statuses <==> Upper(param) in Statuses
    ensures r in Statuses ==> r == Upper(param)
  {
    var upper := Upper(param);
    if upper in Statuses then upper else All
  }

  /** The filter ignores the case of the parameter. */
  lemma SortByStatusIgnoresCase(a: string, b: string)
    requires Upper(a) == Upper(b)
    ensures GetSortByStatus(a) == GetSortByStatus(b)
  {
  }

  lemma {:induction false} UpperOfUpper(s: string)
    requires forall i :: 0 <= i < |s| ==> 'A' <= s[i] <= 'Z' || s[i] == '_'
    ensures Upper(s) == s
  {
  }

  /** Decoding a decoded status gives it back; in particular every value the
      status select offers (`ALL` and the three statuses) decodes to itself. */
  lemma SortByStatusIdempotent(param: string)
    ensures GetSortByStatus(GetSortByStatus(param)) == GetSortByStatus(param)
    ensures forall s :: s in Statuses || s == All ==> GetSortByStatus(s) == s
  {
    UpperOfUpper(All);
    forall s | s in Statuses
      ensures Upper(s) == s
    {
      UpperOfUpper(s);
    }
    assert All !in Statuses;
  }

  /** `"all"`, the empty parameter and an unknown word all mean "no filter";
      a status in any case is recognised. */
  lemma SortByStatusExamples()
    ensures GetSortByStatus("") == All
    ensures GetSortByStatus("all") == All
    ensures GetSortByStatus("rejected") == "REJECTED"
  {
    assert Upper("all") == "ALL";
    assert Upper("rejected") == "REJECTED";
  }

  /** The valid search types among the parsed array elements, in their order,
      duplicates kept; elements that are not strings are dropped. */
  function ValidTypes(items: seq<Json>): (r: seq<string>)
    ensures |r| <= |items|
    ensures forall i :: 0 <= i < |r| ==> r[i] in SearchTypes
  {
    if items == [] then []
    else
      var head := if items[0].JString? && items[0].s in SearchTypes then [items[0].s] else [];
      head + ValidTypes(items[1..])
  }

  /** Filtering works element by element: it keeps the order of the array. */
  lemma {:induction false} ValidTypesAppend(a: seq<Json>, b: seq<Json>)
    ensures ValidTypes(a + b) == ValidTypes(a) + ValidTypes(b)
  {
    if a == [] {
      assert a + b == b;
    } else {
      assert (a + b)[1..] == a[1..] + b;
      ValidTypesAppend(a[1..], b);
    }
  }

  /** An array of valid search types passes the filter unchanged, duplicates included. */
  lemma {:induction false} ValidTypesKeepsValid(xs: seq<string>)
    requires forall i :: 0 <= i < |xs| ==> xs[i] in SearchTypes
    ensures ValidTypes(StringArray(xs).items) == xs
  {
    if xs != [] {
      ValidTypesKeepsValid(xs[1..]);
      assert StringArray(xs).items[1..] == StringArray(xs[1..]).items;
    }
  }

  /** `getSearchType`: the valid types of a parsed array, or every type when
      the parameter does not parse, is not an array, or has no valid type.
      `parse` is `JSON.parse`, with `None` where it throws. */
  function GetSearchType(param: string, parse: string -> Option<Json>): (r: seq<string>)
    ensures |r| > 0
    ensures forall i :: 0 <= i < |r| ==> r[i] in SearchTypes
    ensures parse(param).None? || !parse(param).value.JArray? ==> r == SearchTypes
    ensures parse(param).Some? && parse(param).value.JArray? && ValidTypes(parse(param).value.items) != [] ==>
      r == ValidTypes(parse(param).value.items)
  {
    match parse(param)
    case None => SearchTypes
    case Some(v) =>
      if v.JArray? then
        var valid := ValidTypes(v.items);
        if |valid| > 0 then valid else SearchTypes
      else SearchTypes
  }

  /** The filter as the list query uses it. */
  datatype Filter = Filter(status: string, query: string, searchTypes: seq<string>, take: nat)

  /** The filter read from the query string; absent parameters read as `''`. */
  function DecodeFilter(ps: seq<Pair>, parse: string -> Option<Json>): (f: Filter)
    ensures f.status in Statuses || f.status == All
    ensures |f.searchTypes| > 0 && f.take == Take
    ensures Get(ps, QueryKey).None? ==> f.query == []
  {
    Filter(GetSortByStatus(Get(ps, SortKey).GetOr("")),
           Get(ps, QueryKey).GetOr(""),
           GetSearchType(Get(ps, SearchTypeKey).GetOr(""), parse),
           Take)
  }

  /** The query string after the filter form is submitted. */
  function WriteFilter(ps: seq<Pair>, sortStatus: string, searchTypes: seq<string>): seq<Pair> {
    Set(Set(ps, SortKey, sortStatus), SearchTypeKey, StringifyStrings(searchTypes))
  }

  /** Writing a filter into the query string and reading it back gives the
      same status and search types, and leaves the text query as it was, for
      any `JSON.parse` that reads back what `JSON.stringify` wrote. */
  lemma FilterRoundTrip(ps: seq<Pair>, s: string, xs: seq<string>, parse: string -> Option<Json>)
    requires s in Statuses || s == All
    requires xs != [] && forall i :: 0 <= i < |xs| ==> xs[i] in SearchTypes
    requires parse(StringifyStrings(xs)) == Some(StringArray(xs))
    ensures DecodeFilter(WriteFilter(ps, s, xs), parse).status == s
    ensures DecodeFilter(WriteFilter(ps, s, xs), parse).searchTypes == xs
    ensures DecodeFilter(WriteFilter(ps, s, xs), parse).query == DecodeFilter(ps, parse).query
  {
    var ps1 := Set(ps, SortKey, s);
    var ps2 := Set(ps1, SearchTypeKey, StringifyStrings(xs));
    SetSpec(ps, SortKey, s, QueryKey);
    SetSpec(ps1, SearchTypeKey, StringifyStrings(xs), SortKey);
    SetSpec(ps1, SearchTypeKey, StringifyStrings(xs), QueryKey);
    SortByStatusIdempotent(s);
    ValidTypesKeepsValid(xs);
  }

  /** The parser of this model satisfies the premise of the round trip. */
  lemma FilterRoundTripWithParser(ps: seq<Pair>, s: string, xs: seq<string>)
    requires s in Statuses || s == All
    requires xs != [] && forall i :: 0 <= i < |xs| ==> xs[i] in SearchTypes
    ensures DecodeFilter(WriteFilter(ps, s, xs), ParseStringArray).status == s
    ensures DecodeFilter(WriteFilter(ps, s, xs), ParseStringArray).searchTypes == xs
  {
    forall i | 0 <= i < |xs|
      ensures Plain(xs[i])
    {
      assert xs[i] in SearchTypes;
    }
    ParseStringify(xs);
    FilterRoundTrip(ps, s, xs, ParseStringArray);
  }

  // ---------------------------------------------------------------------
  // The edit dialog

  /** An order as the by-id query returns it. */
  datatype WbOrder = WbOrder(
    id: string, name: string, phone: string, qrCode: Option<string>, wbPhone: Option<string>,
    orderCode: Option<string>, status: string, createdAt: int, updatedAt: int)

  /** The input of the update mutation. */
  datatype UpdateInput = UpdateInput(
    id: Option<string>, status: string, name: string, phone: string, qrCode: Option<string>,
    wbPhone: Option<string>, createdAt: int, updatedAt: int, orderCode: Option<string>)

  /** The update payload: the id from the `edit` parameter, the chosen status,
      the rest copied from the loaded order or defaulted. */
  function UpdatePayload(editParam: Option<string>, status: string, loaded: Option<WbOrder>): (p: UpdateInput)
    ensures p.id == editParam && p.status == status
    ensures loaded.Some? ==>
      && p.name == loaded.value.name && p.phone == loaded.value.phone
      && p.qrCode == loaded.value.qrCode && p.wbPhone == loaded.value.wbPhone
      && p.orderCode == loaded.value.orderCode
      && p.createdAt == loaded.value.createdAt && p.updatedAt == loaded.value.updatedAt
    ensures loaded.None? ==>
      && p.name == [] && p.phone == [] && p.qrCode.None? && p.wbPhone.None?
      && p.orderCode.None? && p.createdAt == 0 && p.updatedAt == 0
  {
    match loaded
    case Some(o) => UpdateInput(editParam, status, o.name, o.phone, o.qrCode, o.wbPhone, o.createdAt, o.updatedAt, o.orderCode)
    case None => UpdateInput(editParam, status, "", "", None, None, 0, 0, None)
  }

  // ---------------------------------------------------------------------
  // Rendering the list

  datatype FetchStatus = Fetching | Paused | Idle
  datatype QueryStatus = Pending | Errored | Success

  /** How an order row looks. */
  datatype RowLook = SkeletonRow | PlainRow | UpdatedRow | AddedRow

  /** The look of the row of order `id`: a skeleton while the list refetches
      after the mutation of that order; otherwise highlighted as just added
      (new-order id) or just updated (mutation id), "added" taking precedence. */
  function RowState(fetch: FetchStatus, status: QueryStatus, mutationId: Option<string>,
                    newOrderId: Option<string>, id: string): (r: RowLook)
    ensures r == SkeletonRow <==> fetch == Fetching && status == Success && mutationId == Some(id)
    ensures r == AddedRow <==> r != SkeletonRow && newOrderId == Some(id)
    ensures r == UpdatedRow <==> r != SkeletonRow && mutationId == Some(id) && newOrderId != Some(id)
  {
    if fetch == Fetching && status == Success && mutationId == Some(id) then SkeletonRow
    else if newOrderId == Some(id) then AddedRow
    else if mutationId == Some(id) then UpdatedRow
    else PlainRow
  }

  /** `onEnter` of the Waypoint: it asks for the next page only when no fetch
      of the list is in flight and there is a next page. */
  function WaypointRequestsPage(isFetching: bool, hasNextPage: bool): (r: bool)
    ensures r ==> !isFetching
    ensures r <==> !isFetching && hasNextPage
  {
    !isFetching && hasNextPage
  }

  datatype BodyItem = OrderRow(id: string, look: RowLook) | NoData | Waypoint | Skeleton

  /** What the list shows for one page of order ids. */
  function GroupRows(ids: seq<string>, fetch: FetchStatus, status: QueryStatus,
                     mutationId: Option<string>, newOrderId: Option<string>): (r: seq<BodyItem>)
    ensures |r| >= 1
    ensures ids == [] ==> r == [NoData]
    ensures ids != [] ==> |r| == |ids| && forall k :: 0 <= k < |r| ==> r[k].OrderRow? && r[k].id == ids[k]
  {
    if ids == [] then [NoData]
    else seq(|ids|, k requires 0 <= k < |ids| => OrderRow(ids[k], RowState(fetch, status, mutationId, newOrderId, ids[k])))
  }

  /** The page groups in order, each followed by the Waypoint when it is the last one. */
  function Groups(pages: seq<seq<string>>, fetch: FetchStatus, status: QueryStatus,
                  mutationId: Option<string>, newOrderId: Option<string>): seq<BodyItem>
    decreases |pages|
  {
    if pages == [] then []
    else
      GroupRows(pages[0], fetch, status, mutationId, newOrderId)
      + (if |pages| == 1 then [Waypoint] else [])
      + Groups(pages[1..], fetch, status, mutationId, newOrderId)
  }

  /** The table body: none when the list query is in error, since the page
      throws its error before rendering; otherwise eight skeleton rows while
      the query text is stale or the first page is pending, or else the
      groups, then fifteen skeleton rows while a further page loads. */
  function Body(stale: bool, pending: bool, pages: seq<seq<string>>, fetch: FetchStatus, status: QueryStatus,
                mutationId: Option<string>, newOrderId: Option<string>, fetchingNextPage: bool): (r: Option<seq<BodyItem>>)
    ensures r.None? <==> status == Errored
  {
    if status == Errored then None
    else if stale || pending then Some(seq(LoadingRows, _ => Skeleton))
    else
      Some(Groups(pages, fetch, status, mutationId, newOrderId)
           + (if fetchingNextPage then seq(NextPageRows, _ => Skeleton) else []))
  }

  lemma {:induction false} GroupRowsNoWaypoint(ids: seq<string>, fetch: FetchStatus, status: QueryStatus,
                                               mutationId: Option<string>, newOrderId: Option<string>)
    ensures Count(GroupRows(ids, fetch, status, mutationId, newOrderId), Waypoint) == 0
  {
    var r := GroupRows(ids, fetch, status, mutationId, newOrderId);
    CountAbsent(r, Waypoint);
  }

  lemma {:induction false} CountAbsent<T>(s: seq<T>, x: T)
    requires forall k :: 0 <= k < |s| ==> s[k] != x
    ensures Count(s, x) == 0
  {
    if s != [] {
      CountAbsent(s[1..], x);
    }
  }

  lemma {:induction false} CountAppend<T>(a: seq<T>, b: seq<T>, x: T)
    ensures Count(a + b, x) == Count(a, x) + Count(b, x)
  {
    if a == [] {
      assert a + b == b;
    } else {
      assert (a + b)[1..] == a[1..] + b;
      CountAppend(a[1..], b, x);
    }
  }

  /** The groups hold one Waypoint when there is a page and none otherwise,
      and it is their last item. */
  lemma GroupsWaypoint(pages: seq<seq<string>>, fetch: FetchStatus, status: QueryStatus,
                       mutationId: Option<string>, newOrderId: Option<string>)
    ensures Count(Groups(pages, fetch, status, mutationId, newOrderId), Waypoint) == if pages == [] then 0 else 1
    ensures pages != [] ==>
      && |Groups(pages, fetch, status, mutationId, newOrderId)| > 0
      && Groups(pages, fetch, status, mutationId, newOrderId)[|Groups(pages, fetch, status, mutationId, newOrderId)| - 1] == Waypoint
  {
    GroupsWaypointCount(pages, fetch, status, mutationId, newOrderId);
    if pages != [] {
      GroupsWaypointLast(pages, fetch, status, mutationId, newOrderId);
    }
  }

  lemma {:induction false} GroupsWaypointCount(pages: seq<seq<string>>, fetch: FetchStatus, status: QueryStatus,
                                               mutationId: Option<string>, newOrderId: Option<string>)
    ensures Count(Groups(pages, fetch, status, mutationId, newOrderId), Waypoint) == if pages == [] then 0 else 1
    decreases |pages|
  {
    if pages != [] {
      var head := GroupRows(pages[0], fetch, status, mutationId, newOrderId);
      var w: seq<BodyItem> := if |pages| == 1 then [Waypoint] else [];
      var tail := Groups(pages[1..], fetch, status, mutationId, newOrderId);
      assert Groups(pages, fetch, status, mutationId, newOrderId) == head + w + tail;
      GroupsWaypointCount(pages[1..], fetch, status, mutationId, newOrderId);
      GroupRowsNoWaypoint(pages[0], fetch, status, mutationId, newOrderId);
      CountAppend(head + w, tail, Waypoint);
      CountAppend(head, w, Waypoint);
      assert Count([Waypoint], Waypoint) == 1 by {
        assert [Waypoint][1..] == [];
      }
    }
  }

  lemma {:induction false} GroupsWaypointLast(pages: seq<seq<string>>, fetch: FetchStatus, status: QueryStatus,
                                              mutationId: Option<string>, newOrderId: Option<string>)
    requires pages != []
    ensures var g := Groups(pages, fetch, status, mutationId, newOrderId); |g| > 0 && g[|g| - 1] == Waypoint
    decreases |pages|
  {
    var head := GroupRows(pages[0], fetch, status, mutationId, newOrderId);
    var tail := Groups(pages[1..], fetch, status, mutationId, newOrderId);
    if |pages| == 1 {
      assert Groups(pages, fetch, status, mutationId, newOrderId) == head + [Waypoint] + [];
    } else {
      assert Groups(pages, fetch, status, mutationId, newOrderId) == head + [] + tail;
      GroupsWaypointLast(pages[1..], fetch, status, mutationId, newOrderId);
    }
  }

  /** Nothing is rendered when the list query is in error. Otherwise a
      Waypoint is rendered exactly once, after the last page group and before
      any loading rows, when the list has a page and is not loading. */
  lemma BodyWaypoint(stale: bool, pending: bool, pages: seq<seq<string>>, fetch: FetchStatus, status: QueryStatus,
                     mutationId: Option<string>, newOrderId: Option<string>, fetchingNextPage: bool)
    ensures var b := Body(stale, pending, pages, fetch, status, mutationId, newOrderId, fetchingNextPage);
      b.None? <==> status == Errored
    ensures var b := Body(stale, pending, pages, fetch, status, mutationId, newOrderId, fetchingNextPage);
      b.Some? ==> Count(b.value, Waypoint) == if stale || pending || pages == [] then 0 else 1
    ensures status != Errored && !stale && !pending && pages != [] ==>
      var g := Groups(pages, fetch, status, mutationId, newOrderId);
      var b := Body(stale, pending, pages, fetch, status, mutationId, newOrderId, fetchingNextPage).value;
      |g| > 0 && b[|g| - 1] == Waypoint && forall k :: |g| <= k < |b| ==> b[k] == Skeleton
  {
    if status != Errored {
      var b := Body(stale, pending, pages, fetch, status, mutationId, newOrderId, fetchingNextPage).value;
      if stale || pending {
        CountAbsent(b, Waypoint);
      } else {
        var g := Groups(pages, fetch, status, mutationId, newOrderId);
        var fill: seq<BodyItem> := if fetchingNextPage then seq(NextPageRows, _ => Skeleton) else [];
        GroupsWaypoint(pages, fetch, status, mutationId, newOrderId);
        CountAbsent(fill, Waypoint);
        CountAppend(g, fill, Waypoint);
      }
    }
  }

  // ---------------------------------------------------------------------
  // The page and its handlers

  /** The page's state: the query string, whether the edit dialog is open and
      whether its form is mounted, the order loaded for editing and the
      update mutations issued so far. */
  class OrdersPage {
    var params: seq<Pair>
    var editOpen: bool
    var editFormMounted: bool
    var loaded: Option<WbOrder>
    var updates: seq<UpdateInput>

    constructor (params: seq<Pair>)
      ensures this.params == params && !editOpen && !editFormMounted && loaded.None? && updates == []
    {
      this.params := params;
      editOpen := false;
      editFormMounted := false;
      loaded := None;
      updates := [];
    }

    /** The search box: an empty text deletes `q`, any other text sets it. */
    method OnSearchChange(text: string)
      modifies this
      ensures params == if text == [] then Delete(old(params), QueryKey) else Set(old(params), QueryKey, text)
      ensures Get(params, QueryKey) == if text == [] then None else Some(text)
      ensures forall k :: k != QueryKey ==> Get(params, k) == Get(old(params), k)
      ensures editOpen == old(editOpen) && loaded == old(loaded) && updates == old(updates)
      ensures editFormMounted == old(editFormMounted)
    {
      var query := new SearchParams.Copy(params);
      if |text| == 0 {
        query.DeleteParam(QueryKey);
      } else {
        query.SetParam(QueryKey, text);
      }
      forall k | k != QueryKey
        ensures Get(query.pairs, k) == Get(params, k)
      {
        DeleteSpec(params, QueryKey, k);
        SetSpec(params, QueryKey, text, k);
      }
      params := query.pairs;
    }

    /** The clear button deletes `q`. */
    method OnClearSearch()
      modifies this
      ensures params == Delete(old(params), QueryKey)
      ensures Get(params, QueryKey).None?
      ensures forall k :: k != QueryKey ==> Get(params, k) == Get(old(params), k)
      ensures editOpen == old(editOpen) && loaded == old(loaded) && updates == old(updates)
      ensures editFormMounted == old(editFormMounted)
    {
      var query := new SearchParams.Copy(params);
      query.DeleteParam(QueryKey);
      forall k | k != QueryKey
        ensures Get(query.pairs, k) == Get(params, k)
      {
        DeleteSpec(params, QueryKey, k);
      }
      params := query.pairs;
    }

    /** A click on a row sets `edit` to the order's id and opens the dialog. */
    method HandleEditOpen(id: string)
      modifies this
      ensures params == Set(old(params), EditKey, id)
      ensures Get(params, EditKey) == Some(id)
      ensures forall k :: k != EditKey ==> Get(params, k) == Get(old(params), k)
      ensures editOpen
      ensures loaded == old(loaded) && updates == old(updates) && editFormMounted == old(editFormMounted)
    {
      var query := new SearchParams.Copy(params);
      query.SetParam(EditKey, id);
      forall k | k != EditKey
        ensures Get(query.pairs, k) == Get(params, k)
      {
        SetSpec(params, EditKey, id, k);
      }
      params := query.pairs;
      editOpen := true;
    }

    /** Closing the dialog closes it and deletes `edit`, but only while its
      form is mounted; otherwise nothing happens. */
    method HandleEditClose()
      modifies this
      ensures old(editFormMounted) ==> !editOpen && params == Delete(old(params), EditKey)
      ensures old(editFormMounted) ==> forall k :: k != EditKey ==> Get(params, k) == Get(old(params), k)
      ensures !old(editFormMounted) ==> editOpen == old(editOpen) && params == old(params)
      ensures loaded == old(loaded) && updates == old(updates) && editFormMounted == old(editFormMounted)
    {
      if editFormMounted {
        editOpen := false;
        var query := new SearchParams.Copy(params);
        query.DeleteParam(EditKey);
        forall k | k != EditKey
          ensures Get(query.pairs, k) == Get(params, k)
        {
          DeleteSpec(params, EditKey, k);
        }
        params := query.pairs;
      }
    }

    /** The edit form's submit.  An empty status only ends the submit; any
      other issues the update when the form is mounted and dirty, then ends
      the submit and calls `HandleEditClose`, which closes the dialog only
      while the form is mounted. */
    method HandleSubmit(status: string, form: Form)
      modifies this, form
      ensures form.state == old(form.state).(isSubmitting := false)
      ensures status == [] ==> updates == old(updates) && params == old(params) && editOpen == old(editOpen)
      ensures status != [] && old(editFormMounted) && old(form.Dirty()) ==>
        updates == old(updates) + [UpdatePayload(Get(old(params), EditKey), status, old(loaded))]
      ensures status != [] && !(old(editFormMounted) && old(form.Dirty())) ==> updates == old(updates)
      ensures status != [] && old(editFormMounted) ==> !editOpen && params == Delete(old(params), EditKey)
      ensures status != [] && !old(editFormMounted) ==> editOpen == old(editOpen) && params == old(params)
      ensures loaded == old(loaded) && editFormMounted == old(editFormMounted)
    {
      if status == [] {
        form.SetSubmitting(false);
        return;
      }
      var payload := UpdatePayload(Get(params, EditKey), status, loaded);
      if editFormMounted && form.Dirty() {
        updates := updates + [payload];
      }
      form.SetSubmitting(false);
      HandleEditClose();
    }

    /** The filter form's submit writes the status and the search types. */
    method OnFilterSubmit(sortStatus: string, searchTypes: seq<string>)
      modifies this
      ensures params == WriteFilter(old(params), sortStatus, searchTypes)
      ensures forall k :: k != SortKey && k != SearchTypeKey ==> Get(params, k) == Get(old(params), k)
      ensures editOpen == old(editOpen) && loaded == old(loaded) && updates == old(updates)
      ensures editFormMounted == old(editFormMounted)
    {
      var query := new SearchParams.Copy(params);
      query.SetParam(SortKey, sortStatus);
      var mid := query.pairs;
      query.SetParam(SearchTypeKey, StringifyStrings(searchTypes));
      forall k | k != SortKey && k != SearchTypeKey
        ensures Get(query.pairs, k) == Get(params, k)
      {
        SetSpec(params, SortKey, sortStatus, k);
        SetSpec(mid, SearchTypeKey, StringifyStrings(searchTypes), k);
      }
      params := query.pairs;
    }

    /** The by-id query settled: the dialog is open exactly when an order loaded. */
    method OnOrderLoaded(order: Option<WbOrder>)
      modifies this
      ensures loaded == order && editOpen == order.Some?
      ensures params == old(params) && updates == old(updates) && editFormMounted == old(editFormMounted)
    {
      loaded := order;
      editOpen := order.Some?;
    }
  }
}
