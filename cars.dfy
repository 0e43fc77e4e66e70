/** The car list screen: the page, status and search carried in the URL's
    query string, the list query they select, and the moderation dialogs. */
module CarsList {
  import opened Js
  import opened CarTypes

  /** The URL's query parameters, by name. */
  type SearchParams = map<string, string>

  /** `searchParams.get(name)`. */
  function Get(params: SearchParams, name: string): Option<string>
  {
    if name in params then Some(params[name]) else None
  }

  /** `parseInt(searchParams.get('page') || '1', 10)`; `None` stands for
      `NaN`. */
  function PageParam(params: SearchParams): (r: Option<int>)
    ensures !Truthy(Get(params, "page")) ==> r == Some(1)
    ensures Truthy(Get(params, "page")) ==> r == ParseInt(params["page"])
  {
    ParseOne();
    ParseInt(OrDefault(Get(params, "page"), "1"))
  }

  /** `searchParams.get('status') || 'all'`. */
  function StatusParam(params: SearchParams): (r: string)
    ensures r != ""
    ensures !Truthy(Get(params, "status")) ==> r == "all"
    ensures Truthy(Get(params, "status")) ==> r == params["status"]
  {
    OrDefault(Get(params, "status"), "all")
  }

  /** `searchParams.get('search') || ''`. */
  function SearchParam(params: SearchParams): (r: string)
    ensures "search" in params ==> r == params["search"]
    ensures "search" !in params ==> r == ""
  {
    OrDefault(Get(params, "search"), "")
  }

  /** The status argument of the list query: `'all'` means no filter. */
  function StatusFilter(status: string): (r: Option<string>)
    ensures r.None? <==> status == "all"
    ensures r.Some? ==> r.value == status
  {
    if status == "all" then None else Some(status)
  }

  /** The arguments of `useGetCars(page, status, search)`. */
  datatype CarsQuery = CarsQuery(page: Option<int>, status: Option<string>, search: string)

  function QueryFor(params: SearchParams): CarsQuery
  {
    CarsQuery(PageParam(params), StatusFilter(StatusParam(params)), SearchParam(params))
  }

  /** `setSearchParams({ page, status, search })`: exactly these three. */
  function ParamsFor(page: string, status: string, search: string): SearchParams
  {
    map["page" := page, "status" := status, "search" := search]
  }

  /** The tab ids, in display order. */
  const Tabs: seq<string> := ["all", "pending", "active", "sold", "rejected", "flagged"]

  /** An empty query string selects page 1 of every status, unfiltered. */
  lemma EmptyQueryStringDefaults()
    ensures QueryFor(map[]) == CarsQuery(Some(1), None, "")
  {
  }

  /** Only the "all" tab lifts the status filter; every other tab filters by
      its own id. */
  lemma TabFilters(t: int)
    requires 0 <= t < |Tabs|
    ensures StatusFilter(Tabs[t]) == if t == 0 then None else Some(Tabs[t])
  {
  }

  /** The parameters written on a tab change or a search select page 1,
      the tab's status (`all` when empty) and the search text. */
  lemma FirstPageQuery(status: string, search: string)
    ensures StatusParam(ParamsFor("1", status, search)) == OrDefault(Some(status), "all")
    ensures QueryFor(ParamsFor("1", status, search)) ==
      CarsQuery(Some(1), StatusFilter(OrDefault(Some(status), "all")), search)
  {
    var m := ParamsFor("1", status, search);
    assert Get(m, "page") == Some("1") && Truthy(Get(m, "page"));
    assert Get(m, "status") == Some(status) && Get(m, "search") == Some(search);
    ParseOne();
  }

  /** The parameters written on a page change select that page again, with
      status and search kept: `toString` and `parseInt` round-trip. */
  lemma PageChangeQuery(n: int, status: string, search: string)
    ensures StatusParam(ParamsFor(IntToString(n), status, search)) == OrDefault(Some(status), "all")
    ensures QueryFor(ParamsFor(IntToString(n), status, search)) ==
      CarsQuery(Some(n), StatusFilter(OrDefault(Some(status), "all")), search)
  {
    var m := ParamsFor(IntToString(n), status, search);
    assert Get(m, "page") == Some(IntToString(n)) && Truthy(Get(m, "page"));
    assert Get(m, "status") == Some(status) && Get(m, "search") == Some(search);
    ParseIntToString(n);
  }

  /** A dialog that holds the id of the car it acts on. */
  datatype IdDialog = IdDialog(isOpen: bool, carId: Option<string>)

  /** The feature dialog, which holds the whole car. */
  datatype CarDialog = CarDialog(isOpen: bool, car: Option<Car>)

  const ClosedIdDialog: IdDialog := IdDialog(false, None)

  const ClosedCarDialog: CarDialog := CarDialog(false, None)

  /** The screen's state: the query string, the search box text, the active
      tab, the three dialogs and the mutations requested, in order. */
  class CarsPage {
    var params: SearchParams
    var search: string
    var activeTab: string
    var deleteConfirmation: IdDialog
    var rejectModal: IdDialog
    var featureConfirmation: CarDialog
    var requests: seq<CarRequest>

    /** The active tab is the status the query string selects. */
    ghost predicate Valid()
      reads this
    {
      StatusParam(params) == OrDefault(Some(activeTab), "all")
    }

    /** Mounting: the search box and the active tab start from the query
        string; every dialog is closed. */
    constructor (params: SearchParams)
      ensures Valid()
      ensures this.params == params
      ensures search == SearchParam(params) && activeTab == StatusParam(params)
      ensures deleteConfirmation == ClosedIdDialog && rejectModal == ClosedIdDialog
      ensures featureConfirmation == ClosedCarDialog && requests == []
    {
      this.params := params;
      search := SearchParam(params);
      activeTab := StatusParam(params);
      deleteConfirmation, rejectModal := ClosedIdDialog, ClosedIdDialog;
      featureConfirmation := ClosedCarDialog;
      requests := [];
    }

    /** Typing in the search box changes only its text. */
    method SetSearch(text: string)
      modifies this
      ensures Valid() == old(Valid())
      ensures search == text && params == old(params) && activeTab == old(activeTab)
      ensures deleteConfirmation == old(deleteConfirmation) && rejectModal == old(rejectModal)
      ensures featureConfirmation == old(featureConfirmation) && requests == old(requests)
    {
      search := text;
    }

    /** `handleSearch`: back to page 1, keeping the active tab. */
    method HandleSearch()
      modifies this
      ensures Valid()
      ensures params == ParamsFor("1", activeTab, search)
      ensures search == old(search) && activeTab == old(activeTab)
      ensures deleteConfirmation == old(deleteConfirmation) && rejectModal == old(rejectModal)
      ensures featureConfirmation == old(featureConfirmation) && requests == old(requests)
    {
      params := ParamsFor("1", activeTab, search);
    }

    /** `handleTabChange`: the tab becomes the status, back to page 1,
        keeping the search text. */
    method HandleTabChange(tab: string)
      modifies this
      ensures Valid()
      ensures activeTab == tab && params == ParamsFor("1", tab, search)
      ensures search == old(search)
      ensures deleteConfirmation == old(deleteConfirmation) && rejectModal == old(rejectModal)
      ensures featureConfirmation == old(featureConfirmation) && requests == old(requests)
    {
      activeTab := tab;
      params := ParamsFor("1", tab, search);
    }

    /** `handlePageChange`: the new page, keeping the tab and the search
        text. */
    method HandlePageChange(newPage: int)
      modifies this
      ensures Valid()
      ensures params == ParamsFor(IntToString(newPage), activeTab, search)
      ensures search == old(search) && activeTab == old(activeTab)
      ensures deleteConfirmation == old(deleteConfirmation) && rejectModal == old(rejectModal)
      ensures featureConfirmation == old(featureConfirmation) && requests == old(requests)
    {
      params := ParamsFor(IntToString(newPage), activeTab, search);
    }

    method OpenDelete(carId: string)
      modifies this
      ensures deleteConfirmation == IdDialog(true, Some(carId))
      ensures params == old(params) && search == old(search) && activeTab == old(activeTab)
      ensures rejectModal == old(rejectModal) && featureConfirmation == old(featureConfirmation)
      ensures requests == old(requests)
    {
      deleteConfirmation := IdDialog(true, Some(carId));
    }

    method CloseDelete()
      modifies this
      ensures deleteConfirmation == ClosedIdDialog
      ensures params == old(params) && search == old(search) && activeTab == old(activeTab)
      ensures rejectModal == old(rejectModal) && featureConfirmation == old(featureConfirmation)
      ensures requests == old(requests)
    {
      deleteConfirmation := ClosedIdDialog;
    }

    /** `handleDelete`, with the mutation's outcome as a parameter: nothing
        without a selected id; otherwise deletes, and on success closes the
        dialog and forgets the id. */
    method HandleDelete(succeeds: bool)
      modifies this
      ensures !Truthy(old(deleteConfirmation.carId)) ==>
        requests == old(requests) && deleteConfirmation == old(deleteConfirmation)
      ensures Truthy(old(deleteConfirmation.carId)) ==>
        requests == old(requests) + [DeleteCar(old(deleteConfirmation.carId.value))]
      ensures Truthy(old(deleteConfirmation.carId)) ==>
        deleteConfirmation == if succeeds then ClosedIdDialog else old(deleteConfirmation)
      ensures params == old(params) && search == old(search) && activeTab == old(activeTab)
      ensures rejectModal == old(rejectModal) && featureConfirmation == old(featureConfirmation)
    {
      if !Truthy(deleteConfirmation.carId) {
        return;
      }
      requests := requests + [DeleteCar(deleteConfirmation.carId.value)];
      if succeeds {
        deleteConfirmation := ClosedIdDialog;
      }
    }

    method OpenReject(carId: string)
      modifies this
      ensures rejectModal == IdDialog(true, Some(carId))
      ensures params == old(params) && search == old(search) && activeTab == old(activeTab)
      ensures deleteConfirmation == old(deleteConfirmation) && featureConfirmation == old(featureConfirmation)
      ensures requests == old(requests)
    {
      rejectModal := IdDialog(true, Some(carId));
    }

    method CloseReject()
      modifies this
      ensures rejectModal == ClosedIdDialog
      ensures params == old(params) && search == old(search) && activeTab == old(activeTab)
      ensures deleteConfirmation == old(deleteConfirmation) && featureConfirmation == old(featureConfirmation)
      ensures requests == old(requests)
    {
      rejectModal := ClosedIdDialog;
    }

    /** `handleReject`: like `handleDelete`, sending the reason. */
    method HandleReject(reason: string, succeeds: bool)
      modifies this
      ensures !Truthy(old(rejectModal.carId)) ==>
        requests == old(requests) && rejectModal == old(rejectModal)
      ensures Truthy(old(rejectModal.carId)) ==>
        requests == old(requests) + [RejectCar(old(rejectModal.carId.value), reason)]
      ensures Truthy(old(rejectModal.carId)) ==>
        rejectModal == if succeeds then ClosedIdDialog else old(rejectModal)
      ensures params == old(params) && search == old(search) && activeTab == old(activeTab)
      ensures deleteConfirmation == old(deleteConfirmation) && featureConfirmation == old(featureConfirmation)
    {
      if !Truthy(rejectModal.carId) {
        return;
      }
      requests := requests + [RejectCar(rejectModal.carId.value, reason)];
      if succeeds {
        rejectModal := ClosedIdDialog;
      }
    }

    /** `handleApprove`: approves the row's car; no dialog is involved. */
    method HandleApprove(id: string)
      modifies this
      ensures requests == old(requests) + [ApproveCar(id)]
      ensures params == old(params) && search == old(search) && activeTab == old(activeTab)
      ensures deleteConfirmation == old(deleteConfirmation) && rejectModal == old(rejectModal)
      ensures featureConfirmation == old(featureConfirmation)
    {
      requests := requests + [ApproveCar(id)];
    }

    method OpenFeature(car: Car)
      modifies this
      ensures featureConfirmation == CarDialog(true, Some(car))
      ensures params == old(params) && search == old(search) && activeTab == old(activeTab)
      ensures deleteConfirmation == old(deleteConfirmation) && rejectModal == old(rejectModal)
      ensures requests == old(requests)
    {
      featureConfirmation := CarDialog(true, Some(car));
    }

    method CloseFeature()
      modifies this
      ensures featureConfirmation == ClosedCarDialog
      ensures params == old(params) && search == old(search) && activeTab == old(activeTab)
      ensures deleteConfirmation == old(deleteConfirmation) && rejectModal == old(rejectModal)
      ensures requests == old(requests)
    {
      featureConfirmation := ClosedCarDialog;
    }

    /** `handleToggleFeature`: nothing without a selected car; otherwise
        unfeatures a featured car or features an unfeatured one, and on
        success closes the dialog and forgets the car. */
    method HandleToggleFeature(succeeds: bool)
      modifies this
      ensures old(featureConfirmation.car).None? ==>
        requests == old(requests) && featureConfirmation == old(featureConfirmation)
      ensures old(featureConfirmation.car).Some? ==>
        var car := old(featureConfirmation.car.value);
        requests == old(requests) + [ToggleFeatureRequest(car.isFeatured, car.id)]
      ensures old(featureConfirmation.car).Some? ==>
        featureConfirmation == if succeeds then ClosedCarDialog else old(featureConfirmation)
      ensures params == old(params) && search == old(search) && activeTab == old(activeTab)
      ensures deleteConfirmation == old(deleteConfirmation) && rejectModal == old(rejectModal)
    {
      if featureConfirmation.car.None? {
        return;
      }
      var car := featureConfirmation.car.value;
      requests := requests + [ToggleFeatureRequest(car.isFeatured, car.id)];
      if succeeds {
        featureConfirmation := ClosedCarDialog;
      }
    }
  }
}
