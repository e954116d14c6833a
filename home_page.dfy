/**
 * The home page: the device filter and its dropdown, the view it shows,
 * and the state its fetch, page-size and delete-all handlers update.
 */
module HomePage {
  import opened Types
  import Seqs

  /** The dropdown value that selects every record. */
  const AllDevices: string := "all"

  /** The id that stands for a record whose `device_id` is absent or empty. */
  const UnknownDevice: string := "unknown"

  // ---------------------------------------------------------------------------
  // Device filter and dropdown
  // ---------------------------------------------------------------------------

  /** `device_id || 'unknown'`: the id the dropdown and its counts use. */
  function EffectiveDeviceId(r: LocationRecord): (id: string)
    ensures id != ""
  {
    match r.resultData.deviceId
    case Some(s) => if s != "" then s else UnknownDevice
    case None => UnknownDevice
  }

  /** The filter's test: the raw `device_id`, with no default applied. */
  function HasRawDeviceId(selected: string): LocationRecord -> bool
  {
    (r: LocationRecord) => r.resultData.deviceId == Some(selected)
  }

  /** The counts' test: the defaulted id. */
  function HasEffectiveDeviceId(device: string): LocationRecord -> bool
  {
    (r: LocationRecord) => EffectiveDeviceId(r) == device
  }

  /**
   * `filteredRecords`: every record for "all", otherwise, in their order,
   * exactly the records whose raw `device_id` is the selected one.
   */
  function FilteredRecords(records: seq<LocationRecord>, selected: string): (shown: seq<LocationRecord>)
    ensures selected == AllDevices ==> shown == records
    ensures |shown| <= |records|
    ensures selected != AllDevices ==>
      && Seqs.IsSubsequence(shown, records)
      && (forall x :: x in shown ==> x.resultData.deviceId == Some(selected))
      && (forall x :: multiset(shown)[x] ==
            if x.resultData.deviceId == Some(selected) then multiset(records)[x] else 0)
  {
    if selected == AllDevices then records else Seqs.Filter(records, HasRawDeviceId(selected))
  }

  /** The defaulted id of every record, in record order. */
  function DeviceIds(records: seq<LocationRecord>): (ids: seq<string>)
    ensures |ids| == |records|
    ensures forall i :: 0 <= i < |records| ==> ids[i] == EffectiveDeviceId(records[i])
  {
    seq(|records|, i requires 0 <= i < |records| => EffectiveDeviceId(records[i]))
  }

  /**
   * `uniqueDevices`: each defaulted id once, in order of first appearance;
   * every record's defaulted id is listed and nothing else is.
   */
  function UniqueDevices(records: seq<LocationRecord>): (devices: seq<string>)
    ensures Seqs.NoDuplicates(devices)
    ensures forall d :: d in devices <==> exists r :: r in records && EffectiveDeviceId(r) == d
    ensures forall d :: d in devices ==> d != ""
    ensures forall i, j, k ::
      (0 <= i < j < |devices| && 0 <= k < |records| && EffectiveDeviceId(records[k]) == devices[j]) ==>
      exists m :: 0 <= m < k && EffectiveDeviceId(records[m]) == devices[i]
  {
    var ids := DeviceIds(records);
    var devices := Seqs.Dedup(ids);
    forall d | d in devices
      ensures exists r :: r in records && EffectiveDeviceId(r) == d
    {
      var k :| 0 <= k < |ids| && ids[k] == d;
      assert records[k] in records;
    }
    forall d | exists r :: r in records && EffectiveDeviceId(r) == d
      ensures d in devices
    {
      var r :| r in records && EffectiveDeviceId(r) == d;
      var k :| 0 <= k < |records| && records[k] == r;
      assert ids[k] == d;
    }
    forall i, j, k | 0 <= i < j < |devices| && 0 <= k < |records| &&
      EffectiveDeviceId(records[k]) == devices[j]
      ensures exists m :: 0 <= m < k && EffectiveDeviceId(records[m]) == devices[i]
    {
      assert devices[i] in ids[..k];
      var m :| 0 <= m < k && ids[..k][m] == devices[i];
      assert EffectiveDeviceId(records[m]) == devices[i];
    }
    devices
  }

  /**
   * `deviceRecordCount`: the records whose defaulted id is `device`, which
   * is how often `device` occurs among the defaulted ids.
   */
  function DeviceCount(records: seq<LocationRecord>, device: string): (n: nat)
    ensures n <= |records|
    ensures n == multiset(DeviceIds(records))[device]
    ensures n > 0 <==> exists r :: r in records && EffectiveDeviceId(r) == device
  {
    var matching := Seqs.Filter(records, HasEffectiveDeviceId(device));
    FilterNonEmptyIffSomeMatch(records, device);
    MatchingCountIsMultiplicity(records, device);
    |matching|
  }

  lemma {:induction false} MatchingCountIsMultiplicity(records: seq<LocationRecord>, device: string)
    ensures |Seqs.Filter(records, HasEffectiveDeviceId(device))| == multiset(DeviceIds(records))[device]
    decreases |records|
  {
    if records != [] {
      var init, r := records[..|records| - 1], records[|records| - 1];
      assert records == init + [r];
      MatchingCountIsMultiplicity(init, device);
      Seqs.FilterSnoc(init, r, HasEffectiveDeviceId(device));
      assert DeviceIds(records) == DeviceIds(init) + [EffectiveDeviceId(r)];
    }
  }

  lemma FilterNonEmptyIffSomeMatch(records: seq<LocationRecord>, device: string)
    ensures |Seqs.Filter(records, HasEffectiveDeviceId(device))| > 0 <==>
      exists r :: r in records && EffectiveDeviceId(r) == device
  {
    var matching := Seqs.Filter(records, HasEffectiveDeviceId(device));
    if exists r :: r in records && EffectiveDeviceId(r) == device {
      var r :| r in records && EffectiveDeviceId(r) == device;
      assert multiset(matching)[r] == multiset(records)[r];
    }
    if |matching| > 0 {
      assert matching[0] in matching;
    }
  }

  lemma DeviceCountSnoc(records: seq<LocationRecord>, r: LocationRecord, device: string)
    ensures DeviceCount(records + [r], device) ==
      DeviceCount(records, device) + if EffectiveDeviceId(r) == device then 1 else 0
  {
    Seqs.FilterSnoc(records, r, HasEffectiveDeviceId(device));
  }

  lemma UniqueDevicesSnoc(records: seq<LocationRecord>, r: LocationRecord)
    ensures UniqueDevices(records + [r]) ==
      if EffectiveDeviceId(r) in UniqueDevices(records) then UniqueDevices(records)
      else UniqueDevices(records) + [EffectiveDeviceId(r)]
  {
    assert DeviceIds(records + [r]) == DeviceIds(records) + [EffectiveDeviceId(r)];
    Seqs.DedupSnoc(DeviceIds(records), EffectiveDeviceId(r));
  }

  /** The counts shown beside the listed devices, added up. */
  function SumOfCounts(devices: seq<string>, records: seq<LocationRecord>): nat
  {
    if devices == [] then 0
    else SumOfCounts(devices[..|devices| - 1], records) + DeviceCount(records, devices[|devices| - 1])
  }

  lemma {:induction false} SumOfCountsSnoc(devices: seq<string>, records: seq<LocationRecord>, r: LocationRecord)
    requires Seqs.NoDuplicates(devices)
    ensures SumOfCounts(devices, records + [r]) ==
      SumOfCounts(devices, records) + if EffectiveDeviceId(r) in devices then 1 else 0
    decreases |devices|
  {
    if devices != [] {
      var init, last := devices[..|devices| - 1], devices[|devices| - 1];
      assert devices == init + [last];
      SumOfCountsSnoc(init, records, r);
      DeviceCountSnoc(records, r, last);
      assert EffectiveDeviceId(r) in devices <==> EffectiveDeviceId(r) in init || EffectiveDeviceId(r) == last;
      assert last !in init;
    }
  }

  /** The per-device counts in the dropdown add up to the number of records. */
  lemma {:induction false} DeviceCountsSumToTotal(records: seq<LocationRecord>)
    ensures SumOfCounts(UniqueDevices(records), records) == |records|
    decreases |records|
  {
    if records != [] {
      var init, r := records[..|records| - 1], records[|records| - 1];
      assert records == init + [r];
      DeviceCountsSumToTotal(init);
      SumOfCountsGrowsByOne(init, r);
    }
  }

  /** One more record adds exactly one to the sum of the listed counts. */
  lemma SumOfCountsGrowsByOne(init: seq<LocationRecord>, r: LocationRecord)
    ensures SumOfCounts(UniqueDevices(init + [r]), init + [r]) == SumOfCounts(UniqueDevices(init), init) + 1
  {
    var e := EffectiveDeviceId(r);
    var devices := UniqueDevices(init);
    UniqueDevicesSnoc(init, r);
    SumOfCountsSnoc(devices, init, r);
    if e !in devices {
      NewDeviceCountsOnce(init, r);
    }
  }

  /** A record with a device not yet listed appends that device, counted once. */
  lemma NewDeviceCountsOnce(init: seq<LocationRecord>, r: LocationRecord)
    requires EffectiveDeviceId(r) !in UniqueDevices(init)
    ensures SumOfCounts(UniqueDevices(init) + [EffectiveDeviceId(r)], init + [r]) ==
      SumOfCounts(UniqueDevices(init), init + [r]) + 1
  {
    var e := EffectiveDeviceId(r);
    var extended := UniqueDevices(init) + [e];
    assert extended[..|extended| - 1] == UniqueDevices(init);
    UnlistedDeviceHasNoRecords(init, e);
    DeviceCountSnoc(init, r, e);
  }

  lemma UnlistedDeviceHasNoRecords(records: seq<LocationRecord>, device: string)
    requires device !in UniqueDevices(records)
    ensures DeviceCount(records, device) == 0
  {
  }

  /** Whether the record has no usable `device_id`, so the dropdown files it under "unknown". */
  predicate LacksDeviceId(r: LocationRecord)
  {
    r.resultData.deviceId.None? || r.resultData.deviceId.value == ""
  }

  /**
   * Selecting "unknown" shows only the records whose raw id is literally
   * "unknown": the dropdown's count for it exceeds the rows shown by
   * exactly the records without a usable id.
   */
  lemma {:induction false} UnknownFilterMissesRecordsWithoutId(records: seq<LocationRecord>)
    ensures DeviceCount(records, UnknownDevice) ==
      |FilteredRecords(records, UnknownDevice)| + |Seqs.Filter(records, LacksDeviceId)|
    decreases |records|
  {
    if records != [] {
      var init, r := records[..|records| - 1], records[|records| - 1];
      assert records == init + [r];
      UnknownFilterMissesRecordsWithoutId(init);
      DeviceCountSnoc(init, r, UnknownDevice);
      Seqs.FilterSnoc(init, r, HasRawDeviceId(UnknownDevice));
      Seqs.FilterSnoc(init, r, LacksDeviceId);
    }
  }

  /** One record without an id is enough for the mismatch. */
  lemma UnknownSelectionShowsFewerThanCounted(records: seq<LocationRecord>, r: LocationRecord)
    requires r in records && LacksDeviceId(r)
    ensures |FilteredRecords(records, UnknownDevice)| < DeviceCount(records, UnknownDevice)
  {
    UnknownFilterMissesRecordsWithoutId(records);
    var lacking := Seqs.Filter(records, LacksDeviceId);
    assert multiset(lacking)[r] == multiset(records)[r];
    assert r in lacking;
  }

  /**
   * The filter with the same default as the dropdown: selecting a device
   * shows as many rows as the dropdown counts for it.
   */
  function FilteredRecordsCorrected(records: seq<LocationRecord>, selected: string): (shown: seq<LocationRecord>)
    ensures selected == AllDevices ==> shown == records
    ensures selected != AllDevices ==>
      && |shown| == DeviceCount(records, selected)
      && Seqs.IsSubsequence(shown, records)
      && (forall x :: x in shown ==> EffectiveDeviceId(x) == selected)
  {
    if selected == AllDevices then records else Seqs.Filter(records, HasEffectiveDeviceId(selected))
  }

  // ---------------------------------------------------------------------------
  // The view
  // ---------------------------------------------------------------------------

  /** What the records area shows. */
  datatype View = Loading | ErrorView | NoRecords | NoMatch | Table

  /** `error ? ...`: an empty message is falsy and shows no error. */
  predicate ErrorShown(error: Option<string>)
  {
    error.Some? && error.value != ""
  }

  /**
   * The records area: loading wins over an error, an error over the empty
   * state, and the table needs at least one filtered record. The empty
   * state says "Henüz Kayıt Yok" without records and "Kayıt Bulunamadı"
   * when records exist but none matches the device.
   */
  function SelectView(loading: bool, error: Option<string>, recordCount: nat, shownCount: nat): (v: View)
    ensures v == Loading <==> loading
    ensures v == ErrorView <==> !loading && ErrorShown(error)
    ensures v == NoRecords <==> !loading && !ErrorShown(error) && shownCount == 0 && recordCount == 0
    ensures v == NoMatch <==> !loading && !ErrorShown(error) && shownCount == 0 && recordCount > 0
    ensures v == Table <==> !loading && !ErrorShown(error) && shownCount > 0
  {
    if loading then Loading
    else if ErrorShown(error) then ErrorView
    else if shownCount == 0 then (if recordCount == 0 then NoRecords else NoMatch)
    else Table
  }

  /**
   * The pager's mount condition, which does not look at the filtered rows:
   * it is mounted exactly when the records area shows the table or
   * "Kayıt Bulunamadı" (the device filter hid every record of the page),
   * whatever device is selected. It may still render nothing.
   */
  function PaginationShown(loading: bool, error: Option<string>, records: seq<LocationRecord>, selected: string): (shown: bool)
    ensures shown <==>
      SelectView(loading, error, |records|, |FilteredRecords(records, selected)|) in {Table, NoMatch}
  {
    !loading && !ErrorShown(error) && |records| > 0
  }

  // ---------------------------------------------------------------------------
  // Page state
  // ---------------------------------------------------------------------------

  /** The page sizes the "Sayfa başına kayıt" select offers. */
  const LimitOptions: set<int> := {10, 25, 50, 100}

  /** How `getLocations` settled. `None` as message: a thrown value that is not an `Error`. */
  datatype FetchOutcome =
    | Fetched(data: seq<LocationRecord>, pagination: PaginationInfo)
    | FetchFailed(message: Option<string>)

  /** How `deleteAllLocations` settled. */
  datatype DeleteOutcome = Deleted | DeleteFailed(message: Option<string>)

  /** `err instanceof Error ? err.message : fallback`. */
  function ErrorText(message: Option<string>, fallback: string): string
  {
    match message
    case Some(m) => m
    case None => fallback
  }

  const FetchErrorText: string := "Veriler yüklenirken bir hata oluştu"
  const DeleteErrorText: string := "Veriler silinirken bir hata oluştu"

  /** The page's `useState` fields that its handlers update. */
  class Home {
    var records: seq<LocationRecord>
    var loading: bool
    var error: Option<string>
    var limit: int
    var offset: int
    var pagination: PaginationInfo
    var selectedDevice: string
    var deleting: bool
    var showDeleteConfirm: bool

    /** Page size is one of the offered sizes and the offset is not negative. */
    predicate Valid()
      reads this
    {
      limit in LimitOptions && offset >= 0
    }

    /** The initial state: loading, first page of 100, every device. */
    constructor ()
      ensures Valid()
      ensures records == [] && loading && error == None
      ensures limit == 100 && offset == 0 && pagination == PaginationInfo(0, 100, 0, false)
      ensures selectedDevice == AllDevices && !deleting && !showDeleteConfirm
    {
      records := [];
      loading := true;
      error := None;
      limit := 100;
      offset := 0;
      pagination := PaginationInfo(0, 100, 0, false);
      selectedDevice := AllDevices;
      deleting := false;
      showDeleteConfirm := false;
    }

    /** `filteredRecords`: the rows for the selected device. */
    function Shown(): seq<LocationRecord>
      reads this
    {
      FilteredRecords(records, selectedDevice)
    }

    /** What the records area shows in this state. */
    function CurrentView(): View
      reads this
    {
      SelectView(loading, error, |records|, |Shown()|)
    }

    /** Whether the pager is mounted in this state. */
    predicate PagerMounted()
      reads this
    {
      PaginationShown(loading, error, records, selectedDevice)
    }

    /** "Yenile" is disabled while loading or deleting. */
    predicate RefreshDisabled()
      reads this
    {
      loading || deleting
    }

    /** "Tümünü Sil" is disabled while loading or deleting, and when there is nothing to delete. */
    predicate DeleteAllDisabled()
      reads this
    {
      loading || deleting || |records| == 0
    }

    /** `fetchLocations` up to its await: the request asks for the current page. */
    method BeginFetch() returns (requestLimit: int, requestOffset: int)
      modifies this
      ensures requestLimit == limit && requestOffset == offset
      ensures old(Valid()) ==> Valid() && requestLimit in LimitOptions && requestOffset >= 0
      ensures loading && error == None
      ensures records == old(records) && pagination == old(pagination)
      ensures limit == old(limit) && offset == old(offset) && selectedDevice == old(selectedDevice)
      ensures deleting == old(deleting) && showDeleteConfirm == old(showDeleteConfirm)
      ensures RefreshDisabled() && DeleteAllDisabled()
      ensures CurrentView() == Loading && !PagerMounted()
    {
      loading := true;
      error := None;
      requestLimit, requestOffset := limit, offset;
    }

    /**
     * `fetchLocations` after `getLocations` settles: the data and its
     * pagination on success; on failure the old records stay and the error
     * is set. Loading ends either way.
     */
    method CompleteFetch(outcome: FetchOutcome)
      modifies this
      ensures !loading
      ensures outcome.Fetched? ==>
        records == outcome.data && pagination == outcome.pagination && error == old(error)
      ensures outcome.FetchFailed? ==>
        records == old(records) && pagination == old(pagination) &&
        error == Some(ErrorText(outcome.message, FetchErrorText))
      ensures limit == old(limit) && offset == old(offset) && selectedDevice == old(selectedDevice)
      ensures deleting == old(deleting) && showDeleteConfirm == old(showDeleteConfirm)
      ensures CurrentView() != Loading
      ensures outcome.FetchFailed? && (outcome.message.None? || outcome.message.value != "") ==>
        CurrentView() == ErrorView && !PagerMounted()
      ensures outcome.Fetched? && old(error) == None ==>
        CurrentView() != ErrorView && (PagerMounted() <==> |outcome.data| > 0)
    {
      match outcome {
        case Fetched(data, p) =>
          records := data;
          pagination := p;
        case FetchFailed(message) =>
          error := Some(ErrorText(message, FetchErrorText));
      }
      loading := false;
    }

    /**
     * "Yenile" (`handleRefresh`) starts a fetch unless the button is
     * disabled. The "Tekrar Dene" button in the error view calls the same
     * handler without that guard, which is `BeginFetch` itself.
     */
    method ClickRefresh() returns (started: bool, requestLimit: int, requestOffset: int)
      modifies this
      ensures started == !old(RefreshDisabled())
      ensures started ==> loading && error == None && requestLimit == limit && requestOffset == offset
      ensures !started ==> loading == old(loading) && error == old(error)
      ensures records == old(records) && pagination == old(pagination)
      ensures limit == old(limit) && offset == old(offset) && selectedDevice == old(selectedDevice)
      ensures deleting == old(deleting) && showDeleteConfirm == old(showDeleteConfirm)
      ensures RefreshDisabled()
    {
      started, requestLimit, requestOffset := false, limit, offset;
      if !RefreshDisabled() {
        started := true;
        requestLimit, requestOffset := BeginFetch();
      }
    }

    /** A new page size from the select; the page goes back to the first one. */
    method HandleLimitChange(newLimit: int)
      requires newLimit in LimitOptions
      modifies this
      ensures Valid()
      ensures limit == newLimit && offset == 0
      ensures records == old(records) && loading == old(loading) && error == old(error)
      ensures pagination == old(pagination) && selectedDevice == old(selectedDevice)
      ensures deleting == old(deleting) && showDeleteConfirm == old(showDeleteConfirm)
    {
      limit := newLimit;
      offset := 0;
    }

    /** An offset from the pager; a non-negative one keeps the state valid. */
    method HandlePageChange(newOffset: int)
      modifies this
      ensures old(Valid()) && newOffset >= 0 ==> Valid()
      ensures offset == newOffset && limit == old(limit)
      ensures records == old(records) && loading == old(loading) && error == old(error)
      ensures pagination == old(pagination) && selectedDevice == old(selectedDevice)
      ensures deleting == old(deleting) && showDeleteConfirm == old(showDeleteConfirm)
    {
      offset := newOffset;
    }

    /**
     * A page-size change followed by the fetch that the effect on `limit`
     * and `offset` runs once it lands. The effect runs only when one of the
     * two actually changed; then the request is for the first page of the
     * new size, and `outcome` is what `getLocations` settles to.
     */
    method ChangeLimitAndFetch(newLimit: int, outcome: FetchOutcome)
      returns (started: bool, requestLimit: int, requestOffset: int)
      requires newLimit in LimitOptions
      modifies this
      ensures started == (newLimit != old(limit) || old(offset) != 0)
      ensures Valid() && limit == newLimit && offset == 0
      ensures !started ==>
        records == old(records) && pagination == old(pagination) &&
        loading == old(loading) && error == old(error)
      ensures started ==> requestLimit == newLimit && requestOffset == 0 && !loading
      ensures started && outcome.Fetched? ==>
        records == outcome.data && pagination == outcome.pagination && error == None &&
        CurrentView() != ErrorView && (PagerMounted() <==> |outcome.data| > 0)
      ensures started && outcome.FetchFailed? ==>
        records == old(records) && pagination == old(pagination) &&
        error == Some(ErrorText(outcome.message, FetchErrorText))
      ensures selectedDevice == old(selectedDevice)
      ensures deleting == old(deleting) && showDeleteConfirm == old(showDeleteConfirm)
    {
      started := newLimit != limit || offset != 0;
      HandleLimitChange(newLimit);
      requestLimit, requestOffset := limit, offset;
      if started {
        requestLimit, requestOffset := BeginFetch();
        CompleteFetch(outcome);
      }
    }

    /**
     * A pager click followed by the fetch that the effect on `limit` and
     * `offset` runs. A click on the active page emits the current offset,
     * so nothing changes and no fetch starts; otherwise the request is for
     * the new offset at the same size.
     */
    method ChangePageAndFetch(newOffset: int, outcome: FetchOutcome)
      returns (started: bool, requestLimit: int, requestOffset: int)
      modifies this
      ensures started == (newOffset != old(offset))
      ensures old(Valid()) && newOffset >= 0 ==> Valid()
      ensures limit == old(limit) && offset == newOffset
      ensures !started ==>
        records == old(records) && pagination == old(pagination) &&
        loading == old(loading) && error == old(error)
      ensures started ==> requestLimit == old(limit) && requestOffset == newOffset && !loading
      ensures started && outcome.Fetched? ==>
        records == outcome.data && pagination == outcome.pagination && error == None &&
        CurrentView() != ErrorView && (PagerMounted() <==> |outcome.data| > 0)
      ensures started && outcome.FetchFailed? ==>
        records == old(records) && pagination == old(pagination) &&
        error == Some(ErrorText(outcome.message, FetchErrorText))
      ensures selectedDevice == old(selectedDevice)
      ensures deleting == old(deleting) && showDeleteConfirm == old(showDeleteConfirm)
    {
      started := newOffset != offset;
      HandlePageChange(newOffset);
      requestLimit, requestOffset := limit, offset;
      if started {
        requestLimit, requestOffset := BeginFetch();
        CompleteFetch(outcome);
      }
    }

    /** The device select, which is disabled while loading. */
    method SelectDevice(device: string)
      modifies this
      ensures selectedDevice == if old(loading) then old(selectedDevice) else device
      ensures records == old(records) && loading == old(loading) && error == old(error)
      ensures limit == old(limit) && offset == old(offset) && pagination == old(pagination)
      ensures deleting == old(deleting) && showDeleteConfirm == old(showDeleteConfirm)
    {
      if !loading {
        selectedDevice := device;
      }
    }

    /** "Tümünü Sil" opens the confirmation unless it is disabled. */
    method ClickDeleteAll()
      modifies this
      ensures showDeleteConfirm == (old(showDeleteConfirm) || !old(DeleteAllDisabled()))
      ensures records == old(records) && loading == old(loading) && error == old(error)
      ensures limit == old(limit) && offset == old(offset) && pagination == old(pagination)
      ensures selectedDevice == old(selectedDevice) && deleting == old(deleting)
    {
      if !DeleteAllDisabled() {
        showDeleteConfirm := true;
      }
    }

    /** "İptal" closes the confirmation unless a deletion is in flight. */
    method CancelDeleteAll()
      modifies this
      ensures showDeleteConfirm == (old(showDeleteConfirm) && old(deleting))
      ensures records == old(records) && loading == old(loading) && error == old(error)
      ensures limit == old(limit) && offset == old(offset) && pagination == old(pagination)
      ensures selectedDevice == old(selectedDevice) && deleting == old(deleting)
    {
      if !deleting {
        showDeleteConfirm := false;
      }
    }

    /**
     * "Evet, Sil" up to the first await of `handleDeleteAll`. The button
     * exists only in the open dialog and is disabled while deleting; when
     * it starts, the deletion is in flight and the error cleared.
     */
    method BeginDeleteAll() returns (started: bool)
      modifies this
      ensures started == (old(showDeleteConfirm) && !old(deleting))
      ensures started ==> deleting && error == None && RefreshDisabled() && DeleteAllDisabled()
      ensures !started ==> deleting == old(deleting) && error == old(error)
      ensures records == old(records) && loading == old(loading)
      ensures limit == old(limit) && offset == old(offset) && pagination == old(pagination)
      ensures selectedDevice == old(selectedDevice) && showDeleteConfirm == old(showDeleteConfirm)
    {
      started := showDeleteConfirm && !deleting;
      if started {
        deleting := true;
        error := None;
      }
    }

    /**
     * `handleDeleteAll` after `deleteAllLocations` settles. On success it
     * refetches (`fetchLocations` catches its own failure, so the dialog
     * still closes), closes the dialog and selects every device again. On
     * failure it sets the error and leaves the dialog and the records as
     * they were. The deletion is no longer in flight either way.
     */
    method CompleteDeleteAll(outcome: DeleteOutcome, refetch: FetchOutcome)
      modifies this
      ensures !deleting
      ensures outcome.Deleted? ==>
        && !showDeleteConfirm && selectedDevice == AllDevices && !loading
        && (refetch.Fetched? ==> records == refetch.data && pagination == refetch.pagination && error == None)
        && (refetch.FetchFailed? ==>
              records == old(records) && pagination == old(pagination) &&
              error == Some(ErrorText(refetch.message, FetchErrorText)))
        && (refetch.Fetched? ==>
              Shown() == refetch.data && CurrentView() == (if |refetch.data| == 0 then NoRecords else Table))
      ensures outcome.DeleteFailed? ==>
        && showDeleteConfirm == old(showDeleteConfirm) && selectedDevice == old(selectedDevice)
        && records == old(records) && loading == old(loading) && pagination == old(pagination)
        && error == Some(ErrorText(outcome.message, DeleteErrorText))
      ensures limit == old(limit) && offset == old(offset)
    {
      match outcome {
        case Deleted =>
          var _, _ := BeginFetch();
          CompleteFetch(refetch);
          showDeleteConfirm := false;
          selectedDevice := AllDevices;
          assert Shown() == records;
        case DeleteFailed(message) =>
          error := Some(ErrorText(message, DeleteErrorText));
      }
      deleting := false;
    }
  }
}
