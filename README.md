# Location dashboard: a verified model of its logic

The dashboard lists location records sent by tracking devices. Each record
carries a device id, coordinates, battery and activity data, and "extras"
with the nearest Teltonika beacon and the beacon hits. The home page fetches
one page of records at a time and filters them by device. A dropdown lists
each device with its record count. A pager moves between pages, and a
confirmation dialog deletes every record. Each record is shown as a card.
The card shows the two strongest beacon hits with strength labels, the
remaining extras, an "updated" line and its own delete confirmation. A
badge shows the nearby Teltonika beacon with RSSI colours and a signal bar.

The model has seven modules:

- `Types` holds the records, beacons, extras and pagination metadata as
  datatypes.
- `Utils` covers the page count, the RSSI colour classes and the
  relative-time text ("Az önce", "5 dakika önce", ...).
- `Pagination` covers the pager: the current page, the previous, next and
  page-number handlers, the page-number window built by a loop, and when
  the pager hides itself.
- `TeltonikaBadge` covers the signal-strength percentage and the bar colour.
- `LocationCard` covers the top-two hits, the strength label and dot, the
  other-extras keys, the header timestamps, and the card's delete state as a
  class.
- `HomePage` covers the device filter, the dropdown's devices and counts,
  and the choice of view. It also holds the page's state as a class, with
  the fetch, page-size, page-change and delete-all handlers.
- `Seqs` holds JavaScript's `filter` and the first-seen order of a `Set`,
  which the other modules use.

State that the components update in place is a Dafny `class`: React's
`useState` fields on the home page and on the card. Each handler is a
method that states its whole new state. An `async` handler is split at its
`await` into a begin method and a complete method. The outcome of the
awaited call is a parameter. RSSI values are `real`s, and elapsed time is
whole seconds.

## Model

| member | source | states |
|---|---|---|
| Utils.CalculateTotalPages | lib/utils.ts:63-65 | The page count is the ceiling of total/limit: `(n-1)*limit < total <= n*limit`, and it is zero exactly when there are no records |
| Utils.TotalPagesIsLeast | lib/utils.ts:63-65 | Any count satisfying the ceiling bounds is the computed one, so the count is unique |
| Utils.GetRssiColor | lib/utils.ts:51-55 | `text-*-600`: green exactly above -70 dBm, yellow exactly in (-85, -70], red exactly at or below -85 |
| Utils.GetRssiBgColor | lib/utils.ts:57-61 | `bg-*-100`, with the same three ranges, each an if-and-only-if |
| Utils.RssiColorsAgree | lib/utils.ts:51-61 | Text and background colours share a hue for every reading; each class name is one of the three literal strings |
| Utils.RssiColorMonotone | lib/utils.ts:51-55 | A stronger reading never gets a worse colour |
| Utils.RelativeBucket | lib/utils.ts:4-31 | Each bucket holds exactly one range of elapsed seconds (under 60 s, minutes, hours, days, under 4 weeks, then months). The count of each nested floor equals the elapsed time floored to that unit, with the bounds of each bucket |
| Utils.Decimal | lib/utils.ts:12 | The text of a count is decimal digits whose value is the count, with no leading zero except for 0 itself |
| Utils.FormatRelativeTime | lib/utils.ts:1-32 | As written, the text is "Az önce" exactly when less than a minute has elapsed, including future timestamps |
| Utils.FormatRelativeTimeCorrected | lib/utils.ts:1-32 | On the corrected buckets, the text is also "Az önce" exactly under a minute. It is the same text as written below 28 days |
| Utils.MonthBucketShowsZero | lib/utils.ts:25-31 | As written: 28 and 29 elapsed days fall in the month bucket with count 0 and print "0 ay önce" |
| Utils.RelativeBucketCorrected | lib/utils.ts:25-31 | Corrected: weeks run to 30 days, so every count is at least 1. It agrees with the original below 28 days, and months begin exactly at 30 days |
| Pagination.CurrentPage | components/Pagination.tsx:14 | `floor(offset/limit)+1` is the page whose record range contains the offset |
| Pagination.TotalPages | components/Pagination.tsx:15 | The pager's page count has the ceiling bounds |
| Pagination.HasPreviousIffNotFirstPage | components/Pagination.tsx:16 | For an aligned offset, "previous" is enabled exactly when the current page is not the first |
| Pagination.HasNextIffNotLastPage | components/Pagination.tsx:17 | For any aligned offset, "next" is enabled exactly when the current page is not the last; past the records both are false |
| Pagination.HandlePrevious | components/Pagination.tsx:19-23 | Emits nothing exactly when there is no previous page. Otherwise it emits a smaller non-negative offset on page `max(1, current-1)` and keeps alignment |
| Pagination.HandleNext | components/Pagination.tsx:25-29 | Emits nothing exactly when there is no next page. Otherwise it emits an offset still inside the records, on the following page, and keeps alignment |
| Pagination.HandlePageClick | components/Pagination.tsx:31-34 | Page p >= 1 maps to an aligned offset whose current page is p; a page below 1 gives a negative offset |
| Pagination.PageClickInRange | components/Pagination.tsx:31-34 | Clicking any existing page gives an offset inside the records |
| Pagination.VisibleIffMoreThanOnePage | components/Pagination.tsx:72-74 | The pager renders exactly when there are more records than one page holds |
| Pagination.GetPageNumbers | components/Pagination.tsx:37-70 | The loops build exactly the window specification `PageWindow` |
| Pagination.WindowWellFormed | components/Pagination.tsx:37-70 | Every window starts at page 1 and ends at the last page. Its page numbers lie in range and strictly increase, each ellipsis hides at least one page, and no page is skipped without one |
| Pagination.WindowShowsCurrentPage | components/Pagination.tsx:37-70 | The current page always appears in the window |
| Pagination.WindowSize | components/Pagination.tsx:37-70 | Up to 5 pages lists all of them; beyond that, 6 tokens near either end and 7 in the middle |
| Pagination.WindowMiddleExample | components/Pagination.tsx:58-66 | Page 10 of 20 shows `1 … 9 10 11 … 20` |
| Pagination.WindowClicksLandOnRecords | components/Pagination.tsx:31-34 | Every page number in the window leads to an offset inside the records |
| TeltonikaBadge.SignalStrength | components/TeltonikaBadge.tsx:19 | The bar width is clamped to [0, 100]. It is empty at -100 dBm and below, full at 0 dBm and above, and `rssi + 100` in between |
| TeltonikaBadge.SignalStrengthMonotone | components/TeltonikaBadge.tsx:19 | A stronger reading never draws a shorter bar |
| TeltonikaBadge.BarColor | components/TeltonikaBadge.tsx:36-42 | The bar is always a `bg-*-500` class |
| TeltonikaBadge.BarAgreesWithRssiColors | components/TeltonikaBadge.tsx:15-16 | The bar's hue equals both the RSSI text hue and the badge background hue for every reading |
| TeltonikaBadge.BarEndsColored | components/TeltonikaBadge.tsx:19 | A full bar is green and an empty bar red |
| Seqs.Filter | app/page.tsx:89 | `filter` keeps exactly the passing elements with their multiplicities, in their original order |
| Seqs.Dedup | app/page.tsx:92 | `Array.from(new Set(..))` has no duplicates and the same members, in order of first occurrence |
| LocationCard.SortByRssi | components/LocationCard.tsx:111 | The sorted copy is ordered strongest first and is a permutation of the hits |
| LocationCard.TopHits | components/LocationCard.tsx:111-112 | Takes `min(2, n)` hits, sorted, drawn from the hits. No hit left out is stronger than one shown |
| LocationCard.HitsSectionOf | components/LocationCard.tsx:109-117 | The section exists exactly when `hits` is a non-empty list. The "(N cihazdan ilk 2)" note appears exactly when hits are hidden, and carries the full count |
| LocationCard.StrengthLabel | components/LocationCard.tsx:139 | "Güçlü" exactly from -50 dBm, "Orta" exactly in [-70, -50), "Zayıf" exactly below -70 |
| LocationCard.StrengthDot | components/LocationCard.tsx:142-145 | The dot is always a `bg-*-500` class |
| LocationCard.LabelMatchesDot | components/LocationCard.tsx:139-145 | Label and dot agree for every reading: strong/green, medium/yellow, weak/red |
| LocationCard.HitScaleDiffersFromBadgeScale | components/LocationCard.tsx:143 | At -60 dBm the hit dot is yellow while the RSSI colour is green: the two scales differ |
| LocationCard.OtherExtraKeys | components/LocationCard.tsx:166-169 | Exactly the extras keys other than `nearbyTeltonika` and `hits`, with their multiplicities, in key order |
| LocationCard.ShowsOtherExtras | components/LocationCard.tsx:155-158 | "Diğer bilgiler" appears exactly when extras exist and some key is neither of the two |
| LocationCard.HeaderTimestamps | components/LocationCard.tsx:43-51 | The header shows one or two times: the creation time first and the latest update last. Two appear exactly for an edited record, and never the same time twice |
| LocationCard.CardState.constructor | components/LocationCard.tsx:19-20 | A card starts neither deleting nor confirming |
| LocationCard.CardState.ClickDelete | components/LocationCard.tsx:190-200 | "Sil" opens the confirmation only when a delete callback exists |
| LocationCard.CardState.ClickCancel | components/LocationCard.tsx:215-221 | "Hayır" closes the confirmation unless the deletion is in flight |
| LocationCard.CardState.BeginDelete | components/LocationCard.tsx:22-27 | Without a callback nothing changes; otherwise the deletion is in flight |
| LocationCard.CardState.FinishDelete | components/LocationCard.tsx:27-33 | The confirmation closes only on success; the deletion ends either way |
| LocationCard.CardState.HandleDelete | components/LocationCard.tsx:22-34 | The whole handler: no-op without a callback, otherwise the confirmation closes exactly on success and the deletion ends |
| HomePage.EffectiveDeviceId | app/page.tsx:92 | `device_id \|\| 'unknown'` is never empty |
| HomePage.FilteredRecords | app/page.tsx:86-89 | "all" shows every record. Any other selection shows, in order and with multiplicities, exactly the records whose raw `device_id` is the selection |
| HomePage.UniqueDevices | app/page.tsx:92 | Each defaulted id appears once, in first-seen order; the list holds exactly the records' defaulted ids and never the empty string |
| HomePage.DeviceCount | app/page.tsx:176 | A device's count is how often its id occurs among the defaulted ids, so it is positive exactly when some record carries that id |
| HomePage.DeviceCountsSumToTotal | app/page.tsx:174-182 | The per-device counts in the dropdown add up to the record count shown for "Tüm Cihazlar" |
| HomePage.UnknownFilterMissesRecordsWithoutId | app/page.tsx:89 | As written, the "unknown" count equals the rows shown plus the records without a usable id |
| HomePage.UnknownSelectionShowsFewerThanCounted | app/page.tsx:89 | One record without an id makes "Bilinmeyen Cihaz" show fewer rows than its count |
| HomePage.FilteredRecordsCorrected | app/page.tsx:89 | Corrected: filtering on the defaulted id shows, in order, exactly as many rows as the dropdown counts |
| HomePage.SelectView | app/page.tsx:188-222 | The view is chosen in order: loading first, then a non-empty error, then the table when rows match. Otherwise "Henüz Kayıt Yok" without records and "Kayıt Bulunamadı" with them |
| HomePage.PaginationShown | app/page.tsx:343 | For any selected device, the pager is mounted exactly when the records area shows the table or "Kayıt Bulunamadı" |
| HomePage.Home.constructor | app/page.tsx:13-28 | Initial state: loading, no error, limit 100, offset 0, empty pagination, "all", no deletion, no dialog |
| HomePage.Home.BeginFetch | app/page.tsx:30-34 | Loading starts and the error clears; nothing else changes. The request is for the current limit and offset, and the view is "Yükleniyor..." with no pager. From a valid state the request names an offered page size and a non-negative offset |
| HomePage.Home.CompleteFetch | app/page.tsx:34-48 | On success the records and pagination are replaced. On failure they stay, and the error is the thrown message or the default text. Loading ends either way. A failure with a non-empty message shows the error view without a pager. A success after a cleared error shows no error, and mounts the pager exactly when data came back |
| HomePage.Home.ClickRefresh | app/page.tsx:64-66 | "Yenile" starts a fetch for the current page exactly when it is enabled (not loading, not deleting); otherwise nothing changes |
| HomePage.Home.HandleLimitChange | app/page.tsx:55-58 | The new page size takes effect and the offset returns to 0 |
| HomePage.Home.HandlePageChange | app/page.tsx:60-61 | The offset becomes the emitted one and nothing else changes; a non-negative offset keeps the state valid |
| HomePage.Home.ChangeLimitAndFetch | app/page.tsx:50-58 | The new size and offset 0 take effect. The effect fetches exactly when the limit or offset changed, and then asks for the first page of the new size; otherwise records, pagination, loading and error stay. On success the fetched rows and pagination replace the old ones, no error shows, and the pager is mounted exactly when data came back. On failure the old records stay and the error is set |
| HomePage.Home.ChangePageAndFetch | app/page.tsx:50-62 | The emitted offset takes effect. The effect fetches exactly when it differs from the current one, and then asks for it at the same size, with the same outcomes as a page-size change; a click on the active page changes nothing else |
| HomePage.Home.SelectDevice | app/page.tsx:167-171 | The selection changes unless the select is disabled by loading |
| HomePage.Home.ClickDeleteAll | app/page.tsx:150-152 | The dialog opens only when "Tümünü Sil" is enabled (not loading, not deleting, records exist) |
| HomePage.Home.CancelDeleteAll | app/page.tsx:369-371 | "İptal" closes the dialog unless a deletion is in flight |
| HomePage.Home.BeginDeleteAll | app/page.tsx:69-73 | Starts only from the open dialog when not already deleting. It clears the error, and refresh and delete-all become disabled |
| HomePage.Home.CompleteDeleteAll | app/page.tsx:73-83 | After a deletion the page refetches, closes the dialog and selects "all", even if the refetch fails. A failed refetch keeps the old records and pagination. A successful one shows every fetched row: "Henüz Kayıt Yok" when none came back, the table otherwise. After a failed deletion only the error changes. The deletion ends either way |

## Left out

- Rendering, styling beyond the colour classes, icons, links and the
  detail pages are not modelled. `formatDate`, `copyToClipboard`,
  `groupByDeviceId` and the device grid are outside the modelled logic.
- The API client (`getLocations`, `deleteAllLocations`) and the clock are
  parameters. A call's outcome is passed to the complete method, and the
  relative time takes the elapsed seconds.
- The "Son güncelleme" time, `window.scrollTo` and `console.error` are
  effects without state the model tracks, and are left out.
- `HandleLimitChange` and `HandlePageChange` do not fetch: the fetch that
  `useEffect` runs once `limit` or `offset` has changed is `BeginFetch`
  followed by `CompleteFetch`, and `ChangeLimitAndFetch` and
  `ChangePageAndFetch` chain the two, fetching only when `limit` or
  `offset` actually changed. A handler's `setState` calls are applied one
  after another. Interleavings of concurrent async calls (a refresh during
  a deletion) are not modelled.
- RSSI readings are exact reals. JavaScript's floating-point rounding in
  `((rssi + 100) / 100) * 100` is not modelled.
- JavaScript object key order is given as the `keys` sequence of `Extras`.
  The values of the other extras are not modelled.
- Pagination.CurrentPage, Pagination.TotalPages: both divide by the
  server's `pagination.limit`, which is required to be positive; a zero
  limit, and so a division by zero, is not modelled.
- A thrown value's message is an `Option<string>`: `None` stands for a
  value that is not an `Error`.
- HomePage.Home.CompleteDeleteAll: `handleDeleteAll` awaits twice, once for
  the deletion and once for the refetch. The model folds the refetch into
  one step. The state in between is never represented: loading and
  deleting both set, with the dialog still open.

## Findings

The dropdown files a record with a missing or empty device id under
"unknown" (app/page.tsx:92 and :176). It lists that id as "Bilinmeyen
Cihaz" with a count. The filter (app/page.tsx:89), however, compares the
raw `device_id`, so selecting that entry shows none of those records. The
model follows the code: `HomePage.FilteredRecords` and the page state
(`HomePage.Home.Shown`) use the filter as written, and
`Utils.FormatRelativeTime` uses the buckets as written. The corrected
definitions stand beside them, each with the property it restores.

| source | as written | input that shows it | evidently intended | confidence | as-written member | corrected member |
|---|---|---|---|---|---|---|
| app/page.tsx:89 | The filter compares the raw `device_id` with the selection, while the dropdown lists and counts `device_id \|\| 'unknown'` | One record whose `device_id` is absent: the dropdown offers "Bilinmeyen Cihaz (1 kayıt)", and choosing it shows "Kayıt Bulunamadı" | Filter on the same defaulted id, so the rows shown equal the count | not executed | HomePage.UnknownFilterMissesRecordsWithoutId | HomePage.FilteredRecordsCorrected |
| lib/utils.ts:25-31 | Months start after 4 weeks (28 days) but count `floor(days / 30)` | 28 days elapsed prints "0 ay önce" | Every non-"Az önce" text carries a count of at least 1 | not executed | Utils.MonthBucketShowsZero | Utils.RelativeBucketCorrected |
