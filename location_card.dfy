/**
 * One location record as a card: the strongest beacon hits, their
 * strength labels, the "other extras" view, the updated line and the
 * delete confirmation.
 */
module LocationCard {
  import opened Types
  import Utils
  import Seqs

  // ---------------------------------------------------------------------------
  // Top hits
  // ---------------------------------------------------------------------------

  /** Strongest signal first (RSSI is negative: higher is stronger). */
  predicate SortedByRssiDesc(s: seq<Beacon>)
  {
    forall i, j :: 0 <= i < j < |s| ==> s[i].rssi >= s[j].rssi
  }

  function Insert(h: Beacon, s: seq<Beacon>): (r: seq<Beacon>)
    requires SortedByRssiDesc(s)
    ensures SortedByRssiDesc(r)
    ensures multiset(r) == multiset(s) + multiset{h}
    ensures |r| == |s| + 1
    ensures forall x :: x in r ==> x == h || x in s
  {
    if s == [] || h.rssi >= s[0].rssi then
      PrependStrongest(h, s);
      [h] + s
    else
      var rest := Insert(h, s[1..]);
      assert s == [s[0]] + s[1..];
      PrependStrongest(s[0], rest);
      [s[0]] + rest
  }

  /** A hit at least as strong as every hit of a sorted sequence can lead it. */
  lemma PrependStrongest(x: Beacon, s: seq<Beacon>)
    requires SortedByRssiDesc(s)
    requires forall y :: y in s ==> x.rssi >= y.rssi
    ensures SortedByRssiDesc([x] + s)
  {
    forall i, j | 0 <= i < j < |[x] + s|
      ensures ([x] + s)[i].rssi >= ([x] + s)[j].rssi
    {
      if i == 0 {
        assert s[j - 1] in s;
      }
    }
  }

  /**
   * `[...hits].sort((a, b) => b.rssi - a.rssi)`: a sorted copy holding the
   * same hits. The input sequence is a value and is left as it was.
   */
  function SortByRssi(hits: seq<Beacon>): (sorted: seq<Beacon>)
    ensures SortedByRssiDesc(sorted)
    ensures multiset(sorted) == multiset(hits)
    ensures |sorted| == |hits|
  {
    if hits == [] then []
    else
      assert hits == [hits[0]] + hits[1..];
      Insert(hits[0], SortByRssi(hits[1..]))
  }

  /**
   * `sortedHits.slice(0, 2)`: at most two hits, strongest first, taken
   * from the record's hits, and no hit left out is stronger than one shown.
   */
  function TopHits(hits: seq<Beacon>): (top: seq<Beacon>)
    ensures |top| == Utils.Min(2, |hits|)
    ensures SortedByRssiDesc(top)
    ensures multiset(top) <= multiset(hits)
    ensures forall h, t :: h in multiset(hits) - multiset(top) && t in top ==> h.rssi <= t.rssi
  {
    var sorted := SortByRssi(hits);
    var k := Utils.Min(2, |hits|);
    SortedPrefixIsStrongest(sorted, k);
    assert multiset(hits) == multiset(sorted[..k]) + multiset(sorted[k..]) by {
      assert sorted == sorted[..k] + sorted[k..];
    }
    sorted[..k]
  }

  /** In a sorted sequence every element past `k` is no stronger than one before `k`. */
  lemma SortedPrefixIsStrongest(sorted: seq<Beacon>, k: int)
    requires SortedByRssiDesc(sorted) && 0 <= k <= |sorted|
    ensures SortedByRssiDesc(sorted[..k])
    ensures forall h, t :: h in sorted[k..] && t in sorted[..k] ==> h.rssi <= t.rssi
  {
    forall h, t | h in sorted[k..] && t in sorted[..k]
      ensures h.rssi <= t.rssi
    {
      var a :| 0 <= a < |sorted| - k && sorted[k..][a] == h;
      var b :| 0 <= b < k && sorted[..k][b] == t;
      assert sorted[b] == t && sorted[k + a] == h;
    }
  }

  /**
   * The hits section: absent unless `extras.hits` is a non-empty list;
   * otherwise the top hits, and the "(N cihazdan ilk 2)" note carrying the
   * full count when more than two hits exist.
   */
  datatype HitsSection = HitsSection(top: seq<Beacon>, note: Option<nat>)

  function HitsSectionOf(extras: Option<Extras>): (section: Option<HitsSection>)
    ensures section.Some? <==> extras.Some? && extras.value.hits.Some? && |extras.value.hits.value| > 0
    ensures section.Some? ==>
      var hits := extras.value.hits.value;
      section.value.top == TopHits(hits) &&
      (section.value.note.Some? <==> |section.value.top| < |hits|) &&
      (section.value.note.Some? ==> section.value.note.value == |hits|)
  {
    if extras.Some? && extras.value.hits.Some? && |extras.value.hits.value| > 0 then
      var hits := extras.value.hits.value;
      Some(HitsSection(TopHits(hits), if |hits| > 2 then Some(|hits|) else None))
    else None
  }

  // ---------------------------------------------------------------------------
  // Strength label and dot
  // ---------------------------------------------------------------------------

  /** The label of a hit: strong from -50 dBm, medium from -70 dBm, weak below. */
  function StrengthLabel(rssi: real): (text: string)
    ensures text == "Güçlü" <==> rssi >= -50.0
    ensures text == "Orta" <==> -70.0 <= rssi < -50.0
    ensures text == "Zayıf" <==> rssi < -70.0
  {
    if rssi >= -50.0 then "Güçlü" else if rssi >= -70.0 then "Orta" else "Zayıf"
  }

  /** The dot beside the label, on its own copy of the label's thresholds. */
  function StrengthDot(rssi: real): (c: Utils.ColorClass)
    ensures c.utility == "bg" && c.shade == "500"
  {
    if rssi >= -50.0 then Utils.ColorClass("bg", Utils.Green, "500")
    else if rssi >= -70.0 then Utils.ColorClass("bg", Utils.Yellow, "500")
    else Utils.ColorClass("bg", Utils.Red, "500")
  }

  /** Label and dot always agree: strong is green, medium yellow, weak red. */
  lemma LabelMatchesDot(rssi: real)
    ensures StrengthLabel(rssi) == "Güçlü" <==> StrengthDot(rssi).hue == Utils.Green
    ensures StrengthLabel(rssi) == "Orta" <==> StrengthDot(rssi).hue == Utils.Yellow
    ensures StrengthLabel(rssi) == "Zayıf" <==> StrengthDot(rssi).hue == Utils.Red
  {
  }

  /**
   * The hit scale (-50/-70, inclusive) is not the badge scale (-70/-85,
   * exclusive): a -60 dBm hit has a yellow dot, while the same reading on
   * the badge is green.
   */
  lemma HitScaleDiffersFromBadgeScale()
    ensures StrengthDot(-60.0).hue == Utils.Yellow
    ensures Utils.GetRssiColor(-60.0).hue == Utils.Green
  {
  }

  // ---------------------------------------------------------------------------
  // Other extras
  // ---------------------------------------------------------------------------

  /** The keys rendered by their own sections and left out of "Diğer bilgiler". */
  predicate IsOtherExtraKey(key: string)
  {
    key != "nearbyTeltonika" && key != "hits"
  }

  /** The keys of the "Diğer bilgiler" view, in the extras object's key order. */
  function OtherExtraKeys(extras: Extras): (keys: seq<string>)
    ensures forall k :: k in keys <==> k in extras.keys && k != "nearbyTeltonika" && k != "hits"
    ensures forall k ::
      multiset(keys)[k] == (if k != "nearbyTeltonika" && k != "hits" then multiset(extras.keys)[k] else 0)
    ensures Seqs.IsSubsequence(keys, extras.keys)
  {
    var keys := Seqs.Filter(extras.keys, IsOtherExtraKey);
    forall k | k in extras.keys && IsOtherExtraKey(k)
      ensures k in keys
    {
      assert multiset(keys)[k] == multiset(extras.keys)[k];
    }
    keys
  }

  /** The collapsible view appears exactly when some extras key is neither of the two. */
  function ShowsOtherExtras(extras: Option<Extras>): (shown: bool)
    ensures shown <==>
      (extras.Some? && exists k :: k in extras.value.keys && k != "nearbyTeltonika" && k != "hits")
  {
    if extras.None? then false
    else
      var keys := OtherExtraKeys(extras.value);
      assert |keys| > 0 ==> keys[0] in keys;
      |keys| > 0
  }

  // ---------------------------------------------------------------------------
  // Header
  // ---------------------------------------------------------------------------

  /**
   * The timestamps the card header shows, top to bottom: the creation time,
   * then the "Güncellendi" time when it differs. The creation time always
   * leads, the latest update always closes the list, and two times appear
   * exactly for an edited record, never the same one twice.
   */
  function HeaderTimestamps(record: LocationRecord): (times: seq<string>)
    ensures 1 <= |times| <= 2
    ensures times[0] == record.createdAt
    ensures times[|times| - 1] == record.updatedAt
    ensures |times| == 2 <==> record.updatedAt != record.createdAt
    ensures forall i, j :: 0 <= i < j < |times| ==> times[i] != times[j]
  {
    [record.createdAt] + if record.updatedAt != record.createdAt then [record.updatedAt] else []
  }

  // ---------------------------------------------------------------------------
  // Delete confirmation
  // ---------------------------------------------------------------------------

  /** The card's delete state. `hasOnDelete` is whether the parent passed a delete callback. */
  class CardState {
    const hasOnDelete: bool
    var isDeleting: bool
    var showConfirm: bool

    constructor (hasOnDelete: bool)
      ensures this.hasOnDelete == hasOnDelete
      ensures !isDeleting && !showConfirm
    {
      this.hasOnDelete := hasOnDelete;
      isDeleting := false;
      showConfirm := false;
    }

    /** The "Sil" button exists only with a callback and while no confirmation is open. */
    predicate DeleteButtonShown()
      reads this
    {
      hasOnDelete && !showConfirm
    }

    /** "Evet" and "Hayır" are disabled while the deletion is in flight. */
    predicate ConfirmButtonsEnabled()
      reads this
    {
      hasOnDelete && showConfirm && !isDeleting
    }

    /** Clicking "Sil" opens the confirmation; without the button nothing happens. */
    method ClickDelete()
      modifies this
      ensures showConfirm == (old(showConfirm) || old(DeleteButtonShown()))
      ensures isDeleting == old(isDeleting)
    {
      if DeleteButtonShown() {
        showConfirm := true;
      }
    }

    /** Clicking "Hayır" closes the confirmation unless the button is disabled. */
    method ClickCancel()
      modifies this
      ensures showConfirm == (old(showConfirm) && !old(ConfirmButtonsEnabled()))
      ensures isDeleting == old(isDeleting)
    {
      if ConfirmButtonsEnabled() {
        showConfirm := false;
      }
    }

    /**
     * `handleDelete` up to its await: without a callback it returns at
     * once and changes nothing; otherwise the deletion is marked in flight.
     */
    method BeginDelete() returns (started: bool)
      modifies this
      ensures started == hasOnDelete
      ensures started ==> isDeleting && showConfirm == old(showConfirm)
      ensures !started ==> isDeleting == old(isDeleting) && showConfirm == old(showConfirm)
    {
      if !hasOnDelete {
        return false;
      }
      isDeleting := true;
      started := true;
    }

    /**
     * `handleDelete` after the callback settles: the confirmation closes
     * only on success, and the deletion is no longer in flight either way.
     */
    method FinishDelete(succeeded: bool)
      modifies this
      ensures !isDeleting
      ensures showConfirm == (old(showConfirm) && !succeeded)
    {
      if succeeded {
        showConfirm := false;
      }
      isDeleting := false;
    }

    /** The whole handler when the callback settles with `succeeded`. */
    method HandleDelete(succeeded: bool)
      modifies this
      ensures !hasOnDelete ==> isDeleting == old(isDeleting) && showConfirm == old(showConfirm)
      ensures hasOnDelete ==> !isDeleting && showConfirm == (old(showConfirm) && !succeeded)
    {
      var started := BeginDelete();
      if started {
        FinishDelete(succeeded);
      }
    }
  }
}
