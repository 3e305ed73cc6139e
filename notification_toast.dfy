/** The low-stock notification: it opens whenever the low-stock list changes
    in what matters (ids and numbers), stays closed after a close as long as
    it does not, and renders nothing for an empty list. */
module NotificationToast {
  import opened Wrappers

  datatype LowStockItem = LowStockItem(id: string, name: string, quantity: int, minThreshold: int)

  /** The fields the change detection serialises: `{id, quantity, minThreshold}`. */
  datatype Fingerprint = Fingerprint(id: string, quantity: int, minThreshold: int)

  /** The serialised list, kept as the list itself (the serialisation is
      one-to-one on these fields). */
  function FingerprintOf(items: seq<LowStockItem>): (r: seq<Fingerprint>)
    ensures |r| == |items|
    ensures forall i :: 0 <= i < |items| ==> r[i] == Fingerprint(items[i].id, items[i].quantity, items[i].minThreshold)
  {
    seq(|items|, i requires 0 <= i < |items| => Fingerprint(items[i].id, items[i].quantity, items[i].minThreshold))
  }

  /** Two lists look the same exactly when they agree, position by position,
      on id, quantity and threshold; names play no part. */
  lemma SameFingerprint(a: seq<LowStockItem>, b: seq<LowStockItem>)
    ensures FingerprintOf(a) == FingerprintOf(b) <==>
              |a| == |b| &&
              forall i :: 0 <= i < |a| ==>
                a[i].id == b[i].id && a[i].quantity == b[i].quantity && a[i].minThreshold == b[i].minThreshold
  {
    if |a| == |b| && forall i :: 0 <= i < |a| ==>
         a[i].id == b[i].id && a[i].quantity == b[i].quantity && a[i].minThreshold == b[i].minThreshold {
      assert forall i :: 0 <= i < |a| ==> FingerprintOf(a)[i] == FingerprintOf(b)[i];
    }
    if FingerprintOf(a) == FingerprintOf(b) {
      forall i | 0 <= i < |a| ensures a[i].id == b[i].id && a[i].quantity == b[i].quantity && a[i].minThreshold == b[i].minThreshold {
        assert FingerprintOf(a)[i] == FingerprintOf(b)[i];
      }
    }
  }

  /** The component's state: `lastDataHash` is `None` while it is the initial empty string. */
  datatype NotifyState = NotifyState(isOpen: bool, lastDataHash: Option<seq<Fingerprint>>)

  const Initial := NotifyState(true, None)

  /** The effect on a data change: a list whose fingerprint differs from the
      last one reopens the notification and becomes the last one; no list, or
      the same fingerprint, changes nothing. */
  function OnData(s: NotifyState, data: Option<seq<LowStockItem>>): (r: NotifyState)
    ensures data.None? ==> r == s
    ensures data.Some? && s.lastDataHash == Some(FingerprintOf(data.value)) ==> r == s
    ensures data.Some? && s.lastDataHash != Some(FingerprintOf(data.value)) ==>
              r == NotifyState(true, Some(FingerprintOf(data.value)))
  {
    if data.None? then s
    else
      var newHash := Some(FingerprintOf(data.value));
      if newHash != s.lastDataHash then NotifyState(true, newHash) else s
  }

  function Close(s: NotifyState): (r: NotifyState)
    ensures !r.isOpen && r.lastDataHash == s.lastDataHash
  {
    s.(isOpen := false)
  }

  /** After any data the fingerprint is that data's, so the effect running
      again (as it does after updating the fingerprint) changes nothing. */
  lemma OnDataIdempotent(s: NotifyState, data: Option<seq<LowStockItem>>)
    ensures OnData(OnData(s, data), data) == OnData(s, data)
    ensures data.Some? ==> OnData(s, data).lastDataHash == Some(FingerprintOf(data.value))
  {
  }

  /** The first data opens the notification (it starts open with an empty fingerprint). */
  lemma FirstDataOpens(items: seq<LowStockItem>)
    ensures OnData(Initial, Some(items)) == NotifyState(true, Some(FingerprintOf(items)))
  {
  }

  /** Closed after some data, the same data, or data differing only in
      names, keeps it closed. */
  lemma ClosedStaysClosed(s: NotifyState, a: seq<LowStockItem>, b: seq<LowStockItem>)
    requires |a| == |b|
    requires forall i :: 0 <= i < |a| ==>
               a[i].id == b[i].id && a[i].quantity == b[i].quantity && a[i].minThreshold == b[i].minThreshold
    ensures !OnData(Close(OnData(s, Some(a))), Some(b)).isOpen
  {
    SameFingerprint(a, b);
  }

  /** Closed after some data, data that differs in an id or a number reopens it. */
  lemma ChangeReopens(s: NotifyState, a: seq<LowStockItem>, b: seq<LowStockItem>)
    requires FingerprintOf(a) != FingerprintOf(b)
    ensures OnData(Close(OnData(s, Some(a))), Some(b)).isOpen
  {
  }

  /** One rendered entry per low-stock item. */
  datatype Entry = Entry(name: string, quantity: int, minThreshold: int)

  /** The alert as rendered: the badge count and the entries. */
  datatype View = View(badge: nat, entries: seq<Entry>)

  /** `lowStockCount`: the list's length, or 0 without a list. */
  function LowStockCount(data: Option<seq<LowStockItem>>): (r: nat)
    ensures r == 0 <==> data.None? || data.value == []
  {
    if data.Some? then |data.value| else 0
  }

  /** What renders: nothing when the count is 0 or the notification is
      closed; otherwise the count and one entry per item, in order. */
  function Render(s: NotifyState, data: Option<seq<LowStockItem>>): (r: Option<View>)
    ensures r.None? <==> LowStockCount(data) == 0 || !s.isOpen
    ensures r.Some? ==> data.Some? && r.value.badge == |data.value| && |r.value.entries| == |data.value|
    ensures r.Some? ==> forall i :: 0 <= i < |data.value| ==>
              r.value.entries[i] == Entry(data.value[i].name, data.value[i].quantity, data.value[i].minThreshold)
  {
    var count := LowStockCount(data);
    if count == 0 || !s.isOpen then None
    else
      Some(View(count, seq(|data.value|, i requires 0 <= i < |data.value| =>
        Entry(data.value[i].name, data.value[i].quantity, data.value[i].minThreshold))))
  }

  /** Two low-stock items, closed, then a third arrives: the alert is back with a badge of 3. */
  lemma ThirdItemReopens(coffee: LowStockItem, tea: LowStockItem, sugar: LowStockItem)
    ensures var s := Close(OnData(Initial, Some([coffee, tea])));
            var t := OnData(s, Some([coffee, tea, sugar]));
            && !s.isOpen
            && Render(s, Some([coffee, tea])).None?
            && t.isOpen
            && Render(t, Some([coffee, tea, sugar])).Some?
            && Render(t, Some([coffee, tea, sugar])).value.badge == 3
  {
    assert |FingerprintOf([coffee, tea])| != |FingerprintOf([coffee, tea, sugar])|;
  }

  /** The component's state as it evolves. */
  class StockNotifications {
    var isOpen: bool
    var lastDataHash: Option<seq<Fingerprint>>

    function State(): NotifyState
      reads this
    {
      NotifyState(isOpen, lastDataHash)
    }

    constructor ()
      ensures State() == Initial
    {
      isOpen := true;
      lastDataHash := None;
    }

    /** The data effect. */
    method DataChanged(data: Option<seq<LowStockItem>>)
      modifies this
      ensures State() == OnData(old(State()), data)
    {
      if data.Some? {
        var newHash := Some(FingerprintOf(data.value));
        if newHash != lastDataHash {
          isOpen := true;
          lastDataHash := newHash;
        }
      }
    }

    /** The close button. */
    method CloseClicked()
      modifies this
      ensures State() == Close(old(State()))
    {
      isOpen := false;
    }
  }
}
