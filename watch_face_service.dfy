/**
 * The watch-face engine: it applies the data items the phone syncs to the
 * watch face, and keeps a one-second tick running exactly while the face is
 * visible and not in ambient mode.
 */
module WatchFaceService {
  import opened Formatting
  import opened WatchFace

  /**
   * The constants the phone and the watch share: the path of the weather
   * data item and its three keys. Their text lives in `WatchfaceSyncCommons`,
   * which is not part of this model; nothing here assumes they differ.
   */
  datatype SyncKeys = SyncKeys(path: string, maxTemp: string, minTemp: string, weatherId: string)

  /** A synced data item: its path and its string-valued data map. */
  datatype DataItem = DataItem(path: string, data: map<string, string>)

  /** `DataEvent.TYPE_CHANGED` and `DataEvent.TYPE_DELETED`. */
  datatype EventType = Changed | Deleted

  datatype DataEvent = DataEvent(kind: EventType, item: DataItem)

  /** The delay between two ticks while the face is interactive. */
  const TickPeriodMillis: int := 1000

  /** An item on the weather path whose weather id is present holds text that `Integer.parseInt` accepts. */
  predicate WeatherIdParses(keys: SyncKeys, item: DataItem) {
    item.path == keys.path && keys.weatherId in item.data ==> ParseInt(item.data[keys.weatherId]).Some?
  }

  predicate AllWeatherIdsParse(keys: SyncKeys, items: seq<DataItem>) {
    forall item :: item in items ==> WeatherIdParses(keys, item)
  }

  predicate ChangedWeatherIdsParse(keys: SyncKeys, events: seq<DataEvent>) {
    forall e :: e in events && e.kind == Changed ==> WeatherIdParses(keys, e.item)
  }

  /** The weather id an item sets a new weather image with: present, parsed, and not 0. */
  function NewWeatherId(keys: SyncKeys, item: DataItem): Option<int> {
    if item.path == keys.path && keys.weatherId in item.data then
      var id := ParseInt(item.data[keys.weatherId]);
      if id.Some? && id.value != 0 then id else None
    else None
  }

  /**
   * `processesConfigurationFor`: an item on another path changes nothing;
   * on the weather path each of the three fields follows its key if the key
   * is present and is left alone otherwise.
   */
  function ApplyItem(keys: SyncKeys, convertToDigit: string -> string, f: FaceState, item: DataItem): (r: FaceState)
    requires WeatherIdParses(keys, item)
    ensures item.path != keys.path ==> r == f
    ensures r.maxTemp == if item.path == keys.path && keys.maxTemp in item.data
                         then convertToDigit(item.data[keys.maxTemp]) + [Degree] else f.maxTemp
    ensures r.minTemp == if item.path == keys.path && keys.minTemp in item.data
                         then convertToDigit(item.data[keys.minTemp]) + [Degree] else f.minTemp
    ensures r.weatherImage == if NewWeatherId(keys, item).Some? then WeatherBitmap(NewWeatherId(keys, item).value)
                              else f.weatherImage
    ensures Displayed(r) == Displayed(f)
  {
    if item.path != keys.path then f
    else
      var f1 := if keys.maxTemp in item.data then AfterUpdateMaxTemp(f, convertToDigit, item.data[keys.maxTemp]) else f;
      var f2 := if keys.minTemp in item.data then AfterUpdateMinTemp(f1, convertToDigit, item.data[keys.minTemp]) else f1;
      if keys.weatherId in item.data then AfterCreateBitmap(f2, ParseInt(item.data[keys.weatherId]).value) else f2
  }

  /** The items applied one after another, in order. */
  function ApplyItems(keys: SyncKeys, convertToDigit: string -> string, f: FaceState, items: seq<DataItem>): (r: FaceState)
    requires AllWeatherIdsParse(keys, items)
    ensures Displayed(r) == Displayed(f)
    ensures (forall item :: item in items ==> item.path != keys.path) ==> r == f
  {
    if items == [] then f
    else
      var prefix := items[..|items| - 1];
      assert forall item :: item in prefix ==> item in items;
      ApplyItem(keys, convertToDigit, ApplyItems(keys, convertToDigit, f, prefix), items[|items| - 1])
  }

  /** The items of the events of type `TYPE_CHANGED`, in buffer order. */
  function ChangedItems(events: seq<DataEvent>): (r: seq<DataItem>)
    ensures |r| <= |events|
    ensures forall item :: item in r ==> DataEvent(Changed, item) in events
    ensures forall e :: e in events && e.kind == Changed ==> e.item in r
  {
    if events == [] then []
    else
      var prefix := events[..|events| - 1];
      var last := events[|events| - 1];
      assert forall e :: e in events ==> e in prefix || e == last;
      if last.kind == Changed then ChangedItems(prefix) + [last.item] else ChangedItems(prefix)
  }

  /** A buffer of one event yields its item exactly when the event is a change. */
  lemma ChangedItemsSingle(item: DataItem)
    ensures ChangedItems([DataEvent(Changed, item)]) == [item]
    ensures ChangedItems([DataEvent(Deleted, item)]) == []
  {
    assert [DataEvent(Changed, item)][..0] == [];
    assert [DataEvent(Deleted, item)][..0] == [];
  }

  /**
   * The changed items of two buffers in a row are those of the first, then
   * those of the second: with `ChangedItemsSingle` this fixes the buffer
   * order and the number of times each item is taken.
   */
  lemma {:induction false} ChangedItemsAppend(a: seq<DataEvent>, b: seq<DataEvent>)
    ensures ChangedItems(a + b) == ChangedItems(a) + ChangedItems(b)
  {
    if b == [] {
      assert a + b == a;
    } else {
      var b' := b[..|b| - 1];
      assert (a + b)[..|a + b| - 1] == a + b';
      assert (a + b)[|a + b| - 1] == b[|b| - 1];
      ChangedItemsAppend(a, b');
    }
  }

  lemma ChangedItemsParse(keys: SyncKeys, events: seq<DataEvent>)
    requires ChangedWeatherIdsParse(keys, events)
    ensures AllWeatherIdsParse(keys, ChangedItems(events))
  {
  }

  /** One more event of the buffer adds its item to the changed items exactly when it is a change. */
  lemma ChangedItemsStep(keys: SyncKeys, convertToDigit: string -> string, f: FaceState,
                         events: seq<DataEvent>, i: nat)
    requires i < |events| && ChangedWeatherIdsParse(keys, events)
    ensures AllWeatherIdsParse(keys, ChangedItems(events[..i]))
    ensures AllWeatherIdsParse(keys, ChangedItems(events[..i + 1]))
    ensures events[i].kind == Changed ==> WeatherIdParses(keys, events[i].item)
    ensures ApplyItems(keys, convertToDigit, f, ChangedItems(events[..i + 1]))
         == if events[i].kind == Changed
            then ApplyItem(keys, convertToDigit, ApplyItems(keys, convertToDigit, f, ChangedItems(events[..i])), events[i].item)
            else ApplyItems(keys, convertToDigit, f, ChangedItems(events[..i]))
  {
    assert events[..i + 1][..i] == events[..i];
    assert forall e :: e in events[..i + 1] ==> e in events;
    ChangedItemsParse(keys, events[..i + 1]);
    ChangedItemsParse(keys, events[..i]);
    var done := ChangedItems(events[..i]);
    if events[i].kind == Changed {
      assert ChangedItems(events[..i + 1]) == done + [events[i].item];
      assert (done + [events[i].item])[..|done|] == done;
    }
  }

  /** Applying two runs of items one after the other is applying their concatenation. */
  lemma {:induction false} ApplyItemsAppend(keys: SyncKeys, convertToDigit: string -> string, f: FaceState,
                                           a: seq<DataItem>, b: seq<DataItem>)
    requires AllWeatherIdsParse(keys, a) && AllWeatherIdsParse(keys, b)
    ensures AllWeatherIdsParse(keys, a + b)
    ensures ApplyItems(keys, convertToDigit, f, a + b)
         == ApplyItems(keys, convertToDigit, ApplyItems(keys, convertToDigit, f, a), b)
  {
    if b == [] {
      assert a + b == a;
    } else {
      var b' := b[..|b| - 1];
      assert (a + b)[..|a + b| - 1] == a + b';
      assert forall item :: item in b' ==> item in b;
      ApplyItemsAppend(keys, convertToDigit, f, a, b');
    }
  }

  /** The value of `key` in the last item on `path` that holds it. */
  function LastValue(items: seq<DataItem>, path: string, key: string): (r: Option<string>)
    ensures r.None? <==> forall i :: 0 <= i < |items| ==> items[i].path != path || key !in items[i].data
    ensures r.Some? ==> exists i :: 0 <= i < |items| && items[i].path == path && key in items[i].data
                                    && items[i].data[key] == r.value
                                    && forall j :: i < j < |items| ==> items[j].path != path || key !in items[j].data
  {
    if items == [] then None
    else
      var last := items[|items| - 1];
      if last.path == path && key in last.data then Some(last.data[key])
      else LastValue(items[..|items| - 1], path, key)
  }

  /** The position of the last item that sets a new weather image, or -1 if none does. */
  function LastWeatherIndex(keys: SyncKeys, items: seq<DataItem>): (k: int)
    ensures -1 <= k < |items|
    ensures k >= 0 ==> NewWeatherId(keys, items[k]).Some?
    ensures forall j :: k < j < |items| ==> NewWeatherId(keys, items[j]).None?
  {
    if items == [] then -1
    else if NewWeatherId(keys, items[|items| - 1]).Some? then |items| - 1
    else LastWeatherIndex(keys, items[..|items| - 1])
  }

  /**
   * The weather id of the last item that sets a new weather image: `None`
   * exactly when no item does, and otherwise the id of an item after which
   * no item sets one.
   */
  function LastWeatherId(keys: SyncKeys, items: seq<DataItem>): (r: Option<int>)
    ensures r.None? <==> forall i :: 0 <= i < |items| ==> NewWeatherId(keys, items[i]).None?
    ensures r.Some? ==> exists i :: 0 <= i < |items| && NewWeatherId(keys, items[i]) == r
                                    && forall j :: i < j < |items| ==> NewWeatherId(keys, items[j]).None?
  {
    var k := LastWeatherIndex(keys, items);
    if k < 0 then None else NewWeatherId(keys, items[k])
  }

  /** One more item either sets the weather id itself or leaves the previous last one in place. */
  lemma LastWeatherIdStep(keys: SyncKeys, items: seq<DataItem>)
    requires items != []
    ensures var last := NewWeatherId(keys, items[|items| - 1]);
      LastWeatherId(keys, items) == if last.Some? then last else LastWeatherId(keys, items[..|items| - 1])
  {
    var prefix := items[..|items| - 1];
    var k := LastWeatherIndex(keys, prefix);
    if k >= 0 {
      assert prefix[k] == items[k];
    }
  }

  /**
   * After a run of items, each temperature is the converted value of the
   * last item that carries its key (unchanged if none does), and the
   * weather image is the art of the last nonzero weather id.
   */
  lemma {:induction false} LastUpdateWins(keys: SyncKeys, convertToDigit: string -> string, f: FaceState,
                                         items: seq<DataItem>)
    requires AllWeatherIdsParse(keys, items)
    ensures var r := ApplyItems(keys, convertToDigit, f, items);
      && r.maxTemp == (match LastValue(items, keys.path, keys.maxTemp)
                       case None => f.maxTemp
                       case Some(v) => convertToDigit(v) + [Degree])
      && r.minTemp == (match LastValue(items, keys.path, keys.minTemp)
                       case None => f.minTemp
                       case Some(v) => convertToDigit(v) + [Degree])
      && r.weatherImage == (match LastWeatherId(keys, items)
                            case None => f.weatherImage
                            case Some(id) => WeatherBitmap(id))
  {
    if items != [] {
      var prefix := items[..|items| - 1];
      assert forall item :: item in prefix ==> item in items;
      LastWeatherIdStep(keys, items);
      LastUpdateWins(keys, convertToDigit, f, prefix);
    }
  }

  /** A weather id of "00" reads as zero, so it leaves the weather image as it was. */
  lemma DoubleZeroWeatherIdIgnored(keys: SyncKeys, convertToDigit: string -> string, f: FaceState, item: DataItem)
    requires item.path == keys.path && keys.weatherId in item.data && item.data[keys.weatherId] == "00"
    ensures WeatherIdParses(keys, item)
    ensures ApplyItem(keys, convertToDigit, f, item).weatherImage == f.weatherImage
  {
    DoubleZeroIsZero();
  }

  /** The engine of the watch-face service. */
  class Engine {
    const keys: SyncKeys
    const watchFace: SimpleWatchFace
    /** What `isVisible()` and `isInAmbientMode()` report. */
    var visible: bool
    var ambient: bool
    /** The pending posts of the tick runnable on the handler, each with its delay in milliseconds. */
    var ticks: seq<int>
    /** How many redraws the engine has asked for with `invalidate()`. */
    var invalidations: nat

    /** The state in which the face shows seconds and keeps ticking. */
    predicate Interactive()
      reads this
    {
      visible && !ambient
    }

    /** At most one tick is pending, and only while the face is interactive. */
    ghost predicate Valid()
      reads this
    {
      |ticks| <= 1 && (ticks != [] ==> Interactive())
    }

    /** `onCreate`, with the visibility and ambient mode the platform reports at that moment. */
    constructor OnCreate(keys: SyncKeys, convertToDigit: string -> string, visible: bool, ambient: bool)
      ensures Valid()
      ensures this.keys == keys && this.visible == visible && this.ambient == ambient
      ensures ticks == (if visible && !ambient then [0] else []) && invalidations == 0
      ensures fresh(watchFace) && watchFace.State() == Initial && watchFace.convertToDigit == convertToDigit
    {
      this.keys := keys;
      this.visible, this.ambient := visible, ambient;
      ticks, invalidations := [], 0;
      watchFace := new SimpleWatchFace(convertToDigit);
      new;
      StartTimerIfNecessary();
    }

    /** `startTimerIfNecessary`: drop any pending tick, then post one at once if interactive. */
    method StartTimerIfNecessary()
      modifies this`ticks
      ensures ticks == if Interactive() then [0] else []
      ensures Valid()
    {
      ticks := [];
      if Interactive() {
        ticks := ticks + [0];
      }
    }

    /** `invalidate()`: one more redraw request. */
    method Invalidate()
      modifies this`invalidations
      ensures invalidations == old(invalidations) + 1
    {
      invalidations := invalidations + 1;
    }

    /** `invalidateIfNecessary`: a redraw request only while interactive. */
    method InvalidateIfNecessary()
      modifies this`invalidations
      ensures invalidations == old(invalidations) + if Interactive() then 1 else 0
    {
      if Interactive() {
        Invalidate();
      }
    }

    /**
     * The tick runnable, run by the handler for its pending post: redraw if
     * interactive, and post itself again a second later only while interactive.
     */
    method RunTick()
      requires Valid() && ticks != []
      modifies this`ticks, this`invalidations
      ensures Valid()
      ensures ticks == if Interactive() then [TickPeriodMillis] else []
      ensures invalidations == old(invalidations) + if Interactive() then 1 else 0
    {
      ticks := ticks[1..];
      InvalidateIfNecessary();
      if Interactive() {
        ticks := ticks + [TickPeriodMillis];
      }
    }

    /** `onVisibilityChanged`: record the visibility, then restart or stop the tick. */
    method OnVisibilityChanged(visible: bool)
      modifies this`visible, this`ticks
      ensures this.visible == visible && ambient == old(ambient)
      ensures ticks == if Interactive() then [0] else []
      ensures Valid()
    {
      this.visible := visible;
      StartTimerIfNecessary();
    }

    /** `onAmbientModeChanged`: record the mode, redraw, then restart or stop the tick. */
    method OnAmbientModeChanged(inAmbientMode: bool)
      modifies this`ambient, this`ticks, this`invalidations
      ensures ambient == inAmbientMode && visible == old(visible)
      ensures invalidations == old(invalidations) + 1
      ensures ticks == if Interactive() then [0] else []
      ensures Valid()
    {
      ambient := inAmbientMode;
      Invalidate();
      StartTimerIfNecessary();
    }

    /** `onTimeTick`: the platform's minute tick always redraws. */
    method OnTimeTick()
      modifies this`invalidations
      ensures invalidations == old(invalidations) + 1
    {
      Invalidate();
    }

    /** `onDestroy`: no tick is left pending. */
    method OnDestroy()
      modifies this`ticks
      ensures ticks == [] && Valid()
    {
      ticks := [];
    }

    /** `processesConfigurationFor`: apply one data item to the watch face. */
    method ProcessesConfigurationFor(item: DataItem)
      requires WeatherIdParses(keys, item)
      modifies watchFace
      ensures watchFace.State() == ApplyItem(keys, watchFace.convertToDigit, old(watchFace.State()), item)
    {
      if item.path == keys.path {
        if keys.maxTemp in item.data {
          watchFace.UpdateMaxTemp(item.data[keys.maxTemp]);
        }
        if keys.minTemp in item.data {
          watchFace.UpdateMinTemp(item.data[keys.minTemp]);
        }
        if keys.weatherId in item.data {
          watchFace.CreateBitmap(ParseInt(item.data[keys.weatherId]).value);
        }
      }
    }

    /** The loop of `onDataChanged`: each event of type `TYPE_CHANGED` is applied, in buffer order. */
    method ApplyChangedEvents(events: seq<DataEvent>)
      requires ChangedWeatherIdsParse(keys, events)
      modifies watchFace
      ensures AllWeatherIdsParse(keys, ChangedItems(events))
      ensures watchFace.State() == ApplyItems(keys, watchFace.convertToDigit, old(watchFace.State()), ChangedItems(events))
    {
      ghost var start := watchFace.State();
      var i := 0;
      assert events[..0] == [];
      while i < |events|
        invariant 0 <= i <= |events|
        invariant AllWeatherIdsParse(keys, ChangedItems(events[..i]))
        invariant watchFace.State() == ApplyItems(keys, watchFace.convertToDigit, start, ChangedItems(events[..i]))
      {
        ChangedItemsStep(keys, watchFace.convertToDigit, start, events, i);
        if events[i].kind == Changed {
          ProcessesConfigurationFor(events[i].item);
        }
        i := i + 1;
      }
      assert events[..i] == events;
      ChangedItemsParse(keys, events);
    }

    /** The data listener's `onDataChanged`: apply the changed items in buffer order, then redraw if interactive. */
    method OnDataChanged(events: seq<DataEvent>)
      requires ChangedWeatherIdsParse(keys, events)
      modifies watchFace, this`invalidations
      ensures AllWeatherIdsParse(keys, ChangedItems(events))
      ensures watchFace.State() == ApplyItems(keys, watchFace.convertToDigit, old(watchFace.State()), ChangedItems(events))
      ensures invalidations == old(invalidations) + if Interactive() then 1 else 0
    {
      ApplyChangedEvents(events);
      InvalidateIfNecessary();
    }

    /** The result callback of the initial fetch: apply every item in order, then redraw if interactive. */
    method OnDataItemsResult(items: seq<DataItem>)
      requires AllWeatherIdsParse(keys, items)
      modifies watchFace, this`invalidations
      ensures watchFace.State() == ApplyItems(keys, watchFace.convertToDigit, old(watchFace.State()), items)
      ensures invalidations == old(invalidations) + if Interactive() then 1 else 0
    {
      var i := 0;
      while i < |items|
        invariant 0 <= i <= |items|
        invariant AllWeatherIdsParse(keys, items[..i])
        invariant watchFace.State() == ApplyItems(keys, watchFace.convertToDigit, old(watchFace.State()), items[..i])
        invariant invalidations == old(invalidations)
      {
        assert items[..i + 1][..i] == items[..i];
        ProcessesConfigurationFor(items[i]);
        i := i + 1;
      }
      assert items[..i] == items;
      InvalidateIfNecessary();
    }
  }
}
