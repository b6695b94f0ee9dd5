# Weather watch face: a Dafny model

This project models the watch side of a phone-and-wearable weather app. The
phone publishes one data item holding a weather condition code and the day's
maximum and minimum temperatures. The watch face receives it, updates its
temperature texts and weather bitmap, and redraws once a second while it is
visible and not in ambient mode.

The model has four modules:

- `Formatting` (formatting.dfy) covers decimal text. It gives the `%02d`
  conversion used for the time text, `Integer.toString`, and
  `Integer.parseInt` with its 32-bit range and its failure cases.
- `WeatherArt` (weather_art.dfy) covers `getArtResourceForWeatherCondition`.
  It maps an OpenWeatherMap condition code to one of eight art icons, or to
  `NoIcon` for the resource id -1. The branch order is kept, so code 761 is
  fog and not storm.
- `WatchFace` (watch_face.dfy) covers `SimpleWatchFace`. `FaceState` holds the
  values of the fields the sync updates and the bitmap that `draw` renders.
  There is one pure transition per update method, the `%02d:%02d` time text,
  and the class `SimpleWatchFace`, whose methods change its fields in place
  and are proved against those transitions.
- `WatchFaceService` (watch_face_service.dfy) covers the engine of
  `MyWatchFaceService`. Data items are values with a path and a
  `map<string, string>`. `ApplyItem` specifies `processesConfigurationFor`,
  and `ApplyItems` specifies a run of items in order. `LastUpdateWins` shows
  that after any run each field holds the value from the last item that sets
  it. The class `Engine` keeps the handler's pending tick posts as a sequence
  of delays. Its invariant `Valid()` says that at most one tick is pending,
  and only while the face is interactive. Every lifecycle callback keeps that
  invariant.

The model keeps one behaviour of the source as written. `createBitmap` replaces
`weatherImage`, but `draw` renders `resizedBitmap`, which only the constructor
sets. So the weather art never reaches the screen. `AfterCreateBitmap` and
`ApplyItems` state this: the displayed bitmap never changes.

## Model

| member | source | states |
|---|---|---|
| `WeatherArt.ArtResourceForWeatherCondition` | Advanced_Android_Development/wear/src/main/java/com/explore/archana/weatherwear/SimpleWatchFace.java:175-200 | for every integer code: storm exactly for 200..232 and 781; light rain exactly for 300..321; rain exactly for 500..504 and 520..531; snow exactly for 511 and 600..622; fog exactly for 701..761; clear exactly for 800; light clouds exactly for 801; clouds exactly for 802..804; no icon (-1) exactly when the code is in none of the listed ranges |
| `WeatherArt.FogShadowsStorm` | Advanced_Android_Development/wear/src/main/java/com/explore/archana/weatherwear/SimpleWatchFace.java:188-191 | 761 gives fog because the fog range is tested first; 781 is the only 7xx code that gives storm |
| `WeatherArt.IconFollowsGroup` | Advanced_Android_Development/wear/src/main/java/com/explore/archana/weatherwear/SimpleWatchFace.java:175-200 | every code that has an icon is in group 2xx, 3xx, 5xx, 6xx, 7xx or 8xx, and its icon fits its group |
| `Formatting.Decimal` | Advanced_Android_Development/wear/src/main/java/com/explore/archana/weatherwear/SimpleWatchFace.java:88 | the decimal text of a number is non-empty, all digits, has no leading zero, and is one character long exactly for values below 10 |
| `Formatting.DecimalRoundTrip` | Advanced_Android_Development/wear/src/main/java/com/explore/archana/weatherwear/SimpleWatchFace.java:88 | reading the digits of the decimal text back gives the number |
| `Formatting.ZeroPad2` | Advanced_Android_Development/wear/src/main/java/com/explore/archana/weatherwear/SimpleWatchFace.java:24 | `%02d` of 0..99 is the tens digit then the units digit, and it reads back as the value; 100 and above print in full; a negative value prints its sign and digits |
| `Formatting.ParseInt` | Advanced_Android_Development/wear/src/main/java/com/explore/archana/weatherwear/MyWatchFaceService.java:215 | every value `Integer.parseInt` gives back lies in the 32-bit range |
| `Formatting.ParseDigitsValue` | Advanced_Android_Development/wear/src/main/java/com/explore/archana/weatherwear/MyWatchFaceService.java:215 | the digit reader succeeds exactly on strings made only of decimal digits, and then reads their decimal value |
| `Formatting.ParseIntAccepts` | Advanced_Android_Development/wear/src/main/java/com/explore/archana/weatherwear/MyWatchFaceService.java:215 | `Integer.parseInt` succeeds iff the text is one or more digits, optionally after one `+` or `-`, with a value inside the 32-bit range; the result is the digits' value, negated after `-` |
| `Formatting.ParseIntExamples` | Advanced_Android_Development/wear/src/main/java/com/explore/archana/weatherwear/MyWatchFaceService.java:215 | "+7" reads as 7, "-0" as 0 and "007" as 7; the empty text, a lone "+" and "1a" are rejected |
| `Formatting.ParseIntRoundTrip` | Advanced_Android_Development/wear/src/main/java/com/explore/archana/weatherwear/MyWatchFaceService.java:215 | parsing the `Integer.toString` text of any 32-bit value gives back that value |
| `Formatting.DoubleZeroIsZero` | Advanced_Android_Development/wear/src/main/java/com/explore/archana/weatherwear/SimpleWatchFace.java:161 | the text "00" parses to 0, which the guard of `createBitmap` compares against |
| `WatchFace.AfterUpdateMaxTemp` | Advanced_Android_Development/wear/src/main/java/com/explore/archana/weatherwear/SimpleWatchFace.java:150-154 | the maximum becomes the converted text followed by one degree sign; the minimum and both bitmaps are unchanged |
| `WatchFace.AfterUpdateMinTemp` | Advanced_Android_Development/wear/src/main/java/com/explore/archana/weatherwear/SimpleWatchFace.java:155-158 | the minimum becomes the converted text followed by one degree sign; the maximum and both bitmaps are unchanged |
| `WatchFace.AfterCreateBitmap` | Advanced_Android_Development/wear/src/main/java/com/explore/archana/weatherwear/SimpleWatchFace.java:160-165 | code 0 changes nothing; any other code makes the weather image the 60x60 resize of that code's art; the temperatures never change, and the bitmap `draw` renders never changes |
| `WatchFace.TimeText` | Advanced_Android_Development/wear/src/main/java/com/explore/archana/weatherwear/SimpleWatchFace.java:88 | for an hour in 0..23 and a minute in 0..59 the text has five characters: two digits reading as the hour, a colon at index 2, and two digits reading as the minute |
| `WatchFace.TimeTextInjective` | Advanced_Android_Development/wear/src/main/java/com/explore/archana/weatherwear/SimpleWatchFace.java:88 | two clock times with the same time text are the same time |
| `WatchFace.SimpleWatchFace.constructor` | Advanced_Android_Development/wear/src/main/java/com/explore/archana/weatherwear/SimpleWatchFace.java:34-49 | both temperatures start as "00°"; the weather image is the launcher icon, and the rendered bitmap is its 40x40 resize |
| `WatchFace.SimpleWatchFace.UpdateMaxTemp` | Advanced_Android_Development/wear/src/main/java/com/explore/archana/weatherwear/SimpleWatchFace.java:150-154 | the fields after the call are `AfterUpdateMaxTemp` of the fields before |
| `WatchFace.SimpleWatchFace.UpdateMinTemp` | Advanced_Android_Development/wear/src/main/java/com/explore/archana/weatherwear/SimpleWatchFace.java:155-158 | the fields after the call are `AfterUpdateMinTemp` of the fields before |
| `WatchFace.SimpleWatchFace.CreateBitmap` | Advanced_Android_Development/wear/src/main/java/com/explore/archana/weatherwear/SimpleWatchFace.java:160-165 | the fields after the call are `AfterCreateBitmap` of the fields before |
| `WatchFaceService.ApplyItem` | Advanced_Android_Development/wear/src/main/java/com/explore/archana/weatherwear/MyWatchFaceService.java:198-218 | an item on another path leaves the face unchanged; on the weather path the maximum is set iff its key is present, the minimum iff its key is present, and the image iff the weather id is present and parses to a nonzero code; the rendered bitmap never changes |
| `WatchFaceService.ApplyItems` | Advanced_Android_Development/wear/src/main/java/com/explore/archana/weatherwear/MyWatchFaceService.java:223-225 | applying items in order never changes the rendered bitmap, and a run with no item on the weather path changes nothing |
| `WatchFaceService.ChangedItems` | Advanced_Android_Development/wear/src/main/java/com/explore/archana/weatherwear/MyWatchFaceService.java:186-191 | the items processed from an event buffer are exactly the items of its `TYPE_CHANGED` events, no more than there are events |
| `WatchFaceService.ChangedItemsSingle` | Advanced_Android_Development/wear/src/main/java/com/explore/archana/weatherwear/MyWatchFaceService.java:186-191 | a buffer holding one `TYPE_CHANGED` event yields exactly its item; one holding a deleted event yields nothing |
| `WatchFaceService.ChangedItemsAppend` | Advanced_Android_Development/wear/src/main/java/com/explore/archana/weatherwear/MyWatchFaceService.java:186-191 | the changed items of two buffers in a row are those of the first followed by those of the second; with the single-event case this fixes buffer order and how often each item is processed |
| `WatchFaceService.ApplyItemsAppend` | Advanced_Android_Development/wear/src/main/java/com/explore/archana/weatherwear/MyWatchFaceService.java:223-225 | processing two buffers one after the other gives the same face as processing their concatenation |
| `WatchFaceService.LastValue` | Advanced_Android_Development/wear/src/main/java/com/explore/archana/weatherwear/MyWatchFaceService.java:204-211 | it finds nothing iff no item on the path holds the key; otherwise it finds the value of an item that holds the key, and no later item on the path holds it |
| `WatchFaceService.LastWeatherIndex` | Advanced_Android_Development/wear/src/main/java/com/explore/archana/weatherwear/MyWatchFaceService.java:212-216 | the position found holds an item whose weather id is present, parses and is nonzero, and no later item has one; -1 only when there is no such item |
| `WatchFaceService.LastWeatherId` | Advanced_Android_Development/wear/src/main/java/com/explore/archana/weatherwear/MyWatchFaceService.java:212-216 | it finds nothing iff no item sets a nonzero weather id; otherwise it finds the parsed id of some item that sets one, and no later item sets one |
| `WatchFaceService.LastWeatherIdStep` | Advanced_Android_Development/wear/src/main/java/com/explore/archana/weatherwear/MyWatchFaceService.java:212-216 | one more item either supplies the last weather id itself, when its id is present, parses and is nonzero, or leaves the earlier last id in place |
| `WatchFaceService.LastUpdateWins` | Advanced_Android_Development/wear/src/main/java/com/explore/archana/weatherwear/MyWatchFaceService.java:204-216 | after any run of items, each temperature is the converted value from the last item that carries its key, or is unchanged if none does; the weather image is the art of the last nonzero weather id, or is unchanged if there is none |
| `WatchFaceService.DoubleZeroWeatherIdIgnored` | Advanced_Android_Development/wear/src/main/java/com/explore/archana/weatherwear/MyWatchFaceService.java:212-216 | an item whose weather id is "00" parses and leaves the weather image as it was |
| `WatchFaceService.Engine.OnCreate` | Advanced_Android_Development/wear/src/main/java/com/explore/archana/weatherwear/MyWatchFaceService.java:66-87 | the engine starts with a fresh watch face in its initial state, no redraws, and one immediate tick pending iff it is visible and not ambient |
| `WatchFaceService.Engine.StartTimerIfNecessary` | Advanced_Android_Development/wear/src/main/java/com/explore/archana/weatherwear/MyWatchFaceService.java:90-94 | earlier ticks are removed; afterwards exactly one immediate tick is pending iff visible and not ambient, otherwise none; the invariant holds |
| `WatchFaceService.Engine.InvalidateIfNecessary` | Advanced_Android_Development/wear/src/main/java/com/explore/archana/weatherwear/MyWatchFaceService.java:117-121 | one redraw is requested iff the face is visible and not ambient |
| `WatchFaceService.Engine.RunTick` | Advanced_Android_Development/wear/src/main/java/com/explore/archana/weatherwear/MyWatchFaceService.java:103-115 | running the pending tick redraws once and re-posts the tick with a 1000 ms delay, and the invariant is kept; since `Valid()` allows a pending tick only while visible and not ambient, the guard at MyWatchFaceService.java:107 is always true here, and the branch without a redraw or re-post cannot be reached |
| `WatchFaceService.Engine.OnVisibilityChanged` | Advanced_Android_Development/wear/src/main/java/com/explore/archana/weatherwear/MyWatchFaceService.java:123-132 | records the visibility, keeps the ambient mode, and leaves a tick pending iff now visible and not ambient |
| `WatchFaceService.Engine.OnAmbientModeChanged` | Advanced_Android_Development/wear/src/main/java/com/explore/archana/weatherwear/MyWatchFaceService.java:135-140 | records the mode, always requests one redraw, and leaves a tick pending iff visible and now not ambient |
| `WatchFaceService.Engine.OnTimeTick` | Advanced_Android_Development/wear/src/main/java/com/explore/archana/weatherwear/MyWatchFaceService.java:142-146 | always requests one redraw |
| `WatchFaceService.Engine.OnDestroy` | Advanced_Android_Development/wear/src/main/java/com/explore/archana/weatherwear/MyWatchFaceService.java:148-154 | no tick is left pending |
| `WatchFaceService.Engine.ProcessesConfigurationFor` | Advanced_Android_Development/wear/src/main/java/com/explore/archana/weatherwear/MyWatchFaceService.java:198-218 | the watch face after the call is `ApplyItem` of the face before |
| `WatchFaceService.Engine.ApplyChangedEvents` | Advanced_Android_Development/wear/src/main/java/com/explore/archana/weatherwear/MyWatchFaceService.java:186-191 | the watch face after the loop has the changed items of the buffer applied in buffer order, deleted events skipped |
| `WatchFaceService.Engine.OnDataChanged` | Advanced_Android_Development/wear/src/main/java/com/explore/archana/weatherwear/MyWatchFaceService.java:182-196 | the watch face after the call has the changed items of the buffer applied in buffer order; one redraw is requested iff visible and not ambient |
| `WatchFaceService.Engine.OnDataItemsResult` | Advanced_Android_Development/wear/src/main/java/com/explore/archana/weatherwear/MyWatchFaceService.java:220-229 | the watch face after the call has every fetched item applied in order; one redraw is requested iff visible and not ambient |

## Left out

- Drawing and layout (`draw`, `computeXOffset`, `computeTimeYOffset`, `setTextSizeForWidth`, `computeDateYOffset`, `onDraw`) are left out. They are float arithmetic over text measurement by the platform's `Paint` and `Canvas`. Only the time text and the choice of rendered bitmap are modelled.
- `convertToDigit` is left out. It parses a float and truncates it. The model treats it as an arbitrary `string -> string` conversion, held in the const field `SimpleWatchFace.convertToDigit`.
- ApplyItem: does not model the `NumberFormatException` that `Float.valueOf` throws in `convertToDigit` (SimpleWatchFace.java:168) on a temperature that is not a number. In the source that exception leaves `processesConfigurationFor` after the fields already updated, skips the remaining keys of the item and the remaining items of the buffer, and skips `invalidateIfNecessary`. The model's conversion is total, so `ApplyItem`, `ApplyItems`, `ProcessesConfigurationFor`, `OnDataChanged` and `OnDataItemsResult` always apply every key of every item.
- Bitmap decoding and scaling (`BitmapFactory`, `getResizedBitmap`, `Matrix`) are left out. A bitmap is recorded by where it was decoded from and the size it was scaled to. The platform's behaviour when decoding resource id -1 for an unknown code is not modelled: the model records `Art(NoIcon)`.
- The date text from `SimpleDateFormat` is left out. It comes from a library call and the current clock.
- The hour and minute come from the platform clock. `TimeText` takes them as parameters.
- `TimeText` assumes a locale that formats with ASCII digits. `String.format` may use other digits in other locales.
- `ParseInt` accepts only ASCII digits. `Integer.parseInt` also accepts other Unicode decimal digits.
- Text whose weather id `Integer.parseInt` rejects is not modelled. In the source this throws an uncaught exception. `ProcessesConfigurationFor`, `OnDataChanged` and `OnDataItemsResult` require that every item on the weather path with a weather id holds parseable text.
- The `GoogleApiClient` lifecycle is left out: building it, `connect`, `releaseGoogleApiClient`, the connection callbacks, and listener registration. It is platform plumbing. `OnDataChanged` and `OnDataItemsResult` stand for the callbacks it delivers.
- `Handler` and `Looper` mechanics are left out. The pending posts of the tick runnable are the sequence `Engine.ticks`, and `invalidate()` is a count of redraw requests.
- The `super` calls into `CanvasWatchFaceService.Engine` and `setWatchFaceStyle` are left out. They are platform code that is not part of this model. `visible` and `ambient` stand for what `isVisible()` and `isInAmbientMode()` report.
- The text of the keys and of the path in `WatchfaceSyncCommons` is left out, because that class is not part of this model. `SyncKeys` takes them as parameters.
- The phone-side publisher `WatchService.java` is left out. It reads a content-provider cursor and puts a data item, which is I/O with no logic of its own.
- Logging (`Log.d`, `Log.e`) is left out.
