/**
 * The watch face's display state: the two temperature texts, the weather
 * bitmap chosen from the last condition code, the bitmap `draw` renders,
 * and the `%02d:%02d` time text.
 */
module WatchFace {
  import opened Formatting
  import opened WeatherArt

  /** The degree sign appended to each temperature. */
  const Degree: char := '\U{B0}'

  /** The temperature text shown before any data arrives. */
  const InitialTemp: string := "00" + [Degree]

  /** Where a bitmap was decoded from: the launcher icon or a weather art icon. */
  datatype Resource = LauncherIcon | Art(icon: Icon)

  /** A decoded resource, or a bitmap scaled to a width and height in pixels. */
  datatype Bitmap = Decoded(resource: Resource) | Resized(source: Bitmap, width: int, height: int)

  /** The fields of the watch face that the synced data updates or `draw` renders. */
  datatype FaceState = FaceState(maxTemp: string, minTemp: string, weatherImage: Bitmap, resizedBitmap: Bitmap)

  /** The state the constructor leaves: both temperatures "00°", the launcher icon, and its 40x40 copy. */
  const Initial: FaceState :=
    FaceState(InitialTemp, InitialTemp, Decoded(LauncherIcon), Resized(Decoded(LauncherIcon), 40, 40))

  /** The bitmap `draw` puts on the canvas. */
  function Displayed(f: FaceState): Bitmap {
    f.resizedBitmap
  }

  /** `updateMaxTemp`: the converted text with a degree sign becomes the maximum; nothing else changes. */
  function AfterUpdateMaxTemp(f: FaceState, convertToDigit: string -> string, max: string): (r: FaceState)
    ensures |r.maxTemp| == |convertToDigit(max)| + 1 && r.maxTemp[|r.maxTemp| - 1] == Degree
    ensures r.maxTemp[..|r.maxTemp| - 1] == convertToDigit(max)
    ensures r.minTemp == f.minTemp && r.weatherImage == f.weatherImage && r.resizedBitmap == f.resizedBitmap
  {
    f.(maxTemp := convertToDigit(max) + [Degree])
  }

  /** `updateMinTemp`: the converted text with a degree sign becomes the minimum; nothing else changes. */
  function AfterUpdateMinTemp(f: FaceState, convertToDigit: string -> string, min: string): (r: FaceState)
    ensures |r.minTemp| == |convertToDigit(min)| + 1 && r.minTemp[|r.minTemp| - 1] == Degree
    ensures r.minTemp[..|r.minTemp| - 1] == convertToDigit(min)
    ensures r.maxTemp == f.maxTemp && r.weatherImage == f.weatherImage && r.resizedBitmap == f.resizedBitmap
  {
    f.(minTemp := convertToDigit(min) + [Degree])
  }

  /** The weather bitmap `createBitmap` builds: the art for the code, scaled to 60x60. */
  function WeatherBitmap(weatherId: int): Bitmap {
    Resized(Decoded(Art(ArtResourceForWeatherCondition(weatherId))), 60, 60)
  }

  /**
   * `createBitmap`: code 0 changes nothing; any other code replaces the
   * weather image with that code's art. The bitmap `draw` renders is never
   * touched, so the displayed picture stays the launcher icon.
   */
  function AfterCreateBitmap(f: FaceState, weatherId: int): (r: FaceState)
    ensures weatherId == 0 ==> r == f
    ensures weatherId != 0 ==> r.weatherImage == Resized(Decoded(Art(ArtResourceForWeatherCondition(weatherId))), 60, 60)
    ensures r.maxTemp == f.maxTemp && r.minTemp == f.minTemp
    ensures Displayed(r) == Displayed(f)
  {
    if weatherId != 0 then f.(weatherImage := WeatherBitmap(weatherId)) else f
  }

  /**
   * The `%02d:%02d` time text of `draw`. For an hour and minute of a clock
   * it is five characters: two digits of the hour, a colon, two digits of
   * the minute, each half zero-padded.
   */
  function TimeText(hour: int, minute: int): (t: string)
    ensures 0 <= hour < 24 && 0 <= minute < 60 ==>
      && |t| == 5 && t[2] == ':' && AllDigits(t[..2]) && AllDigits(t[3..])
      && DecimalValue(t[..2]) == hour && DecimalValue(t[3..]) == minute
  {
    var t := ZeroPad2(hour) + ":" + ZeroPad2(minute);
    assert 0 <= hour < 24 && 0 <= minute < 60 ==> t[..2] == ZeroPad2(hour) && t[3..] == ZeroPad2(minute);
    t
  }

  /** Different clock times give different texts. */
  lemma TimeTextInjective(h1: int, m1: int, h2: int, m2: int)
    requires 0 <= h1 < 24 && 0 <= m1 < 60 && 0 <= h2 < 24 && 0 <= m2 < 60
    requires TimeText(h1, m1) == TimeText(h2, m2)
    ensures h1 == h2 && m1 == m2
  {
    var t := TimeText(h1, m1);
    assert DecimalValue(t[..2]) == h1 && DecimalValue(t[..2]) == h2;
  }

  /** The watch face object: its fields change in place as data arrives. */
  class SimpleWatchFace {
    /** The text conversion applied to each temperature before display. */
    const convertToDigit: string -> string
    var maxTemp: string
    var minTemp: string
    var weatherImage: Bitmap
    var resizedBitmap: Bitmap

    function State(): FaceState
      reads this
    {
      FaceState(maxTemp, minTemp, weatherImage, resizedBitmap)
    }

    constructor (convertToDigit: string -> string)
      ensures State() == Initial && this.convertToDigit == convertToDigit
    {
      this.convertToDigit := convertToDigit;
      maxTemp, minTemp := InitialTemp, InitialTemp;
      weatherImage := Decoded(LauncherIcon);
      resizedBitmap := Resized(Decoded(LauncherIcon), 40, 40);
    }

    method UpdateMaxTemp(max: string)
      modifies this
      ensures State() == AfterUpdateMaxTemp(old(State()), convertToDigit, max)
    {
      maxTemp := convertToDigit(max) + [Degree];
    }

    method UpdateMinTemp(min: string)
      modifies this
      ensures State() == AfterUpdateMinTemp(old(State()), convertToDigit, min)
    {
      minTemp := convertToDigit(min) + [Degree];
    }

    method CreateBitmap(weatherId: int)
      modifies this
      ensures State() == AfterCreateBitmap(old(State()), weatherId)
    {
      if weatherId != 0 {
        weatherImage := WeatherBitmap(weatherId);
      }
    }
  }
}
