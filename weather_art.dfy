/**
 * The weather-condition classification of the watch face: an
 * OpenWeatherMap condition code (2xx thunderstorm, 3xx drizzle, 5xx rain,
 * 6xx snow, 7xx atmosphere, 800 clear sky, 80x clouds) chosen to one of the
 * art icons, or to no icon (the resource id -1) when the code is not listed.
 */
module WeatherArt {

  /** The `R.mipmap.art_*` icons; `NoIcon` stands for the result -1. */
  datatype Icon = Storm | LightRain | Rain | Snow | Fog | Clear | LightClouds | Clouds | NoIcon

  /** The codes the classification lists, in the order its branches test them. */
  predicate IsListedCode(weatherId: int) {
    || 200 <= weatherId <= 232
    || 300 <= weatherId <= 321
    || 500 <= weatherId <= 504
    || weatherId == 511
    || 520 <= weatherId <= 531
    || 600 <= weatherId <= 622
    || 701 <= weatherId <= 761
    || weatherId == 781
    || 800 <= weatherId <= 804
  }

  /**
   * `getArtResourceForWeatherCondition`: the first range that holds the code
   * decides the icon. Each icon is given back for exactly the codes listed
   * against it; code 761 falls in the fog range before the storm branch that
   * also names it is reached.
   */
  function ArtResourceForWeatherCondition(weatherId: int): (icon: Icon)
    ensures icon == Storm <==> 200 <= weatherId <= 232 || weatherId == 781
    ensures icon == LightRain <==> 300 <= weatherId <= 321
    ensures icon == Rain <==> 500 <= weatherId <= 504 || 520 <= weatherId <= 531
    ensures icon == Snow <==> weatherId == 511 || 600 <= weatherId <= 622
    ensures icon == Fog <==> 701 <= weatherId <= 761
    ensures icon == Clear <==> weatherId == 800
    ensures icon == LightClouds <==> weatherId == 801
    ensures icon == Clouds <==> 802 <= weatherId <= 804
    ensures icon == NoIcon <==> !IsListedCode(weatherId)
  {
    if 200 <= weatherId <= 232 then Storm
    else if 300 <= weatherId <= 321 then LightRain
    else if 500 <= weatherId <= 504 then Rain
    else if weatherId == 511 then Snow
    else if 520 <= weatherId <= 531 then Rain
    else if 600 <= weatherId <= 622 then Snow
    else if 701 <= weatherId <= 761 then Fog
    else if weatherId == 761 || weatherId == 781 then Storm
    else if weatherId == 800 then Clear
    else if weatherId == 801 then LightClouds
    else if 802 <= weatherId <= 804 then Clouds
    else NoIcon
  }

  /**
   * Code 761 is listed both in the fog range and beside 781 for the storm
   * icon; the fog branch comes first, so 761 shows fog and only 781 storm.
   */
  lemma FogShadowsStorm()
    ensures ArtResourceForWeatherCondition(761) == Fog
    ensures forall id :: 700 <= id < 800 && ArtResourceForWeatherCondition(id) == Storm ==> id == 781
  {
  }

  /**
   * Every code that has an icon lies in one of the OpenWeatherMap groups
   * 2xx, 3xx, 5xx, 6xx, 7xx or 8xx, and the icon agrees with its group.
   */
  lemma IconFollowsGroup(weatherId: int)
    requires ArtResourceForWeatherCondition(weatherId) != NoIcon
    ensures 200 <= weatherId < 900 && weatherId / 100 != 4
    ensures var icon := ArtResourceForWeatherCondition(weatherId);
      match weatherId / 100
      case 2 => icon == Storm
      case 3 => icon == LightRain
      case 5 => icon in {Rain, Snow}
      case 6 => icon == Snow
      case 7 => icon in {Fog, Storm}
      case _ => icon in {Clear, LightClouds, Clouds}
  {
  }
}
