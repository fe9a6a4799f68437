/**
 The three result labels of the window and the font of the temperature label
 (main.py, display_error, display_weather and the body of get_weather).

 An error writes only the temperature label and switches it to the 30px error
 font; a weather reading writes all three labels and leaves the font as it was,
 so the error font of an earlier request stays. A body whose `cod` is not 200
 changes nothing.
 */
module Display {
  import opened Wrappers
  import opened Emoji
  import opened Fetch

  /** Font of the temperature label: the 75px style-sheet size, or the 30px
      size `display_error` sets on the label itself. */
  datatype Font = Hero | ErrorSize

  function FontPx(f: Font): nat {
    match f
    case Hero => 75
    case ErrorSize => 30
  }

  datatype DisplayState = DisplayState(temperature: string, emoji: string, description: string, font: Font)

  /** The labels as the window is constructed. */
  const Initial := DisplayState("70°F", "\U{2600}\U{FE0F}", "Sunny", Hero)

  /** Text of the emoji label for a condition code: the glyph, or the empty
      text a label shows when it is given no string. */
  function EmojiText(id: int): (t: string)
    ensures t == [] <==> forall b :: b in Bands ==> !Holds(b, id)
    ensures t != [] ==> exists b :: b in Bands && Holds(b, id) && t == GlyphText(b.glyph)
  {
    WeatherEmojiIsTable(id);
    match WeatherEmoji(id)
    case Some(g) => GlyphText(g)
    case None => []
  }

  /** Only the temperature label changes: it shows the message in the error font. */
  function DisplayError(s: DisplayState, message: string): (r: DisplayState)
    ensures r.temperature == message && r.font == ErrorSize
    ensures r.emoji == s.emoji && r.description == s.description
  {
    s.(temperature := message, font := ErrorSize)
  }

  /** All three labels change; the font of the temperature label does not. */
  function DisplayWeather(s: DisplayState, r: Reading): (s': DisplayState)
    ensures s'.temperature == r.temperature + "°" && s'.description == r.description
    ensures s'.emoji == EmojiText(r.weatherId)
    ensures s'.font == s.font
  {
    s.(temperature := ShowWeather(r).Text(), emoji := EmojiText(r.weatherId), description := r.description)
  }

  function Apply(s: DisplayState, u: Update): DisplayState {
    match u
    case ShowError(message) => DisplayError(s, message)
    case ShowWeather(r) => DisplayWeather(s, r)
  }

  /** One click of the button: the request's outcome applied to the labels. */
  function GetWeather(s: DisplayState, o: Outcome): (r: DisplayState)
    ensures Classify(o).None? ==> r == s
    ensures Classify(o).Some? ==> r.temperature == Classify(o).value.Text()
    ensures r.font == if o.Raised? then ErrorSize else s.font
  {
    match Classify(o)
    case Some(u) => Apply(s, u)
    case None => s
  }

  /** An error sets the temperature label to the message for the exception and
      switches it to the error font; the emoji and description stay. */
  lemma ErrorTouchesTemperatureOnly(s: DisplayState, e: RequestError)
    ensures GetWeather(s, Raised(e)).temperature == ErrorMessage(e)
    ensures GetWeather(s, Raised(e)).font == ErrorSize && FontPx(GetWeather(s, Raised(e)).font) == 30
    ensures GetWeather(s, Raised(e)).emoji == s.emoji
    ensures GetWeather(s, Raised(e)).description == s.description
  {
  }

  /** A reading with `cod` 200 overwrites all three labels but never the font,
      so an error font from an earlier request survives it. */
  lemma WeatherKeepsFont(s: DisplayState, r: Reading)
    ensures GetWeather(s, Received(Body(200, r))).temperature == r.temperature + "°"
    ensures GetWeather(s, Received(Body(200, r))).emoji == EmojiText(r.weatherId)
    ensures GetWeather(s, Received(Body(200, r))).description == r.description
    ensures GetWeather(s, Received(Body(200, r))).font == s.font
  {
  }

  /** A body whose `cod` is not 200 leaves every label and the font as they were. */
  lemma OtherCodChangesNothing(s: DisplayState, b: Body)
    requires b.cod != 200
    ensures GetWeather(s, Received(b)) == s
  {
  }

  /** Every update is an overwrite, so a repeated outcome changes nothing more. */
  lemma GetWeatherIdempotent(s: DisplayState, o: Outcome)
    ensures GetWeather(GetWeather(s, o), o) == GetWeather(s, o)
  {
  }

  /** An error followed by a reading: the labels show the reading, but the
      temperature keeps the error font. */
  lemma ErrorFontOutlivesWeather(s: DisplayState, e: RequestError, r: Reading)
    ensures Run(s, [Raised(e), Received(Body(200, r))]) ==
      DisplayState(r.temperature + "°", EmojiText(r.weatherId), r.description, ErrorSize)
  {
  }

  /** A clear-sky reading rendered as 80 degrees, from the window's first state. */
  lemma ClearSkyFromInitial()
    ensures GetWeather(Initial, Received(Body(200, Reading("80", "clear sky", 800)))) ==
      DisplayState("80°", GlyphText(Clear), "clear sky", Hero)
  {
  }

  /** A 404 from the window's first state. */
  lemma NotFoundFromInitial(text: string)
    ensures GetWeather(Initial, Raised(RequestError({HTTPError}, 404, text))) ==
      DisplayState(Lines("404 Not found", "City not found"), "\U{2600}\U{FE0F}", "Sunny", ErrorSize)
  {
  }

  /** The labels after a sequence of clicks, oldest outcome first. */
  function Run(s: DisplayState, os: seq<Outcome>): DisplayState
    decreases |os|
  {
    if os == [] then s else GetWeather(Run(s, os[..|os| - 1]), os[|os| - 1])
  }

  /** The update of the most recent outcome that asked for one. */
  function LatestUpdate(os: seq<Outcome>): (u: Option<Update>)
    ensures u.None? <==> forall k :: 0 <= k < |os| ==> Classify(os[k]).None?
    ensures u.Some? ==>
      exists k :: 0 <= k < |os| && Classify(os[k]) == u && forall j :: k < j < |os| ==> Classify(os[j]).None?
    decreases |os|
  {
    if os == [] then None
    else if Classify(os[|os| - 1]).Some? then Classify(os[|os| - 1])
    else
      var u := LatestUpdate(os[..|os| - 1]);
      assert forall k :: 0 <= k < |os| - 1 ==> os[..|os| - 1][k] == os[k];
      u
  }

  /** A request whose outcome the labels show as weather. */
  predicate ShowsWeather(o: Outcome) {
    o.Received? && o.body.cod == 200
  }

  /** The reading of the most recent outcome that showed the weather. */
  function LatestReading(os: seq<Outcome>): (r: Option<Reading>)
    ensures r.None? <==> forall k :: 0 <= k < |os| ==> !ShowsWeather(os[k])
    ensures r.Some? ==>
      exists k :: 0 <= k < |os| && os[k] == Received(Body(200, r.value)) && forall j :: k < j < |os| ==> !ShowsWeather(os[j])
    decreases |os|
  {
    if os == [] then None
    else if ShowsWeather(os[|os| - 1]) then Some(os[|os| - 1].body.reading)
    else
      var r := LatestReading(os[..|os| - 1]);
      assert forall k :: 0 <= k < |os| - 1 ==> os[..|os| - 1][k] == os[k];
      r
  }

  /** After a sequence of clicks the temperature label shows what the most recent
      update wrote, or what it showed before when no outcome asked for one. */
  lemma {:induction false} RunTemperature(s: DisplayState, os: seq<Outcome>)
    ensures Run(s, os).temperature == LatestUpdate(os).GetOr(ShowError(s.temperature)).Text()
    decreases |os|
  {
    if os != [] {
      RunTemperature(s, os[..|os| - 1]);
    }
  }

  /** The emoji and description labels show the most recent reading, or what
      they showed before when no outcome showed the weather. */
  lemma {:induction false} RunWeatherLabels(s: DisplayState, os: seq<Outcome>)
    ensures LatestReading(os).None? ==> Run(s, os).emoji == s.emoji && Run(s, os).description == s.description
    ensures LatestReading(os).Some? ==>
      Run(s, os).emoji == EmojiText(LatestReading(os).value.weatherId) &&
      Run(s, os).description == LatestReading(os).value.description
    decreases |os|
  {
    if os != [] {
      RunWeatherLabels(s, os[..|os| - 1]);
    }
  }

  /** The error font appears with the first raised exception and never goes
      back to the hero font. */
  lemma {:induction false} RunFont(s: DisplayState, os: seq<Outcome>)
    ensures Run(s, os).font == ErrorSize <==>
      s.font == ErrorSize || exists k :: 0 <= k < |os| && os[k].Raised?
    decreases |os|
  {
    if os != [] {
      var init := os[..|os| - 1];
      RunFont(s, init);
      assert forall k :: 0 <= k < |init| ==> init[k] == os[k];
    }
  }

  /** Repeating a whole sequence of clicks leaves the labels and font as the
      first pass left them. */
  lemma RunRepeated(s: DisplayState, os: seq<Outcome>)
    ensures Run(Run(s, os), os) == Run(s, os)
  {
    var once := Run(s, os);
    RunTemperature(s, os);
    RunTemperature(once, os);
    RunWeatherLabels(s, os);
    RunWeatherLabels(once, os);
    RunFont(s, os);
    RunFont(once, os);
  }
}
