# Weather report window: a Dafny model of its request handling

The program is a one-window PyQt app. The user types a city and presses a
button. The app makes one request to a weather API and then either shows the
temperature, a condition glyph and a description, or shows an error message
in place of the temperature. This project models the logic of `main.py` that
decides what the window shows. The GUI toolkit and the network are not part
of the model.

- `emoji.dfy` (module `Emoji`) models `get_weather_emoji`. It maps a
  condition code to one of seven glyphs through seven inclusive ranges, or to
  nothing. The same ranges are also given as a table (`Bands`), with a generic
  first-match scan over it. The lemmas prove that the ranges are pairwise
  disjoint, that the order of the tests is irrelevant, and that the program's
  if-chain and the table agree on every code.
- `fetch.dfy` (module `Fetch`) models the `try`/`except` and `match` in
  `get_weather`. An `Outcome` is either a decoded body (`cod` plus the fields
  read from it) or a raised `requests` exception. The exception is described
  by the set of caught classes it is an instance of (`HTTPError`, `Timeout`,
  `ConnectionError`, `TooManyRedirects`), because one exception can belong to
  several. A connect timeout, for example, is both a `Timeout` and a
  `ConnectionError`, and that is how the order of the `except` clauses shows.
  The empty set stands for any other `RequestException`. Every message is
  written as a heading, a line break and a detail line (`Lines`).
- `display.dfy` (module `Display`) models `display_error`, `display_weather`
  and the click handler (`GetWeather`). It also models a sequence of clicks
  (`Run`). The state holds the three label texts and the font of the
  temperature label: the 75px hero font, or the 30px error font.
- `wrappers.dfy` (module `Wrappers`) holds the `Option` type.

The model follows `main.py` as written, including two behaviours a
reimplementation might choose to change:
- a success never resets the error font, so the font stays at 30px after any error;
- a body whose `cod` is not 200 leaves the window unchanged.

## Model

| member | source | states |
|---|---|---|
| Emoji.WeatherEmoji | main.py:155-170 | a code with no glyph lies in none of the program's ranges; a code with a glyph lies in a range of that glyph |
| Emoji.GlyphText | main.py:158-170 | every glyph text is one base emoji followed by one or more U+FE0F variation selectors, as many as the source literal holds |
| Emoji.GlyphTextInjective | main.py:157-170 | two different glyphs are never rendered as the same text |
| Emoji.FirstMatch | main.py:156-170 | scanning ranges in order yields no glyph exactly when no range holds the code; otherwise it yields the glyph of a range that holds the code |
| Emoji.FirstMatchIsFirst | main.py:156-170 | a glyph found by the scan is the glyph of the earliest range that holds the code: no range before it holds the code |
| Emoji.FirstMatchIsOnlyMatch | main.py:156-170 | when no code lies in two ranges, the scan returns glyph g exactly when some range of glyph g holds the code |
| Emoji.FirstMatchOrderIrrelevant | main.py:156-170 | two tables with the same disjoint ranges, in any order and with any repeats, classify every code alike |
| Emoji.BandsDisjoint | main.py:157-170 | no code lies in two of the program's seven ranges |
| Emoji.WeatherEmojiIsTable | main.py:156-170 | the program's if-chain returns, for every code, what the range table gives |
| Emoji.WeatherEmojiRanges | main.py:156-170 | thunderstorm exactly for 200..232, drizzle for 300..321, rain for 500..531, snow for 600..622, fog for 701..741, clear for 800, clouds for 801..804; no glyph exactly for every other code |
| Emoji.WeatherEmojiAnyOrder | main.py:156-170 | testing the program's ranges in any order, each any number of times, gives every code the glyph the program gives it |
| Fetch.Handler | main.py:106-136 | the handling clause is the earliest-listed class the exception is an instance of; the final `RequestException` clause handles it exactly when it is none of the four |
| Fetch.FailureOf | main.py:107-125 | a named-status failure carries the exception's own status, and that status is one the HTTP clause names |
| Fetch.Classify | main.py:98-136 | every exception leads to an error message; a body leads to an update exactly when its `cod` is 200, and then the update shows that body's reading |
| Fetch.ErrorMessage | main.py:106-136 | the message is the heading of the failure, a line break, then the detail; for the HTTP fall-through and the generic clause it ends with the exception's text |
| Fetch.HttpErrorMessages | main.py:106-125 | an exception that is an `HTTPError` gets the fixed message of its status for 400, 401, 403, 404, 500, 502, 503 and 504, and the fall-through heading followed by its text for any other status |
| Fetch.OtherErrorMessages | main.py:126-136 | the other clauses in order: timeout wins over connection error, connection error wins over too many redirects, and only an exception of none of these classes gets the generic message with its text |
| Fetch.ErrorMessageIsTwoLines | main.py:107-136 | every error message has a second line, and its first line is the heading of the failure it reports, whatever text the exception carries |
| Fetch.FailureHeadingInjective | main.py:107-136 | the headings of different failures differ |
| Fetch.HeadingIdentifiesFailure | main.py:107-136 | two messages with the same first line report the same failure: the same clause and, for the HTTP clause, the same named status or none |
| Display.EmojiText | main.py:152 | the emoji label text is empty exactly when no range holds the code; otherwise it is the glyph text of a range that holds the code |
| Display.DisplayError | main.py:139-141 | the temperature label shows the message in the error font; the emoji and description labels are unchanged |
| Display.DisplayWeather | main.py:144-153 | the labels show the temperature with a degree sign, the code's emoji text and the description; the font is unchanged |
| Display.GetWeather | main.py:98-104 | an outcome that asks for no update leaves the display unchanged; otherwise the temperature label shows the update's text; the font becomes the error font exactly for a raised exception and is kept otherwise |
| Display.ErrorTouchesTemperatureOnly | main.py:139-141 | an error puts its message in the temperature label and switches it to the 30px font; the emoji and description labels stay as they were |
| Display.WeatherKeepsFont | main.py:144-153 | a body with `cod` 200 writes the temperature with a degree sign, the glyph of its code and its description, and leaves the font unchanged |
| Display.OtherCodChangesNothing | main.py:103-104 | a body whose `cod` is not 200 leaves the whole display unchanged |
| Display.GetWeatherIdempotent | main.py:139-153 | applying the same outcome twice gives the same display as applying it once |
| Display.ErrorFontOutlivesWeather | main.py:139-153 | after an error and then a reading, the labels show the reading but the temperature keeps the error font |
| Display.ClearSkyFromInitial | main.py:144-168 | from the first window, a clear-sky reading of 80 shows "80°", the clear glyph and "clear sky" in the hero font |
| Display.NotFoundFromInitial | main.py:106-141 | from the first window, a 404 shows the not-found message in the error font and keeps the other labels |
| Display.LatestUpdate | main.py:98-136 | the latest update is absent exactly when no outcome asked for one; otherwise it is the update of an outcome after which no outcome asked for one |
| Display.LatestReading | main.py:103-104 | the latest reading is absent exactly when no outcome showed the weather; otherwise it comes from a `cod` 200 body after which no outcome showed the weather |
| Display.RunTemperature | main.py:139-151 | after a sequence of clicks the temperature label shows the text of the latest update, or its old text when there was none |
| Display.RunWeatherLabels | main.py:144-153 | after a sequence of clicks the emoji and description labels show the latest reading, or their old texts when there was none |
| Display.RunFont | main.py:139-141 | after a sequence of clicks the font is the error font exactly when it was before or some click raised an exception |
| Display.RunRepeated | main.py:139-153 | repeating a whole sequence of clicks leaves the display as the first pass left it |

## Left out

- Widget construction, layout, alignment and the style sheet (main.py:19-90) are toolkit plumbing. Only the temperature label's font is kept, as two sizes.
- The HTTP request, `raise_for_status` and JSON decoding (main.py:99-101) are library and network I/O. Their results are the input `Outcome`. From `requests` 2.27 on, a body that does not decode raises a `RequestException` of no specific class, so it reaches the generic clause; with older versions the decoding error escapes every clause.
- A body without `cod` raises a `KeyError` that no clause catches (main.py:103). A body with `cod` 200 also raises, uncaught, when it lacks `main.temp`, a first `weather` entry, or that entry's `description` or `id` (main.py:145-149); with any other `cod` those fields are never read. The model assumes a body of the documented shape.
- `cod` is modelled as an integer. A string `"200"` compares unequal to `200` in Python, so it is one of the bodies that change nothing.
- The credential module and the URL template (main.py:9, 95) are outside the model. So is the city text the URL is built from: the city reaches the display only through the request's outcome, which is the model's input (an unknown city, for one, comes back as a 404).
- The Kelvin to Fahrenheit conversion and the `:.0f` formatting (main.py:145-151) are floating-point work. `Reading.temperature` is the already rendered number; the model appends only the degree sign. The Celsius value (main.py:146) is never used.
- The entry point and event loop (main.py:173-177) are outside the model.
- Display.EmojiText: for a code with no glyph the program passes `None` to `setText`; the model takes the label text to be empty, as PyQt shows it.
