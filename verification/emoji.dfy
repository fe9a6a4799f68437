/**
 Weather condition codes and the glyph shown for them (main.py, get_weather_emoji).

 The program tests seven inclusive code ranges one after the other and returns
 the glyph of the first range that holds the code, or `None` when none does.
 `Bands` is the same classification written as a table; the lemmas show that
 the ranges are pairwise disjoint, so the order in which they are tested does
 not matter, and that the if-chain and the table agree on every code.
 */
module Emoji {
  import opened Wrappers

  /** One glyph per condition group of the weather API. */
  datatype Glyph = Thunderstorm | Drizzle | Rain | Snow | Fog | Clear | Clouds

  /** The exact text of each glyph as the program writes it: the base emoji
      followed by the number of variation selectors (U+FE0F) its literal holds. */
  function GlyphText(g: Glyph): (t: string)
    ensures 2 <= |t| && forall k :: 1 <= k < |t| ==> t[k] == '\U{FE0F}'
  {
    match g
    case Thunderstorm => "\U{1F329}\U{FE0F}"
    case Drizzle      => "\U{1F326}\U{FE0F}\U{FE0F}"
    case Rain         => "\U{1F327}\U{FE0F}\U{FE0F}\U{FE0F}"
    case Snow         => "\U{2744}\U{FE0F}\U{FE0F}\U{FE0F}\U{FE0F}\U{FE0F}"
    case Fog          => "\U{1F32B}\U{FE0F}\U{FE0F}\U{FE0F}\U{FE0F}\U{FE0F}"
    case Clear        => "\U{2600}\U{FE0F}\U{FE0F}\U{FE0F}\U{FE0F}\U{FE0F}"
    case Clouds       => "\U{2601}\U{FE0F}\U{FE0F}\U{FE0F}\U{FE0F}\U{FE0F}\U{FE0F}"
  }

  /** Distinct glyphs are rendered as distinct texts. */
  lemma GlyphTextInjective(g1: Glyph, g2: Glyph)
    ensures GlyphText(g1) == GlyphText(g2) <==> g1 == g2
  {
  }

  /** The classifier exactly as the program writes it: the first range that
      holds `id` decides, and a code outside every range yields `None`. */
  function WeatherEmoji(id: int): (r: Option<Glyph>)
    ensures r.None? ==> forall b :: b in Bands ==> !Holds(b, id)
    ensures r.Some? ==> exists b :: b in Bands && Holds(b, id) && b.glyph == r.value
  {
    assert forall k :: 0 <= k < |Bands| ==> Bands[k] in Bands;
    if 200 <= id <= 232 then Some(Thunderstorm)
    else if 300 <= id <= 321 then Some(Drizzle)
    else if 500 <= id <= 531 then Some(Rain)
    else if 600 <= id <= 622 then Some(Snow)
    else if 701 <= id <= 741 then Some(Fog)
    else if id == 800 then Some(Clear)
    else if 801 <= id <= 804 then Some(Clouds)
    else None
  }

  /** An inclusive range of condition codes together with its glyph. */
  datatype Band = Band(lo: int, hi: int, glyph: Glyph)

  predicate Holds(b: Band, id: int) {
    b.lo <= id <= b.hi
  }

  /** The program's ranges, in the order it tests them. */
  const Bands: seq<Band> := [
    Band(200, 232, Thunderstorm),
    Band(300, 321, Drizzle),
    Band(500, 531, Rain),
    Band(600, 622, Snow),
    Band(701, 741, Fog),
    Band(800, 800, Clear),
    Band(801, 804, Clouds)
  ]

  /** No code lies in two different bands of the table. */
  ghost predicate Disjoint(bands: seq<Band>) {
    forall x, y, id :: x in bands && y in bands && x != y && Holds(x, id) ==> !Holds(y, id)
  }

  /** Scans the table front to back. The contract says that the glyph comes from
      a band holding `id`; `FirstMatchIsFirst` shows it is the earliest such band. */
  function FirstMatch(bands: seq<Band>, id: int): (r: Option<Glyph>)
    ensures r.None? <==> forall b :: b in bands ==> !Holds(b, id)
    ensures r.Some? ==> exists b :: b in bands && Holds(b, id) && b.glyph == r.value
  {
    if bands == [] then None
    else if Holds(bands[0], id) then Some(bands[0].glyph)
    else
      var r := FirstMatch(bands[1..], id);
      assert forall b :: b in bands ==> b == bands[0] || b in bands[1..];
      r
  }

  /** The scan returns the glyph of the earliest band holding the code. */
  lemma {:induction false} FirstMatchIsFirst(bands: seq<Band>, id: int)
    ensures FirstMatch(bands, id).Some? ==>
      exists i :: 0 <= i < |bands| && Holds(bands[i], id) && bands[i].glyph == FirstMatch(bands, id).value &&
        forall j :: 0 <= j < i ==> !Holds(bands[j], id)
  {
    if bands != [] && !Holds(bands[0], id) && FirstMatch(bands, id).Some? {
      FirstMatchIsFirst(bands[1..], id);
      var i :| 0 <= i < |bands[1..]| && Holds(bands[1..][i], id) && bands[1..][i].glyph == FirstMatch(bands, id).value &&
        forall j :: 0 <= j < i ==> !Holds(bands[1..][j], id);
      assert Holds(bands[i + 1], id);
      assert forall j :: 0 <= j < i + 1 ==> !Holds(bands[j], id) by {
        forall j | 0 <= j < i + 1 ensures !Holds(bands[j], id) {
          if j > 0 {
            assert bands[j] == bands[1..][j - 1];
          }
        }
      }
    }
  }

  /** In a table of disjoint bands the first match is the only match: the
      result is `g` exactly when some band of glyph `g` holds the code. */
  lemma FirstMatchIsOnlyMatch(bands: seq<Band>, id: int, g: Glyph)
    requires Disjoint(bands)
    ensures FirstMatch(bands, id) == Some(g) <==> exists b :: b in bands && Holds(b, id) && b.glyph == g
  {
  }

  /** Testing the same disjoint bands in any order, each any number of times,
      gives the same glyph for every code. */
  lemma FirstMatchOrderIrrelevant(a: seq<Band>, b: seq<Band>, id: int)
    requires Disjoint(a)
    requires forall x :: x in a <==> x in b
    ensures FirstMatch(a, id) == FirstMatch(b, id)
  {
    var ra := FirstMatch(a, id);
    if ra.Some? {
      FirstMatchIsOnlyMatch(a, id, ra.value);
      FirstMatchIsOnlyMatch(b, id, ra.value);
    }
  }

  /** The program's seven ranges are pairwise disjoint. */
  lemma BandsDisjoint()
    ensures Disjoint(Bands)
  {
  }

  /** The if-chain of the program and the table scan agree on every code. */
  lemma WeatherEmojiIsTable(id: int)
    ensures WeatherEmoji(id) == FirstMatch(Bands, id)
  {
    BandsDisjoint();
    match WeatherEmoji(id)
    case Some(g) =>
      var k := if g == Thunderstorm then 0 else if g == Drizzle then 1
        else if g == Rain then 2 else if g == Snow then 3 else if g == Fog then 4
        else if g == Clear then 5 else 6;
      assert Bands[k] in Bands && Holds(Bands[k], id) && Bands[k].glyph == g;
      FirstMatchIsOnlyMatch(Bands, id, g);
    case None =>
      forall b | b in Bands ensures !Holds(b, id) {
        var k :| 0 <= k < |Bands| && Bands[k] == b;
      }
  }

  /** Each glyph is returned for exactly its documented codes, and every other
      code (below 200, 233..299, 322..499, 532..599, 623..700, 742..799, above
      804) yields no glyph rather than a failure. */
  lemma WeatherEmojiRanges(id: int)
    ensures WeatherEmoji(id) == Some(Thunderstorm) <==> 200 <= id <= 232
    ensures WeatherEmoji(id) == Some(Drizzle) <==> 300 <= id <= 321
    ensures WeatherEmoji(id) == Some(Rain) <==> 500 <= id <= 531
    ensures WeatherEmoji(id) == Some(Snow) <==> 600 <= id <= 622
    ensures WeatherEmoji(id) == Some(Fog) <==> 701 <= id <= 741
    ensures WeatherEmoji(id) == Some(Clear) <==> id == 800
    ensures WeatherEmoji(id) == Some(Clouds) <==> 801 <= id <= 804
    ensures WeatherEmoji(id) == None <==>
      id < 200 || 232 < id < 300 || 321 < id < 500 || 531 < id < 600 ||
      622 < id < 701 || 741 < id < 800 || 804 < id
  {
  }

  /** The order of the program's tests does not matter: testing its ranges in
      any other order classifies every code the same way. */
  lemma WeatherEmojiAnyOrder(order: seq<Band>, id: int)
    requires forall x :: x in order <==> x in Bands
    ensures FirstMatch(order, id) == WeatherEmoji(id)
  {
    WeatherEmojiIsTable(id);
    BandsDisjoint();
    FirstMatchOrderIrrelevant(Bands, order, id);
  }
}
