/**
 * Encoding of the categorical context columns. Each codebook is a fixed dictionary
 * from category to code; a column is encoded with pandas `Series.map`, which leaves
 * a missing value (NaN, here `None`) for a category the dictionary does not know.
 */
module Codebook {
  import opened Wrappers

  const WeatherCodes: map<string, int> := map["Clear" := 0, "Rain" := 1, "Fog" := 2]
  const RoadCodes: map<string, int> := map["highway" := 0, "city" := 1, "rural" := 2]
  const TrafficCodes: map<string, int> := map["low" := 0, "medium" := 1, "high" := 2]

  /** The categories of each codebook in code order: the category at position c has code c. */
  const WeatherLevels: seq<string> := ["Clear", "Rain", "Fog"]
  const RoadLevels: seq<string> := ["highway", "city", "rural"]
  /** The levels the traffic simulation draws from. */
  const TrafficLevels: seq<string> := ["low", "medium", "high"]

  /** `book.get(category)`: the code, or missing for an unknown category. */
  function Encode(book: map<string, int>, category: string): (code: Option<int>)
    ensures code.Some? <==> category in book
  {
    if category in book then Some(book[category]) else None
  }

  /** `column.map(book)`: row by row, order and length kept. */
  function EncodeColumn(book: map<string, int>, column: seq<string>): (codes: seq<Option<int>>)
    ensures |codes| == |column|
    ensures forall i :: 0 <= i < |column| ==> codes[i] == Encode(book, column[i])
  {
    if column == [] then [] else [Encode(book, column[0])] + EncodeColumn(book, column[1..])
  }

  /**
   * A codebook that numbers `levels` 0, 1, 2, ...: it knows exactly those categories,
   * and the code of a category is its position in `levels`.
   */
  ghost predicate NumbersLevels(book: map<string, int>, levels: seq<string>)
  {
    && (forall category :: category in book <==> category in levels)
    && (forall c :: 0 <= c < |levels| ==> levels[c] in book && book[levels[c]] == c)
  }

  /** The three dictionaries number their level lists 0, 1, 2. */
  lemma CodebooksNumberLevels()
    ensures NumbersLevels(WeatherCodes, WeatherLevels)
    ensures NumbersLevels(RoadCodes, RoadLevels)
    ensures NumbersLevels(TrafficCodes, TrafficLevels)
  {
  }

  /**
   * Encoding is decodable through the level list: a known category's code is in
   * range and names the category back; each level encodes to its own position.
   */
  lemma {:induction false} EncodeDecode(book: map<string, int>, levels: seq<string>, category: string)
    requires NumbersLevels(book, levels)
    ensures Encode(book, category).Some? ==>
              0 <= Encode(book, category).value < |levels| && levels[Encode(book, category).value] == category
    ensures forall c :: 0 <= c < |levels| ==> Encode(book, levels[c]) == Some(c)
  {
    if category in book {
      var c :| 0 <= c < |levels| && levels[c] == category;
      assert book[category] == c;
    }
  }

  /** The nine known categories encode to their documented codes; all codes lie in {0, 1, 2}. */
  lemma KnownCodes(category: string)
    ensures Encode(WeatherCodes, "Clear") == Some(0) && Encode(WeatherCodes, "Rain") == Some(1)
            && Encode(WeatherCodes, "Fog") == Some(2)
    ensures Encode(RoadCodes, "highway") == Some(0) && Encode(RoadCodes, "city") == Some(1)
            && Encode(RoadCodes, "rural") == Some(2)
    ensures Encode(TrafficCodes, "low") == Some(0) && Encode(TrafficCodes, "medium") == Some(1)
            && Encode(TrafficCodes, "high") == Some(2)
    ensures Encode(WeatherCodes, category).Some? ==> 0 <= Encode(WeatherCodes, category).value <= 2
    ensures Encode(RoadCodes, category).Some? ==> 0 <= Encode(RoadCodes, category).value <= 2
    ensures Encode(TrafficCodes, category).Some? ==> 0 <= Encode(TrafficCodes, category).value <= 2
    ensures Encode(WeatherCodes, "Snow") == None
  {
  }

  /** Every simulated traffic level is known to the traffic codebook, so its code is never missing. */
  lemma SimulatedTrafficAlwaysEncodes(column: seq<string>)
    requires forall i :: 0 <= i < |column| ==> column[i] in TrafficLevels
    ensures forall i :: 0 <= i < |column| ==> EncodeColumn(TrafficCodes, column)[i].Some?
  {
  }
}
