/** main.go: the BoardGameGeek scraper that stores records through an ORM.
    Its normalisers never end the run: rank, ID and age log and fall back to 0
    when `Atoi` rejects a present value; the title is "" when absent; duration
    and player counts keep whatever `ParseUint` returns (0 for text that is not
    a number, the maximum on overflow) and log only when both texts are empty. */
module BggMain {
  import opened Outcomes
  import opened GoInts
  import opened Strconv
  import opened Strings
  import opened Dom
  import opened MinMax
  import Catalog

  /** main.go's `Game` (the `Weight` field is not part of this model). */
  datatype Game = Game(id: Uint32, rank: Uint16, title: string, players: Uint8, duration: Uint16, age: Uint8)

  /** `getRank`: the `value` attribute of the `rank` child read with `Atoi` and
      converted to uint16, i.e. taken modulo 2^16; 0 when the attribute is
      absent or is not an integer. */
  function GetRank(item: Element): (r: Uint16)
    ensures var value := FindAttr(item, "rank", "value");
            if value.Some? && Atoi(value.value).Some? then (r as int - Atoi(value.value).value) % 0x1_0000 == 0
            else r == 0
  {
    match FindAttr(item, "rank", "value")
    case None => 0
    case Some(value) =>
      match Atoi(value)
      case None => 0
      case Some(rank) => ToUint16(rank)
  }

  /** `getID`: the element's own `objectid` attribute modulo 2^32; 0 when absent
      or not an integer. */
  function GetID(item: Element): (r: Uint32)
    ensures var value := Attr(item, "objectid");
            if value.Some? && Atoi(value.value).Some? then (r as int - Atoi(value.value).value) % 0x1_0000_0000 == 0
            else r == 0
  {
    match Attr(item, "objectid")
    case None => 0
    case Some(value) =>
      match Atoi(value)
      case None => 0
      case Some(id) => ToUint32(id)
  }

  /** `getTitle`: the primary name with white space trimmed ("" when there is none). */
  function GetTitle(item: Element): (r: string)
    ensures r == TrimSpace(Text(item, "name[primary=true]"))
    ensures Trimmed(r)
  {
    var value := Text(item, "name[primary=true]");
    if value != "" then TrimSpace(value) else value
  }

  /** `getAge`: the `age` text modulo 2^8; 0 when empty or not an integer. */
  function GetAge(item: Element): (r: Uint8)
    ensures var value := Text(item, "age");
            if Atoi(value).Some? then (r as int - Atoi(value).value) % 0x100 == 0 else r == 0
  {
    var value := Text(item, "age");
    if value != "" then
      match Atoi(value)
      case None => 0
      case Some(age) => ToUint8(age)
    else 0
  }

  /** The min/max rule `getDuration` and `getPlayers` both spell out: with
      neither text, 0; with one, that one parsed; with both, the floor average of
      the two parsed values (a text that does not parse counts as its parsed
      value, 0, not as missing). The sum is taken in uint64 and cannot overflow
      for 8- and 16-bit values, and the uint8/uint16 conversion of the result
      changes nothing because it never exceeds the maximum. */
  function MergeMinMax(minValue: string, maxValue: string, bitSize: nat): (r: nat)
    requires bitSize == 8 || bitSize == 16
    ensures r <= MaxUint(bitSize)
    ensures var a, b := ParseUint(minValue, bitSize).value, ParseUint(maxValue, bitSize).value;
            && (minValue == "" && maxValue == "" ==> r == 0)
            && (minValue != "" && maxValue == "" ==> r == a)
            && (minValue == "" && maxValue != "" ==> r == b)
            && (minValue != "" && maxValue != "" ==> r == (a + b) / 2 && Between(a, b, r))
  {
    if minValue == "" && maxValue == "" then 0
    else if minValue != "" && maxValue == "" then ParseUint(minValue, bitSize).value
    else if minValue == "" && maxValue != "" then ParseUint(maxValue, bitSize).value
    else (ParseUint(minValue, bitSize).value + ParseUint(maxValue, bitSize).value) / 2
  }

  /** `getDuration`: `minplaytime` and `maxplaytime` merged with a 16-bit parse. */
  function GetDuration(item: Element): (r: Uint16)
    ensures r as int == MergeMinMax(Text(item, "minplaytime"), Text(item, "maxplaytime"), 16)
    ensures var lo, hi := Text(item, "minplaytime"), Text(item, "maxplaytime");
            lo != "" && hi != "" ==> Between(ParseUint(lo, 16).value, ParseUint(hi, 16).value, r as int)
  {
    MaxUintValues();
    MergeMinMax(Text(item, "minplaytime"), Text(item, "maxplaytime"), 16) as Uint16
  }

  /** `getPlayers`: `minplayers` and `maxplayers` merged with an 8-bit parse. */
  function GetPlayers(item: Element): (r: Uint8)
    ensures r as int == MergeMinMax(Text(item, "minplayers"), Text(item, "maxplayers"), 8)
    ensures var lo, hi := Text(item, "minplayers"), Text(item, "maxplayers");
            lo != "" && hi != "" ==> Between(ParseUint(lo, 8).value, ParseUint(hi, 8).value, r as int)
  {
    MaxUintValues();
    MergeMinMax(Text(item, "minplayers"), Text(item, "maxplayers"), 8) as Uint8
  }

  /** The record built for one `boardgame` element. */
  function BuildGame(item: Element): (g: Game)
    ensures var value := Attr(item, "objectid");
            value.Some? && Atoi(value.value).Some? ==> (g.id as int - Atoi(value.value).value) % 0x1_0000_0000 == 0
    ensures Trimmed(g.title)
    ensures var lo, hi := Text(item, "minplaytime"), Text(item, "maxplaytime");
            lo != "" && hi != "" ==> Between(ParseUint(lo, 16).value, ParseUint(hi, 16).value, g.duration as int)
    ensures var lo, hi := Text(item, "minplayers"), Text(item, "maxplayers");
            lo != "" && hi != "" ==> Between(ParseUint(lo, 8).value, ParseUint(hi, 8).value, g.players as int)
  {
    Game(GetID(item), GetRank(item), GetTitle(item), GetPlayers(item), GetDuration(item), GetAge(item))
  }

  /** `parseGame` after the request: the records handed to `db.Create`, one per
      `boardgame` element in document order. A transport error or an unparsable
      body logs and stores nothing; the status code is not checked. */
  method ParseGame(f: Fetch) returns (created: seq<Game>)
    ensures !(f.Response? && f.body.Some?) ==> created == []
    ensures f.Response? && f.body.Some? ==> created == Map(BuildGame, Find(f.body.value, "boardgame"))
  {
    if f.TransportError? || f.body.None? {
      return [];
    }
    created := CollectAll(BuildGame, Find(f.body.value, "boardgame"));
  }

  /** `getGameIds` for one catalog page: the identifiers it sends on the channel,
      or `None` when it logs an error and returns without sending (transport
      error, a status other than 200, an unparsable body). */
  method GetGameIds(f: Fetch) returns (sent: Option<seq<string>>)
    ensures f.TransportError? ==> sent == None
    ensures f.Response? && f.status != StatusOK ==> sent == None
    ensures f.Response? && f.status == StatusOK && f.body.None? ==> sent == None
    ensures f.Response? && f.status == StatusOK && f.body.Some? ==>
              sent == Some(Catalog.RowIds(Find(f.body.value, Catalog.RowSelector)))
  {
    match f {
      case TransportError =>
        sent := None;
      case Response(status, body) =>
        if status != StatusOK {
          sent := None;
        } else if body.None? {
          sent := None;
        } else {
          var gameIds := Catalog.CollectRowIds(Find(body.value, Catalog.RowSelector));
          sent := Some(gameIds);
        }
    }
  }

  /** The loop in `main` that appends every batch received on the channel to
      `allGameIds`, in arrival order and without removing duplicates. */
  method AppendBatches(batches: seq<seq<string>>) returns (allGameIds: seq<string>)
    ensures allGameIds == Catalog.Flatten(batches)
  {
    allGameIds := [];
    var i := 0;
    while i < |batches|
      invariant 0 <= i <= |batches|
      invariant allGameIds == Catalog.Flatten(batches[..i])
    {
      allGameIds := allGameIds + batches[i];
      assert batches[..i + 1][..i] == batches[..i];
      i := i + 1;
    }
    assert batches[..i] == batches;
  }

  /** Ranks wrap around as the uint16 conversion does: "-1" becomes 65535 and
      "65536" becomes 0. */
  lemma RankWraps(a: Element, b: Element)
    requires FindAttr(a, "rank", "value") == Some("-1")
    requires FindAttr(b, "rank", "value") == Some("65536")
    ensures GetRank(a) == 0xFFFF && GetRank(b) == 0
  {
    assert FormatInt(-1) == "-1";
    AtoiFormatRoundTrip(-1);
    assert FormatInt(65536) == "65536";
    AtoiFormatRoundTrip(65536);
  }

  /** An absent rank and a rank that is not an integer both give 0. */
  lemma RankFallsBackToZero(absent: Element, text: Element)
    requires FindAttr(absent, "rank", "value") == None
    requires FindAttr(text, "rank", "value") == Some("N/A")
    ensures GetRank(absent) == 0 && GetRank(text) == 0
  {
    assert !IsDigit('N');
  }

  /** A rank written with digits only and below 2^16 is kept as it is. */
  lemma RankDigits(item: Element, value: string)
    requires FindAttr(item, "rank", "value") == Some(value)
    requires value != [] && AllDigits(value) && DecimalValue(value) < 0x1_0000
    ensures GetRank(item) as int == DecimalValue(value)
  {
    AtoiDigits(value);
  }

  /** An objectid written with digits only and below 2^32 is kept as it is. */
  lemma IdDigits(item: Element, value: string)
    requires Attr(item, "objectid") == Some(value)
    requires value != [] && AllDigits(value) && DecimalValue(value) < 0x1_0000_0000
    ensures GetID(item) as int == DecimalValue(value)
  {
    AtoiDigits(value);
  }

  /** An age written with digits only and below 2^8 is kept as it is. */
  lemma AgeDigits(item: Element, value: string)
    requires Text(item, "age") == value
    requires value != [] && AllDigits(value) && DecimalValue(value) < 0x100
    ensures GetAge(item) as int == DecimalValue(value)
  {
    AtoiDigits(value);
  }

  /** A minimum of 90 without a maximum gives 90. */
  lemma DurationOneSide(item: Element)
    requires Text(item, "minplaytime") == "90" && Text(item, "maxplaytime") == ""
    ensures GetDuration(item) == 90
  {
    assert FormatNat(90) == "90";
    FormatNatValue(90);
    ParseUintDigits("90", 16);
  }

  /** 10 and 11 give 10, the floor of the average. */
  lemma DurationFloorAverage(item: Element)
    requires Text(item, "minplaytime") == "10" && Text(item, "maxplaytime") == "11"
    ensures GetDuration(item) == 10
  {
    assert FormatNat(10) == "10" && FormatNat(11) == "11";
    FormatNatValue(10);
    FormatNatValue(11);
    ParseUintDigits("10", 16);
    ParseUintDigits("11", 16);
  }

  /** "abc" with 60 gives 30: the unparsable minimum counts as 0, it is not skipped. */
  lemma DurationUnparsableCountsAsZero(item: Element)
    requires Text(item, "minplaytime") == "abc" && Text(item, "maxplaytime") == "60"
    ensures GetDuration(item) == 30
  {
    assert FormatNat(60) == "60";
    FormatNatValue(60);
    ParseUintDigits("60", 16);
    ParseUintNonDigit("abc", 16, 0);
  }

  /** A duration beyond 16 bits is clamped to 65535, and no texts at all give 0. */
  lemma DurationClampAndEmpty(a: Element, e: Element)
    requires Text(a, "minplaytime") == "" && Text(a, "maxplaytime") == "70000"
    requires Text(e, "minplaytime") == "" && Text(e, "maxplaytime") == ""
    ensures GetDuration(a) == 0xFFFF && GetDuration(e) == 0
  {
    MaxUintValues();
    assert ParseUint("70000", 16) == UintResult(0xFFFF, ErrRange);
  }

  /** 2 and 4 players give 3. */
  lemma PlayersAverage(item: Element)
    requires Text(item, "minplayers") == "2" && Text(item, "maxplayers") == "4"
    ensures GetPlayers(item) == 3
  {
    ParseUintDigits("2", 8);
    ParseUintDigits("4", 8);
  }

  /** A count beyond 8 bits is clamped to 255 before averaging: 300 and 1 give 128. */
  lemma PlayersClamp(item: Element)
    requires Text(item, "minplayers") == "300" && Text(item, "maxplayers") == "1"
    ensures GetPlayers(item) == 128
  {
    MaxUintValues();
    ParseUintDigits("1", 8);
    assert ParseUint("300", 8) == UintResult(0xFF, ErrRange);
  }

  /** A detail element with objectid 174430, rank 3, 2 to 4 players, age 14 and
      a minimum play time of 90 without a maximum gives the record
      {174430, rank 3, 3 players, 90 minutes, age 14}. */
  lemma DetailRecordExample(item: Element)
    requires Attr(item, "objectid") == Some("174430")
    requires FindAttr(item, "rank", "value") == Some("3")
    requires Text(item, "minplayers") == "2" && Text(item, "maxplayers") == "4"
    requires Text(item, "minplaytime") == "90" && Text(item, "maxplaytime") == ""
    requires Text(item, "age") == "14"
    ensures var g := BuildGame(item);
            g.id == 174430 && g.rank == 3 && g.players == 3 && g.duration == 90 && g.age == 14
  {
    assert FormatNat(174430) == "174430";
    FormatNatValue(174430);
    IdDigits(item, "174430");
    assert FormatNat(3) == "3";
    FormatNatValue(3);
    RankDigits(item, "3");
    assert FormatNat(14) == "14";
    FormatNatValue(14);
    AgeDigits(item, "14");
    PlayersAverage(item);
    DurationOneSide(item);
  }
}
