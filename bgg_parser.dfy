/** bgg_parser.go: the BoardGameGeek scraper that prints its records. Where
    main.go logs and falls back to 0 because `Atoi` rejects a present rank,
    objectid or non-empty age, this one calls `log.Fatalf`, which ends the
    process. Its duration and player counts, like main.go's, keep whatever
    `ParseUint` returns, and its min/max rule has no guard for two empty texts. */
module BggParser {
  import opened Outcomes
  import opened GoInts
  import opened Strconv
  import opened Strings
  import opened Dom
  import opened MinMax
  import Catalog

  /** bgg_parser.go's `Game` (the `Weight` field is not part of this model). */
  datatype Game = Game(id: Uint32, rank: Uint16, title: string, players: Uint8, duration: Uint16, age: Uint8)

  /** `getRank`: 0 when the `rank` child has no `value` attribute; the run ends
      when the value is not an integer; otherwise the value modulo 2^16. */
  function GetRank(item: Element): (r: Run<Uint16>)
    ensures var value := FindAttr(item, "rank", "value");
            && (value.None? ==> r == Done(0))
            && (value.Some? ==> (r.Halted? <==> Atoi(value.value).None?))
            && (value.Some? && r.Done? ==> (r.value as int - Atoi(value.value).value) % 0x1_0000 == 0)
  {
    match FindAttr(item, "rank", "value")
    case None => Done(0)
    case Some(value) =>
      match Atoi(value)
      case None => Halted
      case Some(rank) => Done(ToUint16(rank))
  }

  /** `getID`: 0 when there is no `objectid`; the run ends when it is not an
      integer; otherwise the value modulo 2^32. */
  function GetID(item: Element): (r: Run<Uint32>)
    ensures var value := Attr(item, "objectid");
            && (value.None? ==> r == Done(0))
            && (value.Some? ==> (r.Halted? <==> Atoi(value.value).None?))
            && (value.Some? && r.Done? ==> (r.value as int - Atoi(value.value).value) % 0x1_0000_0000 == 0)
  {
    match Attr(item, "objectid")
    case None => Done(0)
    case Some(value) =>
      match Atoi(value)
      case None => Halted
      case Some(id) => Done(ToUint32(id))
  }

  /** `getTitle`: the primary name with white space trimmed ("" when there is none). */
  function GetTitle(item: Element): (r: string)
    ensures r == TrimSpace(Text(item, "name[primary=true]"))
    ensures Trimmed(r)
  {
    var value := Text(item, "name[primary=true]");
    if value != "" then TrimSpace(value) else value
  }

  /** `getAge`: 0 for an empty `age` text; the run ends when a non-empty text is
      not an integer; otherwise the value modulo 2^8. */
  function GetAge(item: Element): (r: Run<Uint8>)
    ensures var value := Text(item, "age");
            && (value == "" ==> r == Done(0))
            && (value != "" ==> (r.Halted? <==> Atoi(value).None?))
            && (value != "" && r.Done? ==> (r.value as int - Atoi(value).value) % 0x100 == 0)
  {
    var value := Text(item, "age");
    if value != "" then
      match Atoi(value)
      case None => Halted
      case Some(age) => Done(ToUint8(age))
    else Done(0)
  }

  /** The min/max rule of this file: with exactly one text, that one parsed;
      otherwise, including when both are empty, the floor average of the two
      parsed values (an empty text parses to 0). */
  function MergeMinMax(minValue: string, maxValue: string, bitSize: nat): (r: nat)
    requires bitSize == 8 || bitSize == 16
    ensures r <= MaxUint(bitSize)
    ensures var a, b := ParseUint(minValue, bitSize).value, ParseUint(maxValue, bitSize).value;
            && (minValue != "" && maxValue == "" ==> r == a)
            && (minValue == "" && maxValue != "" ==> r == b)
            && ((minValue == "") == (maxValue == "") ==> r == (a + b) / 2 && Between(a, b, r))
  {
    if minValue != "" && maxValue == "" then ParseUint(minValue, bitSize).value
    else if minValue == "" && maxValue != "" then ParseUint(maxValue, bitSize).value
    else (ParseUint(minValue, bitSize).value + ParseUint(maxValue, bitSize).value) / 2
  }

  /** `getDuration`: `minplaytime` and `maxplaytime` merged with a 16-bit parse. */
  function GetDuration(item: Element): (r: Uint16)
    ensures r as int == MergeMinMax(Text(item, "minplaytime"), Text(item, "maxplaytime"), 16)
    ensures var lo, hi := Text(item, "minplaytime"), Text(item, "maxplaytime");
            (lo == "") == (hi == "") ==> Between(ParseUint(lo, 16).value, ParseUint(hi, 16).value, r as int)
  {
    MaxUintValues();
    MergeMinMax(Text(item, "minplaytime"), Text(item, "maxplaytime"), 16) as Uint16
  }

  /** `getPlayers`: `minplayers` and `maxplayers` merged with an 8-bit parse. */
  function GetPlayers(item: Element): (r: Uint8)
    ensures r as int == MergeMinMax(Text(item, "minplayers"), Text(item, "maxplayers"), 8)
    ensures var lo, hi := Text(item, "minplayers"), Text(item, "maxplayers");
            (lo == "") == (hi == "") ==> Between(ParseUint(lo, 8).value, ParseUint(hi, 8).value, r as int)
  {
    MaxUintValues();
    MergeMinMax(Text(item, "minplayers"), Text(item, "maxplayers"), 8) as Uint8
  }

  /** The record built for one `boardgame` element; the run ends if rank, ID or
      age ends it. */
  function BuildGame(item: Element): (r: Run<Game>)
    ensures r.Done? <==> GetRank(item).Done? && GetID(item).Done? && GetAge(item).Done?
    ensures r.Done? ==>
              r.value == Game(GetID(item).value, GetRank(item).value, GetTitle(item),
                              GetPlayers(item), GetDuration(item), GetAge(item).value)
  {
    match GetRank(item)
    case Halted => Halted
    case Done(rank) =>
      match GetID(item)
      case Halted => Halted
      case Done(id) =>
        var title := GetTitle(item);
        match GetAge(item)
        case Halted => Halted
        case Done(age) =>
          Done(Game(id, rank, title, GetPlayers(item), GetDuration(item), age))
  }

  /** `parseGame`: the batch of records it sends on the channel, one per
      `boardgame` element in document order. A transport error panics on
      `resp.Body`, which is deferred before the error is checked; an unparsable
      body and any halting field end the run. The status code is not checked. */
  method ParseGame(f: Fetch) returns (r: Run<seq<Game>>)
    ensures !(f.Response? && f.body.Some?) ==> r == Halted
    ensures f.Response? && f.body.Some? ==> r == MapAll(BuildGame, Find(f.body.value, "boardgame"))
  {
    if f.TransportError? || f.body.None? {
      return Halted;
    }
    r := CollectUntilHalt(BuildGame, Find(f.body.value, "boardgame"));
  }

  /** `getGameIds` for one catalog page: any request, status or parse failure
      ends the run; otherwise the page's identifiers in row order. */
  method GetGameIds(f: Fetch) returns (r: Run<seq<string>>)
    ensures f.Response? && f.status == StatusOK && f.body.Some? ==>
              r == Done(Catalog.RowIds(Find(f.body.value, Catalog.RowSelector)))
    ensures !(f.Response? && f.status == StatusOK && f.body.Some?) ==> r == Halted
  {
    match f {
      case TransportError =>
        r := Halted;
      case Response(status, body) =>
        if status != StatusOK {
          r := Halted;
        } else if body.None? {
          r := Halted;
        } else {
          var gameIds := Catalog.CollectRowIds(Find(body.value, Catalog.RowSelector));
          r := Done(gameIds);
        }
    }
  }

  /** With both texts present, which one is the minimum does not matter. */
  lemma MergeSymmetric(minValue: string, maxValue: string, bitSize: nat)
    requires bitSize == 8 || bitSize == 16
    ensures MergeMinMax(minValue, maxValue, bitSize) == MergeMinMax(maxValue, minValue, bitSize)
  {
  }

  /** An age that is present but not a number ends the run; an absent age is 0. */
  lemma AgeFatal(bad: Element, none: Element)
    requires Text(bad, "age") == "12+"
    requires Text(none, "age") == ""
    ensures GetAge(bad) == Halted && BuildGame(bad) == Halted
    ensures GetAge(none) == Done(0)
  {
    assert !IsDigit('+');
    assert "12+"[2] == '+';
  }
}
