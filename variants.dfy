/** How the normalisers of bgg_parser.go relate to those of main.go: where
    bgg_parser.go completes it computes the same values, and it ends the run
    exactly where main.go falls back to 0 on a present value `Atoi` rejects. */
module Variants {
  import opened Outcomes
  import opened Strconv
  import opened Dom
  import BggMain
  import BggParser

  lemma RankAgrees(item: Element)
    ensures var value := FindAttr(item, "rank", "value");
            BggParser.GetRank(item).Halted? <==> value.Some? && Atoi(value.value).None?
    ensures BggParser.GetRank(item).Done? ==> BggParser.GetRank(item).value == BggMain.GetRank(item)
  {
  }

  lemma IdAgrees(item: Element)
    ensures var value := Attr(item, "objectid");
            BggParser.GetID(item).Halted? <==> value.Some? && Atoi(value.value).None?
    ensures BggParser.GetID(item).Done? ==> BggParser.GetID(item).value == BggMain.GetID(item)
  {
  }

  lemma AgeAgrees(item: Element)
    ensures BggParser.GetAge(item).Halted? <==> Text(item, "age") != "" && Atoi(Text(item, "age")).None?
    ensures BggParser.GetAge(item).Done? ==> BggParser.GetAge(item).value == BggMain.GetAge(item)
  {
  }

  lemma TitleAgrees(item: Element)
    ensures BggParser.GetTitle(item) == BggMain.GetTitle(item)
  {
  }

  /** bgg_parser.go drops the guard for two empty texts, but its fall-through
      averages two parses of "" and so also gives 0: the two min/max rules agree
      on every pair of texts. */
  lemma MergeAgrees(minValue: string, maxValue: string, bitSize: nat)
    requires bitSize == 8 || bitSize == 16
    ensures BggParser.MergeMinMax(minValue, maxValue, bitSize) == BggMain.MergeMinMax(minValue, maxValue, bitSize)
  {
    assert ParseUint("", bitSize).value == 0;
  }

  lemma DurationAgrees(item: Element)
    ensures BggParser.GetDuration(item) == BggMain.GetDuration(item)
  {
    MergeAgrees(Text(item, "minplaytime"), Text(item, "maxplaytime"), 16);
  }

  lemma PlayersAgree(item: Element)
    ensures BggParser.GetPlayers(item) == BggMain.GetPlayers(item)
  {
    MergeAgrees(Text(item, "minplayers"), Text(item, "maxplayers"), 8);
  }

  /** A record bgg_parser.go completes holds the same fields main.go stores. */
  lemma BuildGameAgrees(item: Element)
    requires BggParser.BuildGame(item).Done?
    ensures var g, h := BggParser.BuildGame(item).value, BggMain.BuildGame(item);
            g.id == h.id && g.rank == h.rank && g.title == h.title &&
            g.players == h.players && g.duration == h.duration && g.age == h.age
  {
    RankAgrees(item);
    IdAgrees(item);
    AgeAgrees(item);
    DurationAgrees(item);
    PlayersAgree(item);
  }
}
