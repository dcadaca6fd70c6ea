/** game.go: the HobbyGames catalog scraper. Text fields are kept as text, with
    a placeholder for missing ones; only the price is converted to a number, and
    a price that does not convert ends the run. */
module HobbyGames {
  import opened Outcomes
  import opened GoInts
  import opened Strconv
  import opened Strings
  import opened Regexp
  import opened Dom

  /** The placeholder for a missing field ("no information"). */
  const NoInfo: string := "Нет информации"

  const ItemSelector: string := ".product-item  "

  datatype Game = Game(title: string, price: int, players: string, duration: string, age: string)

  /** `getTitle`: the `.name` text, or the placeholder when it is empty. */
  function GetTitle(item: Element): (r: string)
    ensures r != ""
    ensures Text(item, ".name") == "" ==> r == NoInfo
    ensures Text(item, ".name") != "" ==> r == Text(item, ".name")
  {
    var title := Text(item, ".name");
    if title == "" then NoInfo else title
  }

  /** `getPrice`: the `span.price` text as it is, with no placeholder. Trimming
      it before conversion does not change the price, and an empty price text
      stays empty, so its conversion ends the run. */
  function GetPrice(item: Element): (r: string)
    ensures ConvertPrice(TextProcess(r)) == ConvertPrice(Text(item, "span.price"))
    ensures Text(item, "span.price") == "" ==> ConvertPrice(TextProcess(r)) == Halted
  {
    StripIgnoresTrim(Text(item, "span.price"));
    Text(item, "span.price")
  }

  /** `getPlayers`: the `.params__item.players` text, or the placeholder when it is empty. */
  function GetPlayers(item: Element): (r: string)
    ensures r != ""
    ensures Text(item, ".params__item.players") == "" ==> r == NoInfo
    ensures Text(item, ".params__item.players") != "" ==> r == Text(item, ".params__item.players")
  {
    var players := Text(item, ".params__item.players");
    if players == "" then NoInfo else players
  }

  /** `getDuration`: the `.params__item.time` text, or the placeholder when it is empty. */
  function GetDuration(item: Element): (r: string)
    ensures r != ""
    ensures Text(item, ".params__item.time") == "" ==> r == NoInfo
    ensures Text(item, ".params__item.time") != "" ==> r == Text(item, ".params__item.time")
  {
    var duration := Text(item, ".params__item.time");
    if duration == "" then NoInfo else duration
  }

  /** `getAge`: the `.age__number` text, or the placeholder when it is empty. */
  function GetAge(item: Element): (r: string)
    ensures r != ""
    ensures Text(item, ".age__number") == "" ==> r == NoInfo
    ensures Text(item, ".age__number") != "" ==> r == Text(item, ".age__number")
  {
    var age := Text(item, ".age__number");
    if age == "" then NoInfo else age
  }

  /** `textProcess`: white space trimmed from both ends; only white space gives "". */
  function TextProcess(text: string): (r: string)
    ensures Trimmed(r)
    ensures r == "" <==> AllSpace(text)
  {
    TrimSpaceEmpty(text);
    TrimSpace(text)
  }

  /** `convertPrice`: every non-digit is deleted and the rest is read with
      `Atoi`; when that fails (no digits left, or more than an `int` holds) the
      run ends. A sign never survives the deletion, so a price is never negative. */
  function ConvertPrice(strPrice: string): (r: Run<int>)
    ensures var digits := StripNonDigits(strPrice);
            && (r.Done? <==> digits != "" && DecimalValue(digits) <= MaxInt64)
            && (r.Done? ==> r.value == DecimalValue(digits) && r.value >= 0)
  {
    var price := StripNonDigits(strPrice);
    assert price != "" ==> Atoi(price) == if DecimalValue(price) <= MaxInt64 then Some(DecimalValue(price)) else None
    by {
      if price != "" {
        AtoiDigits(price);
      }
    }
    match Atoi(price)
    case None => Halted
    case Some(total) => Done(total)
  }

  /** `getGame`: each text field gets its placeholder first and is trimmed
      afterwards; the price is trimmed and converted, and a price that does not
      convert ends the run. */
  function GetGame(item: Element): (r: Run<Game>)
    ensures var digits := StripNonDigits(Text(item, "span.price"));
            r.Done? <==> digits != "" && DecimalValue(digits) <= MaxInt64
  {
    StripIgnoresTrim(GetPrice(item));
    var title := TextProcess(GetTitle(item));
    match ConvertPrice(TextProcess(GetPrice(item)))
    case Halted => Halted
    case Done(price) =>
      var players := TextProcess(GetPlayers(item));
      var duration := TextProcess(GetDuration(item));
      var age := TextProcess(GetAge(item));
      Done(Game(title, price, players, duration, age))
  }

  /** The fields of a record: each text field is its placeholder-filled text
      trimmed, and the price is the value of the digits of the price text. */
  lemma GetGameFields(item: Element)
    requires GetGame(item).Done?
    ensures GetGame(item).value ==
              Game(TrimSpace(GetTitle(item)), DecimalValue(StripNonDigits(Text(item, "span.price"))),
                   TrimSpace(GetPlayers(item)), TrimSpace(GetDuration(item)), TrimSpace(GetAge(item)))
  {
    StripIgnoresTrim(GetPrice(item));
  }

  /** What `getGames` yields for one page: one record per `.product-item`
      element, in document order. `getDoc`'s error is discarded, so a page that
      could not be fetched or parsed leaves a nil document whose use panics. */
  function PageGames(f: Fetch): Run<seq<Game>> {
    if f.Response? && f.status == StatusOK && f.body.Some? then MapAll(GetGame, Find(f.body.value, ItemSelector))
    else Halted
  }

  /** `getGames`; its error result is always nil. */
  method GetGames(f: Fetch) returns (games: Run<seq<Game>>, failed: bool)
    ensures games == PageGames(f)
    ensures !failed
  {
    failed := false;
    if f.Response? && f.status == StatusOK && f.body.Some? {
      games := CollectUntilHalt(GetGame, Find(f.body.value, ItemSelector));
    } else {
      games := Halted;
    }
  }

  /** The loop in `main`: one batch per page, in page order; the run ends on the
      first page that ends it. Its `log.Fatalf` on an error from `getGames` is
      never reached. */
  method ScrapePages(pages: seq<Fetch>) returns (total: Run<seq<seq<Game>>>)
    ensures total == MapAll(PageGames, pages)
  {
    var batches := [];
    var i := 0;
    while i < |pages|
      invariant 0 <= i <= |pages|
      invariant MapAll(PageGames, pages[..i]) == Done(batches)
    {
      var games, failed := GetGames(pages[i]);
      if failed || games.Halted? {
        MapAllStops(PageGames, pages, i);
        return Halted;
      }
      MapAllStep(PageGames, pages, i, batches);
      batches := batches + [games.value];
      i := i + 1;
    }
    assert pages[..i] == pages;
    total := Done(batches);
  }

  /** White space holds no digits. */
  lemma SpaceStripsToEmpty(s: string)
    requires AllSpace(s)
    ensures StripNonDigits(s) == []
  {
    assert forall i :: 0 <= i < |s| ==> !IsDigit(s[i]) by {
      forall i | 0 <= i < |s| ensures !IsDigit(s[i]) {
        assert IsSpace(s[i]);
      }
    }
    StripNoDigits(s);
  }

  /** White space on either side of a text holds no digits. */
  lemma StripAroundSpace(pre: string, s: string, post: string)
    requires AllSpace(pre) && AllSpace(post)
    ensures StripNonDigits(pre + s + post) == StripNonDigits(s)
  {
    SpaceStripsToEmpty(pre);
    SpaceStripsToEmpty(post);
    StripConcat(pre + s, post);
    StripConcat(pre, s);
    assert [] + StripNonDigits(s) + [] == StripNonDigits(s);
  }

  /** Trimming cannot change a price: what it removes holds no digits. */
  lemma StripIgnoresTrim(s: string)
    ensures StripNonDigits(TrimSpace(s)) == StripNonDigits(s)
  {
    var r := TrimSpace(s);
    var i := SkipSpace(s, 0);
    var j := i + |r|;
    assert s == s[..i] + r + s[j..];
    assert AllSpace(s[..i]) by {
      forall k | 0 <= k < i ensures IsSpace(s[..i][k]) {
        assert s[..i][k] == s[k];
      }
    }
    assert AllSpace(s[j..]) by {
      forall k | 0 <= k < |s| - j ensures IsSpace(s[j..][k]) {
        assert s[j..][k] == s[j + k];
      }
    }
    StripAroundSpace(s[..i], r, s[j..]);
  }

  /** `textProcess` applied twice changes nothing more. */
  lemma TextProcessIdempotent(s: string)
    ensures TextProcess(TextProcess(s)) == TextProcess(s)
  {
    TrimSpaceIdempotent(s);
  }

  /** The placeholder survives trimming, so a field with no text ends up as the placeholder. */
  lemma EmptyFieldGetsPlaceholder(item: Element)
    requires Text(item, ".name") == ""
    ensures GetGame(item).Done? ==> GetGame(item).value.title == NoInfo
  {
    TrimSpaceOfTrimmed(NoInfo);
    if GetGame(item).Done? {
      GetGameFields(item);
    }
  }

  /** The placeholder is applied before trimming: a title of white space only
      becomes "", not the placeholder. */
  lemma BlankFieldBecomesEmpty(item: Element)
    requires Text(item, ".name") != "" && AllSpace(Text(item, ".name"))
    ensures GetGame(item).Done? ==> GetGame(item).value.title == ""
  {
    TrimSpaceEmpty(Text(item, ".name"));
    if GetGame(item).Done? {
      GetGameFields(item);
    }
  }

  /** An element without a price ends the run: `convertPrice("")` fails. */
  lemma EmptyPriceHalts(item: Element)
    requires Text(item, "span.price") == ""
    ensures GetGame(item) == Halted
  {
  }

  /** A price written with spaces and a currency sign keeps only its digits. */
  lemma PriceExample()
    ensures ConvertPrice("1 990 ₽") == Done(1990)
  {
    StripConcat("1", " ");
    StripConcat("1 ", "990");
    StripConcat("1 990", " ₽");
    assert "1 990 ₽" == "1 990" + " ₽";
    assert "1 990" == "1 " + "990";
    assert "1 " == "1" + " ";
    StripNoDigits(" ₽");
    StripNoDigits(" ");
    StripDigits("1");
    StripDigits("990");
    assert StripNonDigits("1 990 ₽") == "1990";
    assert FormatNat(1990) == "1990";
    FormatNatValue(1990);
  }
}
