/** Reading item identifiers off a catalog page: the `Each` callback of main.go
    and bgg_parser.go, identical except in the `regexp.Compile` error branch,
    which is never taken (`log.Printf` in main.go, `log.Fatalf` in bgg_parser.go). */
module Catalog {
  import opened Outcomes
  import opened Strconv
  import opened Regexp
  import opened Dom

  const RowSelector: string := "#row_"

  /** The identifiers one row adds: the `id` attribute of its `.aad` link with
      every non-digit deleted, or nothing when the attribute is absent. */
  function RowId(row: Element): (ids: seq<string>)
    ensures |ids| <= 1
    ensures |ids| == 1 <==> FindAttr(row, ".aad", "id").Some?
    ensures |ids| == 1 ==> AllDigits(ids[0])
  {
    match FindAttr(row, ".aad", "id")
    case None => []
    case Some(link) => [StripNonDigits(link)]
  }

  /** The identifiers of a sequence of rows, in row order. */
  function RowIds(rows: seq<Element>): seq<string> {
    if rows == [] then [] else RowIds(rows[..|rows| - 1]) + RowId(rows[|rows| - 1])
  }

  /** The loop over `doc.Find("#row_")` that appends to `gameIds`. */
  method CollectRowIds(rows: seq<Element>) returns (gameIds: seq<string>)
    ensures gameIds == RowIds(rows)
  {
    gameIds := [];
    var i := 0;
    while i < |rows|
      invariant 0 <= i <= |rows|
      invariant gameIds == RowIds(rows[..i])
    {
      var item := rows[i];
      match FindAttr(item, ".aad", "id") {
        case Some(gameLink) =>
          gameIds := gameIds + [StripNonDigits(gameLink)];
        case None =>
      }
      assert rows[..i + 1][..i] == rows[..i];
      i := i + 1;
    }
    assert rows[..i] == rows;
  }

  /** The rows of two parts contribute in order: nothing is merged or removed. */
  lemma {:induction false} RowIdsConcat(a: seq<Element>, b: seq<Element>)
    ensures RowIds(a + b) == RowIds(a) + RowIds(b)
    decreases |b|
  {
    if b == [] {
      assert a + b == a;
    } else {
      assert (a + b)[..|a + b| - 1] == a + b[..|b| - 1];
      RowIdsConcat(a, b[..|b| - 1]);
    }
  }

  /** The positions of the rows whose `.aad` has an `id`, in increasing order. */
  function LinkedRows(rows: seq<Element>): seq<nat> {
    if rows == [] then []
    else
      var n := |rows| - 1;
      LinkedRows(rows[..n]) + (if FindAttr(rows[n], ".aad", "id").Some? then [n] else [])
  }

  lemma {:induction false} LinkedRowsLength(rows: seq<Element>)
    ensures |LinkedRows(rows)| == |RowIds(rows)|
  {
    if rows != [] {
      LinkedRowsLength(rows[..|rows| - 1]);
    }
  }

  lemma {:induction false} LinkedRowsPick(rows: seq<Element>)
    ensures |LinkedRows(rows)| == |RowIds(rows)|
    ensures forall k :: 0 <= k < |LinkedRows(rows)| ==>
              LinkedRows(rows)[k] < |rows| && FindAttr(rows[LinkedRows(rows)[k]], ".aad", "id").Some? &&
              RowIds(rows)[k] == StripNonDigits(FindAttr(rows[LinkedRows(rows)[k]], ".aad", "id").value)
  {
    LinkedRowsLength(rows);
    if rows != [] {
      var n := |rows| - 1;
      var init := rows[..n];
      LinkedRowsPick(init);
      LinkedRowsLength(init);
      var prev, ids := LinkedRows(init), RowIds(init);
      forall k | 0 <= k < |LinkedRows(rows)|
        ensures LinkedRows(rows)[k] < |rows| && FindAttr(rows[LinkedRows(rows)[k]], ".aad", "id").Some? &&
                RowIds(rows)[k] == StripNonDigits(FindAttr(rows[LinkedRows(rows)[k]], ".aad", "id").value)
      {
        if k < |prev| {
          assert LinkedRows(rows)[k] == prev[k];
          assert RowIds(rows)[k] == ids[k];
          assert init[prev[k]] == rows[prev[k]];
        } else {
          assert LinkedRows(rows)[k] == n;
        }
      }
    }
  }

  lemma {:induction false} LinkedRowsIncreasing(rows: seq<Element>)
    ensures forall j, k :: 0 <= j < k < |LinkedRows(rows)| ==> LinkedRows(rows)[j] < LinkedRows(rows)[k]
  {
    if rows != [] {
      var init := rows[..|rows| - 1];
      LinkedRowsIncreasing(init);
      LinkedRowsPick(init);
    }
  }

  lemma {:induction false} LinkedRowsCover(rows: seq<Element>)
    ensures forall p :: 0 <= p < |rows| && FindAttr(rows[p], ".aad", "id").Some? ==> p in LinkedRows(rows)
  {
    if rows != [] {
      var n := |rows| - 1;
      var init := rows[..n];
      LinkedRowsCover(init);
      forall p | 0 <= p < |rows| && FindAttr(rows[p], ".aad", "id").Some?
        ensures p in LinkedRows(rows)
      {
        if p < n {
          assert init[p] == rows[p];
          assert p in LinkedRows(init);
        }
      }
    }
  }

  /** One entry per row whose `.aad` has an `id`, in document order: the entries
      come from the strictly increasing row positions `idx`, each is that row's
      link with the non-digits deleted (possibly ""), and every row that has the
      attribute is among them. */
  lemma RowIdsPositions(rows: seq<Element>) returns (idx: seq<nat>)
    ensures |idx| == |RowIds(rows)|
    ensures forall k :: 0 <= k < |idx| ==>
              idx[k] < |rows| && FindAttr(rows[idx[k]], ".aad", "id").Some? &&
              RowIds(rows)[k] == StripNonDigits(FindAttr(rows[idx[k]], ".aad", "id").value)
    ensures forall j, k :: 0 <= j < k < |idx| ==> idx[j] < idx[k]
    ensures forall p :: 0 <= p < |rows| && FindAttr(rows[p], ".aad", "id").Some? ==> p in idx
  {
    idx := LinkedRows(rows);
    LinkedRowsLength(rows);
    LinkedRowsPick(rows);
    LinkedRowsIncreasing(rows);
    LinkedRowsCover(rows);
  }

  /** Every collected identifier is made of ASCII digits only. */
  lemma {:induction false} RowIdsDigits(rows: seq<Element>)
    ensures forall k :: 0 <= k < |RowIds(rows)| ==> AllDigits(RowIds(rows)[k])
  {
    if rows != [] {
      RowIdsDigits(rows[..|rows| - 1]);
    }
  }

  /** The two links of the example below, with their non-digits deleted. */
  lemma ExampleLinks()
    ensures StripNonDigits("aad_174430") == "174430"
    ensures StripNonDigits("abc") == ""
  {
    StripConcat("aad_", "174430");
    assert "aad_" + "174430" == "aad_174430";
    StripNoDigits("aad_");
    StripDigits("174430");
    StripNoDigits("abc");
  }

  /** Two rows carrying the same link give the identifier twice, and a link
      without digits gives "". */
  lemma DuplicatesAndEmptyKept(row: Element, blank: Element)
    requires FindAttr(row, ".aad", "id") == Some("aad_174430")
    requires FindAttr(blank, ".aad", "id") == Some("abc")
    ensures RowIds([row, row, blank]) == ["174430", "174430", ""]
  {
    ExampleLinks();
    assert RowId(row) == ["174430"];
    assert RowId(blank) == [""];
    assert [row, row, blank][..2] == [row, row];
    assert [row, row][..1] == [row];
    assert [row][..0] == [];
    assert RowIds([row]) == ["174430"];
    assert RowIds([row, row]) == ["174430", "174430"];
  }

  /** The batches laid end to end. */
  function Flatten<T>(batches: seq<seq<T>>): seq<T> {
    if batches == [] then [] else Flatten(batches[..|batches| - 1]) + batches[|batches| - 1]
  }

  function TotalLength<T>(batches: seq<seq<T>>): nat {
    if batches == [] then 0 else TotalLength(batches[..|batches| - 1]) + |batches[|batches| - 1]|
  }

  /** Concatenation keeps every element of every batch, duplicates included. */
  lemma {:induction false} FlattenKeepsAll<T>(batches: seq<seq<T>>)
    ensures |Flatten(batches)| == TotalLength(batches)
    ensures forall x :: x in Flatten(batches) <==> exists i :: 0 <= i < |batches| && x in batches[i]
  {
    if batches != [] {
      var init := batches[..|batches| - 1];
      FlattenKeepsAll(init);
      assert forall i :: 0 <= i < |init| ==> init[i] == batches[i];
    }
  }
}
