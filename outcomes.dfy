/** Result shapes shared by the three programs. */
module Outcomes {

  datatype Option<+T> = None | Some(value: T)

  /** The outcome of a step that may end the whole process: `Halted` stands for
      `log.Fatalf` (which exits at once) and for a nil-pointer panic; nothing
      computed before it is delivered. */
  datatype Run<+T> = Halted | Done(value: T)

  /** Applies `f` to every element in order and collects the results; one
      element whose step halts makes the whole run halt. */
  function MapAll<A, B>(f: A -> Run<B>, xs: seq<A>): Run<seq<B>>
  {
    if xs == [] then Done([])
    else
      match MapAll(f, xs[..|xs| - 1])
      case Halted => Halted
      case Done(ys) =>
        match f(xs[|xs| - 1])
        case Halted => Halted
        case Done(y) => Done(ys + [y])
  }

  /** `MapAll` completes exactly when every step completes, and then it holds
      one result per element, in order. */
  lemma {:induction false} MapAllDone<A, B>(f: A -> Run<B>, xs: seq<A>)
    ensures MapAll(f, xs).Done? <==> forall i :: 0 <= i < |xs| ==> f(xs[i]).Done?
    ensures MapAll(f, xs).Done? ==>
              |MapAll(f, xs).value| == |xs| &&
              forall i :: 0 <= i < |xs| ==> MapAll(f, xs).value[i] == f(xs[i]).value
  {
    if xs != [] {
      var init := xs[..|xs| - 1];
      MapAllDone(f, init);
      assert forall i :: 0 <= i < |init| ==> init[i] == xs[i];
    }
  }

  /** One more completed step extends a completed prefix. */
  lemma MapAllStep<A, B>(f: A -> Run<B>, xs: seq<A>, i: nat, ys: seq<B>)
    requires i < |xs| && MapAll(f, xs[..i]) == Done(ys) && f(xs[i]).Done?
    ensures MapAll(f, xs[..i + 1]) == Done(ys + [f(xs[i]).value])
  {
    assert xs[..i + 1][..i] == xs[..i];
  }

  /** One halting step halts the whole run. */
  lemma MapAllStops<A, B>(f: A -> Run<B>, xs: seq<A>, i: nat)
    requires i < |xs| && f(xs[i]).Halted?
    ensures MapAll(f, xs) == Halted
  {
    MapAllDone(f, xs);
  }

  /** Applies `f` to every element, in order. */
  function Map<A, B>(f: A -> B, xs: seq<A>): seq<B> {
    if xs == [] then [] else Map(f, xs[..|xs| - 1]) + [f(xs[|xs| - 1])]
  }

  /** One result per element: the i-th result is `f` of the i-th element. */
  lemma {:induction false} MapPointwise<A, B>(f: A -> B, xs: seq<A>)
    ensures |Map(f, xs)| == |xs|
    ensures forall i :: 0 <= i < |xs| ==> Map(f, xs)[i] == f(xs[i])
  {
    if xs != [] {
      var init := xs[..|xs| - 1];
      MapPointwise(f, init);
      assert forall i :: 0 <= i < |init| ==> init[i] == xs[i];
    }
  }

  /** A goquery `Each` loop whose callback appends `f(item)` to a slice. */
  method CollectAll<A, B>(f: A -> B, items: seq<A>) returns (collected: seq<B>)
    ensures collected == Map(f, items)
  {
    collected := [];
    var i := 0;
    while i < |items|
      invariant 0 <= i <= |items|
      invariant collected == Map(f, items[..i])
    {
      collected := collected + [f(items[i])];
      assert items[..i + 1][..i] == items[..i];
      i := i + 1;
    }
    assert items[..i] == items;
  }

  /** A goquery `Each` loop whose callback may end the process: the first
      element whose step halts ends the run; otherwise all results, in order. */
  method CollectUntilHalt<A, B>(f: A -> Run<B>, items: seq<A>) returns (r: Run<seq<B>>)
    ensures r == MapAll(f, items)
  {
    var collected := [];
    var i := 0;
    while i < |items|
      invariant 0 <= i <= |items|
      invariant MapAll(f, items[..i]) == Done(collected)
    {
      var step := f(items[i]);
      if step.Halted? {
        MapAllStops(f, items, i);
        return Halted;
      }
      MapAllStep(f, items, i, collected);
      collected := collected + [step.value];
      i := i + 1;
    }
    assert items[..i] == items;
    r := Done(collected);
  }
}
