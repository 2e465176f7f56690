/** Selection state of the comparison view: the list of selected region ids, the
    toggle a region button performs, the default selection made when the regions
    load, and the rule that decides when the comparison is recomputed. */
module RegionSelection {
  import opened PriceService

  /** No id occurs twice. */
  ghost predicate NoDuplicates(xs: seq<string>)
  {
    forall i, j :: 0 <= i < j < |xs| ==> xs[i] != xs[j]
  }

  /** The list without any occurrence of `x`, other elements in their original order. */
  function RemoveAll(xs: seq<string>, x: string): (r: seq<string>)
    ensures x !in r
    ensures multiset(r) == multiset(xs)[x := 0]
    ensures forall y :: y != x ==> (y in r <==> y in xs)
    ensures |r| <= |xs| && (x in xs ==> |r| < |xs|)
  {
    if |xs| == 0 then []
    else
      assert xs == [xs[0]] + xs[1..];
      (if xs[0] == x then [] else [xs[0]]) + RemoveAll(xs[1..], x)
  }

  /** Filtering distributes over concatenation: relative order of the survivors is kept. */
  lemma {:induction false} RemoveAllAppend(a: seq<string>, b: seq<string>, x: string)
    ensures RemoveAll(a + b, x) == RemoveAll(a, x) + RemoveAll(b, x)
  {
    if |a| == 0 {
      assert a + b == b;
    } else {
      assert (a + b)[0] == a[0];
      assert (a + b)[1..] == a[1..] + b;
      RemoveAllAppend(a[1..], b, x);
    }
  }

  /** Filtering out an absent id leaves the list unchanged. */
  lemma {:induction false} RemoveAllAbsent(xs: seq<string>, x: string)
    requires x !in xs
    ensures RemoveAll(xs, x) == xs
  {
    if |xs| > 0 {
      assert xs[1..] + [] == xs[1..];
      RemoveAllAbsent(xs[1..], x);
      assert xs == [xs[0]] + xs[1..];
    }
  }

  /** Filtering never introduces a duplicate. */
  lemma {:induction false} RemoveAllNoDuplicates(xs: seq<string>, x: string)
    requires NoDuplicates(xs)
    ensures NoDuplicates(RemoveAll(xs, x))
  {
    if |xs| > 0 {
      var tail := xs[1..];
      assert NoDuplicates(tail) by {
        forall i, j | 0 <= i < j < |tail| ensures tail[i] != tail[j] {
          assert tail[i] == xs[i + 1] && tail[j] == xs[j + 1];
        }
      }
      RemoveAllNoDuplicates(tail, x);
      var rest := RemoveAll(tail, x);
      if xs[0] != x {
        assert xs[0] !in tail by {
          forall j | 0 <= j < |tail| ensures tail[j] != xs[0] {
            assert tail[j] == xs[j + 1];
          }
        }
        assert xs[0] !in rest;
        var r := [xs[0]] + rest;
        forall i, j | 0 <= i < j < |r| ensures r[i] != r[j] {
          if i == 0 {
            assert r[j] == rest[j - 1];
          } else {
            assert r[i] == rest[i - 1] && r[j] == rest[j - 1];
          }
        }
      } else {
        assert RemoveAll(xs, x) == [] + rest;
      }
    }
  }

  /** Clicking a region button: deselect every occurrence of the id if selected,
      otherwise select it at the end. */
  function ToggleRegion(prev: seq<string>, id: string): (next: seq<string>)
    ensures id !in prev ==> next == prev + [id] && |next| == |prev| + 1
    ensures id in prev ==> multiset(next) == multiset(prev)[id := 0] && |next| < |prev|
    ensures id in next <==> id !in prev
    ensures forall y :: y != id ==> (y in next <==> y in prev)
  {
    if id in prev then RemoveAll(prev, id) else prev + [id]
  }

  /** Deselecting keeps the other selected ids in their original relative order. */
  lemma ToggleKeepsOrder(a: seq<string>, b: seq<string>, id: string)
    requires id in a + b
    ensures ToggleRegion(a + b, id) == RemoveAll(a, id) + RemoveAll(b, id)
  {
    RemoveAllAppend(a, b, id);
  }

  /** A selection without duplicates stays without duplicates. */
  lemma ToggleKeepsNoDuplicates(prev: seq<string>, id: string)
    requires NoDuplicates(prev)
    ensures NoDuplicates(ToggleRegion(prev, id))
  {
    if id in prev {
      RemoveAllNoDuplicates(prev, id);
    }
  }

  /** Selecting an unselected region and then deselecting it restores the selection. */
  lemma ToggleTwiceRestores(prev: seq<string>, id: string)
    requires id !in prev
    ensures ToggleRegion(ToggleRegion(prev, id), id) == prev
  {
    RemoveAllAppend(prev, [id], id);
    RemoveAllAbsent(prev, id);
    assert RemoveAll([id], id) == [] + RemoveAll([], id);
  }

  /** Selection after the regions load: the first two regions when at least two are
      loaded; otherwise the current selection is left as it is. */
  function DefaultSelection(data: seq<Region>, current: seq<string>): (sel: seq<string>)
    ensures |data| >= 2 ==> |sel| == 2 && sel[0] == data[0].id && sel[1] == data[1].id
    ensures |data| < 2 ==> sel == current
    ensures |data| >= 2 ==> forall i :: 0 <= i < |sel| ==> Known(data, sel[i])
    ensures |data| >= 2 && DistinctIds(data) ==> NoDuplicates(sel)
  {
    if |data| >= 2 then [data[0].id, data[1].id] else current
  }

  /** The comparison shown after the selection changes. A non-empty selection asks for a
      comparison; a failed comparison leaves the shown one in place, and so does an
      empty selection. */
  function RefreshComparison(regions: seq<Region>, sel: seq<string>, shown: Option<seq<ComparisonRow>>)
    : (next: Option<seq<ComparisonRow>>)
    requires HasPrices(regions)
    ensures |sel| == 0 ==> next == shown
    ensures next != shown ==> |sel| > 0 && next.Some? && |next.value| == |sel|
    ensures |sel| > 0 && (forall i :: 0 <= i < |sel| ==> Known(regions, sel[i])) ==>
      next == Some(CompareRegionPrices(regions, sel).value)
    ensures (exists i :: 0 <= i < |sel| && !Known(regions, sel[i])) ==> next == shown
  {
    if |sel| > 0 then
      match CompareRegionPrices(regions, sel)
      case Ok(rows) => Some(rows)
      case NotFound(_) => shown
    else shown
  }

  /** On the seeded table the default selection is north-eu then central-eu, and its
      comparison succeeds with one row per selected region. */
  lemma SeedDefaultComparison(sines: seq<real>, randoms: seq<seq<real>>)
    requires |sines| == 24 && |randoms| == |Seeds|
    requires forall k :: 0 <= k < |randoms| ==> |randoms[k]| == 24
    ensures DefaultSelection(MockRegions(sines, randoms), []) == ["north-eu", "central-eu"]
    ensures
      var regions := MockRegions(sines, randoms);
      var next := RefreshComparison(regions, DefaultSelection(regions, []), None);
      next.Some? && |next.value| == 2
      && next.value[0].id == "north-eu" && next.value[1].id == "central-eu"
  {
    var regions := MockRegions(sines, randoms);
    var sel := DefaultSelection(regions, []);
    assert sel == ["north-eu", "central-eu"];
    assert Known(regions, sel[0]) && Known(regions, sel[1]);
  }
}
