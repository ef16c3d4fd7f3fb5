/**
 * The neighbourhood analyser of cidades.c. The neighbourhood of a city is the
 * stretch of road closer to it than to any other city: from the midpoint with its
 * left neighbour (0 for the first city) to the midpoint with its right neighbour
 * (the road length for the last one). Midpoints of integer positions are whole or
 * half numbers, so `real` is exact where the C code uses `double`.
 * `calcularMenorVizinhanca` and `cidadeMenorVizinhanca` repeat one loop; here it
 * is the single method `SmallestNeighbourhoodOf`, and the two entry points share it.
 */
module Neighbourhood {
  import opened Wrappers
  import opened Cities
  import opened Loader

  /** The stretch [start, finish] of road that one city owns (`inicio`, `fim`). */
  datatype Stretch = Stretch(start: real, finish: real)

  function Midpoint(a: City, b: City): real {
    (a.position + b.position) as real / 2.0
  }

  /** The neighbourhood of city i, with the three cases of the C loop. */
  function StretchOf(c: seq<City>, t: int, i: nat): Stretch
    requires 2 <= |c| && i < |c|
  {
    if i == 0 then Stretch(0.0, Midpoint(c[0], c[1]))
    else if i == |c| - 1 then Stretch(Midpoint(c[i - 1], c[i]), t as real)
    else Stretch(Midpoint(c[i - 1], c[i]), Midpoint(c[i], c[i + 1]))
  }

  /** The length of every neighbourhood (`vizinhanca = fim - inicio`), city by city. */
  function Spans(c: seq<City>, t: int): (r: seq<real>)
    requires 2 <= |c|
  {
    seq(|c|, i requires 0 <= i < |c| => StretchOf(c, t, i).finish - StretchOf(c, t, i).start)
  }

  function Sum(s: seq<real>): real {
    if s == [] then 0.0 else Sum(s[..|s| - 1]) + s[|s| - 1]
  }

  /** The first k neighbourhoods together reach exactly the end of the k-th. */
  lemma {:induction false} PrefixSum(c: seq<City>, t: int, k: nat)
    requires 2 <= |c| && 1 <= k <= |c|
    ensures Sum(Spans(c, t)[..k]) == StretchOf(c, t, k - 1).finish
  {
    var s := Spans(c, t);
    if k == 1 {
      assert s[..1][..0] == [];
    } else {
      PrefixSum(c, t, k - 1);
      assert s[..k][..k - 1] == s[..k - 1];
    }
  }

  /** The neighbourhoods tile the road: the first starts at 0, the last ends at the
      road's end, each one starts where the previous ends, and their lengths add up
      to the road length. */
  lemma NeighbourhoodsTileRoad(c: seq<City>, t: int)
    requires 2 <= |c|
    ensures StretchOf(c, t, 0).start == 0.0
    ensures StretchOf(c, t, |c| - 1).finish == t as real
    ensures forall i :: 0 <= i < |c| - 1 ==> StretchOf(c, t, i).finish == StretchOf(c, t, i + 1).start
    ensures Sum(Spans(c, t)) == t as real
  {
    PrefixSum(c, t, |c|);
    assert Spans(c, t)[..|c|] == Spans(c, t);
  }

  /** On a valid road every neighbourhood is non-empty and shorter than the road. */
  lemma SpansBetweenZeroAndLength(r: RoadValue)
    requires ValidRoad(r)
    ensures forall i :: 0 <= i < |r.cities| ==> 0.0 < Spans(r.cities, r.length)[i] < r.length as real
  {
    var c, t := r.cities, r.length;
    forall i | 0 <= i < |c|
      ensures 0.0 < Spans(c, t)[i] < t as real
    {
      if 0 < i {
        assert c[i - 1].position < c[i].position;
      }
      if i < |c| - 1 {
        assert c[i].position < c[i + 1].position;
      }
    }
  }

  /** k is the first index where s takes its least value. */
  predicate IsFirstMinimum(s: seq<real>, k: int) {
    && 0 <= k < |s|
    && (forall i :: 0 <= i < |s| ==> s[k] <= s[i])
    && (forall i :: 0 <= i < k ==> s[k] < s[i])
  }

  /** The first index of a least element of s. */
  function FirstMinimum(s: seq<real>): (k: nat)
    requires |s| > 0
    ensures IsFirstMinimum(s, k)
  {
    if |s| == 1 then 0
    else
      var k := FirstMinimum(s[..|s| - 1]);
      if s[|s| - 1] < s[k] then |s| - 1 else k
  }

  /** The smallest neighbourhood of a valid road and the name of its owner. */
  function MinimumSpan(r: RoadValue): real
    requires ValidRoad(r)
  {
    Spans(r.cities, r.length)[FirstMinimum(Spans(r.cities, r.length))]
  }

  function OwnerOfMinimum(r: RoadValue): string
    requires ValidRoad(r)
  {
    r.cities[FirstMinimum(Spans(r.cities, r.length))].name
  }

  /** The loop shared by `calcularMenorVizinhanca` and `cidadeMenorVizinhanca`:
      `menor` starts at the road length and `indice` at -1; a city's neighbourhood
      replaces them only when strictly smaller. */
  method SmallestNeighbourhoodOf(road: Road) returns (smallest: real, index: int)
    requires road.Valid()
    ensures IsFirstMinimum(Spans(road.C[..], road.T), index)
    ensures smallest == Spans(road.C[..], road.T)[index]
  {
    ghost var spans := Spans(road.C[..], road.T);
    SpansBetweenZeroAndLength(road.Value());
    smallest := road.T as real;
    index := -1;
    for i := 0 to road.N
      invariant -1 <= index < i
      invariant index == -1 ==> smallest == road.T as real
      invariant index != -1 ==> smallest == spans[index]
      invariant forall k :: 0 <= k < i ==> smallest <= spans[k]
      invariant forall k :: 0 <= k < index ==> smallest < spans[k]
    {
      var start, finish;
      if i == 0 {
        start := 0.0;
        finish := (road.C[i].position + road.C[i + 1].position) as real / 2.0;
      } else if i == road.N - 1 {
        start := (road.C[i - 1].position + road.C[i].position) as real / 2.0;
        finish := road.T as real;
      } else {
        start := (road.C[i - 1].position + road.C[i].position) as real / 2.0;
        finish := (road.C[i].position + road.C[i + 1].position) as real / 2.0;
      }
      var span := finish - start;
      assert span == spans[i];
      if span < smallest {
        smallest := span;
        index := i;
      }
    }
    // the first neighbourhood is already shorter than the road, so `indice` was set
    assert spans[0] < road.T as real;
  }

  /** `calcularMenorVizinhanca`: the smallest neighbourhood, or -1 when loading fails. */
  method SmallestNeighbourhood(toks: seq<Token>) returns (smallest: real)
    ensures Load(toks).None? ==> smallest == -1.0
    ensures Load(toks).Some? ==> smallest == MinimumSpan(Load(toks).value) && 0.0 < smallest
  {
    var road := GetRoad(toks);
    if road == null {
      return -1.0;
    }
    var index;
    smallest, index := SmallestNeighbourhoodOf(road);
    SpansBetweenZeroAndLength(road.Value());
  }

  /** `cidadeMenorVizinhanca`: the name of the city owning the smallest neighbourhood
      (the first one in road order on a tie), or None (NULL) when loading fails. */
  method CityWithSmallestNeighbourhood(toks: seq<Token>) returns (name: Option<string>)
    ensures Load(toks).None? ==> name == None
    ensures Load(toks).Some? ==> name == Some(OwnerOfMinimum(Load(toks).value))
  {
    var road := GetRoad(toks);
    if road == null {
      return None;
    }
    var smallest, index := SmallestNeighbourhoodOf(road);
    name := Some(road.C[index].name);
  }
}
