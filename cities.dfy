/**
 * The data model of cidades.c: a city (`Cidade`) is a position on the road and a
 * name; a road (`Estrada`) has a length `T`, a city count `N` and the array `C`
 * of its cities, filled and sorted in place by the loader.
 */
module Cities {

  /** Bounds the loader enforces on the road length and on the number of cities. */
  const MinLength := 3
  const MaxLength := 1000000
  const MinCities := 2
  const MaxCities := 10000

  /** Range of the C `int` that `compararCidades` returns. */
  const Int32Min := -0x8000_0000
  const Int32Max := 0x7fff_ffff

  datatype City = City(position: int, name: string)

  predicate LengthInRange(t: int) { MinLength <= t <= MaxLength }

  predicate CountInRange(n: int) { MinCities <= n <= MaxCities }

  /** `compararCidades`: the qsort comparator, the difference of the two positions.
      For positions the loader accepts the difference cannot overflow a C `int`. */
  function CompareCities(a: City, b: City): (r: int)
    ensures r < 0 <==> a.position < b.position
    ensures r == 0 <==> a.position == b.position
    ensures r > 0 <==> a.position > b.position
    ensures 0 < a.position < MaxLength && 0 < b.position < MaxLength ==> Int32Min < r < Int32Max
  {
    a.position - b.position
  }

  /** Every city lies strictly inside the road (0, t). */
  predicate Inside(c: seq<City>, t: int) {
    forall i :: 0 <= i < |c| ==> 0 < c[i].position < t
  }

  /** No two cities share a position. */
  predicate DistinctPositions(c: seq<City>) {
    forall i, j :: 0 <= j < i < |c| ==> c[i].position != c[j].position
  }

  /** Ascending by position, as qsort leaves the array under `compararCidades`. */
  predicate Sorted(c: seq<City>) {
    forall i, j :: 0 <= i < j < |c| ==> c[i].position <= c[j].position
  }

  predicate StrictlyIncreasing(c: seq<City>) {
    forall i, j :: 0 <= i < j < |c| ==> c[i].position < c[j].position
  }

  /** The value of a loaded road: its length and its cities in array order. */
  datatype RoadValue = RoadValue(length: int, cities: seq<City>)

  /** The invariant of a successfully loaded road. */
  predicate ValidRoad(r: RoadValue) {
    && LengthInRange(r.length)
    && CountInRange(|r.cities|)
    && Inside(r.cities, r.length)
    && StrictlyIncreasing(r.cities)
  }

  /** `Estrada`: the road the loader allocates and fills in place. */
  class Road {
    var T: int
    var N: int
    var C: array<City>

    constructor (t: int, n: nat)
      ensures T == t && N == n && C.Length == n && fresh(C)
    {
      T := t;
      N := n;
      C := new City[n];
    }

    ghost function Value(): RoadValue
      reads this, C
    {
      RoadValue(T, C[..])
    }

    ghost predicate Valid()
      reads this, C
    {
      N == C.Length && ValidRoad(Value())
    }
  }
}
