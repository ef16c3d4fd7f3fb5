/**
 * The road loader, `getEstrada` of cidades.c. The file is given already split
 * into its whitespace-separated words; a word is readable by `%d` when it is an
 * integer, and by `%s` always. The record of city i (0-based) is the pair of
 * words 2 + 2i (its position) and 3 + 2i (its name).
 */
module Loader {
  import opened Wrappers
  import opened Cities
  import opened Sorting

  /** One word of the input: `number` is what `%d` reads from it (None when it is
      not an integer), `text` is what `%s` reads. */
  datatype Token = Token(number: Option<int>, text: string)

  /** `fscanf(..., "%d", ...)` at word k; None when the word is missing or not an integer. */
  function ReadInt(toks: seq<Token>, k: nat): Option<int> {
    if k < |toks| then toks[k].number else None
  }

  /** `fscanf(..., "%s", ...)` at word k; None only at the end of the input. */
  function ReadWord(toks: seq<Token>, k: nat): Option<string> {
    if k < |toks| then Some(toks[k].text) else None
  }

  function PositionOf(toks: seq<Token>, i: nat): Option<int> {
    ReadInt(toks, 2 + 2 * i)
  }

  function NameOf(toks: seq<Token>, i: nat): Option<string> {
    ReadWord(toks, 3 + 2 * i)
  }

  /** Both fields of record i can be read. */
  predicate RecordReadable(toks: seq<Token>, i: nat) {
    PositionOf(toks, i).Some? && NameOf(toks, i).Some?
  }

  function RecordAt(toks: seq<Token>, i: nat): City
    requires RecordReadable(toks, i)
  {
    City(PositionOf(toks, i).value, NameOf(toks, i).value)
  }

  /** The first n records are readable, lie strictly inside (0, t) and have
      pairwise distinct positions. */
  predicate RecordsAccepted(toks: seq<Token>, t: int, n: nat) {
    && (forall i :: 0 <= i < n ==> RecordReadable(toks, i) && 0 < PositionOf(toks, i).value < t)
    && (forall i, j :: 0 <= j < i < n ==> PositionOf(toks, i) != PositionOf(toks, j))
  }

  /** The inputs `getEstrada` accepts: the length and the count are readable and in
      range, and so are all the records the count announces. */
  predicate Accepts(toks: seq<Token>) {
    && ReadInt(toks, 0).Some? && LengthInRange(ReadInt(toks, 0).value)
    && ReadInt(toks, 1).Some? && CountInRange(ReadInt(toks, 1).value)
    && RecordsAccepted(toks, ReadInt(toks, 0).value, ReadInt(toks, 1).value)
  }

  /** The first n records in reading order. */
  function RecordsRead(toks: seq<Token>, n: nat): (r: seq<City>)
    requires forall i :: 0 <= i < n ==> RecordReadable(toks, i)
  {
    seq(n, i requires 0 <= i < n => RecordAt(toks, i))
  }

  /** Accepted records, once sorted, form a valid road of length t holding exactly them. */
  lemma RecordsFormRoad(toks: seq<Token>, t: int, n: nat)
    requires LengthInRange(t) && CountInRange(n)
    requires RecordsAccepted(toks, t, n)
    ensures ValidRoad(RoadValue(t, SortCities(RecordsRead(toks, n))))
  {
    var records := RecordsRead(toks, n);
    forall i, j | 0 <= j < i < n
      ensures records[i].position != records[j].position
    {
      assert PositionOf(toks, i) != PositionOf(toks, j);
    }
    SortCitiesIncreasing(records);
    PermutationInside(SortCities(records), records, t);
  }

  /** What `getEstrada` returns: None (NULL) when the input is rejected, otherwise the
      road of the length read whose cities are the records read, sorted by position. */
  function Load(toks: seq<Token>): (r: Option<RoadValue>)
    ensures r.Some? <==> Accepts(toks)
    ensures r.Some? ==> ValidRoad(r.value)
    ensures r.Some? ==> r.value.length == ReadInt(toks, 0).value
    ensures r.Some? ==> |r.value.cities| == ReadInt(toks, 1).value
    ensures r.Some? ==> multiset(r.value.cities) == multiset(RecordsRead(toks, ReadInt(toks, 1).value))
  {
    if Accepts(toks) then
      var t, n := ReadInt(toks, 0).value, ReadInt(toks, 1).value;
      RecordsFormRoad(toks, t, n);
      Some(RoadValue(t, SortCities(RecordsRead(toks, n))))
    else
      None
  }

  /** An accepted input loads as its length and its records, sorted. */
  lemma LoadAccepted(toks: seq<Token>, t: int, n: nat)
    requires Accepts(toks) && ReadInt(toks, 0) == Some(t) && ReadInt(toks, 1) == Some(n)
    ensures Load(toks) == Some(RoadValue(t, SortCities(RecordsRead(toks, n))))
  {
  }

  /** `getEstrada`: reads the length and the count, fills the city array and the array
      of positions seen so far record by record, rejecting on the first unreadable,
      out-of-range or repeated record, and finally sorts the cities in place. */
  method GetRoad(toks: seq<Token>) returns (road: Road?)
    ensures road == null <==> !Accepts(toks)
    ensures road != null ==> fresh(road) && fresh(road.C) && road.Valid()
    ensures road != null ==> road.T == ReadInt(toks, 0).value && road.N == ReadInt(toks, 1).value
    ensures road != null ==> Load(toks) == Some(road.Value())
  {
    var length := ReadInt(toks, 0);
    if length.None? || !LengthInRange(length.value) {
      return null;
    }
    var t := length.value;
    var count := ReadInt(toks, 1);
    if count.None? || !CountInRange(count.value) {
      return null;
    }
    var n := count.value;
    road := new Road(t, n);
    var positions := new int[n];
    for i := 0 to n
      modifies road.C, positions
      invariant RecordsAccepted(toks, t, i)
      invariant forall k :: 0 <= k < i ==> RecordReadable(toks, k) && road.C[k] == RecordAt(toks, k)
      invariant forall k :: 0 <= k < i ==> positions[k] == road.C[k].position
    {
      var position := PositionOf(toks, i);
      var name := NameOf(toks, i);
      if position.None? || name.None? {
        return null;
      }
      road.C[i] := City(position.value, name.value);
      if road.C[i].position <= 0 || road.C[i].position >= t {
        return null;
      }
      for j := 0 to i
        invariant forall k :: 0 <= k < j ==> positions[k] != road.C[i].position
      {
        if road.C[i].position == positions[j] {
          return null;
        }
      }
      positions[i] := road.C[i].position;
    }
    ghost var records := RecordsRead(toks, n);
    assert road.C[..] == records;
    RecordsFormRoad(toks, t, n);
    SortByPosition(road.C);
    SortedUnique(SortCities(records), road.C[..]);
  }
}
