/**
 * Worked inputs: three accepted roads with their smallest neighbourhood and its
 * owner, and inputs the loader rejects.
 */
module RoadExamples {
  import opened Wrappers
  import opened Cities
  import opened Sorting
  import opened Loader
  import opened Neighbourhood

  /** A word holding an integer; its text is never read as a name in these inputs. */
  function Num(v: int): Token {
    Token(Some(v), "")
  }

  function Word(w: string): Token {
    Token(None, w)
  }

  /** T = 10 with cities A at 3, B at 7, C at 1 is accepted and read in that order ... */
  lemma ThreeCitiesRead(toks: seq<Token>)
    requires toks == [Num(10), Num(3), Num(3), Word("A"), Num(7), Word("B"), Num(1), Word("C")]
    ensures Accepts(toks)
    ensures RecordsRead(toks, 3) == [City(3, "A"), City(7, "B"), City(1, "C")]
  {
    assert PositionOf(toks, 0) == Some(3) && PositionOf(toks, 1) == Some(7) && PositionOf(toks, 2) == Some(1);
    assert NameOf(toks, 0) == Some("A") && NameOf(toks, 1) == Some("B") && NameOf(toks, 2) == Some("C");
    assert RecordsAccepted(toks, 10, 3);
  }

  /** ... and loads sorted as C, A, B. */
  lemma ThreeCitiesLoad(toks: seq<Token>)
    requires toks == [Num(10), Num(3), Num(3), Word("A"), Num(7), Word("B"), Num(1), Word("C")]
    ensures Load(toks) == Some(RoadValue(10, [City(1, "C"), City(3, "A"), City(7, "B")]))
  {
    var a, b, c := City(3, "A"), City(7, "B"), City(1, "C");
    ThreeCitiesRead(toks);
    assert SortCities([c]) == [c];
    assert Insert(b, []) == [b];
    assert [b, c][1..] == [c];
    assert SortCities([b, c]) == Insert(b, [c]) == [c, b];
    assert Insert(a, [b]) == [a, b];
    assert [a, b, c][1..] == [b, c];
    assert SortCities([a, b, c]) == Insert(a, [c, b]) == [c, a, b];
    LoadAccepted(toks, 10, 3);
  }

  /** Its neighbourhoods are [0, 2], [2, 5] and [5, 10]; the smallest is 2, owned by C. */
  lemma ThreeCitiesSmallest(toks: seq<Token>)
    requires toks == [Num(10), Num(3), Num(3), Word("A"), Num(7), Word("B"), Num(1), Word("C")]
    ensures Load(toks).Some?
    ensures Spans(Load(toks).value.cities, 10) == [2.0, 3.0, 5.0]
    ensures MinimumSpan(Load(toks).value) == 2.0
    ensures OwnerOfMinimum(Load(toks).value) == "C"
  {
    ThreeCitiesLoad(toks);
    var a, b, c := City(3, "A"), City(7, "B"), City(1, "C");
    var spans := Spans([c, a, b], 10);
    assert StretchOf([c, a, b], 10, 1) == Stretch(2.0, 5.0);
    assert spans == [2.0, 3.0, 5.0];
    assert FirstMinimum(spans[..2]) == 0;
  }

  /** T = 100 with X at 50 and Y at 51 is accepted ... */
  lemma TwoCitiesRead(toks: seq<Token>)
    requires toks == [Num(100), Num(2), Num(50), Word("X"), Num(51), Word("Y")]
    ensures Accepts(toks)
    ensures RecordsRead(toks, 2) == [City(50, "X"), City(51, "Y")]
  {
    assert PositionOf(toks, 0) == Some(50) && PositionOf(toks, 1) == Some(51);
    assert NameOf(toks, 0) == Some("X") && NameOf(toks, 1) == Some("Y");
    assert RecordsAccepted(toks, 100, 2);
  }

  /** ... and loads in that order. */
  lemma TwoCitiesLoad(toks: seq<Token>)
    requires toks == [Num(100), Num(2), Num(50), Word("X"), Num(51), Word("Y")]
    ensures Load(toks) == Some(RoadValue(100, [City(50, "X"), City(51, "Y")]))
  {
    var x, y := City(50, "X"), City(51, "Y");
    TwoCitiesRead(toks);
    assert [x, y][1..] == [y];
    assert SortCities([x, y]) == Insert(x, [y]) == [x, y];
    LoadAccepted(toks, 100, 2);
  }

  /** Its neighbourhoods are 50.5 and 49.5, so Y owns the smallest. */
  lemma TwoCitiesSmallest(toks: seq<Token>)
    requires toks == [Num(100), Num(2), Num(50), Word("X"), Num(51), Word("Y")]
    ensures Load(toks).Some?
    ensures MinimumSpan(Load(toks).value) == 49.5
    ensures OwnerOfMinimum(Load(toks).value) == "Y"
  {
    TwoCitiesLoad(toks);
    assert Spans([City(50, "X"), City(51, "Y")], 100) == [50.5, 49.5];
  }

  /** T = 3 with Y at 2 read before X at 1 is accepted ... */
  lemma TieRead(toks: seq<Token>)
    requires toks == [Num(3), Num(2), Num(2), Word("Y"), Num(1), Word("X")]
    ensures Accepts(toks)
    ensures RecordsRead(toks, 2) == [City(2, "Y"), City(1, "X")]
  {
    assert PositionOf(toks, 0) == Some(2) && PositionOf(toks, 1) == Some(1);
    assert NameOf(toks, 0) == Some("Y") && NameOf(toks, 1) == Some("X");
    assert RecordsAccepted(toks, 3, 2);
  }

  /** ... and loads as X, Y. */
  lemma TieLoad(toks: seq<Token>)
    requires toks == [Num(3), Num(2), Num(2), Word("Y"), Num(1), Word("X")]
    ensures Load(toks) == Some(RoadValue(3, [City(1, "X"), City(2, "Y")]))
  {
    var x, y := City(1, "X"), City(2, "Y");
    TieRead(toks);
    assert SortCities([x]) == [x];
    assert Insert(y, []) == [y];
    assert [y, x][1..] == [x];
    assert SortCities([y, x]) == Insert(y, [x]) == [x, y];
    LoadAccepted(toks, 3, 2);
  }

  /** Both its neighbourhoods are 1.5; on the tie the city first in road order, X,
      owns the smallest. */
  lemma TieGoesToLowerPosition(toks: seq<Token>)
    requires toks == [Num(3), Num(2), Num(2), Word("Y"), Num(1), Word("X")]
    ensures Load(toks).Some?
    ensures MinimumSpan(Load(toks).value) == 1.5
    ensures OwnerOfMinimum(Load(toks).value) == "X"
  {
    TieLoad(toks);
    assert Spans([City(1, "X"), City(2, "Y")], 3) == [1.5, 1.5];
  }

  /** Inputs the loader rejects: each bound just outside its range, a city at either
      end of the road, a position repeated two records apart, a missing record,
      and a position that is not an integer. */
  lemma RejectedInputs()
    ensures Load([Num(2), Num(2), Num(1), Word("A"), Num(2), Word("B")]) == None
    ensures Load([Num(1000001), Num(2), Num(1), Word("A"), Num(2), Word("B")]) == None
    ensures Load([Num(10), Num(1), Num(5), Word("A")]) == None
    ensures Load([Num(10), Num(10001), Num(1), Word("A"), Num(2), Word("B")]) == None
    ensures Load([Num(10), Num(2), Num(0), Word("A"), Num(2), Word("B")]) == None
    ensures Load([Num(10), Num(2), Num(1), Word("A"), Num(10), Word("B")]) == None
    ensures Load([Num(10), Num(3), Num(4), Word("A"), Num(2), Word("B"), Num(4), Word("C")]) == None
    ensures Load([Num(10), Num(3), Num(4), Word("A"), Num(2), Word("B")]) == None
    ensures Load([Num(10), Num(2), Word("one"), Word("A"), Num(2), Word("B")]) == None
  {
    assert PositionOf([Num(10), Num(2), Num(0), Word("A"), Num(2), Word("B")], 0) == Some(0);
    assert PositionOf([Num(10), Num(2), Num(1), Word("A"), Num(10), Word("B")], 1) == Some(10);
    var repeated := [Num(10), Num(3), Num(4), Word("A"), Num(2), Word("B"), Num(4), Word("C")];
    assert PositionOf(repeated, 0) == PositionOf(repeated, 2) == Some(4);
    assert !RecordReadable([Num(10), Num(3), Num(4), Word("A"), Num(2), Word("B")], 2);
    assert !RecordReadable([Num(10), Num(2), Word("one"), Word("A"), Num(2), Word("B")], 0);
  }
}
