# Road neighbourhoods (cidades.c) in Dafny

A model of `cidades.c`. The program reads a road of length `T` and `N` cities
placed along it, each with a position and a name. It rejects inputs that break
the domain rules and sorts the cities by position. It then measures each city's
neighbourhood, which is the stretch of road nearer to that city than to any
other. It reports the smallest neighbourhood and the name of the city that owns it.

- `cities.dfy` (module `Cities`): the city value (`Cidade`), the road class
  (`Estrada` with its fields `T`, `N` and the array `C`), the bounds
  3..1000000 and 2..10000, and the comparator `compararCidades`.
- `sorting.dfy` (module `Sorting`): the qsort call of `getEstrada`. It is modelled
  as an in-place selection sort on the road's array (`SortByPosition`) and
  specified by a value-level insertion sort (`SortCities`). A uniqueness lemma
  shows that both give the same order.
- `loader.dfy` (module `Loader`): `getEstrada`. The input file is a sequence of
  words (`Token`). `Accepts` is the declarative rule for which inputs load,
  `Load` is the road that loading yields, and `GetRoad` is the imperative loader.
  `GetRoad` fills the city array and the array of positions seen so far, scans
  every earlier position for a duplicate, then sorts in place. It is proved to
  return NULL exactly when `Accepts` fails, and otherwise the road `Load` describes.
- `neighbourhood.dfy` (module `Neighbourhood`): the neighbourhood loop.
  `calcularMenorVizinhanca` and `cidadeMenorVizinhanca` share one analyser method,
  `SmallestNeighbourhoodOf`, which returns both the minimum and its index. The
  two entry points are built on it. Midpoints are computed exactly in `real`.
- `examples_road.dfy` (module `RoadExamples`): three accepted inputs, with their
  sorted roads, minima and owners. A list of rejected inputs follows.
- `wrappers.dfy` (module `Wrappers`): `Option`, which stands for a pointer that
  may be NULL.

The input is the file's content, already split into whitespace-separated words.
Each `Token` carries what `%d` reads from the word (None if the word is not an
integer) and what `%s` reads (always the word). The end of the sequence is the
end of the file. The road length is word 0, the count is word 1, and city `i`
has its position at word `2 + 2i` and its name at word `3 + 2i`.

## Model

| member | source | states |
|---|---|---|
| `Cities.CompareCities` | cidades.c:7-11 | the result is negative, zero or positive exactly when the first position is less than, equal to or greater than the second; for positions inside (0, 1000000) the difference fits a 32-bit `int` |
| `Loader.Load` | cidades.c:16-88 | loading succeeds exactly on accepted inputs; the road it yields is valid (length and count in range, every city strictly inside the road, positions strictly increasing), keeps the length `T` read and has `N` cities that are a permutation of the records read |
| `Loader.RecordsFormRoad` | cidades.c:59-86 | records that are readable, lie strictly inside (0, T) and have pairwise distinct positions form, once sorted, a valid road of length T |
| `Loader.GetRoad` | cidades.c:16-88 | returns NULL exactly when the length is unreadable or outside 3..1000000, the count is unreadable or outside 2..10000, a record is unreadable, a position is not strictly inside (0, T), or a position equals that of any earlier record; otherwise a fresh valid road storing the `T` and `N` read whose cities are the records sorted by position (the value `Load` gives) |
| `Sorting.SortByPosition` | cidades.c:86 | the array ends up sorted by position under `compararCidades` and is a permutation of its former contents |
| `Sorting.SortCities` | cidades.c:86 | the reference order is a permutation of its input, of the same length |
| `Sorting.SortCitiesIncreasing` | cidades.c:86 | sorting cities whose positions are pairwise distinct yields strictly increasing positions |
| `Sorting.SortedUnique` | cidades.c:86 | a sorted permutation of a strictly increasing city sequence equals it, so the qsort result is determined by the records alone |
| `Neighbourhood.NeighbourhoodsTileRoad` | cidades.c:99-112 | the first neighbourhood starts at 0, the last one ends at `T`, each one starts where the previous one ends, and the spans add up to exactly `T` |
| `Neighbourhood.SpansBetweenZeroAndLength` | cidades.c:97-115 | on a valid road every span is positive and strictly smaller than `T`, so the initial `menor = T` is always replaced |
| `Neighbourhood.FirstMinimum` | cidades.c:146-149 | the index returned holds the least span, and every earlier span is strictly larger |
| `Neighbourhood.SmallestNeighbourhoodOf` | cidades.c:127-150 | starting from `menor = T` and `indice = -1` and replacing only on a strictly smaller span, the loop ends with `indice` a valid index (never -1), the first one with the least span, and `menor` that span |
| `Neighbourhood.SmallestNeighbourhood` | cidades.c:93-121 | -1 when loading fails; otherwise the smallest span of the loaded road, which is positive |
| `Neighbourhood.CityWithSmallestNeighbourhood` | cidades.c:123-163 | None (NULL) when loading fails; otherwise the name of the first city in road order whose span is the least |
| `RoadExamples.ThreeCitiesSmallest` | cidades.c:93-150 | T=10 with A at 3, B at 7, C at 1: spans 2, 3, 5 after sorting to C, A, B; the minimum 2 is owned by C |
| `RoadExamples.TwoCitiesSmallest` | cidades.c:93-150 | T=100 with X at 50, Y at 51: the minimum 49.5 is owned by Y |
| `RoadExamples.TieGoesToLowerPosition` | cidades.c:146-149 | T=3 with cities at 2 and 1: both spans are 1.5 and the city at 1 wins the tie |
| `RoadExamples.RejectedInputs` | cidades.c:22-79 | T=2, T=1000001, N=1, N=10001, a city at 0, a city at T, a position repeated two records apart, a missing record and a non-numeric position are each rejected |

## Left out

- Opening and closing the file (`fopen` returning NULL, `fclose`): the model starts from the file's words.
- Allocation failures of `malloc` and the `free` chains: they are resource handling, with no behaviour of the model.
- The copy of the name with `malloc`/`strcpy` in `cidadeMenorVizinhanca`: the name is returned as a value. The NULL returned when that allocation fails is not modelled.
- `%255s` stops after 255 characters and leaves the rest of a long name to the next read. Likewise, `%d` on a word such as `12abc` reads 12 and leaves `abc`. The model treats each word as wholly an integer or not, and a name as one opaque word. Integers beyond the 32-bit range read by `%d` are not modelled either.
- The C library's `qsort` is replaced by the selection sort `SortByPosition`, which has the same postcondition (sorted by the comparator, a permutation). qsort is not stable, but this is moot because positions are distinct.
- `Cities.CompareCities`: the subtraction is on unbounded integers. Only for positions inside the validated range is it shown to fit a 32-bit `int`. For other positions the C subtraction could overflow, and that is not modelled.
- IEEE `double`: midpoints of integer positions below 10^6 are whole or half numbers, which a `double` holds exactly, so the model uses `real`.
- Distinguishing malformed input from a broken constraint: the code returns the same NULL for both, and so does the model. The code does not reject a name longer than the bound (see above), and the model follows the code.
