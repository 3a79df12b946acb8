/**
 The sortable table: which column the rows are sorted by and in which direction, how a header click
 changes that, and the order the rows are shown in.
 */
module TableSort {
  import opened Options
  import opened Ordering

  datatype Direction = Asc | Desc

  /** The sort column (none at first) and the direction. */
  datatype SortState = SortState(sortBy: Option<string>, direction: Direction)

  /** A column header: the field it shows and whether clicking it sorts. */
  datatype Column = Column(header: string, accessor: string, sortable: bool)

  const Initial := SortState(None, Asc)

  function Flip(d: Direction): (r: Direction)
    ensures r != d
  {
    if d == Asc then Desc else Asc
  }

  /**
   `handleSort`: a click on a column that does not sort changes nothing; on the current sort column
   it reverses the direction; on any other column it sorts by that column, ascending.
   */
  function HandleSort(s: SortState, c: Column): (r: SortState)
    ensures !c.sortable ==> r == s
    ensures c.sortable && s.sortBy == Some(c.accessor) ==> r.sortBy == s.sortBy && r.direction != s.direction
    ensures c.sortable && s.sortBy != Some(c.accessor) ==> r == SortState(Some(c.accessor), Asc)
  {
    if !c.sortable then s
    else if s.sortBy == Some(c.accessor) then s.(direction := Flip(s.direction))
    else SortState(Some(c.accessor), Asc)
  }

  /** Two clicks on the current sort column restore the state, so after the first click the direction alternates. */
  lemma {:induction false} ClickCycle(s: SortState, c: Column)
    requires c.sortable
    ensures s.sortBy == Some(c.accessor) ==> HandleSort(HandleSort(s, c), c) == s
    ensures HandleSort(s, c).sortBy == Some(c.accessor)
    ensures HandleSort(HandleSort(HandleSort(s, c), c), c) == HandleSort(s, c)
  {
    var once := HandleSort(s, c);
    assert once.sortBy == Some(c.accessor);
    assert Flip(Flip(once.direction)) == once.direction;
    if s.sortBy == Some(c.accessor) {
      assert Flip(Flip(s.direction)) == s.direction;
    }
  }

  /** Is a column selected? A missing or empty field name means unsorted. */
  predicate Active(s: SortState) {
    s.sortBy.Some? && s.sortBy.value != ""
  }

  /**
   `sortedData`: the rows as given when nothing is selected, otherwise a stable sort on the selected
   field, reversed for descending. `cell(field)(row)` is the row's value in that field, mapped into
   the order `>` puts it in.
   */
  function SortedData<T>(data: seq<T>, s: SortState, cell: string -> T -> int): (r: seq<T>)
    ensures !Active(s) ==> r == data
    ensures multiset(r) == multiset(data)
    ensures Active(s) ==> Sorted(r, cell(s.sortBy.value), s.direction == Desc)
  {
    if !Active(s) then data else SortBy(data, cell(s.sortBy.value), s.direction == Desc)
  }

  /** Rows with equal values in the sort column keep the order they were given in. */
  lemma SortedDataStable<T>(data: seq<T>, s: SortState, cell: string -> T -> int, v: int)
    requires Active(s)
    ensures WithKey(SortedData(data, s, cell), cell(s.sortBy.value), v) == WithKey(data, cell(s.sortBy.value), v)
  {
    SortStable(data, cell(s.sortBy.value), s.direction == Desc, v);
  }

  /** Sorting rows already in the shown order leaves them as they are. */
  lemma SortedDataIdempotent<T>(data: seq<T>, s: SortState, cell: string -> T -> int)
    ensures SortedData(SortedData(data, s, cell), s, cell) == SortedData(data, s, cell)
  {
    if Active(s) {
      SortSortedIsIdentity(SortedData(data, s, cell), cell(s.sortBy.value), s.direction == Desc);
    }
  }
}
