/**
 The row bookkeeping both table models share: the row count of a row list
 that may be null, the guarded fetch every row accessor performs, and the
 fetch with the guard the accessors evidently intend.
 */
module TableRows {
  import opened JavaLang

  /** `getRowCount()`: no rows for a null list, otherwise one row per element. */
  function RowCountOf<E>(list: Option<seq<E>>): (n: nat)
    ensures list.None? ==> n == 0
    ensures list.Some? ==> n == |list.value|
  {
    match list
    case None => 0
    case Some(s) => |s|
  }

  /** What `list.get(getRowCount())` throws: the row past the last one does not exist. */
  function PastEndException<E>(list: Option<seq<E>>): Exception
  {
    if list.None? then NullPointerException else IndexOutOfBoundsException
  }

  /**
   The guard and fetch of every row accessor, as written:
   `if (row < 0 || row > getRowCount()) return null; return list.get(row);`.
   Rows inside the list give their element, rows outside the guard give null,
   and the one row the guard lets through by mistake, `row == getRowCount()`, throws.
   */
  function GuardedFetch<E>(list: Option<seq<E>>, row: int): (r: Outcome<Option<E>>)
    ensures row < 0 || row > RowCountOf(list) ==> r == Returned(None)
    ensures 0 <= row < RowCountOf(list) ==> r == Returned(Some(list.value[row]))
    ensures row == RowCountOf(list) ==> r == Threw(PastEndException(list))
  {
    if row < 0 || row > RowCountOf(list) then Returned(None)
    else
      match ListGet(list, row)
      case Threw(e) => Threw(e)
      case Returned(x) => Returned(Some(x))
  }

  /** Applies a getter to the element a guarded fetch found, passing null and exceptions through. */
  function Project<E, T>(r: Outcome<Option<E>>, getter: E -> T): Outcome<Option<T>>
  {
    match r
    case Threw(e) => Threw(e)
    case Returned(None) => Returned(None)
    case Returned(Some(x)) => Returned(Some(getter(x)))
  }

  /** The guard lets `row == getRowCount()` through for every list, so that row throws. */
  lemma GuardAdmitsRowCount<E>(list: Option<seq<E>>)
    ensures GuardedFetch(list, RowCountOf(list)).Threw?
    ensures list.Some? ==> GuardedFetch(list, RowCountOf(list)) == Threw(IndexOutOfBoundsException)
  {
  }

  /** A concrete instance: a one-row table asked for row 1 throws instead of returning null. */
  lemma OneRowTableThrowsAtRowOne<E>(e: E)
    ensures GuardedFetch(Some([e]), 1) == Threw(IndexOutOfBoundsException)
  {
  }

  /**
   The fetch with the intended guard `row < 0 || row >= getRowCount()`:
   it never throws, and it finds an element exactly for the rows the list holds.
   */
  function CheckedFetch<E>(list: Option<seq<E>>, row: int): (r: Option<E>)
    ensures r.Some? <==> 0 <= row < RowCountOf(list)
    ensures r.Some? ==> r.value == list.value[row]
  {
    if row < 0 || row >= RowCountOf(list) then None
    else Some(list.value[row])
  }

  /**
   The written guard and the intended one disagree on exactly one row,
   `getRowCount()`, where the first throws and the second returns null.
   */
  lemma CheckedFetchAgrees<E>(list: Option<seq<E>>, row: int)
    ensures row != RowCountOf(list) ==> GuardedFetch(list, row) == Returned(CheckedFetch(list, row))
    ensures row == RowCountOf(list) ==> GuardedFetch(list, row).Threw? && CheckedFetch(list, row) == None
  {
  }
}
