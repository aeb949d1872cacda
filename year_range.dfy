/**
 * The year entries offered by the control: one per year from some years before the
 * current year to some years after it, each labelled with the year's decimal text.
 */
module YearRange {
  import opened Wrappers
  import opened Decimal

  /** A dropdown entry (`IDropdownOption`), here always with a numeric key. */
  datatype DropdownOption = DropdownOption(key: int, text: string)

  /** The entry for one year: `{ key: year, text: year.toString() }`. */
  function YearOption(year: int): (o: DropdownOption)
    ensures o.key == year && o.text == IntToString(year)
  {
    DropdownOption(year, IntToString(year))
  }

  /**
   * How many times a counting loop runs for a count read from the host: the count
   * itself when positive, and zero for zero or a negative count.
   */
  function Runs(count: int): (n: nat)
    ensures count > 0 ==> n == count
    ensures count <= 0 ==> n == 0
  {
    if count > 0 then count else 0
  }

  /** The entries for `count` consecutive years starting at `first`. */
  function YearSpan(first: int, count: nat): (r: seq<DropdownOption>)
    ensures |r| == count
  {
    if count == 0 then [] else YearSpan(first, count - 1) + [YearOption(first + count - 1)]
  }

  /** Appending the entry for the year after a span extends the span by one. */
  lemma YearSpanAppend(s: seq<DropdownOption>, first: int, count: nat, year: int)
    requires s == YearSpan(first, count) && year == first + count
    ensures s + [YearOption(year)] == YearSpan(first, count + 1)
  {
  }

  /** The entry at position `k` of a span is the entry for the year `k` places after the first. */
  lemma {:induction false} YearSpanAt(first: int, count: nat, k: int)
    requires 0 <= k < count
    ensures YearSpan(first, count)[k] == YearOption(first + k)
  {
    var r := YearSpan(first, count);
    if k < count - 1 {
      assert r[k] == YearSpan(first, count - 1)[k];
      YearSpanAt(first, count - 1, k);
    } else {
      assert r[k] == YearOption(first + (count - 1));
    }
  }

  /**
   * Reference definition of the list `init` builds for years-before count `before`
   * and years-after count `after`: the years `currentYear - Runs(before)` up to
   * `currentYear + Runs(after)`, in this order.
   */
  function YearOptions(currentYear: int, before: int, after: int): seq<DropdownOption> {
    YearSpan(currentYear - Runs(before), Runs(before) + 1 + Runs(after))
  }

  /** The entry at position `k` is the year `k` places after the first. */
  lemma YearOptionsAt(currentYear: int, before: int, after: int, k: int)
    requires 0 <= k < Runs(before) + 1 + Runs(after)
    ensures var r := YearOptions(currentYear, before, after);
      |r| == Runs(before) + 1 + Runs(after) &&
      r[k] == YearOption(currentYear - Runs(before) + k) &&
      r[k].key == currentYear - Runs(before) + k
  {
    YearSpanAt(currentYear - Runs(before), Runs(before) + 1 + Runs(after), k);
  }

  /** The list has one entry per loop run, plus the current year. */
  lemma YearOptionsLength(currentYear: int, before: int, after: int)
    ensures |YearOptions(currentYear, before, after)| == Runs(before) + 1 + Runs(after)
  {
  }

  /** Keys are consecutive, hence strictly ascending and distinct. */
  lemma YearOptionsAscending(currentYear: int, before: int, after: int)
    ensures var r := YearOptions(currentYear, before, after);
      (forall i :: 0 <= i < |r| - 1 ==> r[i + 1].key == r[i].key + 1) &&
      (forall i, j :: 0 <= i < j < |r| ==> r[i].key < r[j].key)
  {
    var r := YearOptions(currentYear, before, after);
    forall i | 0 <= i < |r|
      ensures r[i].key == currentYear - Runs(before) + i
    {
      YearOptionsAt(currentYear, before, after, i);
    }
  }

  /** A year is offered exactly when it lies between the first and the last year of the range. */
  lemma YearOptionsRange(currentYear: int, before: int, after: int, year: int)
    ensures var r := YearOptions(currentYear, before, after);
      r[0].key == currentYear - Runs(before) &&
      r[|r| - 1].key == currentYear + Runs(after) &&
      ((exists i :: 0 <= i < |r| && r[i].key == year) <==>
        currentYear - Runs(before) <= year <= currentYear + Runs(after))
  {
    var r := YearOptions(currentYear, before, after);
    forall i | 0 <= i < |r|
      ensures r[i].key == currentYear - Runs(before) + i
    {
      YearOptionsAt(currentYear, before, after, i);
    }
    if currentYear - Runs(before) <= year <= currentYear + Runs(after) {
      var i := year - (currentYear - Runs(before));
      assert r[i].key == year;
    }
  }

  /** The current year is always offered, right after the years before it. */
  lemma YearOptionsContainCurrentYear(currentYear: int, before: int, after: int)
    ensures var r := YearOptions(currentYear, before, after);
      Runs(before) < |r| && r[Runs(before)] == YearOption(currentYear)
  {
    YearOptionsAt(currentYear, before, after, Runs(before));
  }

  /** Every label is the decimal text of its key, and reads back as that key. */
  lemma YearOptionsLabels(currentYear: int, before: int, after: int)
    ensures var r := YearOptions(currentYear, before, after);
      forall i :: 0 <= i < |r| ==> r[i].text == IntToString(r[i].key) && ParseInt(r[i].text) == Some(r[i].key)
  {
    var r := YearOptions(currentYear, before, after);
    forall i | 0 <= i < |r|
      ensures r[i].text == IntToString(r[i].key) && ParseInt(r[i].text) == Some(r[i].key)
    {
      YearOptionsAt(currentYear, before, after, i);
      IntToStringRoundTrip(r[i].key);
    }
  }

  /** A zero or negative count means that no year is added on that side. */
  lemma NonPositiveCountsAddNothing(currentYear: int, before: int, after: int)
    ensures before <= 0 ==> YearOptions(currentYear, before, after) == YearOptions(currentYear, 0, after)
    ensures after <= 0 ==> YearOptions(currentYear, before, after) == YearOptions(currentYear, before, 0)
  {
  }
}
