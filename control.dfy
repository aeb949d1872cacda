/**
 * The year-only date control: it caches the year entries at initialisation, hands
 * the dropdown the sentinel-prefixed list and the bound date's year, records the
 * user's selection, and gives the host January 2 of the selected year, timezone
 * corrected, or no value.
 */
module Control {
  import opened Wrappers
  import opened Decimal
  import opened TimeZone
  import opened YearRange

  /** A whole-number input property (`yearsBeforeAmount`, `yearsAfterAmount`). */
  datatype WholeProperty = WholeProperty(raw: Option<int>)

  /** The metadata of the bound date field; only its behavior code is used. */
  datatype DateAttributes = DateAttributes(behavior: int)

  /** The bound date property `value`: the date, if any, and the field's metadata, if the host gave it. */
  datatype DateProperty = DateProperty(raw: Option<Date>, attributes: Option<DateAttributes>)

  /** The part of the host's context object that the control reads. */
  datatype Context = Context(
    value: Option<DateProperty>,
    yearsBeforeAmount: Option<WholeProperty>,
    yearsAfterAmount: Option<WholeProperty>,
    isControlDisabled: bool,
    // `userSettings.getTimeZoneOffsetMinutes`
    timeZoneOffsetMinutes: Date -> int)

  /** The ways the timezone correction throws: a missing context, value property or field metadata. */
  datatype HostError = ContextMissing | ValuePropertyMissing | AttributesMissing

  /** The properties handed to the dropdown on each render. */
  datatype View = View(selectedValue: int, availableOptions: seq<DropdownOption>, isDisabled: bool)

  /** What `getOutputs` returns: the bound value, or none. */
  datatype Outputs = Outputs(value: Option<Date>)

  const SentinelKey: int := -1
  const SentinelText: string := "----"

  /** The "no selection" entry shown first in the dropdown. */
  function Sentinel(): (o: DropdownOption)
    ensures o.key == SentinelKey && o.text == SentinelText
  {
    DropdownOption(SentinelKey, SentinelText)
  }

  /** `p?.raw ?? 1`: the count the host gave, or 1 when the property or its value is missing. */
  function CountOrDefault(p: Option<WholeProperty>): (n: int)
    ensures p.None? || p.value.raw.None? ==> n == 1
    ensures p.Some? && p.value.raw.Some? ==> n == p.value.raw.value
  {
    match p
    case Some(WholeProperty(Some(n))) => n
    case _ => 1
  }

  /** The key the dropdown shows as selected: the bound date's year, or the sentinel when no date is bound. */
  function ResolveSelectedValue(value: Option<DateProperty>, fullYear: Date -> int): (k: int)
    ensures value.Some? && value.value.raw.Some? ==> k == fullYear(value.value.raw.value)
    ensures value.None? || value.value.raw.None? ==> k == SentinelKey
  {
    if value.Some? && value.value.raw.Some? then fullYear(value.value.raw.value) else SentinelKey
  }

  /** The list handed to the dropdown: the sentinel, then the cached entries unchanged. */
  function PresentedOptions(options: seq<DropdownOption>): (r: seq<DropdownOption>)
    ensures |r| == |options| + 1
    ensures r[0] == Sentinel() && r[1..] == options
  {
    [Sentinel()] + options
  }

  /** The `onChange` mapping: no option or the sentinel clears the value, any other key is kept. */
  function SelectionToValue(selected: Option<DropdownOption>): (v: Option<int>)
    ensures v.None? <==> selected.None? || selected.value.key == SentinelKey
    ensures v.Some? ==> v.value == selected.value.key
  {
    if selected.None? || selected.value.key == SentinelKey then None else Some(selected.value.key)
  }

  /** The `getOutputs` guard: a value is produced unless the current value is -1 or undefined. */
  predicate HasOutput(currentValue: Option<int>) {
    !(currentValue == Some(SentinelKey) || currentValue.None?)
  }

  /** The local date `getOutputs` corrects: `new Date(year, 0, 2)`. */
  function JanuarySecond(year: int, cal: Calendar): Date {
    cal.localDate(year, 0, 2)
  }

  /**
   * The `getOutputs` guard passes on the stored value exactly when the selection is an
   * option other than the sentinel, and the stored value is then that option's key.
   */
  lemma SelectionDecidesOutput(selected: Option<DropdownOption>)
    ensures HasOutput(SelectionToValue(selected)) <==> selected.Some? && selected.value.key != SentinelKey
    ensures HasOutput(SelectionToValue(selected)) ==> SelectionToValue(selected).value == selected.value.key
  {
  }

  /**
   * When no date is bound, or the bound date's year lies in the range built at
   * initialisation, the resolved key is one the dropdown offers.
   */
  lemma ResolvedValueIsOffered(value: Option<DateProperty>, fullYear: Date -> int, currentYear: int, before: int, after: int)
    requires value.Some? && value.value.raw.Some? ==>
      currentYear - Runs(before) <= fullYear(value.value.raw.value) <= currentYear + Runs(after)
    ensures var r := PresentedOptions(YearOptions(currentYear, before, after));
      exists i :: 0 <= i < |r| && r[i].key == ResolveSelectedValue(value, fullYear)
  {
    var options := YearOptions(currentYear, before, after);
    var r := PresentedOptions(options);
    var k := ResolveSelectedValue(value, fullYear);
    if value.Some? && value.value.raw.Some? {
      YearOptionsRange(currentYear, before, after, k);
      var i :| 0 <= i < |options| && options[i].key == k;
      assert r[i + 1] == options[i];
    } else {
      assert r[0].key == k;
    }
  }

  /**
   * The presented keys are all distinct exactly when the year -1 lies outside the
   * range; otherwise the entry for the year -1 shares the sentinel's key.
   */
  lemma PresentedKeysDistinct(currentYear: int, before: int, after: int)
    ensures var r := PresentedOptions(YearOptions(currentYear, before, after));
      (forall i, j :: 0 <= i < j < |r| ==> r[i].key != r[j].key) <==>
      !(currentYear - Runs(before) <= SentinelKey <= currentYear + Runs(after))
  {
    var options := YearOptions(currentYear, before, after);
    var r := PresentedOptions(options);
    YearOptionsAscending(currentYear, before, after);
    YearOptionsRange(currentYear, before, after, SentinelKey);
    if currentYear - Runs(before) <= SentinelKey <= currentYear + Runs(after) {
      var i :| 0 <= i < |options| && options[i].key == SentinelKey;
      assert r[i + 1] == options[i];
      assert r[0].key == r[i + 1].key;
    } else {
      forall i, j | 0 <= i < j < |r|
        ensures r[i].key != r[j].key
      {
        assert r[j] == options[j - 1];
        if i > 0 {
          assert r[i] == options[i - 1];
        }
      }
    }
  }

  /** The control instance, with the fields the TypeScript control updates. */
  class DateTimeYearOnly {
    var availableOptions: seq<DropdownOption>
    var context: Option<Context>
    var currentValue: Option<int>
    var currentYear: int

    /** The empty constructor: nothing is cached and no value is selected. */
    constructor ()
      ensures availableOptions == [] && context == None && currentValue == None
    {
      availableOptions := [];
      context := None;
      currentValue := None;
      currentYear := 0;
    }

    /**
     * `init`: saves the context, reads the current year from the clock `now`, and
     * builds the year entries with the two counting loops, then renders.
     */
    method Init(ctx: Context, cal: Calendar, now: Date) returns (view: View)
      modifies this`availableOptions, this`context, this`currentYear
      ensures context == Some(ctx)
      ensures currentYear == cal.fullYear(now)
      ensures availableOptions ==
        YearOptions(currentYear, CountOrDefault(ctx.yearsBeforeAmount), CountOrDefault(ctx.yearsAfterAmount))
      ensures view == RenderView(ctx, cal)
    {
      availableOptions := [];
      context := Some(ctx);
      currentYear := cal.fullYear(now);

      var yearsBeforeAmount := CountOrDefault(ctx.yearsBeforeAmount);
      PushYearsBefore(yearsBeforeAmount);

      // the current year
      YearSpanAppend(availableOptions, currentYear - Runs(yearsBeforeAmount), Runs(yearsBeforeAmount), currentYear);
      availableOptions := availableOptions + [YearOption(currentYear)];

      var yearsAfterAmount := CountOrDefault(ctx.yearsAfterAmount);
      PushYearsAfter(yearsAfterAmount, Runs(yearsBeforeAmount));

      view := RenderView(ctx, cal);
    }

    /** The years-before loop of `init`: pushes the `yearsBeforeAmount` years before the current one, oldest first. */
    method PushYearsBefore(yearsBeforeAmount: int)
      requires availableOptions == []
      modifies this`availableOptions
      ensures availableOptions == YearSpan(currentYear - Runs(yearsBeforeAmount), Runs(yearsBeforeAmount))
    {
      ghost var first := currentYear - Runs(yearsBeforeAmount);
      ghost var pushed: nat := 0;
      var i := yearsBeforeAmount;
      while i > 0
        invariant if yearsBeforeAmount > 0 then 0 <= i <= yearsBeforeAmount else i == yearsBeforeAmount
        invariant pushed == Runs(yearsBeforeAmount) - Runs(i)
        invariant availableOptions == YearSpan(first, pushed)
      {
        YearSpanAppend(availableOptions, first, pushed, currentYear - i);
        availableOptions := availableOptions + [YearOption(currentYear - i)];
        pushed := pushed + 1;
        i := i - 1;
      }
    }

    /**
     * The years-after loop of `init`: following the `before` earlier years and the
     * current one, pushes the `yearsAfterAmount` years after the current one, in order.
     */
    method PushYearsAfter(yearsAfterAmount: int, ghost before: nat)
      requires availableOptions == YearSpan(currentYear - before, before + 1)
      modifies this`availableOptions
      ensures availableOptions == YearSpan(currentYear - before, before + 1 + Runs(yearsAfterAmount))
    {
      ghost var first := currentYear - before;
      ghost var pushed: nat := before + 1;
      var i := 1;
      while i <= yearsAfterAmount
        invariant 1 <= i <= Runs(yearsAfterAmount) + 1
        invariant pushed == before + i
        invariant availableOptions == YearSpan(first, pushed)
      {
        YearSpanAppend(availableOptions, first, pushed, currentYear + i);
        availableOptions := availableOptions + [YearOption(currentYear + i)];
        pushed := pushed + 1;
        i := i + 1;
      }
    }

    /**
     * `renderView` (also all that `updateView` does): the dropdown receives the bound
     * date's year as the selected key, the sentinel followed by the cached entries,
     * and the host's disabled flag.
     */
    function RenderView(ctx: Context, cal: Calendar): (view: View)
      reads this
      ensures view.selectedValue == ResolveSelectedValue(ctx.value, cal.fullYear)
      ensures |view.availableOptions| == |availableOptions| + 1
      ensures view.availableOptions[0] == Sentinel() && view.availableOptions[1..] == availableOptions
      ensures view.isDisabled == ctx.isControlDisabled
    {
      View(ResolveSelectedValue(ctx.value, cal.fullYear), PresentedOptions(availableOptions), ctx.isControlDisabled)
    }

    /** The dropdown's `onChange` handler: records the selection as the current value. */
    method OnChange(selected: Option<DropdownOption>)
      modifies this`currentValue
      ensures currentValue == SelectionToValue(selected)
    {
      currentValue := SelectionToValue(selected);
    }

    /**
     * `correctTimeZone`, with the field behavior taken from the context saved by
     * `init`; it fails where the TypeScript control would throw on a missing object.
     */
    function CorrectTimeZone(date: Date, cal: Calendar): (r: Result<Date, HostError>)
      reads this
      ensures r.Failure? <==>
        context.None? || context.value.value.None? || context.value.value.value.attributes.None?
      ensures r.Success? ==>
        r.value == Corrected(date, context.value.value.value.attributes.value.behavior,
                             cal.timezoneOffset, context.value.timeZoneOffsetMinutes)
    {
      match context
      case None => Failure(ContextMissing)
      case Some(ctx) =>
        match ctx.value
        case None => Failure(ValuePropertyMissing)
        case Some(property) =>
          match property.attributes
          case None => Failure(AttributesMissing)
          case Some(attributes) =>
            Success(Corrected(date, attributes.behavior, cal.timezoneOffset, ctx.timeZoneOffsetMinutes))
    }

    /**
     * `getOutputs`: no value in the empty state; otherwise January 2 of the selected
     * year, timezone corrected.
     */
    function GetOutputs(cal: Calendar): (r: Result<Outputs, HostError>)
      reads this
      ensures r == Success(Outputs(None)) <==> !HasOutput(currentValue)
      ensures HasOutput(currentValue) ==>
        var corrected := CorrectTimeZone(JanuarySecond(currentValue.value, cal), cal);
        (r.Success? <==> corrected.Success?) &&
        (r.Success? ==> r.value == Outputs(Some(corrected.value))) &&
        (r.Failure? ==> r.error == corrected.error)
    {
      if currentValue == Some(SentinelKey) || currentValue.None? then
        Success(Outputs(None))
      else
        match CorrectTimeZone(JanuarySecond(currentValue.value, cal), cal)
        case Success(date) => Success(Outputs(Some(date)))
        case Failure(e) => Failure(e)
    }
  }

  /**
   * A worked session: the current year is 2024, two years before and one after are
   * asked for, the field stores user-local dates (behavior code 1), the host offset
   * is zero; the user picks 2023.
   */
  method ExampleSession(cal: Calendar, now: Date) returns (options: seq<DropdownOption>, picked: Result<Outputs, HostError>)
    requires cal.fullYear(now) == 2024
    ensures |options| == 4 && forall k :: 0 <= k < 4 ==> options[k].key == 2022 + k
    ensures picked == Success(Outputs(Some(JanuarySecond(2023, cal) + cal.timezoneOffset(JanuarySecond(2023, cal)))))
  {
    var control := new DateTimeYearOnly();
    var userLocal := Some(DateProperty(None, Some(DateAttributes(1))));
    var ctx := Context(userLocal, Some(WholeProperty(Some(2))), Some(WholeProperty(Some(1))), false, d => 0);
    var view := control.Init(ctx, cal, now);
    options := control.availableOptions;
    assert options == YearOptions(2024, 2, 1);
    forall k | 0 <= k < 4
      ensures options[k].key == 2022 + k
    {
      YearOptionsAt(2024, 2, 1, k);
    }
    assert view.availableOptions[2].key == 2023;

    control.OnChange(Some(view.availableOptions[2]));
    assert control.currentValue == Some(2023) && control.context == Some(ctx);
    ghost var date := JanuarySecond(2023, cal);
    assert HostOffset(1, ctx.timeZoneOffsetMinutes, date) == 0;
    assert control.CorrectTimeZone(date, cal) == Success(date + cal.timezoneOffset(date));
    picked := control.GetOutputs(cal);
  }

  /** The labels of that session's entries, spelled out. */
  lemma ExampleSessionLabels()
    ensures YearOptions(2024, 2, 1) ==
      [DropdownOption(2022, "2022"), DropdownOption(2023, "2023"), DropdownOption(2024, "2024"), DropdownOption(2025, "2025")]
  {
    assert IntToString(2) == "2";
    assert IntToString(20) == "20";
    assert IntToString(202) == "202";
    assert IntToString(2022) == "2022";
    assert IntToString(2023) == "2023";
    assert IntToString(2024) == "2024";
    assert IntToString(2025) == "2025";
    forall k | 0 <= k < 4
      ensures YearOptions(2024, 2, 1)[k] == YearOption(2022 + k)
    {
      YearOptionsAt(2024, 2, 1, k);
    }
  }
}
