/** The month picker of the bill and monthly-data pages: the current month
    and the five before it, newest first. */
module MonthPicker {

  datatype MonthOption = MonthOption(month0: int, year: int)

  /** The bill page and the monthly-data page take the previous year when
      the month number exceeds the current one; the monthly-data component
      also requires the option not to be the first. */
  datatype YearRule = PlainRule | SkipFirstRule

  /** The position of a month on a single count of months. */
  function MonthIndex(o: MonthOption): int {
    12 * o.year + o.month0
  }

  /** The option `i` months back: the month wraps below January, and the
      year is the previous one when the month number exceeds the current
      one (under the component's rule, only after the first option). */
  function OptionAt(currentMonth: int, currentYear: int, rule: YearRule, i: int): MonthOption {
    var month := (currentMonth - i + 12) % 12;
    var year := if (match rule case PlainRule => month > currentMonth case SkipFirstRule => month > currentMonth && i > 0)
                then currentYear - 1 else currentYear;
    MonthOption(month, year)
  }

  /** The options `getMonthOptions` lists: six valid months, the i-th being
      i months before the current one. */
  function MonthOptions(currentMonth: int, currentYear: int, rule: YearRule): (options: seq<MonthOption>)
    requires 0 <= currentMonth < 12
    ensures |options| == 6
    ensures forall i :: 0 <= i < 6 ==> 0 <= options[i].month0 < 12
    ensures forall i :: 0 <= i < 6 ==> MonthIndex(options[i]) == 12 * currentYear + currentMonth - i
  {
    seq(6, i requires 0 <= i < 6 => OptionAt(currentMonth, currentYear, rule, i))
  }

  /** `getMonthOptions` for the given current month and year. */
  method GetMonthOptions(currentMonth: int, currentYear: int, rule: YearRule) returns (options: seq<MonthOption>)
    requires 0 <= currentMonth < 12
    ensures options == MonthOptions(currentMonth, currentYear, rule)
    ensures |options| == 6
    ensures forall i :: 0 <= i < 6 ==> 0 <= options[i].month0 < 12
    ensures forall i :: 0 <= i < 6 ==> MonthIndex(options[i]) == 12 * currentYear + currentMonth - i
  {
    options := [];
    var i := 0;
    while i < 6
      invariant 0 <= i <= 6 && |options| == i
      invariant forall j :: 0 <= j < i ==> options[j] == OptionAt(currentMonth, currentYear, rule, j)
    {
      var month := (currentMonth - i + 12) % 12;
      var year := if (match rule case PlainRule => month > currentMonth case SkipFirstRule => month > currentMonth && i > 0)
                  then currentYear - 1 else currentYear;
      options := options + [MonthOption(month, year)];
      i := i + 1;
    }
  }

  /** The options are six consecutive months, each one month before the
      previous, so no month appears twice, and the first is the current one. */
  lemma OptionsConsecutive(options: seq<MonthOption>, currentMonth: int, currentYear: int)
    requires |options| == 6
    requires forall i :: 0 <= i < 6 ==> 0 <= options[i].month0 < 12
    requires forall i :: 0 <= i < 6 ==> MonthIndex(options[i]) == 12 * currentYear + currentMonth - i
    requires 0 <= currentMonth < 12
    ensures options[0] == MonthOption(currentMonth, currentYear)
    ensures forall i :: 0 < i < 6 ==> MonthIndex(options[i]) + 1 == MonthIndex(options[i - 1])
    ensures forall i, j :: 0 <= i < j < 6 ==> options[i] != options[j]
    ensures forall i :: 0 < i < 6 ==>
              if options[i - 1].month0 == 0 then options[i] == MonthOption(11, options[i - 1].year - 1)
              else options[i] == MonthOption(options[i - 1].month0 - 1, options[i - 1].year)
  {
    assert MonthIndex(options[0]) == 12 * currentYear + currentMonth;
    forall i | 0 < i < 6
      ensures if options[i - 1].month0 == 0 then options[i] == MonthOption(11, options[i - 1].year - 1)
              else options[i] == MonthOption(options[i - 1].month0 - 1, options[i - 1].year)
    {
      assert MonthIndex(options[i]) + 1 == MonthIndex(options[i - 1]);
    }
  }

  /** The two year rules give the same options: at the first option the
      month is the current one, so the extra condition never decides. */
  lemma RulesAgree(currentMonth: int, currentYear: int)
    requires 0 <= currentMonth < 12
    ensures MonthOptions(currentMonth, currentYear, PlainRule) == MonthOptions(currentMonth, currentYear, SkipFirstRule)
    ensures MonthOptions(currentMonth, currentYear, PlainRule)[0] == MonthOption(currentMonth, currentYear)
  {
    var plain := MonthOptions(currentMonth, currentYear, PlainRule);
    var skipFirst := MonthOptions(currentMonth, currentYear, SkipFirstRule);
    OptionsConsecutive(plain, currentMonth, currentYear);
    OptionsConsecutive(skipFirst, currentMonth, currentYear);
    assert forall i :: 0 <= i < 6 ==> plain[i] == skipFirst[i];
  }
}
