/** The rule catalogue of car.py: three engine rules and two battery rules.
    Each rule class has one `needs_service` predicate.  The two mileage rules
    and the warning-light rule take different arguments, so each engine rule
    is its own predicate.  The battery rules share one signature, so
    `BatteryService.NeedsService` dispatches on the variant. */
module Services {
  import opened Calendar

  const CapuletMileageLimit: int := 30000
  const WilloughbyMileageLimit: int := 60000
  const SpindlerDayLimit: int := 365 * 2
  const NubbinDayLimit: int := 365 * 4

  /** `CapuletEngineService.needs_service`. */
  predicate CapuletNeedsService(currentMileage: int, lastServiceMileage: int) {
    currentMileage - lastServiceMileage >= CapuletMileageLimit
  }

  /** `WilloughbyEngineService.needs_service`. */
  predicate WilloughbyNeedsService(currentMileage: int, lastServiceMileage: int) {
    currentMileage - lastServiceMileage >= WilloughbyMileageLimit
  }

  /** `SternmanEngineService.needs_service`: the warning light decides alone. */
  predicate SternmanNeedsService(warningLightOn: bool) {
    warningLightOn
  }

  /** `SpindlerBatteryService.needs_service`. */
  predicate SpindlerNeedsService(lastServiceDate: Date, currentDate: Date) {
    DaysBetween(lastServiceDate, currentDate) >= SpindlerDayLimit
  }

  /** `NubbinBatteryService.needs_service`. */
  predicate NubbinNeedsService(lastServiceDate: Date, currentDate: Date) {
    DaysBetween(lastServiceDate, currentDate) >= NubbinDayLimit
  }

  /** The engine rule a car is bound to. */
  datatype EngineService = CapuletEngineService | WilloughbyEngineService | SternmanEngineService

  /** The battery rule a car is bound to. */
  datatype BatteryService = SpindlerBatteryService | NubbinBatteryService {

    predicate NeedsService(lastServiceDate: Date, currentDate: Date) {
      match this
      case SpindlerBatteryService => SpindlerNeedsService(lastServiceDate, currentDate)
      case NubbinBatteryService => NubbinNeedsService(lastServiceDate, currentDate)
    }
  }

  // ----- Engine rules -----

  /** Both mileage thresholds are inclusive: a distance exactly at the limit
      is due, one unit short of it is not. */
  lemma MileageBoundaryInclusive(lastServiceMileage: int)
    ensures CapuletNeedsService(lastServiceMileage + 30000, lastServiceMileage)
    ensures !CapuletNeedsService(lastServiceMileage + 29999, lastServiceMileage)
    ensures WilloughbyNeedsService(lastServiceMileage + 60000, lastServiceMileage)
    ensures !WilloughbyNeedsService(lastServiceMileage + 59999, lastServiceMileage)
  {
  }

  /** Only the distance travelled since the last service matters. */
  lemma MileageRulesDependOnDistanceOnly(current1: int, last1: int, current2: int, last2: int)
    requires current1 - last1 == current2 - last2
    ensures CapuletNeedsService(current1, last1) == CapuletNeedsService(current2, last2)
    ensures WilloughbyNeedsService(current1, last1) == WilloughbyNeedsService(current2, last2)
  {
  }

  /** An odometer reading below the last-service reading is never due; it is
      not an error. */
  lemma MileageRulesAcceptNegativeDistance(currentMileage: int, lastServiceMileage: int)
    requires currentMileage < lastServiceMileage
    ensures !CapuletNeedsService(currentMileage, lastServiceMileage)
    ensures !WilloughbyNeedsService(currentMileage, lastServiceMileage)
  {
  }

  /** Once due, a mileage rule stays due as the odometer keeps rising. */
  lemma MileageRulesMonotone(currentMileage: int, laterMileage: int, lastServiceMileage: int)
    requires currentMileage <= laterMileage
    ensures CapuletNeedsService(currentMileage, lastServiceMileage) ==> CapuletNeedsService(laterMileage, lastServiceMileage)
    ensures WilloughbyNeedsService(currentMileage, lastServiceMileage) ==> WilloughbyNeedsService(laterMileage, lastServiceMileage)
  {
  }

  /** Willoughby is the laxer policy: whenever it is due, Capulet is too; and
      from 30000 up to 59999 Capulet is due while Willoughby is not. */
  lemma WilloughbyDueImpliesCapuletDue(currentMileage: int, lastServiceMileage: int)
    ensures WilloughbyNeedsService(currentMileage, lastServiceMileage) ==> CapuletNeedsService(currentMileage, lastServiceMileage)
    ensures (CapuletNeedsService(currentMileage, lastServiceMileage) && !WilloughbyNeedsService(currentMileage, lastServiceMileage))
            <==> 30000 <= currentMileage - lastServiceMileage < 60000
  {
  }

  /** The engine examples of the test suite that agree with the code. */
  lemma EngineRuleExamples()
    ensures !CapuletNeedsService(20000, 10000) && CapuletNeedsService(40000, 10000)
    ensures !WilloughbyNeedsService(40000, 10000) && WilloughbyNeedsService(70000, 10000)
    ensures !SternmanNeedsService(false) && SternmanNeedsService(true)
  {
  }

  /** The test suite expects (30000, 0) and (60000, 0) to be not due; the
      code's inclusive comparison makes both due. */
  lemma ExactLimitIsDue()
    ensures CapuletNeedsService(30000, 0)
    ensures WilloughbyNeedsService(60000, 0)
  {
  }

  // ----- Battery rules -----

  /** Both age thresholds are inclusive, counted in elapsed days. */
  lemma BatteryBoundaryInclusive(lastServiceDate: Date, currentDate: Date)
    ensures DaysBetween(lastServiceDate, currentDate) == 730 ==> SpindlerNeedsService(lastServiceDate, currentDate)
    ensures DaysBetween(lastServiceDate, currentDate) == 729 ==> !SpindlerNeedsService(lastServiceDate, currentDate)
    ensures DaysBetween(lastServiceDate, currentDate) == 1460 ==> NubbinNeedsService(lastServiceDate, currentDate)
    ensures DaysBetween(lastServiceDate, currentDate) == 1459 ==> !NubbinNeedsService(lastServiceDate, currentDate)
  {
  }

  /** A current date on or before the last service date is never due. */
  lemma BatteryNotDueBeforeLastService(lastServiceDate: Date, currentDate: Date)
    requires !lastServiceDate.Before(currentDate)
    ensures !SpindlerNeedsService(lastServiceDate, currentDate)
    ensures !NubbinNeedsService(lastServiceDate, currentDate)
  {
    DaysBetweenSign(lastServiceDate, currentDate);
  }

  /** Once due, a battery rule stays due on every later date. */
  lemma BatteryRulesMonotone(lastServiceDate: Date, currentDate: Date, laterDate: Date)
    requires currentDate.Before(laterDate)
    ensures SpindlerNeedsService(lastServiceDate, currentDate) ==> SpindlerNeedsService(lastServiceDate, laterDate)
    ensures NubbinNeedsService(lastServiceDate, currentDate) ==> NubbinNeedsService(lastServiceDate, laterDate)
  {
    DaysBetweenSign(currentDate, laterDate);
  }

  /** Nubbin is the laxer policy: whenever it is due, Spindler is too. */
  lemma NubbinDueImpliesSpindlerDue(lastServiceDate: Date, currentDate: Date)
    ensures NubbinNeedsService(lastServiceDate, currentDate) ==> SpindlerNeedsService(lastServiceDate, currentDate)
  {
  }

  /** From a January 1st to a later January 1st, Spindler is due exactly when
      two or more calendar years have passed.  Between other dates it can
      fall due a day before the second anniversary: see
      `SpindlerDueOnEveOfSecondAnniversary`. */
  lemma SpindlerDueAfterTwoCalendarYears(lastServiceYear: int, currentYear: int)
    requires MinYear <= lastServiceYear <= MaxYear && MinYear <= currentYear <= MaxYear
    ensures SpindlerNeedsService(JanuaryFirst(lastServiceYear), JanuaryFirst(currentYear))
            <==> currentYear - lastServiceYear >= 2
  {
    if lastServiceYear <= currentYear {
      JanuaryFirstSpan(lastServiceYear, currentYear);
    } else {
      JanuaryFirstSpan(currentYear, lastServiceYear);
    }
  }

  /** From a January 1st to a later January 1st, Nubbin is due exactly when
      four or more calendar years have passed.  Between other dates it can
      fall due a day before the fourth anniversary: see
      `NubbinDueOnEveOfFourthAnniversary`. */
  lemma NubbinDueAfterFourCalendarYears(lastServiceYear: int, currentYear: int)
    requires MinYear <= lastServiceYear <= MaxYear && MinYear <= currentYear <= MaxYear
    ensures NubbinNeedsService(JanuaryFirst(lastServiceYear), JanuaryFirst(currentYear))
            <==> currentYear - lastServiceYear >= 4
  {
    if lastServiceYear <= currentYear {
      JanuaryFirstSpan(lastServiceYear, currentYear);
    } else {
      JanuaryFirstSpan(currentYear, lastServiceYear);
    }
  }

  /** A limit of 365·2 days falls on the last day before the second
      anniversary of a January 1st service exactly when a 29 February lies
      between. */
  lemma SpindlerDueOnEveOfSecondAnniversary(lastServiceYear: int)
    requires MinYear <= lastServiceYear && lastServiceYear + 1 <= MaxYear
    ensures SpindlerNeedsService(JanuaryFirst(lastServiceYear), DecemberThirtyFirst(lastServiceYear + 1))
            <==> IsLeap(lastServiceYear) || IsLeap(lastServiceYear + 1)
  {
    YearEndSpan(lastServiceYear, 2);
  }

  /** A limit of 365·4 days falls on the last day before the fourth
      anniversary of a January 1st service exactly when a 29 February lies
      between. */
  lemma NubbinDueOnEveOfFourthAnniversary(lastServiceYear: int)
    requires MinYear <= lastServiceYear && lastServiceYear + 3 <= MaxYear
    ensures NubbinNeedsService(JanuaryFirst(lastServiceYear), DecemberThirtyFirst(lastServiceYear + 3))
            <==> IsLeap(lastServiceYear) || IsLeap(lastServiceYear + 1) || IsLeap(lastServiceYear + 2) || IsLeap(lastServiceYear + 3)
  {
    YearEndSpan(lastServiceYear, 4);
  }

  /** Two spans where the limit is reached one day before the anniversary,
      the second from the test suite's own start date; and one without a leap
      day, where it is not. */
  lemma DueOnEveOfAnniversaryExamples()
    ensures DaysBetween(YearMonthDay(2024, 1, 1), YearMonthDay(2025, 12, 31)) == 730
    ensures SpindlerNeedsService(YearMonthDay(2024, 1, 1), YearMonthDay(2025, 12, 31))
    ensures DaysBetween(YearMonthDay(2021, 1, 1), YearMonthDay(2024, 12, 31)) == 1460
    ensures NubbinNeedsService(YearMonthDay(2021, 1, 1), YearMonthDay(2024, 12, 31))
    ensures !SpindlerNeedsService(YearMonthDay(2021, 1, 1), YearMonthDay(2022, 12, 31))
  {
  }

  /** The battery examples of the test suite, on their calendar dates. */
  lemma BatteryRuleExamples()
    ensures DaysBetween(YearMonthDay(2021, 1, 1), YearMonthDay(2023, 1, 1)) == 730
    ensures DaysBetween(YearMonthDay(2021, 1, 1), YearMonthDay(2022, 1, 1)) == 365
    ensures DaysBetween(YearMonthDay(2021, 1, 1), YearMonthDay(2025, 1, 1)) == 1461
    ensures SpindlerNeedsService(YearMonthDay(2021, 1, 1), YearMonthDay(2023, 1, 1))
    ensures !SpindlerNeedsService(YearMonthDay(2021, 1, 1), YearMonthDay(2022, 1, 1))
    ensures NubbinNeedsService(YearMonthDay(2021, 1, 1), YearMonthDay(2025, 1, 1))
    ensures !NubbinNeedsService(YearMonthDay(2021, 1, 1), YearMonthDay(2023, 1, 1))
  {
  }
}
