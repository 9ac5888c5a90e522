# Car maintenance rules, modelled in Dafny

This project models a small maintenance-decision library, `car.py`. The library
answers one question per subsystem: is this car due for engine service, and is
it due for battery service?

- **Rules.** There are three engine rules. Capulet is due once the car has
  travelled 30000 or more since the last service. Willoughby is due at 60000 or
  more. Sternman simply returns the warning-light flag. There are two battery
  rules. Spindler is due once 365·2 = 730 or more days have passed since the
  last service, and Nubbin at 365·4 = 1460 or more.
- **The `Car` aggregate.** A `Car` binds one engine rule and one battery rule
  when it is built, and its two queries hand the question to the bound rule.
  Sternman takes a different argument from the mileage rules. So the engine
  query asks Sternman only about the warning light, which defaults to off, and
  asks every other rule only about the mileage pair.
- **Factories.** Five factories build the five models with a fixed rule pair
  each. Each factory ignores the date and mileage arguments it is given.

Files:

- `calendar.dfy` (module `Calendar`): the dates the battery rules receive. It
  models Python's `date`, which has years 1 to 9999 and counts day ordinals from
  0001-01-01. It uses the closed-form day count of the proleptic Gregorian
  calendar, so `(current_date - last_service_date).days` is the difference of
  two ordinals. The lemmas check that closed form against a year-by-year count.
  They also prove that ordinal order equals date order, and that k calendar
  years hold between 365·k and 366·k days.
- `services.dfy` (module `Services`): the five rule classes. Each engine rule is
  its own predicate, because their argument lists differ. The two battery rules
  share one signature, so a `BatteryService` variant dispatches between them.
- `car.dfy` (module `Cars`): `Car` as an immutable datatype, and the five
  factories. The runtime `isinstance` test on the engine rule is an exhaustive
  `match`. The Python default `warning_light_on=False` is a Dafny default
  parameter value.

The code and its test file disagree about the exact limits. `test/test_car.py:19`
and `test/test_car.py:31` expect a distance of exactly 30000 (Capulet) and
exactly 60000 (Willoughby) to be *not* due. The comparisons at `car.py:12` and
`car.py:16` are `>=`, so both are due. The model follows the code, and
`Services.ExactLimitIsDue` states what the code does. The test file also imports
a module `car_services` that is not part of this model. Its examples are used
only where they agree with `car.py`.

## Model

| member | source | states |
|---|---|---|
| `Services.CapuletNeedsService` | car.py:10-12 | Capulet's verdict: due when the distance since the last service is at least 30000. Its properties are in `MileageBoundaryInclusive`, `MileageRulesDependOnDistanceOnly`, `MileageRulesAcceptNegativeDistance`, `MileageRulesMonotone`, `WilloughbyDueImpliesCapuletDue`, `EngineRuleExamples` and `ExactLimitIsDue`. |
| `Services.WilloughbyNeedsService` | car.py:14-16 | Willoughby's verdict: due when the distance since the last service is at least 60000. Its properties are in the same lemmas as Capulet's. |
| `Services.SternmanNeedsService` | car.py:18-20 | Sternman's verdict is the warning-light flag. See `EngineRuleExamples` and `Cars.SternmanCarIgnoresMileage`. |
| `Services.SpindlerNeedsService` | car.py:28-30 | Spindler's verdict: due when at least 730 days have elapsed. Its properties are in `BatteryBoundaryInclusive`, `BatteryNotDueBeforeLastService`, `BatteryRulesMonotone`, `NubbinDueImpliesSpindlerDue`, `SpindlerDueAfterTwoCalendarYears`, `SpindlerDueOnEveOfSecondAnniversary`, `BatteryRuleExamples` and `DueOnEveOfAnniversaryExamples`. |
| `Services.NubbinNeedsService` | car.py:32-34 | Nubbin's verdict: due when at least 1460 days have elapsed. Its properties are in `BatteryBoundaryInclusive`, `BatteryNotDueBeforeLastService`, `BatteryRulesMonotone`, `NubbinDueImpliesSpindlerDue`, `NubbinDueAfterFourCalendarYears`, `NubbinDueOnEveOfFourthAnniversary`, `BatteryRuleExamples` and `DueOnEveOfAnniversaryExamples`. |
| `Services.BatteryService.NeedsService` | car.py:28-34 | Asks the bound battery rule. What each binding computes is stated by `Cars.Car.NeedsBatteryService`. |
| `Services.MileageBoundaryInclusive` | car.py:10-16 | For any last-service mileage, Capulet is due at exactly +30000 and not at +29999. Willoughby is due at exactly +60000 and not at +59999. |
| `Services.MileageRulesDependOnDistanceOnly` | car.py:11-16 | Both mileage rules depend only on the difference current − last. |
| `Services.MileageRulesAcceptNegativeDistance` | car.py:11-16 | A current mileage below the last-service mileage gives "not due" from both rules and does not fail. |
| `Services.MileageRulesMonotone` | car.py:11-16 | If a mileage rule is due at mileage m, it is due at every m' ≥ m with the same last-service mileage. |
| `Services.WilloughbyDueImpliesCapuletDue` | car.py:11-16 | Willoughby due implies Capulet due. Capulet is due and Willoughby is not exactly when the distance is in [30000, 60000). |
| `Services.EngineRuleExamples` | test/test_car.py:12-43 | (20000,10000) is not due and (40000,10000) is due under Capulet. (40000,10000) is not due and (70000,10000) is due under Willoughby. Sternman returns false for false and true for true. |
| `Services.ExactLimitIsDue` | car.py:11-16 | (30000,0) is due under Capulet and (60000,0) is due under Willoughby, against the test's expectation at test/test_car.py:19 and :31. |
| `Services.BatteryBoundaryInclusive` | car.py:28-34 | Spindler is due at exactly 730 elapsed days and not at 729. Nubbin is due at exactly 1460 and not at 1459. |
| `Services.BatteryNotDueBeforeLastService` | car.py:28-34 | A current date on or before the last service date gives "not due" from both battery rules. |
| `Services.BatteryRulesMonotone` | car.py:28-34 | Once a battery rule is due on a date, it is due on every later date with the same last service date. |
| `Services.NubbinDueImpliesSpindlerDue` | car.py:28-34 | Nubbin due implies Spindler due. |
| `Services.SpindlerDueAfterTwoCalendarYears` | car.py:28-30 | From January 1st to January 1st, Spindler is due exactly when two or more calendar years have passed. This holds whether or not a leap day falls in between. |
| `Services.NubbinDueAfterFourCalendarYears` | car.py:32-34 | From January 1st to January 1st, Nubbin is due exactly when four or more calendar years have passed. This holds for both 1460- and 1461-day spans. |
| `Services.SpindlerDueOnEveOfSecondAnniversary` | car.py:28-30 | From a January 1st service, Spindler is already due on 31 December of the following year exactly when a 29 February lies between. In that case the 730-day limit falls one day before the second anniversary. |
| `Services.NubbinDueOnEveOfFourthAnniversary` | car.py:32-34 | From a January 1st service, Nubbin is already due on 31 December three years later exactly when a 29 February lies between. In that case the 1460-day limit falls one day before the fourth anniversary. |
| `Services.DueOnEveOfAnniversaryExamples` | car.py:28-34 | 2024-01-01 to 2025-12-31 is 730 days, due under Spindler. 2021-01-01 to 2024-12-31 is 1460 days, due under Nubbin. 2021-01-01 to 2022-12-31 has no leap day and is not due under Spindler. |
| `Services.BatteryRuleExamples` | test/test_car.py:45-65 | 2021-01-01 to 2023-01-01 is 730 days, which is due under Spindler and not under Nubbin. 2021-01-01 to 2022-01-01 is 365 days, not due under Spindler. 2021-01-01 to 2025-01-01 is 1461 days, due under Nubbin. |
| `Calendar.ToOrdinal` | car.py:30 | `date.toordinal()`: every date has an ordinal of at least 1. The ordinal's properties are in `OrdinalOrigin`, `DaysBeforeYearCountsYears` and `DaysBetweenSign`. |
| `Calendar.DaysBetween` | car.py:30-34 | `(current_date - last_service_date).days`, the ordinal difference. Its sign is stated by `DaysBetweenSign`, and its size across whole years by `JanuaryFirstSpan` and `YearEndSpan`. |
| `Calendar.YearEndSpan` | car.py:30 | From January 1st of a year to 31 December k − 1 years later lie one day fewer than the k years hold. |
| `Calendar.DaysBetweenSign` | car.py:30 | The elapsed days `(to - from).days` are positive exactly when `to` is the later date, and zero exactly when the two dates are the same day. |
| `Calendar.DaysBeforeYearCountsYears` | car.py:30 | The closed-form count of days before a year, used by the ordinal, equals the days of the intervening years counted one year at a time (365, or 366 in a leap year). |
| `Calendar.YearsLengthBounds` | car.py:30 | k consecutive calendar years hold between 365·k and 366·k days. |
| `Calendar.JanuaryFirstSpan` | car.py:30 | Between the January 1st of two years k apart lie between 365·k and 366·k days. |
| `Calendar.OrdinalOrigin` | car.py:30 | 0001-01-01 has day ordinal 1. |
| `Cars.Car.NeedsEngineService` | car.py:43-47 | A Sternman car's verdict is the warning-light flag. A Capulet car is due exactly when the distance is at least 30000, and a Willoughby car exactly when it is at least 60000. |
| `Cars.Car.NeedsBatteryService` | car.py:49-50 | A Spindler car is due exactly when at least 730 days have elapsed, and a Nubbin car exactly when at least 1460 have. |
| `Cars.SternmanCarIgnoresMileage` | car.py:43-45 | A Sternman car's engine verdict does not depend on either mileage. Called without the flag, it is "not due". |
| `Cars.MileageCarIgnoresWarningLight` | car.py:46-47 | A car bound to Capulet or Willoughby gives the same engine verdict with the warning light on or off. |
| `Cars.EngineVerdictMonotone` | car.py:43-47 | Every car's engine verdict, once due, stays due as the current mileage rises. |
| `Cars.BatteryVerdictMonotone` | car.py:49-50 | Every car's battery verdict, once due, stays due on every later date. |
| `Cars.SameBindingsSameVerdicts` | car.py:37-50 | Two cars with the same rule bindings answer every engine and battery query alike. |
| `Cars.CreateCalliope` | car.py:53-57 | Builds "Calliope" bound to Capulet and Spindler. |
| `Cars.CreateGlissade` | car.py:59-63 | Builds "Glissade" bound to Willoughby and Spindler. |
| `Cars.CreatePalindrome` | car.py:65-69 | Builds "Palindrome" bound to Sternman and Spindler. |
| `Cars.CreateRorschach` | car.py:71-75 | Builds "Rorschach" bound to Willoughby and Nubbin. |
| `Cars.CreateThovex` | car.py:77-81 | Builds "Thovex" bound to Capulet and Nubbin. |
| `Cars.FactoriesIgnoreArguments` | car.py:53-81 | Two calls to the same factory with different dates, mileages or warning-light flags build the same car. |

## Left out

- The example usage at the end of `car.py` (lines 83-94) is left out. It reads
  the wall clock through `date.today()` and only builds sample instances.
- The abstract base classes `EngineService` and `BatteryService` (car.py:5-8
  and 23-26) are left out. Datatypes with an exhaustive `match` replace them. A
  call that Python would reject at run time, such as asking Sternman about
  mileages, cannot be written in the model.
- `Car`'s constructor accepts any objects in Python. The model restricts its
  rule fields to the five known rules.
- Dates outside Python's range (years 1 to 9999) cannot be built in Python,
  so the model does not represent them. `DaysBetween` computes the day count
  for every pair of dates. The lemmas about whole calendar years are stated
  from a January 1st, to a January 1st or to a 31 December. No lemma covers
  anniversaries of other days.
