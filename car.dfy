/** The `Car` aggregate of car.py and its five factories.  A car binds one
    engine rule and one battery rule when it is built and never changes them;
    its queries hand each question to the bound rule. */
module Cars {
  import opened Calendar
  import opened Services

  datatype Car = Car(model: string, engineService: EngineService, batteryService: BatteryService) {

    /** `Car.needs_engine_service`.  The Sternman rule is asked about the
        warning light alone, every other rule about the mileage pair alone;
        the warning light is off unless the caller says otherwise. */
    function NeedsEngineService(currentMileage: int, lastServiceMileage: int, warningLightOn: bool := false): (due: bool)
      ensures engineService == SternmanEngineService ==> (due <==> warningLightOn)
      ensures engineService == CapuletEngineService ==> (due <==> currentMileage - lastServiceMileage >= 30000)
      ensures engineService == WilloughbyEngineService ==> (due <==> currentMileage - lastServiceMileage >= 60000)
    {
      match engineService
      case SternmanEngineService => SternmanNeedsService(warningLightOn)
      case CapuletEngineService => CapuletNeedsService(currentMileage, lastServiceMileage)
      case WilloughbyEngineService => WilloughbyNeedsService(currentMileage, lastServiceMileage)
    }

    /** `Car.needs_battery_service`. */
    function NeedsBatteryService(lastServiceDate: Date, currentDate: Date): (due: bool)
      ensures batteryService == SpindlerBatteryService ==> (due <==> DaysBetween(lastServiceDate, currentDate) >= 730)
      ensures batteryService == NubbinBatteryService ==> (due <==> DaysBetween(lastServiceDate, currentDate) >= 1460)
    {
      batteryService.NeedsService(lastServiceDate, currentDate)
    }
  }

  /** `create_calliope`: the date and mileage arguments play no part. */
  function CreateCalliope(currentDate: Date, lastServiceDate: Date, currentMileage: int, lastServiceMileage: int): (car: Car)
    ensures car.model == "Calliope"
    ensures car.engineService == CapuletEngineService && car.batteryService == SpindlerBatteryService
  {
    Car("Calliope", CapuletEngineService, SpindlerBatteryService)
  }

  /** `create_glissade`. */
  function CreateGlissade(currentDate: Date, lastServiceDate: Date, currentMileage: int, lastServiceMileage: int): (car: Car)
    ensures car.model == "Glissade"
    ensures car.engineService == WilloughbyEngineService && car.batteryService == SpindlerBatteryService
  {
    Car("Glissade", WilloughbyEngineService, SpindlerBatteryService)
  }

  /** `create_palindrome`: takes the warning light instead of mileages, and
      ignores it too. */
  function CreatePalindrome(currentDate: Date, lastServiceDate: Date, warningLightOn: bool): (car: Car)
    ensures car.model == "Palindrome"
    ensures car.engineService == SternmanEngineService && car.batteryService == SpindlerBatteryService
  {
    Car("Palindrome", SternmanEngineService, SpindlerBatteryService)
  }

  /** `create_rorschach`. */
  function CreateRorschach(currentDate: Date, lastServiceDate: Date, currentMileage: int, lastServiceMileage: int): (car: Car)
    ensures car.model == "Rorschach"
    ensures car.engineService == WilloughbyEngineService && car.batteryService == NubbinBatteryService
  {
    Car("Rorschach", WilloughbyEngineService, NubbinBatteryService)
  }

  /** `create_thovex`. */
  function CreateThovex(currentDate: Date, lastServiceDate: Date, currentMileage: int, lastServiceMileage: int): (car: Car)
    ensures car.model == "Thovex"
    ensures car.engineService == CapuletEngineService && car.batteryService == NubbinBatteryService
  {
    Car("Thovex", CapuletEngineService, NubbinBatteryService)
  }

  /** A car bound to Sternman ignores both mileages, and without a warning
      light argument it is never due. */
  lemma SternmanCarIgnoresMileage(car: Car, currentMileage: int, lastServiceMileage: int,
                                  otherCurrentMileage: int, otherLastServiceMileage: int, warningLightOn: bool)
    requires car.engineService == SternmanEngineService
    ensures car.NeedsEngineService(currentMileage, lastServiceMileage, warningLightOn)
            == car.NeedsEngineService(otherCurrentMileage, otherLastServiceMileage, warningLightOn)
    ensures !car.NeedsEngineService(currentMileage, lastServiceMileage)
  {
  }

  /** A car bound to a mileage rule ignores the warning light. */
  lemma MileageCarIgnoresWarningLight(car: Car, currentMileage: int, lastServiceMileage: int)
    requires car.engineService != SternmanEngineService
    ensures car.NeedsEngineService(currentMileage, lastServiceMileage, true)
            == car.NeedsEngineService(currentMileage, lastServiceMileage, false)
  {
  }

  /** A car's engine verdict, once due on mileage, stays due as the odometer
      rises; for a Sternman car it does not move at all. */
  lemma EngineVerdictMonotone(car: Car, currentMileage: int, laterMileage: int, lastServiceMileage: int, warningLightOn: bool)
    requires currentMileage <= laterMileage
    ensures car.NeedsEngineService(currentMileage, lastServiceMileage, warningLightOn)
            ==> car.NeedsEngineService(laterMileage, lastServiceMileage, warningLightOn)
  {
  }

  /** A car's battery verdict, once due, stays due on every later date. */
  lemma BatteryVerdictMonotone(car: Car, lastServiceDate: Date, currentDate: Date, laterDate: Date)
    requires currentDate.Before(laterDate)
    ensures car.NeedsBatteryService(lastServiceDate, currentDate) ==> car.NeedsBatteryService(lastServiceDate, laterDate)
  {
    BatteryRulesMonotone(lastServiceDate, currentDate, laterDate);
  }

  /** Each factory builds the same car whatever it is given, so two cars of
      one model answer every query alike. */
  lemma FactoriesIgnoreArguments(d1: Date, d2: Date, d3: Date, d4: Date, m1: int, m2: int, m3: int, m4: int, w1: bool, w2: bool)
    ensures CreateCalliope(d1, d2, m1, m2) == CreateCalliope(d3, d4, m3, m4)
    ensures CreateGlissade(d1, d2, m1, m2) == CreateGlissade(d3, d4, m3, m4)
    ensures CreatePalindrome(d1, d2, w1) == CreatePalindrome(d3, d4, w2)
    ensures CreateRorschach(d1, d2, m1, m2) == CreateRorschach(d3, d4, m3, m4)
    ensures CreateThovex(d1, d2, m1, m2) == CreateThovex(d3, d4, m3, m4)
  {
  }

  /** Cars with the same bindings answer every engine and battery query alike,
      whatever their model names. */
  lemma SameBindingsSameVerdicts(a: Car, b: Car, currentMileage: int, lastServiceMileage: int, warningLightOn: bool,
                                 lastServiceDate: Date, currentDate: Date)
    requires a.engineService == b.engineService && a.batteryService == b.batteryService
    ensures a.NeedsEngineService(currentMileage, lastServiceMileage, warningLightOn)
            == b.NeedsEngineService(currentMileage, lastServiceMileage, warningLightOn)
    ensures a.NeedsBatteryService(lastServiceDate, currentDate) == b.NeedsBatteryService(lastServiceDate, currentDate)
  {
  }
}
