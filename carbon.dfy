/** The employee dashboard's carbon calculator
    (client/src/Pages/EmployeeDashboard.jsx): the emission factor of each
    transport method in kg per km, the saving of a trip against the same
    trip by car, the credit figure derived from it, and the request body
    the form posts to the commute route. */
module CarbonCalculator {
  import opened Basics
  import opened CommuteModel
  import opened CommuteRoutes

  /** `CARBON_FACTORS`: kg of CO2 per km. */
  function Factor(m: Method): (r: real)
    ensures 0.0 <= r <= CarFactor
    ensures r == CarFactor <==> m == Car
    ensures r == 0.0 <==> m == Walk
  {
    match m
    case Bike => 0.08
    case Walk => 0.0
    case Carpool => 0.04
    case PublicTransport => 0.02
    case ElectricVehicle => 0.05
    case Car => CarFactor
  }

  /** The car's factor, the baseline every saving is measured against. */
  const CarFactor: real := 0.1

  /** The car's emission for the distance minus the chosen method's, before
      rounding. */
  function ExactSaving(m: Method, distance: real): (r: real)
    ensures r == (CarFactor - Factor(m)) * distance
  {
    CarFactor * distance - Factor(m) * distance
  }

  /** `calculateCarbonSaved`: the saving rounded to hundredths by
      `Number(....toFixed(2))`; it is within half a hundredth of the exact
      saving. */
  function CarbonSaved(m: Method, distance: real): (r: real)
    ensures -0.005 <= r - (CarFactor - Factor(m)) * distance <= 0.005
    ensures r * 100.0 == MathFloor(r * 100.0) as real
  {
    Fixed2(ExactSaving(m, distance))
  }

  /** Driving saves nothing; walking saves the whole car emission, rounded. */
  lemma CarbonSavedExtremes(distance: real)
    ensures CarbonSaved(Car, distance) == 0.0
    ensures CarbonSaved(Walk, distance) == Fixed2(0.1 * distance)
  {
  }

  /** Because the car has the largest factor, no trip of non-negative
      length saves a negative amount. A trip by anything but car saves a
      positive amount exactly when its exact saving reaches half a
      hundredth; below that the rounding leaves 0. */
  lemma CarbonSavedSign(m: Method, distance: real)
    requires distance >= 0.0
    ensures CarbonSaved(m, distance) >= 0.0
    ensures CarbonSaved(m, distance) > 0.0 <==> ExactSaving(m, distance) >= 0.005
  {
    var k := CarFactor - Factor(m);
    assert k >= 0.0;
    assert k * distance >= 0.0;
  }

  /** A longer trip by the same method saves at least as much. */
  lemma CarbonSavedMonotone(m: Method, d1: real, d2: real)
    requires d1 <= d2
    ensures CarbonSaved(m, d1) <= CarbonSaved(m, d2)
  {
    var k := CarFactor - Factor(m);
    assert k >= 0.0;
    assert k * d1 <= k * d2;
    Fixed2Monotone(ExactSaving(m, d1), ExactSaving(m, d2));
  }

  /** A bike trip of 0.2 km saves 0.004 kg exactly, which rounds to 0. */
  lemma ShortBikeTripSavesNothing()
    ensures ExactSaving(Bike, 0.2) == 0.004
    ensures CarbonSaved(Bike, 0.2) == 0.0
  {
  }

  /** `calculateCredits`: the saving rounded to hundredths when positive,
      else 0. */
  function ClientCredits(carbonSaved: real): (r: real)
    ensures r >= 0.0
    ensures carbonSaved <= 0.0 ==> r == 0.0
    ensures carbonSaved > 0.0 ==> -0.005 <= r - carbonSaved <= 0.005 && r * 100.0 == MathFloor(r * 100.0) as real
  {
    if carbonSaved > 0.0 then Fixed2(carbonSaved) else 0.0
  }

  /** The credits the dashboard shows for a trip are its saving: the
      saving is already a whole number of hundredths and not negative. */
  lemma ClientCreditsOfSaving(m: Method, distance: real)
    requires distance >= 0.0
    ensures ClientCredits(CarbonSaved(m, distance)) == CarbonSaved(m, distance)
  {
    CarbonSavedSign(m, distance);
    Fixed2Exact(CarbonSaved(m, distance));
  }

  /** The body `handleAddCommute` posts: the form's fields, the signed-in
      employee, and the computed saving. */
  function DashboardRequest(employee: nat, date: int, m: Method, startLocation: string, endLocation: string,
                            distance: real): (r: CommuteRequest)
    ensures r.carbonSaved == Some(CarbonSaved(m, distance))
    ensures r.transport == Some(MethodName(m)) && r.distanceKm == Some(distance)
  {
    CommuteRequest(Some(employee), Some(date), Some(MethodName(m)), Some(startLocation), Some(endLocation),
                   Some(distance), Some(CarbonSaved(m, distance)))
  }

  /** The dashboard's car trips never reach the store: their saving is 0,
      which the commute route's `!carbonSaved` test rejects. */
  lemma CarTripsRejected(employee: nat, date: int, startLocation: string, endLocation: string,
                         distance: real, id: nat, now: int)
    ensures PostDecision(DashboardRequest(employee, date, Car, startLocation, endLocation, distance), id, now)
      == Err(FieldsRequired)
  {
    CarbonSavedExtremes(distance);
  }

  /** Any other trip whose exact saving reaches half a hundredth, with both
      locations filled in, is accepted, and the stored commute carries the
      rounded saving. */
  lemma OtherTripsAccepted(employee: nat, date: int, m: Method, startLocation: string, endLocation: string,
                           distance: real, id: nat, now: int)
    requires m != Car && distance > 0.0 && ExactSaving(m, distance) >= 0.005
    requires startLocation != "" && endLocation != ""
    ensures var r := PostDecision(DashboardRequest(employee, date, m, startLocation, endLocation, distance), id, now);
      r.Ok? && r.value.transport == m && r.value.carbonSaved == CarbonSaved(m, distance) >= 0.01
  {
    CarbonSavedSign(m, distance);
    MethodNameRoundTrip(m, MethodName(m));
  }

  /** A trip whose exact saving is below half a hundredth is rounded to 0
      and refused like a car trip, whatever the method. */
  lemma TinyTripsRejected(employee: nat, date: int, m: Method, startLocation: string, endLocation: string,
                          distance: real, id: nat, now: int)
    requires distance >= 0.0 && ExactSaving(m, distance) < 0.005
    ensures PostDecision(DashboardRequest(employee, date, m, startLocation, endLocation, distance), id, now)
      == Err(FieldsRequired)
  {
    CarbonSavedSign(m, distance);
  }
}
