/** The commute record (server/models/Commute.js). The schema declares no
    `status` path, but the commute routes write and read one; the record
    here carries it, absent until a route sets it. */
module CommuteModel {
  import opened Basics
  import opened UserModel

  type CommuteId = nat

  /** `enum: ["bike", "walk", "carpool", "public_transport", "electric_vehicle", "car"]` */
  datatype Method = Bike | Walk | Carpool | PublicTransport | ElectricVehicle | Car

  function MethodName(m: Method): string {
    match m
    case Bike => "bike"
    case Walk => "walk"
    case Carpool => "carpool"
    case PublicTransport => "public_transport"
    case ElectricVehicle => "electric_vehicle"
    case Car => "car"
  }

  function ParseMethod(s: string): (r: Option<Method>)
    ensures r.None? <==> s !in ["bike", "walk", "carpool", "public_transport", "electric_vehicle", "car"]
  {
    if s == "bike" then Some(Bike)
    else if s == "walk" then Some(Walk)
    else if s == "carpool" then Some(Carpool)
    else if s == "public_transport" then Some(PublicTransport)
    else if s == "electric_vehicle" then Some(ElectricVehicle)
    else if s == "car" then Some(Car)
    else None
  }

  /** The method names and the enumeration are in one-to-one correspondence. */
  lemma MethodNameRoundTrip(m: Method, s: string)
    ensures ParseMethod(MethodName(m)) == Some(m)
    ensures ParseMethod(s) == Some(m) ==> s == MethodName(m)
  {
  }

  datatype CommuteStatus = Pending | Approved | Rejected

  /** The status values the status route accepts. */
  function ParseCommuteStatus(s: string): (r: Option<CommuteStatus>)
    ensures r.None? <==> s != "pending" && s != "approved" && s != "rejected"
    ensures r == Some(Pending) <==> s == "pending"
    ensures r == Some(Approved) <==> s == "approved"
    ensures r == Some(Rejected) <==> s == "rejected"
  {
    if s == "pending" then Some(Pending)
    else if s == "approved" then Some(Approved)
    else if s == "rejected" then Some(Rejected)
    else None
  }

  /** Timestamps (date, createdAt) are integers. */
  datatype Commute = Commute(
    id: CommuteId,
    employeeId: UserId,
    date: int,
    transport: Method,
    startLocation: string,
    endLocation: string,
    distanceKm: real,
    carbonSaved: real,
    status: Option<CommuteStatus>,
    createdAt: int)

  /** The fields handed to `new Commute({...})` (the `method` path is
      `transport` here); a number that is missing or
      not a number is None. */
  datatype CommuteDraft = CommuteDraft(
    employeeId: Option<UserId>,
    date: Option<int>,
    transport: Option<string>,
    startLocation: Option<string>,
    endLocation: Option<string>,
    distanceKm: Option<real>,
    carbonSaved: Option<real>,
    status: Option<CommuteStatus>)

  predicate CommuteValid(c: Commute) {
    c.startLocation != "" && c.endLocation != ""
  }

  /** Builds and validates `new Commute(d)`: every path but status is
      required, method must be one of the six, createdAt defaults to now.
      A required number may be 0 (only a missing value fails). */
  function NewCommute(d: CommuteDraft, id: CommuteId, now: int): (r: Result<Commute, string>)
    ensures r.Ok? <==>
      && d.employeeId.Some? && d.date.Some?
      && d.transport.Some? && ParseMethod(d.transport.value).Some?
      && Present(d.startLocation) && Present(d.endLocation)
      && d.distanceKm.Some? && d.carbonSaved.Some?
    ensures r.Ok? ==>
      var c := r.value;
      && CommuteValid(c)
      && c.id == id && c.createdAt == now
      && Some(c.employeeId) == d.employeeId && Some(c.date) == d.date
      && Some(MethodName(c.transport)) == d.transport
      && Some(c.startLocation) == d.startLocation && Some(c.endLocation) == d.endLocation
      && Some(c.distanceKm) == d.distanceKm && Some(c.carbonSaved) == d.carbonSaved
      && c.status == d.status
  {
    if d.employeeId.None? then Err("employeeId: required")
    else if d.date.None? then Err("date: required")
    else if d.transport.None? || ParseMethod(d.transport.value).None? then Err("method: invalid")
    else if !Present(d.startLocation) then Err("startLocation: required")
    else if !Present(d.endLocation) then Err("endLocation: required")
    else if d.distanceKm.None? then Err("distanceKm: required")
    else if d.carbonSaved.None? then Err("carbonSaved: required")
    else Ok(Commute(id, d.employeeId.value, d.date.value, ParseMethod(d.transport.value).value,
                    d.startLocation.value, d.endLocation.value, d.distanceKm.value,
                    d.carbonSaved.value, d.status, now))
  }
}
