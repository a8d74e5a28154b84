/** The trading offer record (server/models/Trading.js). */
module TradingModel {
  import opened Basics
  import opened UserModel

  type TradeId = nat

  /** `enum: ["available", "accepted", "cancelled"]` */
  datatype TradeStatus = Available | Accepted | Cancelled

  datatype Trade = Trade(
    id: TradeId,
    employerId: UserId,
    companyName: string,
    amount: real,
    status: TradeStatus,
    acceptorId: Option<UserId>,
    acceptedAt: Option<int>,
    createdAt: int)

  /** The fields handed to `new Trading({...})`. */
  datatype TradeDraft = TradeDraft(
    employerId: Option<UserId>,
    companyName: Option<string>,
    amount: Option<real>,
    status: Option<TradeStatus>)

  /** The schema's validators: companyName required, amount at least 0. */
  predicate TradeValid(t: Trade) {
    t.companyName != "" && t.amount >= 0.0
  }

  /** acceptorId and acceptedAt are set exactly when the offer has been accepted. */
  predicate Lifecycle(t: Trade) {
    && (t.status != Accepted ==> t.acceptorId.None? && t.acceptedAt.None?)
    && (t.status == Accepted ==> t.acceptorId.Some? && t.acceptedAt.Some?)
  }

  /** Builds and validates `new Trading(d)`: status defaults to available,
      acceptorId and acceptedAt start absent. */
  function NewTrade(d: TradeDraft, id: TradeId, now: int): (r: Result<Trade, string>)
    ensures r.Ok? <==>
      d.employerId.Some? && Present(d.companyName) && d.amount.Some? && d.amount.value >= 0.0
    ensures r.Ok? ==>
      var t := r.value;
      && TradeValid(t)
      && t.id == id && t.createdAt == now
      && Some(t.employerId) == d.employerId && Some(t.companyName) == d.companyName
      && Some(t.amount) == d.amount
      && t.status == (if d.status.Some? then d.status.value else Available)
      && t.acceptorId.None? && t.acceptedAt.None?
  {
    if d.employerId.None? then Err("employerId: required")
    else if !Present(d.companyName) then Err("companyName: required")
    else if d.amount.None? then Err("amount: required")
    else if d.amount.value < 0.0 then Err("amount: below minimum 0")
    else Ok(Trade(id, d.employerId.value, d.companyName.value, d.amount.value,
                  d.status.GetOr(Available), None, None, now))
  }
}
