/** The trading routes (server/routes/trading.js): creating an offer,
    listing the offers open to a caller, accepting an offer, and a
    company's trading history. The caller is the authenticated `(id, role)`
    pair; a route that fails leaves the store as it was. */
module TradingRoutes {
  import opened Basics
  import opened UserModel
  import opened TradingModel
  import opened Accounts
  import opened Settlement
  import opened CommuteModel
  import PM = PendingModel
  import opened Store

  datatype TradeError =
    | InvalidAmount
    | NotEmployer
    | EmployerNotFound
    | InsufficientTeamCredits(available: real, requested: real, employerCredits: real, employeeCredits: real)
    | SaveFailed
    | TradeUnavailable
    | SellerNotFound
    | BuyerNotFound
    | NoLongerSufficient(available: real, requested: real)
    | NotOwnHistory
    | HistoryEmployerNotFound
    | HistoryFailed

  /** `Trading.findById(id)`. */
  function TradeIndex(trades: seq<Trade>, id: TradeId): (r: Option<nat>)
    ensures r.Some? ==> r.value < |trades| && trades[r.value].id == id
    ensures r.None? <==> forall i :: 0 <= i < |trades| ==> trades[i].id != id
  {
    FindIndex(trades, (t: Trade) => t.id, id)
  }

  // ---------------------------------------------------------------- /create

  /** What `/create` decides for a request for `credits` (None when missing
      or not a number) by `caller`, the new offer taking the id `id`. */
  function OfferDecision(users: seq<User>, caller: Caller, credits: Option<real>, id: TradeId, now: int): (r: Result<Trade, TradeError>)
    ensures r == Err(InvalidAmount) <==> credits.None? || credits.value <= 0.0
    ensures r == Err(NotEmployer) <==> credits.Some? && credits.value > 0.0 && caller.role != Employer
    ensures r == Err(EmployerNotFound) <==>
      credits.Some? && credits.value > 0.0 && caller.role == Employer && UserIndex(users, caller.id).None?
    ensures r.Err? && r.error.InsufficientTeamCredits? ==>
      && credits.Some? && UserIndex(users, caller.id).Some?
      && var employer := users[UserIndex(users, caller.id).value];
      && r.error.requested == credits.value
      && r.error.employerCredits == employer.carbonCredits
      && r.error.employeeCredits == TeamCredits(users, caller.id)
      && r.error.available == r.error.employerCredits + r.error.employeeCredits
      && r.error.available < r.error.requested
    ensures r.Err? && r.error.InsufficientTeamCredits? <==>
      && credits.Some? && credits.value > 0.0 && caller.role == Employer
      && UserIndex(users, caller.id).Some?
      && TeamTotal(users, UserIndex(users, caller.id).value) < credits.value
    ensures r == Err(SaveFailed) <==>
      && credits.Some? && credits.value > 0.0 && caller.role == Employer
      && UserIndex(users, caller.id).Some?
      && TeamTotal(users, UserIndex(users, caller.id).value) >= credits.value
      && !Present(users[UserIndex(users, caller.id).value].companyName)
    ensures r.Ok? <==>
      && credits.Some? && credits.value > 0.0 && caller.role == Employer
      && UserIndex(users, caller.id).Some?
      && TeamTotal(users, UserIndex(users, caller.id).value) >= credits.value
      && Present(users[UserIndex(users, caller.id).value].companyName)
    ensures r.Ok? ==>
      var t := r.value;
      && TradeValid(t) && Lifecycle(t)
      && t.id == id && t.createdAt == now
      && t.employerId == caller.id && t.amount == credits.value && t.status == Available
      && Some(t.companyName) == users[UserIndex(users, caller.id).value].companyName
  {
    if credits.None? || credits.value <= 0.0 then Err(InvalidAmount)
    else if caller.role != Employer then Err(NotEmployer)
    else match UserIndex(users, caller.id)
      case None => Err(EmployerNotFound)
      case Some(ei) =>
        var employer := users[ei];
        var employeeCredits := TeamCredits(users, caller.id);
        var total := employer.carbonCredits + employeeCredits;
        if total < credits.value then
          Err(InsufficientTeamCredits(total, credits.value, employer.carbonCredits, employeeCredits))
        else match NewTrade(TradeDraft(Some(caller.id), employer.companyName, Some(credits.value), Some(Available)), id, now)
          case Err(_) => Err(SaveFailed)
          case Ok(t) => Ok(t)
  }

  /** `/create`: saves the offer OfferDecision builds; no balance changes. */
  method CreateOffer(db: Database, caller: Caller, credits: Option<real>, now: int) returns (r: Result<Trade, TradeError>)
    requires db.Valid()
    modifies db
    ensures db.Valid()
    ensures r == OfferDecision(old(db.users), caller, credits, old(db.nextId), now)
    ensures db.users == old(db.users) && db.commutes == old(db.commutes) && db.pending == old(db.pending)
    ensures r.Ok? ==> db.trades == old(db.trades) + [r.value] && db.nextId == old(db.nextId) + 1
    ensures r.Err? ==> db.trades == old(db.trades) && db.nextId == old(db.nextId)
  {
    r := OfferDecision(db.users, caller, credits, db.nextId, now);
    if r.Ok? {
      KeysBelowAppend(db.trades, (t: Trade) => t.id, db.nextId, r.value);
      var id := db.FreshId();
      db.trades := db.trades + [r.value];
    }
  }

  // ------------------------------------------------------------- /available

  predicate OpenTo(t: Trade, caller: UserId) {
    t.status == Available && t.employerId != caller
  }

  /** `/available`: the available offers of other employers, newest first. */
  function AvailableOffers(trades: seq<Trade>, caller: UserId): (r: seq<Trade>)
    ensures SortedDesc(r, (t: Trade) => t.createdAt)
    ensures forall i :: 0 <= i < |r| ==> r[i] in trades && OpenTo(r[i], caller)
    ensures forall i :: 0 <= i < |trades| && OpenTo(trades[i], caller) ==>
      multiset(r)[trades[i]] == multiset(trades)[trades[i]]
  {
    var open := Filter(trades, (t: Trade) => OpenTo(t, caller));
    FilterMultiset(trades, (t: Trade) => OpenTo(t, caller));
    var r := SortDesc(open, (t: Trade) => t.createdAt);
    assert forall i :: 0 <= i < |r| ==> r[i] in multiset(open);
    r
  }

  // ---------------------------------------------------------------- /accept

  /** The positions `/accept` settles: the offer, the seller and the buyer. */
  datatype AcceptPlan = AcceptPlan(ti: nat, si: nat, bi: nat)

  /** The checks `/accept` makes before it writes anything. */
  function PlanAccept(users: seq<User>, trades: seq<Trade>, caller: Caller, tradeId: TradeId): (r: Result<AcceptPlan, TradeError>)
    ensures r == Err(NotEmployer) <==> caller.role != Employer
    ensures r == Err(TradeUnavailable) <==>
      caller.role == Employer && (TradeIndex(trades, tradeId).None? || trades[TradeIndex(trades, tradeId).value].status != Available)
    ensures var ti := TradeIndex(trades, tradeId);
      var open := caller.role == Employer && ti.Some? && trades[ti.value].status == Available;
      var seller := if open then UserIndex(users, trades[ti.value].employerId) else None;
      var buyer := UserIndex(users, caller.id);
      && (r == Err(SellerNotFound) <==> open && seller.None?)
      && (r == Err(BuyerNotFound) <==> open && seller.Some? && buyer.None?)
      && (r.Err? && r.error.NoLongerSufficient? <==>
            open && seller.Some? && buyer.Some? && TeamTotal(users, seller.value) < trades[ti.value].amount)
      && (r.Err? && r.error.NoLongerSufficient? ==>
            r.error == NoLongerSufficient(TeamTotal(users, seller.value), trades[ti.value].amount))
      && (r.Ok? <==>
            open && seller.Some? && buyer.Some? && TeamTotal(users, seller.value) >= trades[ti.value].amount)
    ensures r.Ok? ==>
      var p := r.value;
      && caller.role == Employer
      && TradeIndex(trades, tradeId) == Some(p.ti) && trades[p.ti].status == Available
      && UserIndex(users, trades[p.ti].employerId) == Some(p.si)
      && UserIndex(users, caller.id) == Some(p.bi)
      && TeamTotal(users, p.si) >= trades[p.ti].amount
  {
    if caller.role != Employer then Err(NotEmployer)
    else match TradeIndex(trades, tradeId)
      case None => Err(TradeUnavailable)
      case Some(ti) =>
        if trades[ti].status != Available then Err(TradeUnavailable)
        else match UserIndex(users, trades[ti].employerId)
          case None => Err(SellerNotFound)
          case Some(si) => match UserIndex(users, caller.id)
            case None => Err(BuyerNotFound)
            case Some(bi) =>
              if TeamTotal(users, si) < trades[ti].amount then
                Err(NoLongerSufficient(TeamTotal(users, si), trades[ti].amount))
              else Ok(AcceptPlan(ti, si, bi))
  }

  /** The offer once accepted by `buyer` at `now`. */
  function AcceptedTrade(t: Trade, buyer: UserId, now: int): (r: Trade)
    ensures r.status == Accepted && r.acceptorId == Some(buyer) && r.acceptedAt == Some(now)
    ensures r.id == t.id && r.employerId == t.employerId && r.amount == t.amount
    ensures TradeValid(t) ==> TradeValid(r) && Lifecycle(r)
  {
    t.(status := Accepted, acceptorId := Some(buyer), acceptedAt := Some(now))
  }

  /** The reply of a successful `/accept`: the offer, the seller employer's
      new balance, the "team" figure (that balance plus the employees'
      balances as loaded), and the buyer's new balance. */
  datatype AcceptReceipt = AcceptReceipt(trade: Trade, sellerEmployer: real, sellerTeam: real, buyer: real)

  /** The employee loop of `/accept`: visits the seller's employees in
      list order, drawing min(loaded balance, still owed) from each
      positive balance, and stops as soon as nothing is owed. */
  method DrawTeam(db: Database, snap: seq<User>, team: seq<nat>, owed: real)
    requires |db.users| == |snap| && Within(team, |snap|) && owed > 0.0
    modifies db`users
    ensures db.users == DrawEmployees(old(db.users), snap, team, owed).0
  {
    var remaining := owed;
    var j := 0;
    while j < |team|
      invariant 0 <= j <= |team| && |db.users| == |snap| && remaining > 0.0
      invariant DrawEmployees(db.users, snap, team[j..], remaining) == DrawEmployees(old(db.users), snap, team, owed)
      decreases |team| - j
    {
      var k := team[j];
      assert team[j..][0] == k && team[j..][1..] == team[j + 1..];
      var b := snap[k].carbonCredits;
      if b > 0.0 {
        var deduction := Min(b, remaining);
        db.users := SetCredits(db.users, k, b - deduction);
        remaining := remaining - deduction;
        if remaining == 0.0 {
          return;
        }
      }
      j := j + 1;
    }
  }

  /** What a successful `/accept` leaves behind: the accounts, the offers
      and the reply. */
  datatype AcceptedState = AcceptedState(users: seq<User>, trades: seq<Trade>, receipt: AcceptReceipt)

  /** The outcome of `/accept` on the loaded store: the plan's error, or the
      accounts settled (Settle), the offer marked accepted by the caller, and
      the reply. The reply is read from the route's in-memory documents: the
      seller's after its own deduction, the buyer's as loaded plus the
      amount, and the employees' balances as loaded. When the caller accepts
      its own offer these are two documents for one account, and the reply's
      seller balance is not the stored one (SelfAcceptReply). */
  function AcceptOutcome(users: seq<User>, trades: seq<Trade>, caller: Caller, tradeId: TradeId, now: int): (r: Result<AcceptedState, TradeError>)
    ensures r.Err? <==> PlanAccept(users, trades, caller, tradeId).Err?
    ensures r.Err? ==> r.error == PlanAccept(users, trades, caller, tradeId).error
    ensures r.Ok? ==>
      var p := PlanAccept(users, trades, caller, tradeId).value;
      var o := r.value;
      var amount := trades[p.ti].amount;
      var e := users[p.si].carbonCredits;
      && o.users == Settle(users, p.si, p.bi, amount)
      && |o.trades| == |trades| && o.trades[p.ti] == o.receipt.trade
      && o.receipt.trade.id == tradeId && o.receipt.trade.status == Accepted
      && o.receipt.trade.acceptorId == Some(caller.id) && o.receipt.trade.acceptedAt == Some(now)
      && o.receipt.trade.amount == amount && o.receipt.trade.employerId == trades[p.ti].employerId
      && (forall i :: 0 <= i < |trades| && i != p.ti ==> o.trades[i] == trades[i])
      && o.receipt.sellerEmployer == e - EmployerDraw(e, amount)
      && o.receipt.sellerTeam == o.receipt.sellerEmployer + TeamCredits(users, trades[p.ti].employerId)
      && o.receipt.buyer == o.users[p.bi].carbonCredits == users[p.bi].carbonCredits + amount
  {
    match PlanAccept(users, trades, caller, tradeId)
    case Err(e) => Err(e)
    case Ok(p) =>
      var t := trades[p.ti];
      var e := users[p.si].carbonCredits;
      var sellerBalance := e - EmployerDraw(e, t.amount);
      var accepted := AcceptedTrade(t, caller.id, now);
      Ok(AcceptedState(Settle(users, p.si, p.bi, t.amount), trades[p.ti := accepted],
                  AcceptReceipt(accepted, sellerBalance,
                                sellerBalance + TeamCredits(users, t.employerId),
                                users[p.bi].carbonCredits + t.amount)))
  }

  /** `/accept`: on failure nothing changes; on success the store becomes
      what AcceptOutcome says and stays valid. */
  method Accept(db: Database, caller: Caller, tradeId: TradeId, now: int) returns (r: Result<AcceptReceipt, TradeError>)
    requires db.Valid()
    modifies db`users, db`trades
    ensures db.Valid()
    ensures var o := AcceptOutcome(old(db.users), old(db.trades), caller, tradeId, now);
      && (o.Err? ==> r == Err(o.error) && db.users == old(db.users) && db.trades == old(db.trades))
      && (o.Ok? ==> r == Ok(o.value.receipt) && db.users == o.value.users && db.trades == o.value.trades)
  {
    var plan := PlanAccept(db.users, db.trades, caller, tradeId);
    if plan.Err? {
      return Err(plan.error);
    }
    var receipt := SettleOffer(db, caller, tradeId, now);
    r := Ok(receipt);
  }

  /** The writes of `/accept` once its checks pass: the balances, then the
      offer. */
  method SettleOffer(db: Database, caller: Caller, tradeId: TradeId, now: int) returns (receipt: AcceptReceipt)
    requires db.Valid()
    requires PlanAccept(db.users, db.trades, caller, tradeId).Ok?
    modifies db`users, db`trades
    ensures db.Valid()
    ensures var o := AcceptOutcome(old(db.users), old(db.trades), caller, tradeId, now);
      o.Ok? && receipt == o.value.receipt && db.users == o.value.users && db.trades == o.value.trades
  {
    var p := PlanAccept(db.users, db.trades, caller, tradeId).value;
    var trade := db.trades[p.ti];
    var employeeCredits := SumAt(db.users, Team(db.users, trade.employerId));
    var sellerBalance, buyerBalance := SettleAccounts(db, p.si, p.bi, trade.amount);
    var accepted := AcceptedTrade(trade, caller.id, now);
    db.trades := db.trades[p.ti := accepted];
    receipt := AcceptReceipt(accepted, sellerBalance, sellerBalance + employeeCredits, buyerBalance);
    AcceptOutcomeOk(old(db.users), old(db.trades), caller, tradeId, now, db.users, db.trades, receipt);
    AcceptKeepsValid(old(db.users), old(db.trades), db.commutes, db.pending, db.nextId,
                     p.si, p.bi, p.ti, caller.id, now, db.users, db.trades);
  }

  /** What SettleOffer leaves behind, checked against AcceptOutcome. */
  lemma AcceptOutcomeOk(users: seq<User>, trades: seq<Trade>, caller: Caller, tradeId: TradeId, now: int,
                        users': seq<User>, trades': seq<Trade>, receipt: AcceptReceipt)
    requires PlanAccept(users, trades, caller, tradeId).Ok?
    requires var p := PlanAccept(users, trades, caller, tradeId).value;
      var t := trades[p.ti];
      var e := users[p.si].carbonCredits;
      var seller := e - EmployerDraw(e, t.amount);
      && users' == Settle(users, p.si, p.bi, t.amount)
      && trades' == trades[p.ti := AcceptedTrade(t, caller.id, now)]
      && receipt.trade == AcceptedTrade(t, caller.id, now)
      && receipt.sellerEmployer == seller
      && receipt.sellerTeam == seller + SumAt(users, Team(users, t.employerId))
      && receipt.buyer == users[p.bi].carbonCredits + t.amount
    ensures var o := AcceptOutcome(users, trades, caller, tradeId, now);
      o.Ok? && receipt == o.value.receipt && users' == o.value.users && trades' == o.value.trades
  {
    var o := AcceptOutcome(users, trades, caller, tradeId, now).value;
    assert receipt.trade == o.receipt.trade;
    assert receipt.sellerEmployer == o.receipt.sellerEmployer;
    assert receipt.sellerTeam == o.receipt.sellerTeam;
    assert receipt.buyer == o.receipt.buyer;
  }

  /** The balance writes of `/accept`, in the route's order: the seller
      employer, then its team (DrawTeam), then the buyer, whose document
      was loaded before the deductions. Returns the balances the seller's
      and the buyer's in-memory documents end with. */
  method SettleAccounts(db: Database, si: nat, bi: nat, amount: real) returns (sellerBalance: real, buyerBalance: real)
    requires si < |db.users| && bi < |db.users|
    modifies db`users
    ensures db.users == Settle(old(db.users), si, bi, amount)
    ensures var e := old(db.users)[si].carbonCredits;
      sellerBalance == e - EmployerDraw(e, amount)
    ensures buyerBalance == old(db.users)[bi].carbonCredits + amount
  {
    var snap := db.users;
    var seller := snap[si];
    var buyer := snap[bi];
    var team := Team(snap, seller.id);
    var remaining := amount;
    sellerBalance := seller.carbonCredits;
    if sellerBalance > 0.0 {
      var deduction := Min(sellerBalance, remaining);
      sellerBalance := sellerBalance - deduction;
      db.users := SetCredits(db.users, si, sellerBalance);
      remaining := remaining - deduction;
    }
    if remaining > 0.0 {
      DrawTeam(db, snap, team, remaining);
    }
    buyerBalance := buyer.carbonCredits + amount;
    db.users := SetCredits(db.users, bi, buyerBalance);
  }

  /** Accepting keeps the store valid. */
  lemma AcceptKeepsValid(users: seq<User>, trades: seq<Trade>, commutes: seq<Commute>, pending: seq<PM.PendingRegistration>,
                         nextId: nat, si: nat, bi: nat, ti: nat, buyer: UserId, now: int, users': seq<User>, trades': seq<Trade>)
    requires StoreOk(users, trades, commutes, pending, nextId)
    requires si < |users| && bi < |users| && ti < |trades|
    requires users' == Settle(users, si, bi, trades[ti].amount)
    requires trades' == trades[ti := AcceptedTrade(trades[ti], buyer, now)]
    ensures StoreOk(users', trades', commutes, pending, nextId)
  {
    SettleSame(users, si, bi, trades[ti].amount);
    UsersOkSame(users', users, nextId);
    KeysBelowUpdate(trades, (t: Trade) => t.id, nextId, ti, trades'[ti]);
  }

  /** An offer can be accepted once: after a successful accept, a second
      accept of the same offer, by anyone, fails. */
  lemma SecondAcceptFails(users: seq<User>, trades: seq<Trade>, c1: Caller, c2: Caller, tradeId: TradeId, now: int, later: int)
    requires AcceptOutcome(users, trades, c1, tradeId, now).Ok?
    ensures var o := AcceptOutcome(users, trades, c1, tradeId, now).value;
      var second := AcceptOutcome(o.users, o.trades, c2, tradeId, later);
      second == Err(NotEmployer) || second == Err(TradeUnavailable)
  {
    var p := PlanAccept(users, trades, c1, tradeId).value;
    var t := trades[p.ti];
    FindIndexUpdate(trades, (t: Trade) => t.id, tradeId, p.ti, AcceptedTrade(t, c1.id, now));
  }

  /** The accepted offer drops out of every caller's available list. */
  lemma AcceptedNotAvailable(users: seq<User>, trades: seq<Trade>, buyer: Caller, tradeId: TradeId, now: int, caller: UserId)
    requires AcceptOutcome(users, trades, buyer, tradeId, now).Ok?
    ensures var o := AcceptOutcome(users, trades, buyer, tradeId, now).value;
      o.receipt.trade !in AvailableOffers(o.trades, caller)
  {
  }

  /** A successful accept between an employer and a buyer that is neither
      that employer nor one of its employees moves exactly the offer's
      amount: the buyer's reply balance is its old one plus the amount, the
      seller's team total falls by it, and the store's total is unchanged. */
  lemma AcceptConserves(users: seq<User>, trades: seq<Trade>, caller: Caller, tradeId: TradeId, now: int)
    requires AcceptOutcome(users, trades, caller, tradeId, now).Ok?
    requires var p := PlanAccept(users, trades, caller, tradeId).value;
      Separate(users, p.si, p.bi, trades[p.ti].amount)
    ensures var p := PlanAccept(users, trades, caller, tradeId).value;
      var o := AcceptOutcome(users, trades, caller, tradeId, now).value;
      var amount := trades[p.ti].amount;
      && o.receipt.buyer == users[p.bi].carbonCredits + amount
      && TeamTotal(o.users, p.si) == TeamTotal(users, p.si) - amount
      && TotalCredits(o.users) == TotalCredits(users)
  {
    var p := PlanAccept(users, trades, caller, tradeId).value;
    SettleConserves(users, p.si, p.bi, trades[p.ti].amount);
  }

  /** With a buyer apart from the seller side, the reply's balances are the
      stored ones. */
  lemma ReceiptMatchesStore(users: seq<User>, trades: seq<Trade>, caller: Caller, tradeId: TradeId, now: int)
    requires AcceptOutcome(users, trades, caller, tradeId, now).Ok?
    requires var p := PlanAccept(users, trades, caller, tradeId).value;
      Separate(users, p.si, p.bi, trades[p.ti].amount)
    ensures var p := PlanAccept(users, trades, caller, tradeId).value;
      var o := AcceptOutcome(users, trades, caller, tradeId, now).value;
      && o.receipt.sellerEmployer == o.users[p.si].carbonCredits
      && o.receipt.buyer == o.users[p.bi].carbonCredits
  {
    var p := PlanAccept(users, trades, caller, tradeId).value;
    SettleSeller(users, p.si, p.bi, trades[p.ti].amount);
  }

  /** The reply's team figure adds the employees' balances as loaded to the
      employer's new balance, so it overstates the seller's team total by
      exactly what the employees gave up. */
  lemma ReceiptTeamFigure(users: seq<User>, trades: seq<Trade>, caller: Caller, tradeId: TradeId, now: int)
    requires AcceptOutcome(users, trades, caller, tradeId, now).Ok?
    requires var p := PlanAccept(users, trades, caller, tradeId).value;
      Separate(users, p.si, p.bi, trades[p.ti].amount)
    ensures var p := PlanAccept(users, trades, caller, tradeId).value;
      var o := AcceptOutcome(users, trades, caller, tradeId, now).value;
      var amount := trades[p.ti].amount;
      o.receipt.sellerTeam == TeamTotal(o.users, p.si) + (amount - EmployerDraw(users[p.si].carbonCredits, amount))
  {
    var p := PlanAccept(users, trades, caller, tradeId).value;
    SettleConserves(users, p.si, p.bi, trades[p.ti].amount);
  }

  /** Accepting one's own offer: the reply shows the employer's balance after
      its own draw, while the store keeps the buyer write, the loaded
      balance plus the amount; the reply's buyer figure is the stored one. */
  lemma SelfAcceptReply(users: seq<User>, trades: seq<Trade>, caller: Caller, tradeId: TradeId, now: int)
    requires AcceptOutcome(users, trades, caller, tradeId, now).Ok?
    requires var p := PlanAccept(users, trades, caller, tradeId).value;
      p.si == p.bi
    ensures var p := PlanAccept(users, trades, caller, tradeId).value;
      var o := AcceptOutcome(users, trades, caller, tradeId, now).value;
      var amount := trades[p.ti].amount;
      var e := users[p.si].carbonCredits;
      && o.receipt.sellerEmployer == e - EmployerDraw(e, amount)
      && o.receipt.buyer == o.users[p.si].carbonCredits == e + amount
      && (amount > 0.0 ==> o.receipt.sellerEmployer < o.users[p.si].carbonCredits)
  {
    var p := PlanAccept(users, trades, caller, tradeId).value;
    EmployerDrawCases(users[p.si].carbonCredits, trades[p.ti].amount);
  }

  /** An employer with 10 credits and no employees accepts its own offer of
      5: the reply says 5 for the seller, 5 for the team and 15 for the
      buyer, and the store holds 15. */
  lemma SelfAcceptReplyExample()
    ensures var u := User(1, "acme", "a@acme.io", "pw", Employer, Some("Acme"), None, 10.0, true, 0);
      var t := Trade(7, 1, "Acme", 5.0, Available, None, None, 0);
      var r := AcceptOutcome([u], [t], Caller(1, Employer), 7, 9);
      && r.Ok?
      && r.value.receipt.sellerEmployer == 5.0 && r.value.receipt.sellerTeam == 5.0
      && r.value.receipt.buyer == 15.0 && r.value.users[0].carbonCredits == 15.0
  {
    var u := User(1, "acme", "a@acme.io", "pw", Employer, Some("Acme"), None, 10.0, true, 0);
    assert !InTeam(u, 1);
    assert TeamFrom([u], 1, 1) == [];
    assert TeamFrom([u], 1, 0) == [];
    assert Team([u], 1) == [];
  }

  // ------------------------------------------------------- /company-history

  datatype Direction = Out | In

  /** One line of the history. `partnerCompany` is None when the reply
      leaves it undefined (a selling company without a companyName). */
  datatype HistoryEntry = HistoryEntry(
    date: int, amount: real, direction: Direction, status: TradeStatus,
    partnerCompany: Option<string>, transactionId: TradeId)

  datatype History = History(totalCredits: real, tradeHistory: seq<HistoryEntry>)

  predicate Involves(t: Trade, e: UserId) {
    t.employerId == e || t.acceptorId == Some(e)
  }

  /** The trades the history lists: those sold or bought by `e`, each as
      often as it is stored, newest first. */
  function InvolvedTrades(trades: seq<Trade>, e: UserId): (r: seq<Trade>)
    ensures SortedDesc(r, (t: Trade) => t.createdAt)
    ensures forall i :: 0 <= i < |r| ==> r[i] in trades && Involves(r[i], e)
    ensures forall i :: 0 <= i < |trades| && Involves(trades[i], e) ==> trades[i] in r
    ensures forall x :: multiset(r)[x] == if Involves(x, e) then multiset(trades)[x] else 0
  {
    var r := SortDesc(Filter(trades, (t: Trade) => Involves(t, e)), (t: Trade) => t.createdAt);
    FilterMultiset(trades, (t: Trade) => Involves(t, e));
    forall i | 0 <= i < |r| ensures r[i] in trades && Involves(r[i], e) {
      SortFilterMembers(trades, (t: Trade) => Involves(t, e), (t: Trade) => t.createdAt, r[i]);
    }
    forall i | 0 <= i < |trades| && Involves(trades[i], e) ensures trades[i] in r {
      SortFilterMembers(trades, (t: Trade) => Involves(t, e), (t: Trade) => t.createdAt, trades[i]);
    }
    r
  }

  /** The acceptor's company when the acceptor is found and has a non-empty
      companyName, otherwise "Pending". */
  function AcceptorCompany(users: seq<User>, t: Trade): (r: string)
    ensures r == "Pending" || exists i :: 0 <= i < |users| && Some(users[i].id) == t.acceptorId && users[i].companyName == Some(r) && r != ""
  {
    if t.acceptorId.None? then "Pending"
    else match UserIndex(users, t.acceptorId.value)
      case None => "Pending"
      case Some(ai) => if Present(users[ai].companyName) then users[ai].companyName.value else "Pending"
  }

  /** The history line for `t`; None when an incoming trade's seller is
      gone (its populated employerId is null and the route fails). */
  function Entry(users: seq<User>, t: Trade, e: UserId): (r: Option<HistoryEntry>)
    ensures t.employerId == e ==> r.Some?
    ensures t.employerId != e ==> (r.Some? <==> UserIndex(users, t.employerId).Some?)
    ensures r.Some? ==>
      && r.value.date == t.createdAt && r.value.amount == t.amount
      && r.value.status == t.status && r.value.transactionId == t.id
      && (r.value.direction == Out <==> t.employerId == e)
      && (r.value.direction == Out ==> r.value.partnerCompany == Some(AcceptorCompany(users, t)))
      && (r.value.direction == In ==> r.value.partnerCompany == users[UserIndex(users, t.employerId).value].companyName)
  {
    if t.employerId == e then
      Some(HistoryEntry(t.createdAt, t.amount, Out, t.status, Some(AcceptorCompany(users, t)), t.id))
    else match UserIndex(users, t.employerId)
      case None => None
      case Some(si) => Some(HistoryEntry(t.createdAt, t.amount, In, t.status, users[si].companyName, t.id))
  }

  /** The map over the listed trades; None if any line fails. */
  function Entries(users: seq<User>, ts: seq<Trade>, e: UserId): (r: Option<seq<HistoryEntry>>)
    ensures r.Some? ==> |r.value| == |ts| && forall i :: 0 <= i < |ts| ==> Entry(users, ts[i], e) == Some(r.value[i])
    ensures r.None? <==> exists i :: 0 <= i < |ts| && Entry(users, ts[i], e).None?
  {
    if ts == [] then Some([])
    else match (Entry(users, ts[0], e), Entries(users, ts[1..], e))
      case (Some(x), Some(xs)) =>
        assert forall i :: 1 <= i < |ts| ==> ts[i] == ts[1..][i - 1];
        Some([x] + xs)
      case (None, _) => None
      case (_, None) =>
        assert forall i :: 0 <= i < |ts[1..]| ==> ts[1..][i] == ts[i + 1];
        None
  }

  /** `/company-history/:employerId`. */
  function CompanyHistory(users: seq<User>, trades: seq<Trade>, caller: Caller, e: UserId): (r: Result<History, TradeError>)
    ensures caller.id != e <==> r == Err(NotOwnHistory)
    ensures r == Err(HistoryEmployerNotFound) <==> caller.id == e && UserIndex(users, e).None?
    ensures r == Err(HistoryFailed) <==>
      && caller.id == e && UserIndex(users, e).Some?
      && exists i :: 0 <= i < |trades| && Involves(trades[i], e) && trades[i].employerId != e
                     && UserIndex(users, trades[i].employerId).None?
    ensures r.Ok? <==>
      && caller.id == e && UserIndex(users, e).Some?
      && forall i :: 0 <= i < |trades| && Involves(trades[i], e) && trades[i].employerId != e
                     ==> UserIndex(users, trades[i].employerId).Some?
    ensures r.Ok? ==>
      && caller.id == e && UserIndex(users, e).Some?
      && r.value.totalCredits == TeamTotal(users, UserIndex(users, e).value)
      && var listed := InvolvedTrades(trades, e);
      && |r.value.tradeHistory| == |listed|
      && forall i :: 0 <= i < |listed| ==> Entry(users, listed[i], e) == Some(r.value.tradeHistory[i])
  {
    if caller.id != e then Err(NotOwnHistory)
    else
      var listed := InvolvedTrades(trades, e);
      match UserIndex(users, e)
      case None => Err(HistoryEmployerNotFound)
      case Some(ei) =>
        EntriesFail(users, trades, e);
        match Entries(users, listed, e)
        case None => Err(HistoryFailed)
        case Some(lines) => Ok(History(TeamTotal(users, ei), lines))
  }

  /** The history fails exactly when a trade the employer bought was sold by
      an account that no longer exists. */
  lemma EntriesFail(users: seq<User>, trades: seq<Trade>, e: UserId)
    ensures Entries(users, InvolvedTrades(trades, e), e).None? <==>
      exists i :: 0 <= i < |trades| && Involves(trades[i], e) && trades[i].employerId != e
                  && UserIndex(users, trades[i].employerId).None?
  {
    var listed := InvolvedTrades(trades, e);
    if Entries(users, listed, e).None? {
      var j :| 0 <= j < |listed| && Entry(users, listed[j], e).None?;
      var i :| 0 <= i < |trades| && trades[i] == listed[j];
      assert Involves(trades[i], e) && trades[i].employerId != e && UserIndex(users, trades[i].employerId).None?;
    } else {
      forall i | 0 <= i < |trades| && Involves(trades[i], e) && trades[i].employerId != e
        ensures UserIndex(users, trades[i].employerId).Some?
      {
        var j :| 0 <= j < |listed| && listed[j] == trades[i];
        assert Entry(users, listed[j], e).Some?;
      }
    }
  }

  /** Every history line is an outgoing sale of the employer or an incoming
      purchase by it; outgoing ones name the buyer or "Pending". */
  lemma HistoryClassifies(users: seq<User>, trades: seq<Trade>, caller: Caller, e: UserId, i: nat)
    requires CompanyHistory(users, trades, caller, e).Ok?
    requires i < |CompanyHistory(users, trades, caller, e).value.tradeHistory|
    ensures var line := CompanyHistory(users, trades, caller, e).value.tradeHistory[i];
      var t := InvolvedTrades(trades, e)[i];
      && t in trades
      && (line.direction == Out <==> t.employerId == e)
      && (line.direction == In ==> t.acceptorId == Some(e))
      && (line.direction == Out && t.acceptorId.None? ==> line.partnerCompany == Some("Pending"))
  {
  }
}
