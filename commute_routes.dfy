/** The commute routes (server/routes/commutes.js): recording a commute,
    moving it through the pending / approved / rejected review with the
    credit table that goes with it, an employee's credit history, and
    deleting a commute. Each of POST, PUT and DELETE changes the stored
    commute and the employee's balance in place. */
module CommuteRoutes {
  import opened Basics
  import opened UserModel
  import opened CommuteModel
  import opened Accounts
  import opened TradingModel
  import PM = PendingModel
  import opened Store

  datatype CommuteError =
    | FieldsRequired
    | InvalidMethod
    | InvalidStatus
    | CommuteNotFound
    | UserNotFound

  /** `Commute.findById(id)`. */
  function CommuteIndex(commutes: seq<Commute>, id: CommuteId): (r: Option<nat>)
    ensures r.Some? ==> r.value < |commutes| && commutes[r.value].id == id
    ensures r.None? <==> forall i :: 0 <= i < |commutes| ==> commutes[i].id != id
  {
    FindIndex(commutes, (c: Commute) => c.id, id)
  }

  // ---------------------------------------------------------------- POST /

  /** The request body of `POST /`; a field that is missing is None. */
  datatype CommuteRequest = CommuteRequest(
    employeeId: Option<UserId>,
    date: Option<int>,
    transport: Option<string>,
    startLocation: Option<string>,
    endLocation: Option<string>,
    distanceKm: Option<real>,
    carbonSaved: Option<real>)

  /** A number JavaScript reads as true: present and not 0. */
  predicate Truthy(x: Option<real>) {
    x.Some? && x.value != 0.0
  }

  /** The route's `!field` test passes for every field: strings present and
      not empty, numbers present and not 0. */
  predicate AllFieldsGiven(q: CommuteRequest) {
    && q.employeeId.Some? && q.date.Some? && Present(q.transport)
    && Present(q.startLocation) && Present(q.endLocation)
    && Truthy(q.distanceKm) && Truthy(q.carbonSaved)
  }

  /** What `POST /` decides, the new commute taking the id `id`. */
  function PostDecision(q: CommuteRequest, id: CommuteId, now: int): (r: Result<Commute, CommuteError>)
    ensures r == Err(FieldsRequired) <==> !AllFieldsGiven(q)
    ensures r == Err(InvalidMethod) <==> AllFieldsGiven(q) && ParseMethod(q.transport.value).None?
    ensures r.Ok? <==> AllFieldsGiven(q) && ParseMethod(q.transport.value).Some?
    ensures r.Ok? ==>
      var c := r.value;
      && CommuteValid(c)
      && c.id == id && c.createdAt == now && c.status == Some(Pending)
      && Some(c.employeeId) == q.employeeId && Some(c.date) == q.date
      && Some(MethodName(c.transport)) == q.transport
      && Some(c.startLocation) == q.startLocation && Some(c.endLocation) == q.endLocation
      && Some(c.distanceKm) == q.distanceKm && Some(c.carbonSaved) == q.carbonSaved
      && c.distanceKm != 0.0 && c.carbonSaved != 0.0
  {
    if !AllFieldsGiven(q) then Err(FieldsRequired)
    else if ParseMethod(q.transport.value).None? then Err(InvalidMethod)
    else
      var draft := CommuteDraft(q.employeeId, q.date, q.transport, q.startLocation, q.endLocation,
                                q.distanceKm, q.carbonSaved, Some(Pending));
      Ok(NewCommute(draft, id, now).value)
  }

  /** `POST /`: saves the commute as pending, then raises the employee's
      balance by the commute's carbonSaved when the employee exists (the
      commute is kept either way). */
  method PostCommute(db: Database, q: CommuteRequest, now: int) returns (r: Result<Commute, CommuteError>)
    requires db.Valid()
    modifies db
    ensures db.Valid()
    ensures r == PostDecision(q, old(db.nextId), now)
    ensures db.trades == old(db.trades) && db.pending == old(db.pending)
    ensures r.Ok? ==>
      && db.commutes == old(db.commutes) + [r.value] && db.nextId == old(db.nextId) + 1
      && db.users == AddCredits(old(db.users), r.value.employeeId, r.value.carbonSaved)
    ensures r.Err? ==> db.users == old(db.users) && db.commutes == old(db.commutes) && db.nextId == old(db.nextId)
  {
    r := PostDecision(q, db.nextId, now);
    if r.Err? {
      return;
    }
    var commute := r.value;
    var id := db.FreshId();
    db.commutes := db.commutes + [commute];
    CreditEmployee(db, commute.employeeId, commute.carbonSaved);
    PostKeepsValid(old(db.users), db.trades, old(db.commutes), db.pending, id, commute, db.users, db.commutes);
  }

  /** The balance update POST and DELETE share: when the employee's account
      exists, its balance moves by `delta`. */
  method CreditEmployee(db: Database, employee: UserId, delta: real)
    modifies db`users
    ensures db.users == AddCredits(old(db.users), employee, delta)
  {
    var ui := UserIndex(db.users, employee);
    if ui.Some? {
      var user := db.users[ui.value];
      db.users := SetCredits(db.users, ui.value, user.carbonCredits + delta);
    }
  }

  /** Saving a commute under the next fresh id and crediting its employee
      keep the store valid. */
  lemma PostKeepsValid(users: seq<User>, trades: seq<Trade>, commutes: seq<Commute>, pending: seq<PM.PendingRegistration>,
                       nextId: nat, c: Commute, users': seq<User>, commutes': seq<Commute>)
    requires StoreOk(users, trades, commutes, pending, nextId)
    requires c.id == nextId && CommuteValid(c)
    requires users' == AddCredits(users, c.employeeId, c.carbonSaved) && commutes' == commutes + [c]
    ensures StoreOk(users', trades, commutes', pending, nextId + 1)
  {
    UsersOkSame(users', users, nextId);
    KeysBelowAppend(commutes, (c: Commute) => c.id, nextId, c);
  }

  // ------------------------------------------------------ PUT /:id/status

  const BaseRate: real := 0.1

  /** `methodMultipliers[method] || 1`. */
  function Multiplier(m: string): (r: real)
    ensures r > 0.0
    ensures m !in ["bike", "walk", "carpool", "public_transport", "electric_vehicle", "car"] ==> r == 1.0
  {
    if m == "bike" then 2.0
    else if m == "walk" then 3.0
    else if m == "carpool" then 1.5
    else if m == "public_transport" then 1.2
    else if m == "electric_vehicle" then 1.8
    else if m == "car" then 0.5
    else 1.0
  }

  /** `calculateCredits(distance, method)`: distance times the base rate and
      the method's multiplier, rounded as `Math.round` does. */
  function CalculateCredits(distance: real, m: string): (r: int)
    ensures r as real - 0.5 <= distance * BaseRate * Multiplier(m) < r as real + 0.5
    ensures distance >= 0.0 ==> r >= 0
  {
    MathRound(distance * BaseRate * Multiplier(m))
  }

  /** A longer commute never earns fewer credits. */
  lemma CalculateCreditsMonotone(d1: real, d2: real, m: string)
    requires d1 <= d2
    ensures CalculateCredits(d1, m) <= CalculateCredits(d2, m)
  {
    var k := BaseRate * Multiplier(m);
    assert k > 0.0;
    assert d1 * k <= d2 * k;
    assert d1 * BaseRate * Multiplier(m) == d1 * k && d2 * BaseRate * Multiplier(m) == d2 * k;
  }

  /** `Math.round` breaks ties upward, also below zero; an unknown method
      counts with multiplier 1. */
  lemma CalculateCreditsExamples()
    ensures CalculateCredits(25.0, "walk") == 8
    ensures CalculateCredits(5.0, "carpool") == 1
    ensures CalculateCredits(25.0, "scooter") == 3
    ensures CalculateCredits(-25.0, "scooter") == -2
  {
  }

  /** The balance the transition table leaves, from balance `b`, when a
      commute worth `credits` moves from status `from` to `to`. */
  function TransitionBalance(from: Option<CommuteStatus>, to: CommuteStatus, b: real, credits: real): (r: real)
    ensures b >= 0.0 && credits >= 0.0 && r > b ==> to == Approved && (from == Some(Pending) || from == Some(Rejected)) && r == b + credits
    ensures credits >= 0.0 && r < b ==> from == Some(Approved) && to == Rejected
    ensures b >= 0.0 && credits >= 0.0 ==> r >= 0.0
  {
    if from == Some(Approved) && to == Rejected then Max(0.0, b - credits)
    else if from == Some(Rejected) && to == Approved then b + credits
    else if from == Some(Pending) && to == Approved then b + credits
    else b
  }

  /** A balance already below zero (a DELETE can leave one) is lifted to 0
      by rejecting an approved commute. */
  lemma RejectionLiftsDebt(b: real, credits: real)
    requires b < 0.0 && credits >= 0.0
    ensures TransitionBalance(Some(Approved), Rejected, b, credits) == 0.0
  {
  }

  /** Setting a commute to the status it already has changes no balance. */
  lemma TransitionSameStatus(s: CommuteStatus, b: real, credits: real)
    ensures TransitionBalance(Some(s), s, b, credits) == b
  {
  }

  /** Approving a pending commute and then rejecting it restores a balance
      that was not negative. */
  lemma ApproveThenReject(b: real, credits: real)
    requires b >= 0.0 && credits >= 0.0
    ensures TransitionBalance(Some(Approved), Rejected, TransitionBalance(Some(Pending), Approved, b, credits), credits) == b
  {
  }

  /** Rejecting an approved commute and approving it again leaves
      max(b, credits): the floor at 0 in the rejection means a balance
      smaller than the commute's credits comes back raised. */
  lemma RejectThenReapprove(b: real, credits: real)
    ensures TransitionBalance(Some(Rejected), Approved, TransitionBalance(Some(Approved), Rejected, b, credits), credits) == Max(b, credits)
  {
  }

  /** Nothing stops an approved commute from going back to pending: the
      table leaves the balance, and the next approval credits it again. */
  lemma ApprovalRepeats(b: real, credits: real)
    ensures var approved := TransitionBalance(Some(Pending), Approved, b, credits);
            var back := TransitionBalance(Some(Approved), Pending, approved, credits);
            TransitionBalance(Some(Pending), Approved, back, credits) == b + 2.0 * credits
  {
  }

  /** The response of `PUT /:id/status`. */
  datatype StatusReceipt = StatusReceipt(commute: Commute, creditsEarned: int, totalCredits: real)

  /** `PUT /:id/status`: checks the status, finds the commute and its
      employee, applies the transition table to the employee's balance and
      stores the new status. */
  method SetCommuteStatus(db: Database, id: CommuteId, status: string) returns (r: Result<StatusReceipt, CommuteError>)
    requires db.Valid()
    modifies db`users, db`commutes
    ensures db.Valid()
    ensures ParseCommuteStatus(status).None? ==> r == Err(InvalidStatus)
    ensures ParseCommuteStatus(status).Some? && CommuteIndex(old(db.commutes), id).None? ==> r == Err(CommuteNotFound)
    ensures ParseCommuteStatus(status).Some? && CommuteIndex(old(db.commutes), id).Some? ==>
      var c := old(db.commutes)[CommuteIndex(old(db.commutes), id).value];
      UserIndex(old(db.users), c.employeeId).None? ==> r == Err(UserNotFound)
    ensures r.Ok? <==>
      && ParseCommuteStatus(status).Some? && CommuteIndex(old(db.commutes), id).Some?
      && UserIndex(old(db.users), old(db.commutes)[CommuteIndex(old(db.commutes), id).value].employeeId).Some?
    ensures r.Err? ==> db.users == old(db.users) && db.commutes == old(db.commutes)
    ensures r.Ok? ==>
      && ParseCommuteStatus(status).Some? && CommuteIndex(old(db.commutes), id).Some?
      && var to := ParseCommuteStatus(status).value;
      && var ci := CommuteIndex(old(db.commutes), id).value;
      && var c := old(db.commutes)[ci];
      && UserIndex(old(db.users), c.employeeId).Some?
      && var ui := UserIndex(old(db.users), c.employeeId).value;
      && var credits := CalculateCredits(c.distanceKm, MethodName(c.transport));
      && var balance := TransitionBalance(c.status, to, old(db.users)[ui].carbonCredits, credits as real);
      && db.users == SetCredits(old(db.users), ui, balance)
      && db.commutes == old(db.commutes)[ci := c.(status := Some(to))]
      && r.value == StatusReceipt(c.(status := Some(to)), credits, balance)
  {
    var to := ParseCommuteStatus(status);
    if to.None? {
      return Err(InvalidStatus);
    }
    var ci := CommuteIndex(db.commutes, id);
    if ci.None? {
      return Err(CommuteNotFound);
    }
    var commute := db.commutes[ci.value];
    var ui := UserIndex(db.users, commute.employeeId);
    if ui.None? {
      return Err(UserNotFound);
    }
    var creditsEarned, balance := ApplyTransition(db, ci.value, ui.value, to.value);
    StatusKeepsValid(old(db.users), db.trades, old(db.commutes), db.pending, db.nextId,
                     ui.value, balance, ci.value, to, db.users, db.commutes);
    r := Ok(StatusReceipt(db.commutes[ci.value], creditsEarned, balance));
  }

  /** The writes of `PUT /:id/status` once the commute at `ci` and its
      employee at `ui` are found: the credits the commute is worth, the
      transition chain on the employee's balance, then the new status. */
  method ApplyTransition(db: Database, ci: nat, ui: nat, to: CommuteStatus) returns (creditsEarned: int, balance: real)
    requires ci < |db.commutes| && ui < |db.users|
    modifies db`users, db`commutes
    ensures var c := old(db.commutes)[ci];
      && creditsEarned == CalculateCredits(c.distanceKm, MethodName(c.transport))
      && balance == TransitionBalance(c.status, to, old(db.users)[ui].carbonCredits, creditsEarned as real)
      && db.users == SetCredits(old(db.users), ui, balance)
      && db.commutes == old(db.commutes)[ci := c.(status := Some(to))]
  {
    var commute := db.commutes[ci];
    var user := db.users[ui];
    creditsEarned := CalculateCredits(commute.distanceKm, MethodName(commute.transport));
    balance := user.carbonCredits;
    if commute.status == Some(Approved) && to == Rejected {
      balance := Max(0.0, balance - creditsEarned as real);
    } else if commute.status == Some(Rejected) && to == Approved {
      balance := balance + creditsEarned as real;
    } else if commute.status == Some(Pending) && to == Approved {
      balance := balance + creditsEarned as real;
    }
    db.users := SetCredits(db.users, ui, balance);
    db.commutes := db.commutes[ci := commute.(status := Some(to))];
  }

  /** A balance write and a status write keep the store valid. */
  lemma StatusKeepsValid(users: seq<User>, trades: seq<Trade>, commutes: seq<Commute>, pending: seq<PM.PendingRegistration>,
                         nextId: nat, ui: nat, balance: real, ci: nat, status: Option<CommuteStatus>,
                         users': seq<User>, commutes': seq<Commute>)
    requires StoreOk(users, trades, commutes, pending, nextId)
    requires ui < |users| && ci < |commutes|
    requires users' == SetCredits(users, ui, balance)
    requires commutes' == commutes[ci := commutes[ci].(status := status)]
    ensures StoreOk(users', trades, commutes', pending, nextId)
  {
    UsersOkSame(users', users, nextId);
    KeysBelowUpdate(commutes, (c: Commute) => c.id, nextId, ci, commutes'[ci]);
  }

  // ------------------------------------- GET /employee/:employeeId/history

  /** One entry of the credit history. */
  datatype CreditLine = CreditLine(date: int, transport: string, distance: real, credits: int, status: Option<CommuteStatus>)

  /** `s.replace(from, to)` with a one-character pattern: the first
      occurrence is replaced, later ones are kept. */
  function ReplaceFirst(s: string, from: char, to: char): (r: string)
    ensures |r| == |s|
    ensures forall i :: 0 <= i < |s| ==> r[i] == (if s[i] == from && from !in s[..i] then to else s[i])
  {
    if s == [] then []
    else if s[0] == from then [to] + s[1..]
    else
      assert forall i :: 0 < i <= |s| ==> s[..i] == [s[0]] + s[1..][..i - 1];
      [s[0]] + ReplaceFirst(s[1..], from, to)
  }

  /** At the first occurrence only, the character is replaced. */
  lemma {:induction false} ReplaceFirstAt(s: string, from: char, to: char, i: nat)
    requires i < |s| && s[i] == from && from !in s[..i]
    ensures ReplaceFirst(s, from, to) == s[..i] + [to] + s[i + 1..]
  {
    if i > 0 {
      assert s[0] in s[..i];
      assert s[1..][..i - 1] == s[1..i];
      ReplaceFirstAt(s[1..], from, to, i - 1);
      assert s[..i] == [s[0]] + s[1..][..i - 1];
    }
  }

  /** The entry a stored commute becomes: the method with its underscore
      shown as a space, and ten credits per unit of carbon saved, rounded
      down. */
  function Line(c: Commute): (r: CreditLine)
    ensures r.date == c.date && r.distance == c.distanceKm && r.status == c.status
    ensures r.credits as real <= c.carbonSaved * 10.0 < r.credits as real + 1.0
    ensures |r.transport| == |MethodName(c.transport)|
  {
    CreditLine(c.date, ReplaceFirst(MethodName(c.transport), '_', ' '), c.distanceKm,
               MathFloor(c.carbonSaved * 10.0), c.status)
  }

  function Lines(cs: seq<Commute>): (r: seq<CreditLine>)
    ensures |r| == |cs| && forall i :: 0 <= i < |cs| ==> r[i] == Line(cs[i])
  {
    if cs == [] then [] else [Line(cs[0])] + Lines(cs[1..])
  }

  /** The history query: the employee's commutes and, when both bounds are
      given, only those dated within `[window.0, window.1]`. */
  predicate InWindow(c: Commute, employee: UserId, window: Option<(int, int)>) {
    c.employeeId == employee && (window.Some? ==> window.value.0 <= c.date <= window.value.1)
  }

  /** `GET /employee/:employeeId/history`: one entry per selected commute,
      newest first. */
  function CreditHistory(commutes: seq<Commute>, employee: UserId, window: Option<(int, int)>): (r: seq<CreditLine>)
    ensures forall i, j :: 0 <= i < j < |r| ==> r[i].date >= r[j].date
    ensures forall i :: 0 <= i < |r| ==>
      exists k :: 0 <= k < |commutes| && InWindow(commutes[k], employee, window) && r[i] == Line(commutes[k])
    ensures forall k :: 0 <= k < |commutes| && InWindow(commutes[k], employee, window) ==> Line(commutes[k]) in r
    ensures var selected := Filter(commutes, (c: Commute) => InWindow(c, employee, window));
      |r| == |selected| && multiset(r) == multiset(Lines(selected))
  {
    var selected := Filter(commutes, (c: Commute) => InWindow(c, employee, window));
    var sorted := SortDesc(selected, (c: Commute) => c.date);
    LinesMultiset(sorted, selected);
    FilterSource(commutes, (c: Commute) => InWindow(c, employee, window));
    HistorySound(commutes, employee, window, selected, sorted);
    HistoryComplete(commutes, employee, window, selected, sorted);
    Lines(sorted)
  }

  /** Reordering the commutes reorders their entries: the same entries, as
      often each. */
  lemma {:induction false} LinesMultiset(a: seq<Commute>, b: seq<Commute>)
    requires multiset(a) == multiset(b)
    ensures multiset(Lines(a)) == multiset(Lines(b))
    decreases |a|
  {
    if a != [] {
      assert a[0] in multiset(b);
      var k :| 0 <= k < |b| && b[k] == a[0];
      PermTail(a, b, k);
      LinesMultiset(a[1..], b[..k] + b[k + 1..]);
      LinesDropOne(b, k);
      assert Lines(a) == [Line(a[0])] + Lines(a[1..]);
      assert multiset(Lines(a)) == multiset{Line(a[0])} + multiset(Lines(a[1..]));
    }
  }

  /** Taking the first element out of one side and an equal one out of the
      other keeps two permutations permutations. */
  lemma PermTail(a: seq<Commute>, b: seq<Commute>, k: nat)
    requires multiset(a) == multiset(b) && a != [] && k < |b| && b[k] == a[0]
    ensures multiset(a[1..]) == multiset(b[..k] + b[k + 1..])
  {
    var front, back := b[..k], b[k + 1..];
    assert a == [a[0]] + a[1..];
    assert b[..k + 1] == front + [b[k]];
    assert b == b[..k + 1] + back;
    assert multiset(b) == multiset(front) + multiset{a[0]} + multiset(back);
    assert multiset(front + back) == multiset(front) + multiset(back);
    assert multiset(a) == multiset{a[0]} + multiset(a[1..]);
    assert multiset(a[1..]) == multiset(a) - multiset{a[0]};
  }

  /** The entries of `s` are those of `s` without its `k`th commute, plus that one's. */
  lemma {:induction false} LinesDropOne(s: seq<Commute>, k: nat)
    requires k < |s|
    ensures multiset(Lines(s)) == multiset(Lines(s[..k] + s[k + 1..])) + multiset{Line(s[k])}
  {
    var x := s[..k] + s[k + 1..];
    assert Lines(s) == [Line(s[0])] + Lines(s[1..]);
    if k == 0 {
      assert x == s[1..];
    } else {
      var t := s[1..];
      assert t[..k - 1] + t[k..] == x[1..];
      assert x[0] == s[0] && t[k - 1] == s[k];
      LinesDropOne(t, k - 1);
      assert Lines(x) == [Line(s[0])] + Lines(x[1..]);
    }
  }

  /** Every entry comes from a commute the query selects. */
  lemma HistorySound(commutes: seq<Commute>, employee: UserId, window: Option<(int, int)>,
                     selected: seq<Commute>, sorted: seq<Commute>)
    requires forall c :: c in selected ==> c in commutes && InWindow(c, employee, window)
    requires multiset(sorted) == multiset(selected)
    ensures forall i :: 0 <= i < |sorted| ==>
      exists k :: 0 <= k < |commutes| && InWindow(commutes[k], employee, window) && Lines(sorted)[i] == Line(commutes[k])
  {
    var lines := Lines(sorted);
    forall i | 0 <= i < |sorted|
      ensures exists k :: 0 <= k < |commutes| && InWindow(commutes[k], employee, window) && lines[i] == Line(commutes[k])
    {
      var c := sorted[i];
      assert c in multiset(sorted);
      assert c in selected;
      var k :| 0 <= k < |commutes| && commutes[k] == c;
      assert lines[i] == Line(commutes[k]);
    }
  }

  /** Every commute the query selects has its entry. */
  lemma HistoryComplete(commutes: seq<Commute>, employee: UserId, window: Option<(int, int)>,
                        selected: seq<Commute>, sorted: seq<Commute>)
    requires selected == Filter(commutes, (c: Commute) => InWindow(c, employee, window))
    requires sorted == SortDesc(selected, (c: Commute) => c.date)
    ensures forall k :: 0 <= k < |commutes| && InWindow(commutes[k], employee, window) ==> Line(commutes[k]) in Lines(sorted)
  {
    forall k | 0 <= k < |commutes| && InWindow(commutes[k], employee, window) ensures Line(commutes[k]) in Lines(sorted) {
      SortDescMembers(selected, (c: Commute) => c.date, commutes[k]);
      var j :| 0 <= j < |sorted| && sorted[j] == commutes[k];
      assert Lines(sorted)[j] == Line(commutes[k]);
    }
  }

  // ----------------------------------------------------------- DELETE /:id

  /** `DELETE /:id`: lowers the employee's balance by the commute's
      carbonSaved (with no floor at 0) when the employee exists, then
      removes the commute. */
  method DeleteCommute(db: Database, id: CommuteId) returns (r: Result<Unit, CommuteError>)
    requires db.Valid()
    modifies db`users, db`commutes
    ensures db.Valid()
    ensures CommuteIndex(old(db.commutes), id).None? ==>
      r == Err(CommuteNotFound) && db.users == old(db.users) && db.commutes == old(db.commutes)
    ensures CommuteIndex(old(db.commutes), id).Some? ==>
      var ci := CommuteIndex(old(db.commutes), id).value;
      var c := old(db.commutes)[ci];
      && r == Ok(Unit)
      && db.users == AddCredits(old(db.users), c.employeeId, -c.carbonSaved)
      && db.commutes == RemoveAt(old(db.commutes), ci)
  {
    var ci := CommuteIndex(db.commutes, id);
    if ci.None? {
      r := Err(CommuteNotFound);
    } else {
      RemoveCommute(db, ci.value);
      r := Ok(Unit);
    }
  }

  /** The writes of `DELETE /:id` once the commute at `ci` is found: the
      employee's debit, then the removal. */
  method RemoveCommute(db: Database, ci: nat)
    requires db.Valid() && ci < |db.commutes|
    modifies db`users, db`commutes
    ensures db.Valid()
    ensures db.users == AddCredits(old(db.users), old(db.commutes)[ci].employeeId, -old(db.commutes)[ci].carbonSaved)
    ensures db.commutes == RemoveAt(old(db.commutes), ci)
  {
    var commute := db.commutes[ci];
    CreditEmployee(db, commute.employeeId, -commute.carbonSaved);
    db.commutes := RemoveAt(db.commutes, ci);
    DeleteKeepsValid(old(db.users), db.trades, old(db.commutes), db.pending, db.nextId, ci, db.users, db.commutes);
  }

  /** Debiting the employee and removing the commute keep the store valid. */
  lemma DeleteKeepsValid(users: seq<User>, trades: seq<Trade>, commutes: seq<Commute>, pending: seq<PM.PendingRegistration>,
                         nextId: nat, ci: nat, users': seq<User>, commutes': seq<Commute>)
    requires StoreOk(users, trades, commutes, pending, nextId) && ci < |commutes|
    requires users' == AddCredits(users, commutes[ci].employeeId, -commutes[ci].carbonSaved)
    requires commutes' == RemoveAt(commutes, ci)
    ensures StoreOk(users', trades, commutes', pending, nextId)
  {
    UsersOkSame(users', users, nextId);
    KeysBelowRemove(commutes, (c: Commute) => c.id, nextId, ci);
  }

  /** Deleting a commute right after posting it restores both the commute
      list and every balance. */
  lemma PostThenDeleteRestores(users: seq<User>, commutes: seq<Commute>, nextId: nat, q: CommuteRequest, now: int)
    requires KeysBelow(commutes, (c: Commute) => c.id, nextId)
    requires PostDecision(q, nextId, now).Ok?
    ensures var c := PostDecision(q, nextId, now).value;
      && CommuteIndex(commutes + [c], c.id) == Some(|commutes|)
      && RemoveAt(commutes + [c], |commutes|) == commutes
      && AddCredits(AddCredits(users, c.employeeId, c.carbonSaved), c.employeeId, -c.carbonSaved) == users
  {
    var c := PostDecision(q, nextId, now).value;
    FindIndexAppend(commutes, (c: Commute) => c.id, nextId, c);
    assert RemoveAt(commutes + [c], |commutes|) == commutes;
    AddCreditsUndo(users, c.employeeId, c.carbonSaved);
  }
}
