/** The statistics routes (server/routes/stats.js): read-only sums and
    counts over the accounts and the commutes. The current month is an
    input, and `month` stands for `new Date(date).getMonth()`. */
module StatsRoutes {
  import opened Basics
  import opened UserModel
  import opened CommuteModel
  import opened Accounts

  // ---------------------------------------------------------------- /system

  /** One group of the `$group` by role stage. */
  datatype RoleGroup = RoleGroup(role: Role, count: nat, totalCredits: real)

  function CountRole(users: seq<User>, role: Role): nat {
    if users == [] then 0
    else (if users[0].role == role then 1 else 0) + CountRole(users[1..], role)
  }

  /** `$sum: { $ifNull: ["$carbonCredits", 0] }` over one role. */
  function RoleCredits(users: seq<User>, role: Role): real {
    if users == [] then 0.0
    else (if users[0].role == role then users[0].carbonCredits else 0.0) + RoleCredits(users[1..], role)
  }

  /** The aggregation's output: one group per role that has at least one account. */
  function Groups(users: seq<User>): (r: seq<RoleGroup>)
    ensures forall g :: g in r ==> g.count > 0 && g.count == CountRole(users, g.role)
                                     && g.totalCredits == RoleCredits(users, g.role)
    ensures forall role :: CountRole(users, role) > 0 <==> exists g :: g in r && g.role == role
    ensures forall i, j :: 0 <= i < j < |r| ==> r[i].role != r[j].role
  {
    Group(users, Admin) + Group(users, Employer) + Group(users, Employee)
  }

  function Group(users: seq<User>, role: Role): seq<RoleGroup> {
    if CountRole(users, role) > 0 then [RoleGroup(role, CountRole(users, role), RoleCredits(users, role))] else []
  }

  function SumCounts(gs: seq<RoleGroup>): nat {
    if gs == [] then 0 else gs[0].count + SumCounts(gs[1..])
  }

  function SumGroupCredits(gs: seq<RoleGroup>): real {
    if gs == [] then 0.0 else gs[0].totalCredits + SumGroupCredits(gs[1..])
  }

  /** `stats.find((g) => g._id === role)?.count || 0`. */
  function FindCount(gs: seq<RoleGroup>, role: Role): nat {
    if gs == [] then 0 else if gs[0].role == role then gs[0].count else FindCount(gs[1..], role)
  }

  function CountApproved(commutes: seq<Commute>): nat {
    if commutes == [] then 0
    else (if commutes[0].status == Some(Approved) then 1 else 0) + CountApproved(commutes[1..])
  }

  datatype SystemStats = SystemStats(totalUsers: nat, employers: nat, employees: nat, totalCredits: real,
                                     totalTransactions: nat)

  /** `GET /system`: the per-role counts add up to every account, the
      per-role sums to every balance, and the role figures are the number
      of accounts with that role (0 when there is none). */
  function SystemFigures(users: seq<User>, commutes: seq<Commute>): (r: SystemStats)
    ensures r.totalUsers == |users|
    ensures r.totalCredits == TotalCredits(users)
    ensures r.employers == CountRole(users, Employer) && r.employees == CountRole(users, Employee)
    ensures r.employers + r.employees <= r.totalUsers
    ensures r.totalTransactions == CountApproved(commutes)
  {
    var gs := Groups(users);
    GroupSums(users);
    GroupFinds(users);
    RolesPartition(users);
    SystemStats(SumCounts(gs), FindCount(gs, Employer), FindCount(gs, Employee), SumGroupCredits(gs),
                CountApproved(commutes))
  }

  lemma SumsAppend(a: seq<RoleGroup>, b: seq<RoleGroup>)
    ensures SumCounts(a + b) == SumCounts(a) + SumCounts(b)
    ensures SumGroupCredits(a + b) == SumGroupCredits(a) + SumGroupCredits(b)
  {
    if a != [] {
      assert (a + b)[0] == a[0] && (a + b)[1..] == a[1..] + b;
      SumsAppend(a[1..], b);
    } else {
      assert a + b == b;
    }
  }

  /** Every account has exactly one of the three roles. */
  lemma {:induction false} RolesPartition(users: seq<User>)
    ensures CountRole(users, Admin) + CountRole(users, Employer) + CountRole(users, Employee) == |users|
    ensures RoleCredits(users, Admin) + RoleCredits(users, Employer) + RoleCredits(users, Employee) == TotalCredits(users)
  {
    if users != [] {
      RolesPartition(users[1..]);
    }
  }

  /** Summing the groups sums the three roles. */
  lemma GroupSums(users: seq<User>)
    ensures SumCounts(Groups(users)) == CountRole(users, Admin) + CountRole(users, Employer) + CountRole(users, Employee)
    ensures SumGroupCredits(Groups(users))
      == RoleCredits(users, Admin) + RoleCredits(users, Employer) + RoleCredits(users, Employee)
  {
    var a, e, w := Group(users, Admin), Group(users, Employer), Group(users, Employee);
    assert Groups(users) == a + e + w;
    SumsAppend(a, e);
    SumsAppend(a + e, w);
    NoCreditsWithoutAccounts(users, Admin);
    NoCreditsWithoutAccounts(users, Employer);
    NoCreditsWithoutAccounts(users, Employee);
  }

  /** Finding a role's group gives its count, or 0 when it has none. */
  lemma GroupFinds(users: seq<User>)
    ensures FindCount(Groups(users), Employer) == CountRole(users, Employer)
    ensures FindCount(Groups(users), Employee) == CountRole(users, Employee)
  {
    var a, e, w := Group(users, Admin), Group(users, Employer), Group(users, Employee);
    assert Groups(users) == a + (e + w) == (a + e) + w;
    FindCountSkip(a, e + w, Employer);
    FindCountSkip(w, [], Employer);
    assert w + [] == w;
    FindCountSkip(a + e, w, Employee);
  }

  /** Groups of other roles in front do not change what `find` returns. */
  lemma {:induction false} FindCountSkip(a: seq<RoleGroup>, b: seq<RoleGroup>, role: Role)
    requires forall i :: 0 <= i < |a| ==> a[i].role != role
    ensures FindCount(a + b, role) == FindCount(b, role)
  {
    if a != [] {
      assert (a + b)[0] == a[0] && (a + b)[1..] == a[1..] + b;
      FindCountSkip(a[1..], b, role);
    } else {
      assert a + b == b;
    }
  }

  /** A role with no account contributes no credits, so dropping its group
      loses nothing. */
  lemma {:induction false} NoCreditsWithoutAccounts(users: seq<User>, role: Role)
    ensures CountRole(users, role) == 0 ==> RoleCredits(users, role) == 0.0
  {
    if users != [] {
      NoCreditsWithoutAccounts(users[1..], role);
    }
  }

  // ------------------------------------------------------ /employer/:id

  /** The ids of the accounts at `team`, in order: `employees.map((e) => e._id)`. */
  function Ids(users: seq<User>, team: seq<nat>): (r: seq<UserId>)
    requires Within(team, |users|)
    ensures |r| == |team| && forall k :: 0 <= k < |team| ==> r[k] == users[team[k]].id
  {
    if team == [] then [] else [users[team[0]].id] + Ids(users, team[1..])
  }

  /** `Commute.find({ employeeId: { $in: ids }, status: "approved" })`. */
  function ApprovedOf(commutes: seq<Commute>, ids: seq<UserId>): (r: seq<Commute>)
    ensures |r| <= |commutes|
    ensures forall i :: 0 <= i < |r| ==> r[i].employeeId in ids && r[i].status == Some(Approved)
  {
    if commutes == [] then []
    else
      var rest := ApprovedOf(commutes[1..], ids);
      if commutes[0].employeeId in ids && commutes[0].status == Some(Approved) then [commutes[0]] + rest else rest
  }

  /** The query finds every matching commute, as often as it is stored. */
  lemma {:induction false} ApprovedOfMultiset(commutes: seq<Commute>, ids: seq<UserId>)
    ensures forall c :: multiset(ApprovedOf(commutes, ids))[c]
                     == if c.employeeId in ids && c.status == Some(Approved) then multiset(commutes)[c] else 0
  {
    if commutes != [] {
      assert commutes == [commutes[0]] + commutes[1..];
      ApprovedOfMultiset(commutes[1..], ids);
    }
  }

  function SumSaved(cs: seq<Commute>): real {
    if cs == [] then 0.0 else cs[0].carbonSaved + SumSaved(cs[1..])
  }

  function SumDistance(cs: seq<Commute>): real {
    if cs == [] then 0.0 else cs[0].distanceKm + SumDistance(cs[1..])
  }

  /** The commutes dated in the current month. */
  function InMonth(cs: seq<Commute>, month: int -> int, current: int): (r: seq<Commute>)
    ensures |r| <= |cs|
    ensures forall i :: 0 <= i < |r| ==> month(r[i].date) == current
  {
    if cs == [] then []
    else
      var rest := InMonth(cs[1..], month, current);
      if month(cs[0].date) == current then [cs[0]] + rest else rest
  }

  /** Every commute of the current month is kept, as often as it occurs. */
  lemma {:induction false} InMonthMultiset(cs: seq<Commute>, month: int -> int, current: int)
    ensures forall c :: multiset(InMonth(cs, month, current))[c] == if month(c.date) == current then multiset(cs)[c] else 0
  {
    if cs != [] {
      assert cs == [cs[0]] + cs[1..];
      InMonthMultiset(cs[1..], month, current);
    }
  }

  /** The commutes dated in any other month. */
  function OutOfMonth(cs: seq<Commute>, month: int -> int, current: int): seq<Commute> {
    if cs == [] then []
    else
      var rest := OutOfMonth(cs[1..], month, current);
      if month(cs[0].date) == current then rest else [cs[0]] + rest
  }

  /** The month's sum and the other months' sum make up the whole. */
  lemma {:induction false} MonthPartition(cs: seq<Commute>, month: int -> int, current: int)
    ensures SumSaved(InMonth(cs, month, current)) + SumSaved(OutOfMonth(cs, month, current)) == SumSaved(cs)
    ensures |InMonth(cs, month, current)| + |OutOfMonth(cs, month, current)| == |cs|
  {
    if cs != [] {
      MonthPartition(cs[1..], month, current);
    }
  }

  datatype EmployerStats = EmployerStats(totalEmployees: nat, totalCarbonCredits: real, totalTransactions: nat,
                                         monthlyCarbonCredits: real)

  /** `GET /employer/:employerId`: the employee count and balance sum range
      over the team only (the employer's own balance is not in it), and the
      commute figures over the team's approved commutes. */
  function EmployerFigures(users: seq<User>, commutes: seq<Commute>, e: UserId, month: int -> int, current: int): (r: EmployerStats)
    ensures r.totalEmployees == |Team(users, e)|
    ensures r.totalCarbonCredits == TeamCredits(users, e)
    ensures r.totalTransactions == |ApprovedOf(commutes, Ids(users, Team(users, e)))|
    ensures r.totalTransactions <= |commutes|
  {
    var team := Team(users, e);
    var approved := ApprovedOf(commutes, Ids(users, team));
    EmployerStats(|team|, SumAt(users, team), |approved|, SumSaved(InMonth(approved, month, current)))
  }

  /** The employer's figures do not change when an account outside the
      team (the employer's own among them) gets a different balance. */
  lemma EmployerStatsTeamOnly(users: seq<User>, commutes: seq<Commute>, e: UserId, month: int -> int, current: int,
                              i: nat, v: real)
    requires i < |users| && !InTeam(users[i], e)
    ensures EmployerFigures(SetCredits(users, i, v), commutes, e, month, current) == EmployerFigures(users, commutes, e, month, current)
  {
    var users' := SetCredits(users, i, v);
    SetCreditsSameAccounts(users, i, v);
    TeamSame(users', users, e);
    var team := Team(users, e);
    SumAtOutside(users, team, i, v);
    assert Ids(users', team) == Ids(users, team);
  }

  /** The monthly figure is the part of the team's approved savings dated
      in the current month; the rest is dated in other months. */
  lemma EmployerMonthly(users: seq<User>, commutes: seq<Commute>, e: UserId, month: int -> int, current: int)
    ensures var approved := ApprovedOf(commutes, Ids(users, Team(users, e)));
      EmployerFigures(users, commutes, e, month, current).monthlyCarbonCredits
        == SumSaved(approved) - SumSaved(OutOfMonth(approved, month, current))
  {
    MonthPartition(ApprovedOf(commutes, Ids(users, Team(users, e))), month, current);
  }

  // ------------------------------------------------------ /employee/:id

  datatype EmployeeStats = EmployeeStats(totalCommutes: nat, totalDistance: real, totalCarbonSaved: real,
                                         monthlyCarbonSaved: real)

  /** `GET /employee/:employeeId`: figures over the employee's approved commutes. */
  function EmployeeFigures(commutes: seq<Commute>, employee: UserId, month: int -> int, current: int): (r: EmployeeStats)
    ensures r.totalCommutes == |ApprovedOf(commutes, [employee])| <= |commutes|
  {
    var approved := ApprovedOf(commutes, [employee]);
    EmployeeStats(|approved|, SumDistance(approved), SumSaved(approved), SumSaved(InMonth(approved, month, current)))
  }

  lemma {:induction false} ApprovedOfAppend(commutes: seq<Commute>, ids: seq<UserId>, c: Commute)
    ensures ApprovedOf(commutes + [c], ids)
      == ApprovedOf(commutes, ids) + (if c.employeeId in ids && c.status == Some(Approved) then [c] else [])
  {
    if commutes != [] {
      assert (commutes + [c])[1..] == commutes[1..] + [c];
      ApprovedOfAppend(commutes[1..], ids, c);
    } else {
      assert commutes + [c] == [c];
    }
  }

  lemma {:induction false} SumsAppendOne(cs: seq<Commute>, c: Commute)
    ensures SumSaved(cs + [c]) == SumSaved(cs) + c.carbonSaved
    ensures SumDistance(cs + [c]) == SumDistance(cs) + c.distanceKm
  {
    if cs != [] {
      assert (cs + [c])[1..] == cs[1..] + [c];
      SumsAppendOne(cs[1..], c);
    } else {
      assert cs + [c] == [c];
    }
  }

  lemma {:induction false} InMonthAppend(cs: seq<Commute>, c: Commute, month: int -> int, current: int)
    ensures InMonth(cs + [c], month, current) == InMonth(cs, month, current) + (if month(c.date) == current then [c] else [])
  {
    if cs != [] {
      assert (cs + [c])[1..] == cs[1..] + [c];
      InMonthAppend(cs[1..], c, month, current);
    } else {
      assert cs + [c] == [c];
    }
  }

  /** A newly recorded commute, which is pending, and any commute of someone
      else leave an employee's figures as they were. */
  lemma EmployeeStatsIgnore(commutes: seq<Commute>, employee: UserId, month: int -> int, current: int, c: Commute)
    requires c.status != Some(Approved) || c.employeeId != employee
    ensures EmployeeFigures(commutes + [c], employee, month, current) == EmployeeFigures(commutes, employee, month, current)
  {
    ApprovedOfAppend(commutes, [employee], c);
    var approved := ApprovedOf(commutes, [employee]);
    assert approved + [] == approved;
  }

  /** An approved commute of the employee adds one commute, its distance
      and its saving, and its saving to the monthly figure when it is dated
      in the current month. */
  lemma EmployeeStatsCount(commutes: seq<Commute>, employee: UserId, month: int -> int, current: int, c: Commute)
    requires c.status == Some(Approved) && c.employeeId == employee
    ensures var before := EmployeeFigures(commutes, employee, month, current);
      var after := EmployeeFigures(commutes + [c], employee, month, current);
      && after.totalCommutes == before.totalCommutes + 1
      && after.totalDistance == before.totalDistance + c.distanceKm
      && after.totalCarbonSaved == before.totalCarbonSaved + c.carbonSaved
      && after.monthlyCarbonSaved == before.monthlyCarbonSaved + (if month(c.date) == current then c.carbonSaved else 0.0)
  {
    var approved := ApprovedOf(commutes, [employee]);
    ApprovedOfAppend(commutes, [employee], c);
    SumsAppendOne(approved, c);
    InMonthAppend(approved, c, month, current);
    var monthly := InMonth(approved, month, current);
    if month(c.date) == current {
      SumsAppendOne(monthly, c);
    } else {
      assert monthly + [] == monthly;
    }
  }

  /** The monthly figure is the part of the total saving dated in the
      current month. */
  lemma EmployeeMonthly(commutes: seq<Commute>, employee: UserId, month: int -> int, current: int)
    ensures var s := EmployeeFigures(commutes, employee, month, current);
      s.monthlyCarbonSaved == s.totalCarbonSaved - SumSaved(OutOfMonth(ApprovedOf(commutes, [employee]), month, current))
  {
    MonthPartition(ApprovedOf(commutes, [employee]), month, current);
  }
}
