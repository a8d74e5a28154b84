/** Queries over the stored accounts that several routes share:
    `User.findById`, the team query `User.find({ employerId, role: "employee" })`,
    the balance sums the routes compute with `reduce`, and the single-field
    balance write `user.carbonCredits = v; user.save()`. */
module Accounts {
  import opened Basics
  import opened UserModel

  /** `User.findById(id)`: the position of the account with that id. */
  function UserIndex(users: seq<User>, id: UserId): (r: Option<nat>)
    ensures r.Some? ==> r.value < |users| && users[r.value].id == id
    ensures r.None? <==> forall i :: 0 <= i < |users| ==> users[i].id != id
  {
    FindIndex(users, (u: User) => u.id, id)
  }

  /** Matches the team query: an employee account whose employerId is the
      employer. Approval is not part of the query. */
  predicate InTeam(u: User, employer: UserId) {
    u.employerId == Some(employer) && u.role == Employee
  }

  predicate Increasing(idx: seq<nat>) {
    forall i, j :: 0 <= i < j < |idx| ==> idx[i] < idx[j]
  }

  predicate Within(idx: seq<nat>, n: nat) {
    forall k :: 0 <= k < |idx| ==> idx[k] < n
  }

  function TeamFrom(users: seq<User>, employer: UserId, from: nat): (r: seq<nat>)
    requires from <= |users|
    ensures Increasing(r) && Within(r, |users|)
    ensures forall k :: 0 <= k < |r| ==> from <= r[k] && InTeam(users[r[k]], employer)
    ensures forall i :: from <= i < |users| && InTeam(users[i], employer) ==> i in r
    decreases |users| - from
  {
    if from == |users| then []
    else if InTeam(users[from], employer) then [from] + TeamFrom(users, employer, from + 1)
    else TeamFrom(users, employer, from + 1)
  }

  /** The positions the team query returns, in list order: exactly the
      accounts that are employees of `employer`. */
  function Team(users: seq<User>, employer: UserId): (r: seq<nat>)
    ensures Increasing(r) && Within(r, |users|)
    ensures forall i :: 0 <= i < |users| ==> (i in r <==> InTeam(users[i], employer))
  {
    TeamFrom(users, employer, 0)
  }

  /** `reduce((sum, u) => sum + u.carbonCredits, 0)` over the accounts at `idx`. */
  function SumAt(users: seq<User>, idx: seq<nat>): real
    requires Within(idx, |users|)
  {
    if idx == [] then 0.0 else users[idx[0]].carbonCredits + SumAt(users, idx[1..])
  }

  /** The part of the accounts at `idx` that a deduction can draw on: the sum
      of their positive balances. */
  function PosSumAt(users: seq<User>, idx: seq<nat>): (r: real)
    requires Within(idx, |users|)
    ensures r >= 0.0
    ensures r >= SumAt(users, idx)
  {
    if idx == [] then 0.0 else Max(0.0, users[idx[0]].carbonCredits) + PosSumAt(users, idx[1..])
  }

  /** The sum of the balances of an employer's employees. */
  function TeamCredits(users: seq<User>, employer: UserId): real {
    SumAt(users, Team(users, employer))
  }

  /** `totalTeamCredits`: an employer's own balance plus its employees'. */
  function TeamTotal(users: seq<User>, i: nat): (r: real)
    requires i < |users|
    ensures r <= Max(0.0, users[i].carbonCredits) + PosSumAt(users, Team(users, users[i].id))
    ensures Team(users, users[i].id) == [] ==> r == users[i].carbonCredits
  {
    users[i].carbonCredits + TeamCredits(users, users[i].id)
  }

  /** The sum of every balance in the store. */
  function TotalCredits(users: seq<User>): real {
    if users == [] then 0.0 else users[0].carbonCredits + TotalCredits(users[1..])
  }

  /** Writes one account's balance and nothing else. */
  function SetCredits(users: seq<User>, i: nat, v: real): (r: seq<User>)
    requires i < |users|
    ensures |r| == |users|
    ensures r[i] == users[i].(carbonCredits := v)
    ensures forall j :: 0 <= j < |users| && j != i ==> r[j] == users[j]
  {
    users[i := users[i].(carbonCredits := v)]
  }

  /** The two stores hold the same accounts, position by position, up to
      their balances. */
  predicate SameAccounts(a: seq<User>, b: seq<User>) {
    |a| == |b| && forall i :: 0 <= i < |a| ==> a[i].(carbonCredits := 0.0) == b[i].(carbonCredits := 0.0)
  }

  lemma SameAccountsTrans(a: seq<User>, b: seq<User>, c: seq<User>)
    requires SameAccounts(a, b) && SameAccounts(b, c)
    ensures SameAccounts(a, c)
  {
  }

  lemma SetCreditsSameAccounts(users: seq<User>, i: nat, v: real)
    requires i < |users|
    ensures SameAccounts(SetCredits(users, i, v), users)
  {
  }

  lemma {:induction false} TeamFromSame(a: seq<User>, b: seq<User>, employer: UserId, from: nat)
    requires SameAccounts(a, b) && from <= |a|
    ensures TeamFrom(a, employer, from) == TeamFrom(b, employer, from)
    decreases |a| - from
  {
    if from < |a| {
      TeamFromSame(a, b, employer, from + 1);
      assert a[from].(carbonCredits := 0.0) == b[from].(carbonCredits := 0.0);
      assert InTeam(a[from], employer) == InTeam(b[from], employer);
    }
  }

  /** Balances do not decide who is on a team. */
  lemma TeamSame(a: seq<User>, b: seq<User>, employer: UserId)
    requires SameAccounts(a, b)
    ensures Team(a, employer) == Team(b, employer)
  {
    TeamFromSame(a, b, employer, 0);
  }

  lemma {:induction false} SumAtOutside(users: seq<User>, idx: seq<nat>, i: nat, v: real)
    requires Within(idx, |users|) && i < |users| && i !in idx
    ensures SumAt(SetCredits(users, i, v), idx) == SumAt(users, idx)
  {
    if idx != [] {
      SumAtOutside(users, idx[1..], i, v);
    }
  }

  /** A write at a position inside `idx` moves its sum by the change. */
  lemma {:induction false} SumAtInside(users: seq<User>, idx: seq<nat>, i: nat, v: real)
    requires Within(idx, |users|) && Increasing(idx) && i in idx
    ensures SumAt(SetCredits(users, i, v), idx) == SumAt(users, idx) - users[i].carbonCredits + v
  {
    if idx[0] == i {
      assert i !in idx[1..];
      SumAtOutside(users, idx[1..], i, v);
    } else {
      SumAtInside(users, idx[1..], i, v);
    }
  }

  /** A write moves the store's total by exactly the change. */
  lemma {:induction false} TotalSetCredits(users: seq<User>, i: nat, v: real)
    requires i < |users|
    ensures TotalCredits(SetCredits(users, i, v)) == TotalCredits(users) - users[i].carbonCredits + v
  {
    var r := SetCredits(users, i, v);
    if i == 0 {
      assert r[1..] == users[1..];
    } else {
      assert r[1..] == SetCredits(users[1..], i - 1, v);
      TotalSetCredits(users[1..], i - 1, v);
    }
  }
  /** The store's total splits over any division of the accounts. */
  lemma {:induction false} TotalConcat(a: seq<User>, b: seq<User>)
    ensures TotalCredits(a + b) == TotalCredits(a) + TotalCredits(b)
  {
    if a == [] {
      assert a + b == b;
    } else {
      assert (a + b)[1..] == a[1..] + b;
      TotalConcat(a[1..], b);
    }
  }

  /** The lookup by id sees only ids, which balance writes leave alone. */
  lemma UserIndexSame(a: seq<User>, b: seq<User>, id: UserId)
    requires SameAccounts(a, b)
    ensures UserIndex(a, id) == UserIndex(b, id)
  {
    assert forall i :: 0 <= i < |a| ==> a[i].id == b[i].id by {
      forall i | 0 <= i < |a| ensures a[i].id == b[i].id {
        assert a[i].(carbonCredits := 0.0) == b[i].(carbonCredits := 0.0);
      }
    }
  }

  /** `const user = await User.findById(id); if (user) { user.carbonCredits
      = (user.carbonCredits || 0) + delta; await user.save(); }`: the account
      with that id, if any, moves by `delta`; no other account moves. */
  function AddCredits(users: seq<User>, id: UserId, delta: real): (r: seq<User>)
    ensures SameAccounts(r, users)
    ensures forall i :: 0 <= i < |users| ==>
      r[i].carbonCredits == users[i].carbonCredits + (if UserIndex(users, id) == Some(i) then delta else 0.0)
  {
    match UserIndex(users, id)
    case None => users
    case Some(i) => SetCredits(users, i, users[i].carbonCredits + delta)
  }

  /** The store's total moves by `delta` when the account exists, and not
      at all otherwise. */
  lemma AddCreditsTotal(users: seq<User>, id: UserId, delta: real)
    ensures TotalCredits(AddCredits(users, id, delta)) == TotalCredits(users) + (if UserIndex(users, id).Some? then delta else 0.0)
  {
    match UserIndex(users, id)
    case None =>
    case Some(i) => TotalSetCredits(users, i, users[i].carbonCredits + delta);
  }

  /** Moving an account by `delta` and then by `-delta` restores the store. */
  lemma AddCreditsUndo(users: seq<User>, id: UserId, delta: real)
    ensures AddCredits(AddCredits(users, id, delta), id, -delta) == users
  {
    var once := AddCredits(users, id, delta);
    var twice := AddCredits(once, id, -delta);
    UserIndexSame(once, users, id);
    SameAccountsTrans(twice, once, users);
    forall i | 0 <= i < |users| ensures twice[i] == users[i] {
      assert twice[i].(carbonCredits := 0.0) == users[i].(carbonCredits := 0.0);
    }
  }
}
