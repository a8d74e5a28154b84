/** What accepting an offer writes to the accounts
    (server/routes/trading.js:179-211), as a function of the store as the
    route loaded it. The seller employer is drawn on first, then the
    seller's employees in list order, each giving up min(its balance, what
    is still owed) and a non-positive balance being passed over; the buyer's
    document, loaded before any deduction, is then saved with the full amount
    added. Every balance written is computed from a document loaded before
    the first write. */
module Settlement {
  import opened Basics
  import opened UserModel
  import opened Accounts

  /** The employee loop: `users` is the store as the loop finds it, `snap`
      the documents as they were loaded, `team` the positions still to visit
      and `rem` what is still owed; yields the store and what is still owed
      when the loop ends. */
  function DrawEmployees(users: seq<User>, snap: seq<User>, team: seq<nat>, rem: real): (r: (seq<User>, real))
    requires |users| == |snap| && Within(team, |snap|)
    ensures |r.0| == |users|
    decreases |team|
  {
    if team == [] then (users, rem)
    else
      var b := snap[team[0]].carbonCredits;
      if b > 0.0 then
        var d := Min(b, rem);
        var next := SetCredits(users, team[0], b - d);
        if rem - d == 0.0 then (next, 0.0)
        else DrawEmployees(next, snap, team[1..], rem - d)
      else DrawEmployees(users, snap, team[1..], rem)
  }

  /** The seller employer's share of a settlement of `amount`: as much of
      the amount as its balance covers, nothing from a non-positive
      balance (EmployerDrawCases). */
  function EmployerDraw(e: real, amount: real): real {
    if e > 0.0 then Min(e, amount) else 0.0
  }

  lemma EmployerDrawCases(e: real, amount: real)
    ensures e <= 0.0 ==> EmployerDraw(e, amount) == 0.0
    ensures 0.0 < e <= amount ==> EmployerDraw(e, amount) == e
    ensures 0.0 < amount <= e ==> EmployerDraw(e, amount) == amount
    ensures amount >= 0.0 ==> 0.0 <= EmployerDraw(e, amount) <= amount
  {
  }

  /** The store after the employer deduction (EmployerStep). */
  function AfterEmployer(snap: seq<User>, si: nat, amount: real): (r: seq<User>)
    requires si < |snap|
    ensures |r| == |snap|
  {
    var e := snap[si].carbonCredits;
    if e > 0.0 then SetCredits(snap, si, e - EmployerDraw(e, amount)) else snap
  }

  /** The store after the employer deduction and then the employee loop
      over `team` (which runs only while something is still owed). */
  function AfterDraws(snap: seq<User>, si: nat, amount: real, team: seq<nat>): (r: seq<User>)
    requires si < |snap| && Within(team, |snap|)
    ensures |r| == |snap|
  {
    var rem := amount - EmployerDraw(snap[si].carbonCredits, amount);
    var a := AfterEmployer(snap, si, amount);
    if rem > 0.0 then DrawEmployees(a, snap, team, rem).0 else a
  }

  /** The store after accepting an offer of `amount` sold by the account at
      `si` and bought by the account at `bi`, as the route writes it: the
      seller's team is the team query run on the loaded store, and the
      buyer's new balance is its loaded balance plus `amount`. */
  function Settle(snap: seq<User>, si: nat, bi: nat, amount: real): (r: seq<User>)
    requires si < |snap| && bi < |snap|
    ensures |r| == |snap|
    ensures r[bi].carbonCredits == snap[bi].carbonCredits + amount
  {
    SetCredits(AfterDraws(snap, si, amount, Team(snap, snap[si].id)), bi, snap[bi].carbonCredits + amount)
  }

  /** A seller-side account after settlement: one that had a positive
      balance ends between 0 and that balance; any other is untouched. */
  predicate Drawn(before: real, after: real) {
    (before > 0.0 ==> 0.0 <= after <= before) && (before <= 0.0 ==> after == before)
  }

  /** Positions in `team` the loop is about to visit still hold their loaded balances. */
  predicate Fresh(users: seq<User>, snap: seq<User>, team: seq<nat>)
    requires |users| == |snap| && Within(team, |snap|)
  {
    forall k :: 0 <= k < |team| ==> users[team[k]] == snap[team[k]]
  }

  lemma FreshTail(users: seq<User>, snap: seq<User>, team: seq<nat>, v: real)
    requires |users| == |snap| && Within(team, |snap|) && team != []
    requires Increasing(team) && Fresh(users, snap, team)
    ensures Fresh(users, snap, team[1..])
    ensures Fresh(SetCredits(users, team[0], v), snap, team[1..])
  {
    forall k | 0 <= k < |team[1..]|
      ensures SetCredits(users, team[0], v)[team[1..][k]] == users[team[1..][k]]
    {
      assert team[1..][k] == team[k + 1] != team[0];
    }
  }

  /** The loop touches only team positions and leaves each of them drawn. */
  lemma {:induction false} DrawEmployeesFrame(users: seq<User>, snap: seq<User>, team: seq<nat>, rem: real)
    requires |users| == |snap| && Within(team, |snap|) && Increasing(team)
    requires Fresh(users, snap, team) && rem >= 0.0
    ensures var out := DrawEmployees(users, snap, team, rem).0;
      && (forall i :: 0 <= i < |users| && i !in team ==> out[i] == users[i])
      && (forall k :: 0 <= k < |team| ==> Drawn(snap[team[k]].carbonCredits, out[team[k]].carbonCredits))
    decreases |team|
  {
    if team != [] {
      var t := team[0];
      var b := snap[t].carbonCredits;
      var rest := team[1..];
      assert t !in rest;
      if b > 0.0 {
        var d := Min(b, rem);
        var next := SetCredits(users, t, b - d);
        FreshTail(users, snap, team, b - d);
        if rem - d != 0.0 {
          DrawEmployeesFrame(next, snap, rest, rem - d);
        }
      } else {
        FreshTail(users, snap, team, 0.0);
        DrawEmployeesFrame(users, snap, rest, rem);
      }
      var out := DrawEmployees(users, snap, team, rem).0;
      forall k | 0 <= k < |team|
        ensures Drawn(snap[team[k]].carbonCredits, out[team[k]].carbonCredits)
      {
        if k > 0 {
          assert team[k] == rest[k - 1];
        }
      }
    }
  }

  /** The loop draws min(rem, the team's positive balances) in all. */
  lemma {:induction false} DrawEmployeesLeft(users: seq<User>, snap: seq<User>, team: seq<nat>, rem: real)
    requires |users| == |snap| && Within(team, |snap|) && rem >= 0.0
    ensures var left := DrawEmployees(users, snap, team, rem).1;
      0.0 <= left <= rem && rem - left == Min(rem, PosSumAt(snap, team))
    decreases |team|
  {
    if team != [] {
      var b := snap[team[0]].carbonCredits;
      if b > 0.0 {
        var d := Min(b, rem);
        if rem - d != 0.0 {
          DrawEmployeesLeft(SetCredits(users, team[0], b - d), snap, team[1..], rem - d);
        }
      } else {
        DrawEmployeesLeft(users, snap, team[1..], rem);
      }
    }
  }

  /** The team's sum falls by exactly what the loop draws. */
  lemma {:induction false} DrawEmployeesSum(users: seq<User>, snap: seq<User>, team: seq<nat>, rem: real)
    requires |users| == |snap| && Within(team, |snap|) && Increasing(team)
    requires Fresh(users, snap, team) && rem >= 0.0
    ensures var r := DrawEmployees(users, snap, team, rem);
      SumAt(r.0, team) == SumAt(users, team) - (rem - r.1)
    decreases |team|
  {
    if team != [] {
      var t := team[0];
      var b := snap[t].carbonCredits;
      var rest := team[1..];
      assert t !in rest;
      if b > 0.0 {
        var d := Min(b, rem);
        var next := SetCredits(users, t, b - d);
        SumAtOutside(users, rest, t, b - d);
        if rem - d != 0.0 {
          FreshTail(users, snap, team, b - d);
          DrawEmployeesSum(next, snap, rest, rem - d);
          DrawEmployeesFrame(next, snap, rest, rem - d);
          var r := DrawEmployees(next, snap, rest, rem - d);
          assert DrawEmployees(users, snap, team, rem) == r;
          assert r.0[t] == next[t];
        }
      } else {
        FreshTail(users, snap, team, 0.0);
        DrawEmployeesSum(users, snap, rest, rem);
        DrawEmployeesFrame(users, snap, rest, rem);
        var r := DrawEmployees(users, snap, rest, rem);
        assert DrawEmployees(users, snap, team, rem) == r;
        assert r.0[t] == users[t];
      }
    }
  }

  /** The store's total falls by exactly what the loop draws. */
  lemma {:induction false} DrawEmployeesTotal(users: seq<User>, snap: seq<User>, team: seq<nat>, rem: real)
    requires |users| == |snap| && Within(team, |snap|) && Increasing(team)
    requires Fresh(users, snap, team) && rem >= 0.0
    ensures var r := DrawEmployees(users, snap, team, rem);
      TotalCredits(r.0) == TotalCredits(users) - (rem - r.1)
    decreases |team|
  {
    if team != [] {
      var t := team[0];
      var b := snap[t].carbonCredits;
      if b > 0.0 {
        var d := Min(b, rem);
        TotalSetCredits(users, t, b - d);
        FreshTail(users, snap, team, b - d);
        if rem - d != 0.0 {
          DrawEmployeesTotal(SetCredits(users, t, b - d), snap, team[1..], rem - d);
        }
      } else {
        FreshTail(users, snap, team, 0.0);
        DrawEmployeesTotal(users, snap, team[1..], rem);
      }
    }
  }

  /** The loop stops only when nothing is owed: an account is drawn on only
      after every positive balance before it in list order was emptied. */
  lemma {:induction false} DrawEmployeesGreedy(users: seq<User>, snap: seq<User>, team: seq<nat>, rem: real, k: nat, j: nat)
    requires |users| == |snap| && Within(team, |snap|) && Increasing(team)
    requires Fresh(users, snap, team) && rem >= 0.0
    requires j < k < |team| && snap[team[j]].carbonCredits > 0.0
    ensures var out := DrawEmployees(users, snap, team, rem).0;
      out[team[k]].carbonCredits != snap[team[k]].carbonCredits ==> out[team[j]].carbonCredits == 0.0
    decreases |team|, 1
  {
    if snap[team[0]].carbonCredits > 0.0 {
      DrawGreedyPositive(users, snap, team, rem, k, j);
    } else {
      var rest := team[1..];
      FreshTail(users, snap, team, 0.0);
      assert team[k] == rest[k - 1];
      assert team[j] == rest[j - 1];
      DrawEmployeesGreedy(users, snap, rest, rem, k - 1, j - 1);
    }
  }

  /** DrawEmployeesGreedy, when the first team account has a positive balance. */
  lemma {:induction false} DrawGreedyPositive(users: seq<User>, snap: seq<User>, team: seq<nat>, rem: real, k: nat, j: nat)
    requires |users| == |snap| && Within(team, |snap|) && Increasing(team)
    requires Fresh(users, snap, team) && rem >= 0.0
    requires j < k < |team| && snap[team[j]].carbonCredits > 0.0
    requires snap[team[0]].carbonCredits > 0.0
    ensures var out := DrawEmployees(users, snap, team, rem).0;
      out[team[k]].carbonCredits != snap[team[k]].carbonCredits ==> out[team[j]].carbonCredits == 0.0
    decreases |team|, 0
  {
    var t := team[0];
    var b := snap[t].carbonCredits;
    var rest := team[1..];
    var d := Min(b, rem);
    var next := SetCredits(users, t, b - d);
    assert t !in rest;
    assert team[k] == rest[k - 1];
    FreshTail(users, snap, team, b - d);
    if rem - d == 0.0 {
      assert next[team[k]] == users[team[k]] == snap[team[k]];
    } else if j == 0 {
      DrawEmployeesFrame(next, snap, rest, rem - d);
      assert DrawEmployees(next, snap, rest, rem - d).0[t] == next[t];
    } else {
      assert team[j] == rest[j - 1];
      DrawEmployeesGreedy(next, snap, rest, rem - d, k - 1, j - 1);
    }
  }

  /** Whatever the accounts, the loop writes balances only. */
  lemma {:induction false} DrawEmployeesSame(users: seq<User>, snap: seq<User>, team: seq<nat>, rem: real)
    requires |users| == |snap| && Within(team, |snap|)
    ensures SameAccounts(DrawEmployees(users, snap, team, rem).0, users)
    decreases |team|
  {
    if team != [] {
      var b := snap[team[0]].carbonCredits;
      if b > 0.0 {
        var d := Min(b, rem);
        var next := SetCredits(users, team[0], b - d);
        if rem - d != 0.0 {
          DrawEmployeesSame(next, snap, team[1..], rem - d);
          SameAccountsTrans(DrawEmployees(next, snap, team[1..], rem - d).0, next, users);
        }
      } else {
        DrawEmployeesSame(users, snap, team[1..], rem);
      }
    }
  }

  /** Whatever the accounts, settlement writes balances only. */
  lemma SettleSame(snap: seq<User>, si: nat, bi: nat, amount: real)
    requires si < |snap| && bi < |snap|
    ensures SameAccounts(Settle(snap, si, bi, amount), snap)
  {
    var team := Team(snap, snap[si].id);
    var rem := amount - EmployerDraw(snap[si].carbonCredits, amount);
    var a := AfterEmployer(snap, si, amount);
    var out := AfterDraws(snap, si, amount, team);
    assert SameAccounts(a, snap);
    if rem > 0.0 {
      DrawEmployeesSame(a, snap, team, rem);
      SameAccountsTrans(out, a, snap);
    }
    SameAccountsTrans(Settle(snap, si, bi, amount), out, snap);
  }

  /** The employer deduction writes only the employer, by its share. */
  lemma EmployerStep(snap: seq<User>, si: nat, amount: real)
    requires si < |snap|
    ensures var a := AfterEmployer(snap, si, amount);
      var e := snap[si].carbonCredits;
      && SameAccounts(a, snap)
      && a[si].carbonCredits == e - EmployerDraw(e, amount)
      && (forall i :: 0 <= i < |snap| && i != si ==> a[i] == snap[i])
  {
  }

  /** The employer deduction lowers the store's total by the employer's share. */
  lemma EmployerStepTotal(snap: seq<User>, si: nat, amount: real)
    requires si < |snap|
    ensures TotalCredits(AfterEmployer(snap, si, amount)) == TotalCredits(snap) - EmployerDraw(snap[si].carbonCredits, amount)
  {
    var e := snap[si].carbonCredits;
    if e > 0.0 {
      TotalSetCredits(snap, si, e - EmployerDraw(e, amount));
    }
  }

  /** The employer deduction leaves the team's accounts as loaded. */
  lemma EmployerStepTeam(snap: seq<User>, si: nat, amount: real, team: seq<nat>)
    requires si < |snap| && Within(team, |snap|) && si !in team
    ensures var a := AfterEmployer(snap, si, amount);
      Fresh(a, snap, team) && SumAt(a, team) == SumAt(snap, team)
  {
    var e := snap[si].carbonCredits;
    if e > 0.0 {
      SumAtOutside(snap, team, si, e - EmployerDraw(e, amount));
    }
  }

  /** What the seller side gives up before the buyer is credited: the
      employer's share, then the loop's, min(amount, what the positive
      balances hold) in all. */
  function SellerDraw(e: real, amount: real, p: real): (r: real)
    requires amount >= 0.0 && p >= 0.0
    ensures 0.0 <= r <= amount
    ensures r == Min(amount, Max(0.0, e) + p)
  {
    var ed := EmployerDraw(e, amount);
    ed + (if amount - ed > 0.0 then Min(amount - ed, p) else 0.0)
  }

  /** When the seller side's balances cover `amount`, it gives up all of it. */
  lemma SellerDrawCovered(e: real, amount: real, sum: real, p: real)
    requires amount >= 0.0 && p >= 0.0 && p >= sum && e + sum >= amount
    ensures SellerDraw(e, amount, p) == amount
  {
  }

  /** The seller side's sum falls by SellerDraw. */
  lemma DrawsSide(snap: seq<User>, si: nat, amount: real, team: seq<nat>)
    requires si < |snap| && Within(team, |snap|) && Increasing(team) && si !in team && amount >= 0.0
    ensures var a := AfterDraws(snap, si, amount, team);
      var e := snap[si].carbonCredits;
      a[si].carbonCredits + SumAt(a, team) == e + SumAt(snap, team) - SellerDraw(e, amount, PosSumAt(snap, team))
  {
    var e := snap[si].carbonCredits;
    var a := AfterEmployer(snap, si, amount);
    var rem := amount - EmployerDraw(e, amount);
    EmployerStep(snap, si, amount);
    EmployerStepTeam(snap, si, amount, team);
    if rem > 0.0 {
      DrawEmployeesLeft(a, snap, team, rem);
      DrawEmployeesSum(a, snap, team, rem);
      DrawEmployeesFrame(a, snap, team, rem);
    }
  }

  /** The store's total falls by SellerDraw. */
  lemma DrawsTotal(snap: seq<User>, si: nat, amount: real, team: seq<nat>)
    requires si < |snap| && Within(team, |snap|) && Increasing(team) && si !in team && amount >= 0.0
    ensures var a := AfterDraws(snap, si, amount, team);
      TotalCredits(a) == TotalCredits(snap) - SellerDraw(snap[si].carbonCredits, amount, PosSumAt(snap, team))
  {
    var e := snap[si].carbonCredits;
    var a := AfterEmployer(snap, si, amount);
    var rem := amount - EmployerDraw(e, amount);
    EmployerStepTotal(snap, si, amount);
    EmployerStepTeam(snap, si, amount, team);
    if rem > 0.0 {
      DrawEmployeesLeft(a, snap, team, rem);
      DrawEmployeesTotal(a, snap, team, rem);
    }
  }

  /** Before the buyer is credited: the employer written first, then its
      team, each account drawn without overdraft; nobody else moves. */
  lemma DrawsFrame(snap: seq<User>, si: nat, amount: real, team: seq<nat>)
    requires si < |snap| && Within(team, |snap|) && Increasing(team) && si !in team && amount >= 0.0
    ensures var a := AfterDraws(snap, si, amount, team);
      var e := snap[si].carbonCredits;
      && SameAccounts(a, snap)
      && a[si].carbonCredits == e - EmployerDraw(e, amount)
      && (forall i :: 0 <= i < |snap| && i != si && i !in team ==> a[i] == snap[i])
      && Drawn(e, a[si].carbonCredits)
      && (forall k :: 0 <= k < |team| ==> Drawn(snap[team[k]].carbonCredits, a[team[k]].carbonCredits))
  {
    var e := snap[si].carbonCredits;
    var a := AfterEmployer(snap, si, amount);
    var rem := amount - EmployerDraw(e, amount);
    EmployerStep(snap, si, amount);
    EmployerStepTeam(snap, si, amount, team);
    if rem > 0.0 {
      DrawEmployeesFrame(a, snap, team, rem);
      DrawEmployeesSame(a, snap, team, rem);
      SameAccountsTrans(AfterDraws(snap, si, amount, team), a, snap);
    }
  }

  /** The employee loop does not write the employer again. */
  lemma DrawsEmployer(snap: seq<User>, si: nat, amount: real, team: seq<nat>)
    requires si < |snap| && Within(team, |snap|) && Increasing(team) && si !in team && amount >= 0.0
    ensures var e := snap[si].carbonCredits;
      AfterDraws(snap, si, amount, team)[si].carbonCredits == e - EmployerDraw(e, amount)
  {
    DrawsFrame(snap, si, amount, team);
  }

  /** The part of DrawsFrame the seller-side lemmas need: the draws change
      balances only, and the employer's by its own draw. */
  lemma DrawsSame(snap: seq<User>, si: nat, amount: real, team: seq<nat>)
    requires si < |snap| && Within(team, |snap|) && Increasing(team) && si !in team && amount >= 0.0
    ensures var a := AfterDraws(snap, si, amount, team);
      SameAccounts(a, snap) && a[si].carbonCredits == snap[si].carbonCredits - EmployerDraw(snap[si].carbonCredits, amount)
  {
    DrawsFrame(snap, si, amount, team);
  }

  /** An account that is not its own employee is not on its own team, and
      the team of a store that differs only in balances is the same. */
  lemma SellerTeam(snap: seq<User>, r: seq<User>, si: nat)
    requires si < |snap| && !InTeam(snap[si], snap[si].id) && SameAccounts(r, snap)
    ensures si !in Team(snap, snap[si].id)
    ensures r[si].id == snap[si].id && Team(r, snap[si].id) == Team(snap, snap[si].id)
    ensures TeamTotal(r, si) == r[si].carbonCredits + SumAt(r, Team(snap, snap[si].id))
  {
    assert r[si].(carbonCredits := 0.0) == snap[si].(carbonCredits := 0.0);
    TeamSame(r, snap, snap[si].id);
  }

  /** Crediting the buyer at `bi`, outside the seller side, moves only the
      buyer's balance. */
  lemma CreditBuyer(a: seq<User>, snap: seq<User>, si: nat, bi: nat, team: seq<nat>, v: real)
    requires SameAccounts(a, snap) && si < |snap| && bi < |snap| && si != bi
    requires Within(team, |snap|) && bi !in team
    ensures var r := SetCredits(a, bi, v);
      && SameAccounts(r, snap)
      && r[si] == a[si]
      && SumAt(r, team) == SumAt(a, team)
      && TotalCredits(r) == TotalCredits(a) - a[bi].carbonCredits + v
  {
    TotalSetCredits(a, bi, v);
    SumAtOutside(a, team, bi, v);
    SameAccountsTrans(SetCredits(a, bi, v), a, snap);
  }

  /** The requirements of the conservation lemmas: distinct buyer and
      seller, neither on the seller's team, and a non-negative amount. */
  predicate Separate(snap: seq<User>, si: nat, bi: nat, amount: real) {
    && si < |snap| && bi < |snap| && si != bi
    && !InTeam(snap[si], snap[si].id) && !InTeam(snap[bi], snap[si].id)
    && amount >= 0.0
  }

  /** With a buyer apart from the seller side, the seller employer ends
      with its loaded balance less its own draw. */
  lemma SettleSeller(snap: seq<User>, si: nat, bi: nat, amount: real)
    requires Separate(snap, si, bi, amount)
    ensures var e := snap[si].carbonCredits;
      Settle(snap, si, bi, amount)[si].carbonCredits == e - EmployerDraw(e, amount)
  {
    var team := Team(snap, snap[si].id);
    SettleIsWrite(snap, si, bi, amount);
    SellerTeam(snap, snap, si);
    DrawsEmployer(snap, si, amount, team);
  }

  /** Settlement writes balances only, the buyer's by exactly `amount`, and
      touches no account outside the buyer and the seller side. */
  lemma SettleFrame(snap: seq<User>, si: nat, bi: nat, amount: real)
    requires Separate(snap, si, bi, amount)
    ensures var r := Settle(snap, si, bi, amount);
      var team := Team(snap, snap[si].id);
      && SameAccounts(r, snap)
      && r[bi].carbonCredits == snap[bi].carbonCredits + amount
      && (forall i :: 0 <= i < |snap| && i != si && i != bi && i !in team ==> r[i] == snap[i])
  {
    var team := Team(snap, snap[si].id);
    var a := AfterDraws(snap, si, amount, team);
    SellerTeam(snap, snap, si);
    assert bi !in team;
    DrawsFrame(snap, si, amount, team);
    SameAccountsTrans(Settle(snap, si, bi, amount), a, snap);
  }

  /** The buyer's write at `bi` (outside the team, or the seller itself)
      as the seller side sees it: the team's balances are those of `a`. */
  lemma SideAfterWrite(snap: seq<User>, a: seq<User>, si: nat, bi: nat, v: real)
    requires si < |snap| && bi < |snap| && !InTeam(snap[si], snap[si].id) && SameAccounts(a, snap)
    requires bi == si || bi !in Team(snap, snap[si].id)
    ensures var r := SetCredits(a, bi, v);
      && SameAccounts(r, snap)
      && TeamTotal(r, si) == r[si].carbonCredits + SumAt(a, Team(snap, snap[si].id))
      && r[si].carbonCredits == (if bi == si then v else a[si].carbonCredits)
      && TeamCredits(r, snap[si].id) == SumAt(a, Team(snap, snap[si].id))
  {
    var team := Team(snap, snap[si].id);
    SellerTeam(snap, snap, si);
    var r := SetCredits(a, bi, v);
    SumAtOutside(a, team, bi, v);
    SameAccountsTrans(r, a, snap);
    SellerTeam(snap, r, si);
  }

  /** With a passed solvency check, the seller side gives up exactly `amount`. */
  lemma SettleSellerSide(snap: seq<User>, si: nat, bi: nat, amount: real)
    requires Separate(snap, si, bi, amount) && TeamTotal(snap, si) >= amount
    ensures TeamTotal(Settle(snap, si, bi, amount), si) == TeamTotal(snap, si) - amount
  {
    var e := snap[si].carbonCredits;
    var team := Team(snap, snap[si].id);
    var a := AfterDraws(snap, si, amount, team);
    var r := SetCredits(a, bi, snap[bi].carbonCredits + amount);
    SellerTeam(snap, snap, si);
    assert bi !in team;
    DrawsSide(snap, si, amount, team);
    DrawsSame(snap, si, amount, team);
    SellerDrawCovered(e, amount, SumAt(snap, team), PosSumAt(snap, team));
    SideAfterWrite(snap, a, si, bi, snap[bi].carbonCredits + amount);
    assert Settle(snap, si, bi, amount) == r;
  }

  /** With a passed solvency check, the store's total is unchanged. */
  lemma SettleTotal(snap: seq<User>, si: nat, bi: nat, amount: real)
    requires Separate(snap, si, bi, amount) && TeamTotal(snap, si) >= amount
    ensures TotalCredits(Settle(snap, si, bi, amount)) == TotalCredits(snap)
  {
    var e := snap[si].carbonCredits;
    var team := Team(snap, snap[si].id);
    var a := AfterDraws(snap, si, amount, team);
    SellerTeam(snap, snap, si);
    assert bi !in team;
    DrawsTotal(snap, si, amount, team);
    DrawsFrame(snap, si, amount, team);
    SellerDrawCovered(e, amount, SumAt(snap, team), PosSumAt(snap, team));
    TotalSetCredits(a, bi, snap[bi].carbonCredits + amount);
  }

  /** Conservation: when buyer and seller are distinct, the buyer is not on
      the seller's team and the solvency check passed, the seller side gives
      up exactly `amount`, the buyer gains exactly `amount`, the store's
      total is unchanged, and every other account is untouched. */
  lemma SettleConserves(snap: seq<User>, si: nat, bi: nat, amount: real)
    requires Separate(snap, si, bi, amount) && TeamTotal(snap, si) >= amount
    ensures var r := Settle(snap, si, bi, amount);
      var team := Team(snap, snap[si].id);
      && SameAccounts(r, snap)
      && r[bi].carbonCredits == snap[bi].carbonCredits + amount
      && TeamTotal(r, si) == TeamTotal(snap, si) - amount
      && TotalCredits(r) == TotalCredits(snap)
      && (forall i :: 0 <= i < |snap| && i != si && i != bi && i !in team ==> r[i] == snap[i])
  {
    SettleFrame(snap, si, bi, amount);
    SettleSellerSide(snap, si, bi, amount);
    SettleTotal(snap, si, bi, amount);
  }

  /** No seller-side account is overdrawn: one with a positive balance ends
      between 0 and that balance, and one without is not written. */
  lemma SettleNeverOverdraws(snap: seq<User>, si: nat, bi: nat, amount: real)
    requires Separate(snap, si, bi, amount)
    ensures var r := Settle(snap, si, bi, amount);
      var team := Team(snap, snap[si].id);
      && Drawn(snap[si].carbonCredits, r[si].carbonCredits)
      && (forall k :: 0 <= k < |team| ==> Drawn(snap[team[k]].carbonCredits, r[team[k]].carbonCredits))
  {
    var team := Team(snap, snap[si].id);
    SellerTeam(snap, snap, si);
    assert bi !in team;
    DrawsFrame(snap, si, amount, team);
  }

  /** The employer is drawn first: if any employee of the seller is drawn
      on, the employer's positive balance was emptied before it; and the
      employees are drawn in list order. */
  lemma SettleDrawsInOrder(snap: seq<User>, si: nat, bi: nat, amount: real, k: nat)
    requires Separate(snap, si, bi, amount) && k < |Team(snap, snap[si].id)|
    ensures var r := Settle(snap, si, bi, amount);
      var team := Team(snap, snap[si].id);
      r[team[k]].carbonCredits != snap[team[k]].carbonCredits ==>
        && (snap[si].carbonCredits > 0.0 ==> r[si].carbonCredits == 0.0)
        && (forall j :: 0 <= j < k && snap[team[j]].carbonCredits > 0.0 ==> r[team[j]].carbonCredits == 0.0)
  {
    var e := snap[si].carbonCredits;
    var team := Team(snap, snap[si].id);
    var a := AfterEmployer(snap, si, amount);
    var rem := amount - EmployerDraw(e, amount);
    var out := AfterDraws(snap, si, amount, team);
    SellerTeam(snap, snap, si);
    assert bi !in team;
    EmployerStep(snap, si, amount);
    EmployerStepTeam(snap, si, amount, team);
    if rem > 0.0 {
      DrawEmployeesFrame(a, snap, team, rem);
      forall j | 0 <= j < k && snap[team[j]].carbonCredits > 0.0
        ensures out[team[k]].carbonCredits != snap[team[k]].carbonCredits ==> out[team[j]].carbonCredits == 0.0
      {
        DrawEmployeesGreedy(a, snap, team, rem, k, j);
      }
    } else {
      assert out[team[k]] == snap[team[k]];
    }
  }

  /** Accepting one's own offer: with buyer and seller the same account,
      the buyer's stale write overwrites the employer deduction, so the
      account ends with its old balance plus `amount` while its team still
      gives up the rest. */
  lemma SelfAcceptTeam(snap: seq<User>, si: nat, amount: real)
    requires si < |snap| && !InTeam(snap[si], snap[si].id)
    requires amount >= 0.0 && TeamTotal(snap, si) >= amount
    ensures var r := Settle(snap, si, si, amount);
      var e := snap[si].carbonCredits;
      && r[si].carbonCredits == e + amount
      && TeamCredits(r, snap[si].id) == TeamCredits(snap, snap[si].id) - (amount - EmployerDraw(e, amount))
  {
    var e := snap[si].carbonCredits;
    var team := Team(snap, snap[si].id);
    var a := AfterDraws(snap, si, amount, team);
    var r := SetCredits(a, si, e + amount);
    TeamGivesUp(snap, si, amount);
    SideAfterWrite(snap, a, si, si, e + amount);
    assert Settle(snap, si, si, amount) == r;
  }

  /** With a passed solvency check the employees give up what the employer
      could not cover. */
  lemma TeamGivesUp(snap: seq<User>, si: nat, amount: real)
    requires si < |snap| && !InTeam(snap[si], snap[si].id)
    requires amount >= 0.0 && TeamTotal(snap, si) >= amount
    ensures var team := Team(snap, snap[si].id);
      var a := AfterDraws(snap, si, amount, team);
      && SameAccounts(a, snap)
      && SumAt(a, team) == SumAt(snap, team) - (amount - EmployerDraw(snap[si].carbonCredits, amount))
  {
    var e := snap[si].carbonCredits;
    var team := Team(snap, snap[si].id);
    SellerTeam(snap, snap, si);
    DrawsSide(snap, si, amount, team);
    DrawsSame(snap, si, amount, team);
    SellerDrawCovered(e, amount, SumAt(snap, team), PosSumAt(snap, team));
  }

  /** The buyer's write, when the buyer is the seller, after the seller
      side gave up `amount`. */
  lemma SelfCredit(snap: seq<User>, a: seq<User>, si: nat, amount: real)
    requires si < |snap| && |a| == |snap|
    requires TotalCredits(a) == TotalCredits(snap) - amount
    requires a[si].carbonCredits == snap[si].carbonCredits - EmployerDraw(snap[si].carbonCredits, amount)
    ensures TotalCredits(SetCredits(a, si, snap[si].carbonCredits + amount))
         == TotalCredits(snap) + EmployerDraw(snap[si].carbonCredits, amount)
  {
    TotalSetCredits(a, si, snap[si].carbonCredits + amount);
  }

  /** Accepting one's own offer adds the employer's share to the store's
      total: credits are created. */
  lemma SelfAcceptMints(snap: seq<User>, si: nat, amount: real)
    requires si < |snap| && !InTeam(snap[si], snap[si].id)
    requires amount >= 0.0 && TeamTotal(snap, si) >= amount
    ensures TotalCredits(Settle(snap, si, si, amount)) == TotalCredits(snap) + EmployerDraw(snap[si].carbonCredits, amount)
  {
    var e := snap[si].carbonCredits;
    var team := Team(snap, snap[si].id);
    SettleIsWrite(snap, si, si, amount);
    SellerTeam(snap, snap, si);
    DrawsTotal(snap, si, amount, team);
    DrawsEmployer(snap, si, amount, team);
    SellerDrawCovered(e, amount, SumAt(snap, team), PosSumAt(snap, team));
    SelfCredit(snap, AfterDraws(snap, si, amount, team), si, amount);
  }

  lemma SettleIsWrite(snap: seq<User>, si: nat, bi: nat, amount: real)
    requires si < |snap| && bi < |snap|
    ensures Settle(snap, si, bi, amount) == SetCredits(AfterDraws(snap, si, amount, Team(snap, snap[si].id)), bi, snap[bi].carbonCredits + amount)
  {
  }

  /** An employer with 10 credits and no employees who accepts its own
      offer of 5 ends with 15. */
  lemma SelfAcceptExample()
    ensures var u := User(1, "acme", "a@acme.io", "pw", Employer, Some("Acme"), None, 10.0, true, 0);
      Settle([u], 0, 0, 5.0)[0].carbonCredits == 15.0
  {
  }

  /** Employer 10, employees 5 and 3, offer of 15: the employer is emptied,
      the first employee is emptied, the second keeps 3, the buyer gains 15. */
  lemma SettleExample()
    ensures
      var boss := User(1, "acme", "a@acme.io", "pw", Employer, Some("Acme"), None, 10.0, true, 0);
      var e1 := User(2, "ann", "ann@acme.io", "pw", Employee, None, Some(1), 5.0, true, 0);
      var e2 := User(3, "bob", "bob@acme.io", "pw", Employee, None, Some(1), 3.0, true, 0);
      var buyer := User(4, "zeta", "z@zeta.io", "pw", Employer, Some("Zeta"), None, 1.0, true, 0);
      var r := Settle([boss, e1, e2, buyer], 0, 3, 15.0);
      r[0].carbonCredits == 0.0 && r[1].carbonCredits == 0.0 && r[2].carbonCredits == 3.0 && r[3].carbonCredits == 16.0
  {
    var boss := User(1, "acme", "a@acme.io", "pw", Employer, Some("Acme"), None, 10.0, true, 0);
    var e1 := User(2, "ann", "ann@acme.io", "pw", Employee, None, Some(1), 5.0, true, 0);
    var e2 := User(3, "bob", "bob@acme.io", "pw", Employee, None, Some(1), 3.0, true, 0);
    var buyer := User(4, "zeta", "z@zeta.io", "pw", Employer, Some("Zeta"), None, 1.0, true, 0);
    var snap := [boss, e1, e2, buyer];
    assert InTeam(e1, 1) && InTeam(e2, 1) && !InTeam(boss, 1) && !InTeam(buyer, 1);
    assert TeamFrom(snap, 1, 4) == [];
    assert TeamFrom(snap, 1, 3) == [];
    assert TeamFrom(snap, 1, 2) == [2];
    assert TeamFrom(snap, 1, 1) == [1, 2];
    assert Team(snap, 1) == [1, 2];
  }
}
