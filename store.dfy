/** The MongoDB collections the routes read and write, as one object whose
    fields the route handlers update: users, trading offers, commutes and
    pending registrations, each in insertion order (the order `find` returns
    documents in), and the source of fresh document ids. */
module Store {
  import opened Basics
  import opened UserModel
  import opened TradingModel
  import opened CommuteModel
  import PM = PendingModel
  import opened Accounts

  /** Every stored account passed validation; ids are distinct and issued. */
  ghost predicate UsersOk(users: seq<User>, nextId: nat) {
    KeysBelow(users, (u: User) => u.id, nextId) && forall i :: 0 <= i < |users| ==> UserValid(users[i])
  }

  /** Every stored offer passed validation and keeps the acceptance fields in
      step with its status. */
  ghost predicate TradesOk(trades: seq<Trade>, nextId: nat) {
    && KeysBelow(trades, (t: Trade) => t.id, nextId)
    && forall i :: 0 <= i < |trades| ==> TradeValid(trades[i]) && Lifecycle(trades[i])
  }

  ghost predicate CommutesOk(commutes: seq<Commute>, nextId: nat) {
    KeysBelow(commutes, (c: Commute) => c.id, nextId) && forall i :: 0 <= i < |commutes| ==> CommuteValid(commutes[i])
  }

  ghost predicate PendingOk(pending: seq<PM.PendingRegistration>, nextId: nat) {
    KeysBelow(pending, (p: PM.PendingRegistration) => p.id, nextId)
    && forall i :: 0 <= i < |pending| ==> PM.PendingValid(pending[i])
  }

  /** The four collections, as a whole, are as the schemas and the id
      counter allow. */
  ghost predicate StoreOk(users: seq<User>, trades: seq<Trade>, commutes: seq<Commute>,
                          pending: seq<PM.PendingRegistration>, nextId: nat) {
    UsersOk(users, nextId) && TradesOk(trades, nextId) && CommutesOk(commutes, nextId) && PendingOk(pending, nextId)
  }

  class Database {
    var users: seq<User>
    var trades: seq<Trade>
    var commutes: seq<Commute>
    var pending: seq<PM.PendingRegistration>
    var nextId: nat

    ghost predicate Valid()
      reads this
    {
      StoreOk(users, trades, commutes, pending, nextId)
    }

    constructor ()
      ensures Valid()
      ensures users == [] && trades == [] && commutes == [] && pending == []
    {
      users := [];
      trades := [];
      commutes := [];
      pending := [];
      nextId := 0;
    }

    /** A fresh ObjectId: distinct from every id issued before. */
    method FreshId() returns (id: nat)
      modifies this
      ensures id == old(nextId) && nextId == id + 1
      ensures users == old(users) && trades == old(trades)
      ensures commutes == old(commutes) && pending == old(pending)
      ensures old(Valid()) ==> Valid()
    {
      id := nextId;
      nextId := nextId + 1;
    }
  }

  /** Balance writes keep every account valid. */
  lemma UsersOkSame(a: seq<User>, b: seq<User>, nextId: nat)
    requires SameAccounts(a, b) && UsersOk(b, nextId)
    ensures UsersOk(a, nextId)
  {
    forall i | 0 <= i < |a| ensures a[i].id == b[i].id && UserValid(a[i]) {
      assert a[i].(carbonCredits := 0.0) == b[i].(carbonCredits := 0.0);
    }
  }
}
