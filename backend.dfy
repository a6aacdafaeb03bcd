/**
 The canister itself: its three tables as fields that its update calls
 change in place. The caller of each update call, which the canister reads
 from the system, is a parameter here.
 */
module Backend {
  import opened Sums
  import opened Ledger

  /** Adds up the shares of one principal, property by property, in any order. */
  method SumHoldings(held: map<PropertyId, nat>) returns (total: nat)
    ensures total == Sum(held)
  {
    total := 0;
    var rest := held;
    while rest.Keys != {}
      invariant total + Sum(rest) == Sum(held)
      decreases |rest.Keys|
    {
      var pid :| pid in rest;
      SumRemove(rest, pid);
      total := total + rest[pid];
      assert (rest - {pid}).Keys == rest.Keys - {pid};
      rest := rest - {pid};
    }
  }

  /**
   Builds the plan of a transfer of `amount` shares by a sender holding
   `held`, `total` in all: one entry per property whose proportional part is
   positive.
   */
  method PlanTransfer(held: map<PropertyId, nat>, total: nat, amount: nat) returns (plan: seq<(PropertyId, nat)>)
    ensures DistinctKeys(plan)
    ensures PlanMap(plan) == Moves(held, total, amount)
  {
    ghost var moves := Moves(held, total, amount);
    plan := [];
    var pending := held.Keys;
    while pending != {}
      invariant pending <= held.Keys
      invariant DistinctKeys(plan)
      invariant forall i :: 0 <= i < |plan| ==> plan[i].0 !in pending
      invariant PlanMap(plan) == Outside(moves, pending)
      decreases pending
    {
      var pid :| pid in pending;
      var sharesToTransfer := Share(amount, held[pid], total);
      OutsideShrinks(moves, pending, pid);
      if sharesToTransfer > 0 {
        PlanAppend(plan, (pid, sharesToTransfer));
        plan := plan + [(pid, sharesToTransfer)];
      }
      pending := pending - {pid};
    }
    assert Outside(moves, {}) == moves;
  }

  class Canister {
    var properties: map<PropertyId, Property>
    var userShares: map<Principal, UserShares>
    var votingDecisions: map<DecisionId, VotingDecision>

    function State(): Tables
      reads this
    {
      Tables(properties, userShares, votingDecisions)
    }

    ghost predicate Valid()
      reads this
    {
      WellFormed(State())
    }

    /** A freshly installed canister: all three tables empty. */
    constructor ()
      ensures Valid() && State() == Tables(map[], map[], map[])
    {
      properties := map[];
      userShares := map[];
      votingDecisions := map[];
    }

    method MintPropertyShares(propertyId: PropertyId, amount: nat)
      requires Valid()
      modifies this
      ensures Valid()
      ensures State() == Mint(old(State()), propertyId, amount)
    {
      if propertyId in properties {
        var property := properties[propertyId];
        properties := properties[propertyId := property.(shares := property.shares + amount)];
      } else {
        var newProperty := Property(propertyId, "Property " + propertyId, amount);
        properties := properties[propertyId := newProperty];
      }
    }

    method PurchaseSharesWithCkbtc(caller: Principal, propertyId: PropertyId, amount: nat)
      requires Valid()
      modifies this
      ensures Valid()
      ensures State() == Purchase(old(State()), caller, propertyId, amount)
    {
      if propertyId in properties {
        var property := properties[propertyId];
        if property.shares >= amount {
          properties := properties[propertyId := property.(shares := property.shares - amount)];
          var userShare := if caller in userShares then userShares[caller] else UserShares(map[]);
          var held := userShare.propertyShares;
          userShares := userShares[caller := UserShares(held[propertyId := Get(held, propertyId) + amount])];
        }
      }
    }

    method TransferShares(caller: Principal, recipient: Principal, amount: nat) returns (ok: bool)
      requires Valid()
      modifies this
      ensures Valid()
      ensures ok == CanTransfer(old(State()), caller, amount)
      ensures State() == Transfer(old(State()), caller, recipient, amount)
    {
      if caller in userShares {
        var senderShares := userShares[caller].propertyShares;
        var totalShares := SumHoldings(senderShares);
        if totalShares >= amount {
          var plan := PlanTransfer(senderShares, totalShares, amount);
          MovesWithinAmount(senderShares, amount);
          ExecutePlan(caller, recipient, plan);
          return true;
        }
      }
      return false;
    }

    /** One entry of a transfer plan: take the shares from the sender and give them to the recipient. */
    method MoveShares(caller: Principal, recipient: Principal, propertyId: PropertyId, sharesToTransfer: nat)
      requires caller in userShares && propertyId in userShares[caller].propertyShares ==>
        sharesToTransfer <= userShares[caller].propertyShares[propertyId]
      modifies this`userShares
      ensures userShares == ApplyMove(old(userShares), caller, recipient, propertyId, sharesToTransfer)
    {
      if caller in userShares && propertyId in userShares[caller].propertyShares {
        var senderShares := userShares[caller].propertyShares;
        userShares := userShares[caller := UserShares(senderShares[propertyId := senderShares[propertyId] - sharesToTransfer])];
      }
      var received := if recipient in userShares then userShares[recipient].propertyShares else map[];
      userShares := userShares[recipient := UserShares(received[propertyId := Get(received, propertyId) + sharesToTransfer])];
    }

    /** Carries out a transfer plan, entry by entry, in its order. */
    method ExecutePlan(caller: Principal, recipient: Principal, plan: seq<(PropertyId, nat)>)
      requires caller in userShares && DistinctKeys(plan)
      requires Fits(userShares[caller].propertyShares, PlanMap(plan))
      modifies this`userShares
      ensures userShares == Transferred(old(userShares), caller, recipient, PlanMap(plan))
    {
      ghost var before := userShares;
      ghost var held := before[caller].propertyShares;
      var i := 0;
      while i < |plan|
        invariant 0 <= i <= |plan|
        invariant Fits(held, PlanMap(plan[..i]))
        invariant userShares == Transferred(before, caller, recipient, PlanMap(plan[..i]))
      {
        var (propertyId, sharesToTransfer) := plan[i];
        PlanPrefixGrows(plan, i);
        PlanPrefixInside(plan, i + 1);
        ghost var done := PlanMap(plan[..i]);
        ghost var next := PlanMap(plan[..i + 1]);
        assert next == done[propertyId := sharesToTransfer];
        assert Fits(held, next);
        TransferredStep(before, caller, recipient, done, propertyId, sharesToTransfer);
        MoveShares(caller, recipient, propertyId, sharesToTransfer);
        assert userShares == Transferred(before, caller, recipient, next);
        i := i + 1;
      }
      assert plan[..|plan|] == plan;
    }

    /**
     `distribute_rent(id, amount)`: works out each holder's part of the rent.
     The canister only reports these parts; here they are returned. It
     changes no table.
     */
    method DistributeRent(propertyId: PropertyId, amount: nat) returns (payouts: map<Principal, nat>)
      ensures var stakes := Stakes(userShares, propertyId);
        payouts == if Sum(stakes) > 0 then RentShares(stakes, Sum(stakes), amount) else map[]
    {
      ghost var stakes := Stakes(userShares, propertyId);
      var totalShares := 0;
      var holders: map<Principal, nat> := map[];
      var pending := userShares.Keys;
      while pending != {}
        invariant pending <= userShares.Keys
        invariant holders == Outside(stakes, pending)
        invariant totalShares == Sum(holders)
        decreases pending
      {
        var user :| user in pending;
        OutsideShrinks(stakes, pending, user);
        if propertyId in userShares[user].propertyShares {
          var userPropertyShares := userShares[user].propertyShares[propertyId];
          SumUpdate(holders, user, userPropertyShares);
          totalShares := totalShares + userPropertyShares;
          holders := holders[user := userPropertyShares];
        }
        pending := pending - {user};
      }
      assert holders == stakes;
      payouts := map[];
      if totalShares > 0 {
        var unpaid := holders.Keys;
        while unpaid != {}
          invariant unpaid <= holders.Keys
          invariant payouts == RentShares(Outside(holders, unpaid), totalShares, amount)
          decreases unpaid
        {
          var user :| user in unpaid;
          OutsideShrinks(holders, unpaid, user);
          var rentShare := Share(amount, holders[user], totalShares);
          payouts := payouts[user := rentShare];
          unpaid := unpaid - {user};
        }
        assert Outside(holders, {}) == holders;
      }
    }

    method VoteOnDecision(caller: Principal, decisionId: DecisionId, vote: bool)
      requires Valid()
      modifies this
      ensures Valid()
      ensures State() == Vote(old(State()), caller, decisionId, vote)
    {
      var userTotalShares := 0;
      if caller in userShares {
        userTotalShares := SumHoldings(userShares[caller].propertyShares);
      }
      VotedKeepsVotersDistinct(votingDecisions, decisionId, caller, vote, userTotalShares);
      if userTotalShares > 0 {
        var decision := if decisionId in votingDecisions then votingDecisions[decisionId] else VotingDecision(0, 0, []);
        if caller !in decision.voters {
          if vote {
            decision := decision.(votesYes := decision.votesYes + userTotalShares);
          } else {
            decision := decision.(votesNo := decision.votesNo + userTotalShares);
          }
          decision := decision.(voters := decision.voters + [caller]);
        }
        votingDecisions := votingDecisions[decisionId := decision];
      }
    }

    /** `get_voting_result(id)`: a query, so it only reads the canister. */
    function GetVotingResult(decisionId: DecisionId): Option<bool>
      reads this
    {
      VotingResult(votingDecisions, decisionId)
    }
  }
}
