/**
 The share ledger of the real-estate canister, as values.

 The canister keeps three tables: the properties with their shares still
 available for sale, the shares each principal holds per property, and the
 tallies of each governance decision. Every update call of the canister is
 described here as a function from the tables before the call to the tables
 after it; the class in module Backend performs the same updates in place
 and is proved to agree with these functions.
 */
module Ledger {
  import opened Sums

  type PropertyId = string
  type DecisionId = string
  /** A principal, in its textual form. */
  type Principal = string

  datatype Option<T> = None | Some(value: T)

  /** A property and the number of its shares still available for purchase. */
  datatype Property = Property(id: PropertyId, name: string, shares: nat)

  /** What one principal holds: property id to number of shares. */
  datatype UserShares = UserShares(propertyShares: map<PropertyId, nat>)

  /** The yes and no tallies of a decision and the principals that voted on it. */
  datatype VotingDecision = VotingDecision(votesYes: nat, votesNo: nat, voters: seq<Principal>)

  /** The canister's whole state. */
  datatype Tables = Tables(
    properties: map<PropertyId, Property>,
    userShares: map<Principal, UserShares>,
    votingDecisions: map<DecisionId, VotingDecision>)

  const NoShares := UserShares(map[])
  const NoVotes := VotingDecision(0, 0, [])

  /** The value under `p`, or 0 when `p` has no entry (Rust's `entry(p).or_default()`). */
  function Get(m: map<PropertyId, nat>, p: PropertyId): nat
  {
    if p in m then m[p] else 0
  }

  /** The entry of principal `u`, or an empty holding when `u` has none. */
  function HoldingsOf(us: map<Principal, UserShares>, u: Principal): UserShares
  {
    if u in us then us[u] else NoShares
  }

  /** The shares principal `u` holds in property `p`. */
  function Holding(us: map<Principal, UserShares>, u: Principal, p: PropertyId): nat
  {
    Get(HoldingsOf(us, u).propertyShares, p)
  }

  /** The shares of property `p` still available for purchase. */
  function Available(props: map<PropertyId, Property>, p: PropertyId): nat
  {
    if p in props then props[p].shares else 0
  }

  /** Every principal's holding in property `p`. */
  function HoldersOf(us: map<Principal, UserShares>, p: PropertyId): map<Principal, nat>
  {
    map u | u in us :: Holding(us, u, p)
  }

  /** All shares of property `p` that principals hold. */
  ghost function Held(us: map<Principal, UserShares>, p: PropertyId): nat
  {
    Sum(HoldersOf(us, p))
  }

  /** All shares of property `p` ever minted: those for sale plus those held. */
  ghost function Supply(t: Tables, p: PropertyId): nat
  {
    Available(t.properties, p) + Held(t.userShares, p)
  }

  /** The shares principal `u` holds over all properties: the weight of its vote. */
  ghost function TotalShares(us: map<Principal, UserShares>, u: Principal): nat
  {
    Sum(HoldingsOf(us, u).propertyShares)
  }

  predicate NoDuplicates(s: seq<Principal>)
  {
    forall i, j :: 0 <= i < j < |s| ==> s[i] != s[j]
  }

  /**
   What every update keeps: a property is filed under its own id, and no
   principal appears twice among the voters of a decision.
   */
  ghost predicate WellFormed(t: Tables)
  {
    && (forall id :: id in t.properties ==> t.properties[id].id == id)
    && (forall id :: id in t.votingDecisions ==> NoDuplicates(t.votingDecisions[id].voters))
  }

  // ---------------------------------------------------------------------
  // mint_property_shares

  /** `mint_property_shares(id, amount)`: more shares of `id` for sale, creating the property if needed. */
  function Mint(t: Tables, id: PropertyId, amount: nat): (r: Tables)
    ensures r.userShares == t.userShares && r.votingDecisions == t.votingDecisions
    ensures r.properties.Keys == t.properties.Keys + {id}
    ensures r.properties[id].shares == Available(t.properties, id) + amount
    ensures id in t.properties ==> r.properties[id].id == t.properties[id].id && r.properties[id].name == t.properties[id].name
    ensures id !in t.properties ==> r.properties[id] == Property(id, "Property " + id, amount)
    ensures forall q :: q in t.properties && q != id ==> r.properties[q] == t.properties[q]
  {
    if id in t.properties then
      var property := t.properties[id];
      t.(properties := t.properties[id := property.(shares := property.shares + amount)])
    else
      t.(properties := t.properties[id := Property(id, "Property " + id, amount)])
  }

  // ---------------------------------------------------------------------
  // purchase_shares_with_ckbtc

  /** The guard of a purchase: the property exists and has at least `amount` shares for sale. */
  predicate CanPurchase(t: Tables, id: PropertyId, amount: nat)
  {
    id in t.properties && t.properties[id].shares >= amount
  }

  /** `purchase_shares_with_ckbtc(id, amount)` called by `caller`. */
  function Purchase(t: Tables, caller: Principal, id: PropertyId, amount: nat): (r: Tables)
    ensures !CanPurchase(t, id, amount) ==> r == t
    ensures CanPurchase(t, id, amount) ==>
      && r.properties == t.properties[id := t.properties[id].(shares := t.properties[id].shares - amount)]
      && Holding(r.userShares, caller, id) == Holding(t.userShares, caller, id) + amount
      && r.userShares.Keys == t.userShares.Keys + {caller}
    ensures forall u, p :: (u != caller || p != id) ==> Holding(r.userShares, u, p) == Holding(t.userShares, u, p)
    ensures forall u :: u in t.userShares && u != caller ==> r.userShares[u] == t.userShares[u]
    ensures r.votingDecisions == t.votingDecisions
  {
    if CanPurchase(t, id, amount) then
      var property := t.properties[id];
      var held := HoldingsOf(t.userShares, caller).propertyShares;
      t.(properties := t.properties[id := property.(shares := property.shares - amount)],
         userShares := t.userShares[caller := UserShares(held[id := Get(held, id) + amount])])
    else
      t
  }

  // ---------------------------------------------------------------------
  // Supply: minted shares are either for sale or held

  /** Replacing the entry of one principal changes the shares held of `p` by the difference. */
  lemma HeldUpdate(us: map<Principal, UserShares>, u: Principal, s: UserShares, p: PropertyId)
    ensures Held(us[u := s], p) + Holding(us, u, p) == Held(us, p) + Get(s.propertyShares, p)
  {
    var before := HoldersOf(us, p);
    assert HoldersOf(us[u := s], p) == before[u := Get(s.propertyShares, p)];
    SumUpdate(before, u, Get(s.propertyShares, p));
  }

  /** Minting adds exactly `amount` to the supply of the minted property, and nothing to the others. */
  lemma MintSupply(t: Tables, id: PropertyId, amount: nat, p: PropertyId)
    ensures Supply(Mint(t, id, amount), p) == Supply(t, p) + (if p == id then amount else 0)
  {
  }

  /** A purchase moves shares from sale into the buyer's holding: no supply changes. */
  lemma PurchaseSupply(t: Tables, caller: Principal, id: PropertyId, amount: nat, p: PropertyId)
    ensures Supply(Purchase(t, caller, id, amount), p) == Supply(t, p)
  {
    if CanPurchase(t, id, amount) {
      var r := Purchase(t, caller, id, amount);
      HeldUpdate(t.userShares, caller, r.userShares[caller], p);
      assert r.userShares == t.userShares[caller := r.userShares[caller]];
    }
  }

  // ---------------------------------------------------------------------
  // transfer_shares

  /**
   The number of shares of one property a transfer of `amount` takes from a
   sender holding `shares` of it and `total` over all properties: its
   proportional part, rounded down. With `total` zero the source divides
   0.0 by 0.0; the resulting NaN converts to 0.
   */
  function Share(amount: nat, shares: nat, total: nat): (r: nat)
    ensures r * total <= amount * shares
    ensures amount <= total ==> r <= shares
  {
    if total == 0 then 0
    else
      var r := amount * shares / total;
      ShareBound(amount, shares, total, r);
      r
  }

  lemma ShareBound(amount: nat, shares: nat, total: nat, r: nat)
    requires total > 0 && r == amount * shares / total
    ensures r * total <= amount * shares
    ensures amount <= total ==> r <= shares
  {
  }

  /** The transfer plan of a sender holding `held`, as a map: the positive proportional parts. */
  function Moves(held: map<PropertyId, nat>, total: nat, amount: nat): (m: map<PropertyId, nat>)
    ensures forall p :: p in m ==> p in held && 0 < m[p] && (amount <= total ==> m[p] <= held[p])
    ensures forall p :: p in held && Share(amount, held[p], total) > 0 ==> p in m
  {
    map p | p in held && Share(amount, held[p], total) > 0 :: Share(amount, held[p], total)
  }

  /** `moves` takes from `held` only what is there. */
  predicate Fits(held: map<PropertyId, nat>, moves: map<PropertyId, nat>)
  {
    forall p :: p in moves ==> p in held && moves[p] <= held[p]
  }

  function Debit(held: map<PropertyId, nat>, moves: map<PropertyId, nat>): map<PropertyId, nat>
    requires Fits(held, moves)
  {
    map p | p in held :: held[p] - Get(moves, p)
  }

  function Credit(held: map<PropertyId, nat>, moves: map<PropertyId, nat>): map<PropertyId, nat>
  {
    map p | p in held.Keys + moves.Keys :: Get(held, p) + Get(moves, p)
  }

  /**
   The holdings after the sender `caller` has given `recipient` the shares
   listed in `moves`. A recipient without an entry gets one, unless there is
   nothing to move.
   */
  function Transferred(us: map<Principal, UserShares>, caller: Principal, recipient: Principal,
                       moves: map<PropertyId, nat>): map<Principal, UserShares>
    requires caller in us && Fits(us[caller].propertyShares, moves)
  {
    if moves == map[] then us
    else
      var debited := us[caller := UserShares(Debit(us[caller].propertyShares, moves))];
      var received := HoldingsOf(debited, recipient).propertyShares;
      debited[recipient := UserShares(Credit(received, moves))]
  }

  /**
   One step of carrying out a plan: take `st` shares of `pid` from the
   sender, if it holds that property, and credit them to the recipient,
   creating its entries as needed.
   */
  function ApplyMove(us: map<Principal, UserShares>, caller: Principal, recipient: Principal,
                     pid: PropertyId, st: nat): map<Principal, UserShares>
    requires caller in us && pid in us[caller].propertyShares ==> st <= us[caller].propertyShares[pid]
  {
    var debited :=
      if caller in us && pid in us[caller].propertyShares then
        var held := us[caller].propertyShares;
        us[caller := UserShares(held[pid := held[pid] - st])]
      else us;
    var received := HoldingsOf(debited, recipient).propertyShares;
    debited[recipient := UserShares(received[pid := Get(received, pid) + st])]
  }

  /** No property appears twice in a plan. */
  predicate DistinctKeys(plan: seq<(PropertyId, nat)>)
  {
    forall i, j :: 0 <= i < j < |plan| ==> plan[i].0 != plan[j].0
  }

  /** A transfer plan, the list of (property, shares) pairs, read as a map. */
  function PlanMap(plan: seq<(PropertyId, nat)>): (m: map<PropertyId, nat>)
    ensures m.Keys == set i | 0 <= i < |plan| :: plan[i].0
    ensures DistinctKeys(plan) ==> forall i :: 0 <= i < |plan| ==> m[plan[i].0] == plan[i].1
  {
    if plan == [] then map[]
    else
      var n := |plan| - 1;
      PlanMap(plan[..n])[plan[n].0 := plan[n].1]
  }

  /** Appending an entry to a plan adds it to the plan's map. */
  lemma PlanAppend(plan: seq<(PropertyId, nat)>, e: (PropertyId, nat))
    ensures PlanMap(plan + [e]) == PlanMap(plan)[e.0 := e.1]
  {
  }

  /** The part of `moves` on keys outside `pending`: what a loop over the keys has handled so far. */
  function Outside<K>(moves: map<K, nat>, pending: set<K>): map<K, nat>
  {
    map p | p in moves && p !in pending :: moves[p]
  }

  /** Taking one property out of `pending` adds its entry, if any, to the part built so far. */
  lemma OutsideShrinks<K>(moves: map<K, nat>, pending: set<K>, pid: K)
    requires pid in pending
    ensures Outside(moves, pending - {pid}) == if pid in moves then Outside(moves, pending)[pid := moves[pid]] else Outside(moves, pending)
  {
  }

  /** Growing a prefix of a plan by one entry adds that entry, on a property not yet in it, to its map. */
  lemma PlanPrefixGrows(plan: seq<(PropertyId, nat)>, i: nat)
    requires DistinctKeys(plan) && i < |plan|
    ensures plan[i].0 !in PlanMap(plan[..i])
    ensures PlanMap(plan[..i + 1]) == PlanMap(plan[..i])[plan[i].0 := plan[i].1]
  {
    assert plan[..i + 1][..i] == plan[..i];
  }

  /** The map of a prefix of a plan agrees with the map of the whole plan. */
  lemma PlanPrefixInside(plan: seq<(PropertyId, nat)>, i: nat)
    requires DistinctKeys(plan) && i <= |plan|
    ensures forall p :: p in PlanMap(plan[..i]) ==> p in PlanMap(plan) && PlanMap(plan[..i])[p] == PlanMap(plan)[p]
  {
    var prefix := plan[..i];
    assert DistinctKeys(prefix);
    forall p | p in PlanMap(prefix)
      ensures p in PlanMap(plan) && PlanMap(prefix)[p] == PlanMap(plan)[p]
    {
      var k :| 0 <= k < |prefix| && prefix[k].0 == p;
      assert prefix[k] == plan[k];
    }
  }

  /**
   Carrying out one more entry of a plan, on property `pid` not yet moved,
   gives the holdings of the larger plan.
   */
  lemma TransferredStep(us: map<Principal, UserShares>, caller: Principal, recipient: Principal,
                        moves: map<PropertyId, nat>, pid: PropertyId, st: nat)
    requires caller in us && Fits(us[caller].propertyShares, moves)
    requires pid in us[caller].propertyShares && pid !in moves && st <= us[caller].propertyShares[pid]
    ensures Fits(us[caller].propertyShares, moves[pid := st])
    ensures var t := Transferred(us, caller, recipient, moves);
      && caller in t && pid in t[caller].propertyShares
      && t[caller].propertyShares[pid] == us[caller].propertyShares[pid]
      && ApplyMove(t, caller, recipient, pid, st) == Transferred(us, caller, recipient, moves[pid := st])
  {
    if caller == recipient {
      StepToSelf(us, caller, moves, pid, st);
    } else if moves == map[] {
      FirstStep(us, caller, recipient, pid, st);
    } else {
      NextStep(us, caller, recipient, moves, pid, st);
    }
  }

  lemma StepToSelf(us: map<Principal, UserShares>, caller: Principal, moves: map<PropertyId, nat>,
                   pid: PropertyId, st: nat)
    requires caller in us && Fits(us[caller].propertyShares, moves)
    requires pid in us[caller].propertyShares && pid !in moves && st <= us[caller].propertyShares[pid]
    ensures Fits(us[caller].propertyShares, moves[pid := st])
    ensures Transferred(us, caller, caller, moves) == us
    ensures ApplyMove(us, caller, caller, pid, st) == Transferred(us, caller, caller, moves[pid := st])
  {
    var held := us[caller].propertyShares;
    SelfTransferUnchanged(us, caller, moves);
    SelfTransferUnchanged(us, caller, moves[pid := st]);
    var debited := held[pid := held[pid] - st];
    assert debited[pid := Get(debited, pid) + st] == held;
    assert us[caller := UserShares(held)] == us;
  }

  lemma FirstStep(us: map<Principal, UserShares>, caller: Principal, recipient: Principal,
                  pid: PropertyId, st: nat)
    requires caller in us && caller != recipient
    requires pid in us[caller].propertyShares && st <= us[caller].propertyShares[pid]
    ensures ApplyMove(us, caller, recipient, pid, st) == Transferred(us, caller, recipient, map[pid := st])
  {
    var held := us[caller].propertyShares;
    var more := map[pid := st];
    var received := HoldingsOf(us, recipient).propertyShares;
    assert held[pid := held[pid] - st] == Debit(held, more);
    assert received[pid := Get(received, pid) + st] == Credit(received, more);
  }

  lemma DebitStep(held: map<PropertyId, nat>, moves: map<PropertyId, nat>, pid: PropertyId, st: nat)
    requires Fits(held, moves) && pid in held && pid !in moves && st <= held[pid]
    ensures Fits(held, moves[pid := st])
    ensures Debit(held, moves)[pid := held[pid] - st] == Debit(held, moves[pid := st])
  {
  }

  lemma CreditStep(received: map<PropertyId, nat>, moves: map<PropertyId, nat>, pid: PropertyId, st: nat)
    requires pid !in moves
    ensures var c := Credit(received, moves);
      c[pid := Get(c, pid) + st] == Credit(received, moves[pid := st])
  {
  }

  lemma NextStep(us: map<Principal, UserShares>, caller: Principal, recipient: Principal,
                 moves: map<PropertyId, nat>, pid: PropertyId, st: nat)
    requires caller in us && caller != recipient && moves != map[] && Fits(us[caller].propertyShares, moves)
    requires pid in us[caller].propertyShares && pid !in moves && st <= us[caller].propertyShares[pid]
    ensures Fits(us[caller].propertyShares, moves[pid := st])
    ensures var t := Transferred(us, caller, recipient, moves);
      && caller in t && pid in t[caller].propertyShares
      && t[caller].propertyShares[pid] == us[caller].propertyShares[pid]
      && ApplyMove(t, caller, recipient, pid, st) == Transferred(us, caller, recipient, moves[pid := st])
  {
    var held := us[caller].propertyShares;
    var more := moves[pid := st];
    var received := HoldingsOf(us, recipient).propertyShares;
    var d0, c0 := Debit(held, moves), Credit(received, moves);
    var t := Transferred(us, caller, recipient, moves);
    assert t == us[caller := UserShares(d0)][recipient := UserShares(c0)];
    DebitStep(held, moves, pid, st);
    CreditStep(received, moves, pid, st);
    ApplyMoveBetween(t, caller, recipient, pid, st);
  }

  /** `ApplyMove` between two different principals, when the sender holds the property. */
  lemma ApplyMoveBetween(t: map<Principal, UserShares>, caller: Principal, recipient: Principal,
                         pid: PropertyId, st: nat)
    requires caller in t && caller != recipient
    requires pid in t[caller].propertyShares && st <= t[caller].propertyShares[pid]
    ensures var sender := t[caller].propertyShares;
      var received := HoldingsOf(t, recipient).propertyShares;
      ApplyMove(t, caller, recipient, pid, st)
        == t[caller := UserShares(sender[pid := sender[pid] - st])]
            [recipient := UserShares(received[pid := Get(received, pid) + st])]
  {
  }

  /** The guard of a transfer: the sender has an entry holding at least `amount` shares in all. */
  ghost predicate CanTransfer(t: Tables, caller: Principal, amount: nat)
  {
    caller in t.userShares && TotalShares(t.userShares, caller) >= amount
  }

  /** The plan of a transfer whose guard holds. */
  ghost function PlannedMoves(t: Tables, caller: Principal, amount: nat): (m: map<PropertyId, nat>)
    requires CanTransfer(t, caller, amount)
    ensures Fits(t.userShares[caller].propertyShares, m)
  {
    var held := t.userShares[caller].propertyShares;
    Moves(held, Sum(held), amount)
  }

  /** `transfer_shares(recipient, amount)` called by `caller`; its result is `CanTransfer`. */
  ghost function Transfer(t: Tables, caller: Principal, recipient: Principal, amount: nat): (r: Tables)
    ensures !CanTransfer(t, caller, amount) ==> r == t
    ensures r.properties == t.properties && r.votingDecisions == t.votingDecisions
  {
    if CanTransfer(t, caller, amount) then
      t.(userShares := Transferred(t.userShares, caller, recipient, PlannedMoves(t, caller, amount)))
    else
      t
  }

  /**
   Between two different principals, the sender loses in each property
   exactly what the recipient gains, and nobody else's entry changes.
   */
  lemma TransferredMovesHoldings(us: map<Principal, UserShares>, caller: Principal, recipient: Principal,
                                 moves: map<PropertyId, nat>)
    requires caller in us && Fits(us[caller].propertyShares, moves)
    requires caller != recipient
    ensures var r := Transferred(us, caller, recipient, moves);
      && (forall p :: Holding(r, caller, p) + Get(moves, p) == Holding(us, caller, p))
      && (forall p :: Holding(r, recipient, p) == Holding(us, recipient, p) + Get(moves, p))
      && (forall u :: u != caller && u != recipient ==> (u in r <==> u in us) && (u in us ==> r[u] == us[u]))
  {
  }

  /** Giving shares to oneself changes nothing. */
  lemma {:induction false} SelfTransferUnchanged(us: map<Principal, UserShares>, caller: Principal,
                                                 moves: map<PropertyId, nat>)
    requires caller in us && Fits(us[caller].propertyShares, moves)
    ensures Transferred(us, caller, caller, moves) == us
  {
    if moves != map[] {
      var held := us[caller].propertyShares;
      assert Credit(Debit(held, moves), moves) == held;
      assert us[caller := UserShares(held)] == us;
    }
  }

  /** A transfer neither creates nor destroys shares of any property. */
  lemma TransferSupply(t: Tables, caller: Principal, recipient: Principal, amount: nat, p: PropertyId)
    ensures Supply(Transfer(t, caller, recipient, amount), p) == Supply(t, p)
  {
    if CanTransfer(t, caller, amount) {
      var us := t.userShares;
      var moves := PlannedMoves(t, caller, amount);
      if caller == recipient {
        SelfTransferUnchanged(us, caller, moves);
      } else if moves != map[] {
        TransferredMovesHoldings(us, caller, recipient, moves);
        var debited := us[caller := UserShares(Debit(us[caller].propertyShares, moves))];
        var r := Transferred(us, caller, recipient, moves);
        HeldUpdate(us, caller, debited[caller], p);
        HeldUpdate(debited, recipient, r[recipient], p);
        assert r == debited[recipient := r[recipient]];
      }
    }
  }

  /** No planned part exceeds the sender's holding, and together they come to at most `amount`. */
  lemma MovesWithinAmount(held: map<PropertyId, nat>, amount: nat)
    requires amount <= Sum(held)
    ensures Fits(held, Moves(held, Sum(held), amount))
    ensures Sum(Moves(held, Sum(held), amount)) <= amount
  {
    var total := Sum(held);
    var moves := Moves(held, total, amount);
    if total > 0 {
      forall p | p in moves
        ensures total * moves[p] <= amount * held[p]
      {
        assert moves[p] == Share(amount, held[p], total);
      }
      SumScaledBound(moves, held, amount, total);
      CancelFactor(total, Sum(moves), amount);
    } else {
      assert moves == map[];
    }
  }

  lemma CancelFactor(c: nat, x: nat, y: nat)
    requires c > 0 && c * x <= y * c
    ensures x <= y
  {
  }

  // ---------------------------------------------------------------------
  // distribute_rent

  /** The holders of property `p` and their shares: the principals with an entry for `p`. */
  function Stakes(us: map<Principal, UserShares>, p: PropertyId): map<Principal, nat>
  {
    map u | u in us && p in us[u].propertyShares :: us[u].propertyShares[p]
  }

  /** The rent each holder is due: its proportional part of `amount`, rounded down. */
  function RentShares(stakes: map<Principal, nat>, total: nat, amount: nat): (r: map<Principal, nat>)
    ensures r.Keys == stakes.Keys
    ensures forall u :: u in r ==> r[u] * total <= amount * stakes[u]
  {
    map u | u in stakes :: Share(amount, stakes[u], total)
  }

  /** Shared out over the holders' shares, the rent paid never exceeds the rent received. */
  lemma RentWithinAmount(stakes: map<Principal, nat>, amount: nat)
    requires Sum(stakes) > 0
    ensures Sum(RentShares(stakes, Sum(stakes), amount)) <= amount
  {
    var total := Sum(stakes);
    var rent := RentShares(stakes, total, amount);
    forall u | u in rent
      ensures total * rent[u] <= amount * stakes[u]
    {
    }
    SumScaledBound(rent, stakes, amount, total);
    CancelFactor(total, Sum(rent), amount);
  }

  // ---------------------------------------------------------------------
  // vote_on_decision and get_voting_result

  /** The decision filed under `id`, or a fresh one with no votes. */
  function DecisionOf(ds: map<DecisionId, VotingDecision>, id: DecisionId): VotingDecision
  {
    if id in ds then ds[id] else NoVotes
  }

  /** A vote of weight `weight` by `caller` on decision `id`. */
  function Voted(ds: map<DecisionId, VotingDecision>, id: DecisionId, caller: Principal,
                 vote: bool, weight: nat): (r: map<DecisionId, VotingDecision>)
    ensures weight == 0 ==> r == ds
    ensures caller in DecisionOf(ds, id).voters ==> r == ds
    ensures weight > 0 && caller !in DecisionOf(ds, id).voters ==>
      && id in r
      && r[id].votesYes == DecisionOf(ds, id).votesYes + (if vote then weight else 0)
      && r[id].votesNo == DecisionOf(ds, id).votesNo + (if vote then 0 else weight)
      && r[id].voters == DecisionOf(ds, id).voters + [caller]
    ensures forall other :: other != id ==> (other in r <==> other in ds) && (other in ds ==> r[other] == ds[other])
  {
    if weight == 0 then ds
    else
      var d := DecisionOf(ds, id);
      if caller in d.voters then ds
      else if vote then ds[id := d.(votesYes := d.votesYes + weight, voters := d.voters + [caller])]
      else ds[id := d.(votesNo := d.votesNo + weight, voters := d.voters + [caller])]
  }

  /** `vote_on_decision(id, vote)` called by `caller`, weighted by all the shares it holds. */
  ghost function Vote(t: Tables, caller: Principal, id: DecisionId, vote: bool): (r: Tables)
    ensures r.properties == t.properties && r.userShares == t.userShares
  {
    t.(votingDecisions := Voted(t.votingDecisions, id, caller, vote, TotalShares(t.userShares, caller)))
  }

  /** A vote never puts a principal twice on a voter list. */
  lemma VotedKeepsVotersDistinct(ds: map<DecisionId, VotingDecision>, id: DecisionId, caller: Principal,
                                 vote: bool, weight: nat)
    requires forall d :: d in ds ==> NoDuplicates(ds[d].voters)
    ensures var r := Voted(ds, id, caller, vote, weight);
      forall d :: d in r ==> NoDuplicates(r[d].voters)
  {
  }

  /** Once a principal holding shares has voted, voting again changes nothing. */
  lemma VoteOnce(ds: map<DecisionId, VotingDecision>, id: DecisionId, caller: Principal,
                 first: bool, second: bool, weight: nat, laterWeight: nat)
    requires weight > 0
    ensures var once := Voted(ds, id, caller, first, weight);
      Voted(once, id, caller, second, laterWeight) == once
  {
  }

  /** `get_voting_result(id)`: the side with strictly more votes, none on a tie or unknown decision. */
  function VotingResult(ds: map<DecisionId, VotingDecision>, id: DecisionId): (r: Option<bool>)
    ensures r == Some(true) <==> id in ds && ds[id].votesYes > ds[id].votesNo
    ensures r == Some(false) <==> id in ds && ds[id].votesNo > ds[id].votesYes
    ensures r == None <==> id !in ds || ds[id].votesYes == ds[id].votesNo
  {
    if id in ds then
      var d := ds[id];
      if d.votesYes > d.votesNo then Some(true)
      else if d.votesNo > d.votesYes then Some(false)
      else None
    else None
  }

  /** The first vote on a new decision, by a principal holding shares, decides it. */
  lemma FirstVoteDecides(ds: map<DecisionId, VotingDecision>, id: DecisionId, caller: Principal,
                         vote: bool, weight: nat)
    requires id !in ds && weight > 0
    ensures VotingResult(Voted(ds, id, caller, vote, weight), id) == Some(vote)
  {
  }
}
