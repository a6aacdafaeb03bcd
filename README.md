# Real-estate share canister, modelled in Dafny

The backend canister of the real-estate application is a small share ledger. It
keeps three tables in memory:

- `PROPERTIES`: each property and how many of its shares are still for sale;
- `USER_SHARES`: for each principal, how many shares of each property it holds;
- `VOTING_DECISIONS`: for each governance decision, the yes and no tallies and
  the principals that have voted.

Its update calls mint shares for sale, sell them to the caller, move a caller's
holdings to another principal in proportion to what it holds in each property,
work out each holder's part of a rent payment, and record share-weighted votes.
A query compares the tallies of a decision.

The project has three modules:

- `Sums` (`sums.dfy`) defines the sum of the values of a map. The keys are taken
  in no fixed order, because the canister iterates over hash maps. It proves
  that the order does not matter, and it proves the bound that limits
  proportional shares.
- `Ledger` (`ledger.dfy`) holds the entities as datatypes. Each call is a
  function from the tables before it to the tables after it. The module's lemmas
  state what the calls promise. Minted shares are always either for sale or
  held, and purchases and transfers conserve them. A failed purchase or
  transfer changes nothing. In a transfer, the sender loses what the recipient
  gains. No principal votes twice, and the tally comparison is stated both ways.
- `Backend` (`backend.dfy`) has the class `Canister`, whose three map fields the
  methods update in place. The methods follow the source's loops: adding up a
  principal's holdings, building the transfer plan, carrying it out entry by
  entry, and collecting the holders of a property. Each method is proved to
  leave the tables equal to the `Ledger` function applied to the old tables. It
  also keeps the invariant `Valid()`: every property is filed under its own id,
  and voter lists hold no duplicates.

The caller, which the canister reads from the system, is an explicit parameter.
A principal is represented by its textual form.

One behaviour follows from the model and is worth knowing. A vote weighs the
voter's holdings at the time it is cast. A principal that has voted can
therefore transfer its shares to another principal, and that principal's vote
counts the same shares again. The source does the same; it is a property of
the design, not a slip in the code.

## Model

| member | source | states |
|---|---|---|
| `Sums.SumRemove` | src/real_estate_icp_backend/src/lib.rs:89-91 | Any entry can be added first: the sum of a principal's holdings does not depend on the map's iteration order |
| `Sums.SumScaledBound` | src/real_estate_icp_backend/src/lib.rs:97-106 | If each planned part, scaled by the total, is at most `amount` times the holding, then the same holds of the sums. This bounds the total moved |
| `Backend.SumHoldings` | src/real_estate_icp_backend/src/lib.rs:85-91 | The loop that adds up a principal's holdings, in any order, returns exactly the sum of the holdings |
| `Ledger.Mint` | src/real_estate_icp_backend/src/lib.rs:38-55 | An existing property gains exactly `amount` shares for sale and keeps its id and name. An unknown id gets `Property { id, "Property <id>", amount }`. No other property and no other table changes |
| `Ledger.MintSupply` | src/real_estate_icp_backend/src/lib.rs:43-53 | Minting raises the supply of the minted property (for sale plus held) by exactly `amount`, and leaves every other supply alone |
| `Backend.Canister.MintPropertyShares` | src/real_estate_icp_backend/src/lib.rs:38-55 | Updates the properties table in place to `Ledger.Mint` of the old tables and keeps `Valid()` |
| `Ledger.Purchase` | src/real_estate_icp_backend/src/lib.rs:57-77 | A purchase succeeds only when the property exists and has at least `amount` shares for sale. On success, the shares for sale fall by `amount` and the buyer's holding rises by `amount`. No other holding changes. Otherwise no table changes |
| `Ledger.PurchaseSupply` | src/real_estate_icp_backend/src/lib.rs:64-76 | A purchase, successful or not, leaves every property's supply (for sale plus the sum of all holdings) unchanged |
| `Backend.Canister.PurchaseSharesWithCkbtc` | src/real_estate_icp_backend/src/lib.rs:57-77 | Updates both tables in place to `Ledger.Purchase` of the old tables and keeps `Valid()` |
| `Ledger.Share` | src/real_estate_icp_backend/src/lib.rs:99-100 | The part taken from one property, times the sender's total, is at most `amount` times the holding. When `amount` does not exceed the total, the part is at most the holding |
| `Ledger.Moves` | src/real_estate_icp_backend/src/lib.rs:97-106 | The plan has an entry exactly for each held property whose part is positive. Each entry is positive and, when the guard holds, at most the sender's holding |
| `Ledger.MovesWithinAmount` | src/real_estate_icp_backend/src/lib.rs:93-106 | Under the guard, the plan takes from each property at most what the sender holds there, and at most `amount` in all, because of rounding down |
| `Backend.PlanTransfer` | src/real_estate_icp_backend/src/lib.rs:95-106 | The loop that builds the plan, over the sender's properties in any order, yields each property at most once, and the plan read as a map is exactly `Ledger.Moves` |
| `Ledger.Transfer` | src/real_estate_icp_backend/src/lib.rs:79-128 | When the caller has no entry or holds fewer than `amount` shares in all, nothing changes. The properties and decisions tables never change |
| `Ledger.TransferredMovesHoldings` | src/real_estate_icp_backend/src/lib.rs:109-120 | Between two different principals, the sender loses in each property exactly the planned part and the recipient gains exactly that part. Every other principal's entry is untouched |
| `Ledger.SelfTransferUnchanged` | src/real_estate_icp_backend/src/lib.rs:109-120 | A transfer to oneself leaves every holding as it was |
| `Ledger.TransferSupply` | src/real_estate_icp_backend/src/lib.rs:109-122 | A transfer, successful or not, leaves the supply of every property unchanged |
| `Ledger.TransferredStep` | src/real_estate_icp_backend/src/lib.rs:109-120 | Carrying out one more plan entry, on a property not yet moved, takes the holdings to those of the larger plan. The sender still holds the whole original amount of that property beforehand, so the subtraction cannot go below zero |
| `Backend.Canister.MoveShares` | src/real_estate_icp_backend/src/lib.rs:110-119 | One plan entry: takes the shares from the sender's entry if it has the property, then credits the recipient, creating its entries when needed |
| `Backend.Canister.ExecutePlan` | src/real_estate_icp_backend/src/lib.rs:108-120 | Carrying out a plan with no repeated property, in its order, leaves the holdings equal to `Ledger.Transferred` of the plan |
| `Backend.Canister.TransferShares` | src/real_estate_icp_backend/src/lib.rs:79-128 | Returns true exactly when the caller has an entry holding at least `amount` shares in all, and leaves the tables equal to `Ledger.Transfer` of the old tables |
| `Ledger.RentShares` | src/real_estate_icp_backend/src/lib.rs:145-153 | Each holder of the property is due a part of the rent. That part, times the total held, is at most `amount` times its holding |
| `Ledger.RentWithinAmount` | src/real_estate_icp_backend/src/lib.rs:145-153 | The parts of the rent together never exceed the rent paid in |
| `Backend.Canister.DistributeRent` | src/real_estate_icp_backend/src/lib.rs:130-154 | Returns every holder's rounded-down proportional part of the rent, or nothing when no shares of the property are held. It changes no table |
| `Ledger.Voted` | src/real_estate_icp_backend/src/lib.rs:170-185 | A vote of weight zero, or by a principal already on the voter list, changes nothing. Otherwise the voter's weight goes to the yes or no tally as `vote` says, and the voter is appended once. Other decisions are untouched |
| `Ledger.Vote` | src/real_estate_icp_backend/src/lib.rs:156-186 | A vote is weighted by all the shares the caller holds, and changes neither the properties nor the holdings |
| `Ledger.VotedKeepsVotersDistinct` | src/real_estate_icp_backend/src/lib.rs:176-183 | If no voter list has duplicates before a vote, none has after it |
| `Ledger.VoteOnce` | src/real_estate_icp_backend/src/lib.rs:176-183 | Once a principal holding shares has voted on a decision, any later vote of its on that decision changes nothing, whatever its new weight or choice |
| `Backend.Canister.VoteOnDecision` | src/real_estate_icp_backend/src/lib.rs:156-186 | Adds up the caller's holdings and updates the decisions table in place to `Ledger.Vote` of the old tables. It keeps voter lists free of duplicates |
| `Ledger.VotingResult` | src/real_estate_icp_backend/src/lib.rs:188-203 | `Some(true)` exactly when yes outnumbers no, and `Some(false)` exactly when no outnumbers yes. `None` exactly on a tie or an unknown decision. As a function of the table, it changes nothing |
| `Ledger.FirstVoteDecides` | src/real_estate_icp_backend/src/lib.rs:170-202 | The first vote on a new decision, by a principal holding shares, makes the result that vote |
| `Backend.Canister.constructor` | src/real_estate_icp_backend/src/lib.rs:32-36 | A new canister starts with all three tables empty |

## Left out

- `Ledger.Share`: the source computes the part as `floor(amount as f64 * (shares as f64 / total as f64))`. The model uses the exact integer `amount * shares / total`. Floating-point rounding can make the two differ by one, and values above 2^53 lose precision as f64. Conservation and the bounds proved here do not depend on how the part is rounded, as long as it stays within the holding. When the total is zero, the source divides 0.0 by 0.0, and the NaN becomes 0. The model gives 0 there too.
- `Ledger.RentShares`: uses the same integer floor in place of the f64 arithmetic of lib.rs:148.
- u64 arithmetic: amounts, holdings, tallies and totals are unbounded naturals. Overflow of `+=` (lib.rs:44, 72, 90, 119, 139, 165, 178, 180) is not modelled, neither as wrap-around nor as a trap. The subtractions at lib.rs:66 and 113 are proved never to go below zero.
- `ic_cdk::caller()` is a parameter of each method.
- `ic_cdk::println!` in `distribute_rent` is modelled by returning the parts as a map.
- `Principal` is represented by a string.
- Candid derivation, `export_candid!`, and the `RefCell`/`thread_local!` cells are not modelled. The three cells are the fields of one `Canister` object.
- Hash-map iteration order is not fixed in the model. Every loop takes the keys in an arbitrary order, and each result is proved for every order.
- `http_request_test` (lib.rs:205-211) returns a constant HTML response and touches no table. It is not modelled.
- `Backend.Canister.GetVotingResult` is the class's read-only query. It returns `Ledger.VotingResult` of the decisions table and carries no contract of its own.
- The frontend is not part of this model: `PropertyService.js` wraps remote calls, `RealEstateApp.jsx` is the React view, and `main.jsx` and the `ui/` components are presentation. After a purchase, the view adds the purchased amount to the displayed shares of the property (RealEstateApp.jsx:118-122). The backend instead lowers the shares still for sale by that amount (lib.rs:66). The displayed count therefore drifts from the canister's.
