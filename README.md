# EcoCredit credit ledger, modelled in Dafny

EcoCredit is a carbon-credit platform. Employees log commutes and earn
credits. Their employer can sell the team's pooled credits to other
employers through trading offers. This project models the server's credit
ledger and proves properties of that model:

- the trading routes: create an offer, list available offers, accept an
  offer with greedy settlement, and the company trade history;
- the commute routes: post a commute, the status-transition credit table,
  the server's credit formula, the credit history, and deleting a commute;
- the account routes: the registration guard chain, the login approval
  gate, logging a commute, approving and rejecting registrations, and
  deleting accounts;
- the statistics routes;
- the employee dashboard's carbon calculator;
- the four record schemas with their enumerations, defaults and hooks.

The MongoDB collections are the fields of one `Store.Database` object,
kept as sequences in insertion order. A route that writes to the store is
a method with `modifies`. Its `ensures` ties the new state either to a
specification function of the old state (`OfferDecision`, `AcceptOutcome`,
`RegisterDecision`, `EmployerApproval`, `EmployeeApproval`, `PostDecision`)
or to the writes the route makes. Each such method also keeps the store
invariant `Database.Valid`: every record passes its schema and ids are
distinct. Read-only routes and the schemas are functions.

Balances and amounts are exact `real`s. Timestamps are integers. Fresh
document ids come from one counter, `Database.nextId`. The authenticated
caller `(id, role)` is an input to every route, and so are the results of
bcrypt and of the login lookup.

Where the code does something other than the system's design intends, the
model follows the code. Each such case is a lemma that shows what the code
does:

- **Commute status field.** `server/models/Commute.js` declares no `status`
  path, yet the routes read and write one (`server/routes/commutes.js:73`,
  `116-137`; `server/routes/stats.js`). The model gives the record a status
  of type `Option<CommuteStatus>` and runs the transition table as the
  routes intend.
- **Team query.** Both the team query and the solvency check ignore
  `isApproved`, so employees who were never approved still count toward
  their employer's team (`Accounts.Team`).
- **Negative balances.**
  - Deleting a commute debits its employee with no floor at 0.
  - Rejecting an approved commute later lifts a negative balance to 0
    (`CommuteRoutes.RejectionLiftsDebt`).
  - Approving, moving back to pending and approving again credits the
    commute twice (`CommuteRoutes.ApprovalRepeats`).
- **Accepting one's own offer.** Accepting does not check that the buyer
  is not the seller. If an employer accepts its own offer, its stale buyer
  document overwrites the employer deduction. This creates credits
  (`Settlement.SelfAcceptMints`). The reply still reports the employer's
  balance after its own deduction, which is not what is stored
  (`TradingRoutes.SelfAcceptReply`).
- **The accept reply's team figure.** The reply adds the employees'
  balances as loaded to the employer's new balance. It therefore overstates
  the team by what the employees gave up
  (`TradingRoutes.ReceiptTeamFigure`).
- **Blank usernames.** A username of white space only passes the
  sign-up route's `!username` test. The schema's `trim` setter then makes
  it "", and the save fails (`AuthRoutes.BlankUsernameSaveFails`).
- **The account route's log-commute.** It builds a commute with neither
  `date` nor `carbonSaved`. Schema validation always rejects that record,
  so the route never logs anything (`AuthRoutes.LogCommute`).
- **Car trips from the dashboard.** A dashboard car trip has a saving of 0,
  and the commute route's `!carbonSaved` test rejects it
  (`CarbonCalculator.CarTripsRejected`). So does any trip whose saving
  rounds to 0.00 (`CarbonCalculator.TinyTripsRejected`).
- **Admin sign-up.** It passes the admin gate and is then stored as a
  pending registration. That schema's role enumeration has no `admin`, so
  the save always fails (`AuthRoutes.AdminSignUpNeverSaved`).
- **Employer approval of employees.** The admin approval route refuses
  pending employees, because the `User` schema needs an `employerId` the
  route does not pass (`AuthRoutes.EmployeeNotApprovedByAdmin`).
- **Rejecting an employee registration.** The route checks no
  authorisation (`AuthRoutes.RejectEmployee`).

## Model

| member | source | states |
|---|---|---|
| Basics.MathFloor | server/routes/auth.js:556 | the result is the greatest integer not above x |
| Basics.MathRound | server/routes/commutes.js:199 | `Math.round`: the result is within half of x, and a tie goes up |
| Basics.Filter | server/routes/trading.js:97-101 | keeps exactly the elements satisfying the predicate, drawn from the input |
| Basics.SortDesc | server/routes/trading.js:101 | `sort({createdAt: -1})`: sorted newest first and a permutation of the input |
| Basics.InsertDesc | server/routes/trading.js:101 | inserting into a sorted list keeps it sorted and adds exactly that element |
| Basics.SortFilterMembers | server/routes/trading.js:97-101 | an element is in the sorted filtered list iff it is in the input and satisfies the filter |
| Basics.FilterMultiset | server/routes/stats.js:81 | the filter keeps every occurrence of a selected element and none of the others |
| Basics.FindIndex | server/routes/trading.js:130 | `findById`: the first position holding the key, or None iff no position does |
| Basics.RemoveAt | server/routes/commutes.js:219 | removing a document keeps the others in order |
| Basics.FindIndexUpdate | server/routes/trading.js:214-217 | rewriting a found document under the same id keeps it findable at the same place |
| Basics.FindIndexAppend | server/routes/commutes.js:65-76 | a document saved under a fresh id is found at the end |
| Basics.Fixed2 | client/src/Pages/EmployeeDashboard.jsx:178 | `Number(x.toFixed(2))` on exact reals: within half a hundredth of x and a whole number of hundredths; not negative for a non-negative x; 0 strictly between -0.005 and 0.005, and at least 0.01 from 0.005 up |
| Basics.Fixed2Monotone | client/src/Pages/EmployeeDashboard.jsx:178 | rounding to hundredths never reverses an order |
| Basics.Fixed2Exact | client/src/Pages/EmployeeDashboard.jsx:182 | a whole number of hundredths is its own rounding |
| Basics.TrimStart | server/models/User.js:8 | drops leading white space only: what it drops is white space, and what is left does not start with white space |
| Basics.TrimStartSuffix | server/models/User.js:8 | what TrimStart leaves is a suffix of the input |
| Basics.TrimEnd | server/models/User.js:8 | drops trailing white space only: what it drops is white space, and what is left does not end with white space |
| Basics.TrimEndPrefix | server/models/User.js:8 | what TrimEnd leaves is a prefix of the input |
| Basics.TrimShape | server/models/User.js:8 | `trim` gives "" iff the string is all white space; otherwise the result neither starts nor ends with white space |
| Basics.TrimTrimmed | server/models/User.js:8 | a string that neither starts nor ends with white space is its own trim |
| Basics.TrimIdempotent | server/models/User.js:8 | trimming twice is trimming once |
| Basics.TrimExamples | server/models/User.js:8 | "  ann " trims to "ann", a blank of spaces and a tab to "", and "a b" is kept |
| Basics.LowerAsciiAt | server/models/User.js:15 | the `lowercase` setter on A to Z: each such letter becomes its lower-case letter, every other character is kept, and no A to Z letter is left |
| UserModel.ParseRole | server/models/User.js:21-25 | the role enumeration: exactly admin, employer and employee parse |
| UserModel.RoleNameRoundTrip | server/models/User.js:21-25 | role names and the parser are inverse |
| UserModel.NewUser | server/models/User.js:5-61 | the setters run before validation: the username is trimmed and the email trimmed and lower-cased; saving succeeds iff the role is in the enumeration, username and email are not blank once trimmed, the password is present, an employer has a companyName and an employee has an employerId; carbonCredits defaults to 0, isApproved defaults to true only for admin, and the pre-validate hook clears employerId for other roles |
| UserModel.PreSavePassword | server/models/User.js:64-80 | an unmodified or already bcrypt-form password is kept; any other is replaced by its hash |
| UserModel.PreSaveIdempotent | server/models/User.js:64-80 | once hashed, a password is never hashed a second time |
| PendingModel.ParsePendingRole | server/models/PendingRegistration.js:18-22 | only employer and employee are allowed; admin is not |
| PendingModel.NewPending | server/models/PendingRegistration.js:3-40 | username and email are trimmed before validation; saving succeeds iff the role is allowed, username and email are not blank once trimmed, the password is present, an employer has a companyName and an employee has an employerId; status defaults to pending |
| CommuteModel.ParseMethod | server/models/Commute.js:13-24 | exactly the six transport methods parse |
| CommuteModel.MethodNameRoundTrip | server/models/Commute.js:13-24 | method names and the parser are inverse |
| CommuteModel.ParseCommuteStatus | server/routes/commutes.js:98-100 | exactly pending, approved and rejected parse, each to its own status |
| CommuteModel.NewCommute | server/models/Commute.js:3-45 | saving succeeds iff every required path is present and the method is valid; a number may be 0; the record copies the fields |
| TradingModel.NewTrade | server/models/Trading.js:3-39 | saving succeeds iff employerId, a non-empty companyName and an amount of at least 0 are given; status defaults to available, and acceptorId and acceptedAt start absent |
| Accounts.UserIndex | server/routes/trading.js:31-35 | `User.findById`: the found account has the id, and None iff no account has it |
| Accounts.TeamTotal | server/routes/trading.js:160-166 | `totalTeamCredits`: at most the employer's positive balance plus the team's positive balances, and the employer's own balance when it has no team |
| Accounts.Team | server/routes/trading.js:38-41 | the team query: exactly the positions of accounts with role employee and this employerId, in list order, whatever isApproved says |
| Accounts.PosSumAt | server/routes/trading.js:193-207 | the positive balances of a team sum to at least 0 and at least the plain sum |
| Accounts.SetCredits | server/routes/trading.js:183-211 | one balance write changes that account's balance and nothing else |
| Accounts.TotalSetCredits | server/routes/trading.js:183-211 | a balance write moves the store's total by exactly the change |
| Accounts.TotalConcat | server/routes/auth.js:314-327 | the total of two collections together is the sum of their totals |
| Accounts.AddCredits | server/routes/commutes.js:79-83 | the `$inc`-style update moves the named account's balance by delta, if it exists, and no other |
| Accounts.AddCreditsTotal | server/routes/commutes.js:79-83 | the store's total moves by delta exactly when the account exists |
| Accounts.AddCreditsUndo | server/routes/commutes.js:213-217 | a credit followed by the same debit restores every balance |
| Accounts.TeamSame | server/routes/trading.js:155-158 | balance writes do not change who is on a team |
| Accounts.SumAtInside | server/routes/trading.js:193-207 | writing one team member's balance moves the team sum by the change |
| Accounts.SumAtOutside | server/routes/trading.js:193-207 | writing an account outside the team leaves the team sum unchanged |
| Store.Database.FreshId | server/routes/trading.js:63-70 | issues the next id and changes no collection; validity is kept |
| Store.UsersOkSame | server/models/User.js:5-61 | balance-only changes keep every account valid |
| Settlement.EmployerDrawCases | server/routes/trading.js:182-190 | the employer's share: nothing from a non-positive balance, the whole balance when it does not cover the amount, the amount otherwise; never more than the amount |
| Settlement.EmployerStep | server/routes/trading.js:182-190 | the employer deduction writes only the employer's balance, which becomes its loaded balance less its share |
| Settlement.EmployerStepTotal | server/routes/trading.js:182-190 | the employer deduction lowers the store's total by the employer's share |
| Settlement.DrawsFrame | server/routes/trading.js:179-207 | AfterDraws, the store before the buyer is credited: the employer ends at its balance less its share, only the employer and the team move, and no account is overdrawn |
| Settlement.Settle | server/routes/trading.js:179-211 | the settled store keeps every account and credits the buyer with its loaded balance plus the amount |
| Settlement.SettleFrame | server/routes/trading.js:179-211 | with buyer and seller side apart: balances only are written, the buyer by exactly the amount, and no account outside the buyer and the seller side changes |
| Settlement.SettleSeller | server/routes/trading.js:182-190 | with buyer and seller side apart, the stored seller balance is its loaded balance less its share |
| Settlement.DrawEmployees | server/routes/trading.js:193-207 | the employee loop as a function of the loaded documents; it keeps the collection's length |
| Settlement.DrawEmployeesFrame | server/routes/trading.js:193-207 | the loop writes only team positions; each one it touches ends between 0 and its old positive balance |
| Settlement.DrawEmployeesSum | server/routes/trading.js:193-207 | the loop takes min(what is owed, the team's positive balances) from the team |
| Settlement.DrawEmployeesTotal | server/routes/trading.js:193-207 | the store's total falls by exactly what the loop took |
| Settlement.DrawEmployeesGreedy | server/routes/trading.js:193-207 | an employee is drawn on only after every earlier positive balance was emptied |
| Settlement.SettleConserves | server/routes/trading.js:169-211 | with buyer outside the seller's team and solvency passed: the buyer gains exactly the amount, the seller team total falls by exactly the amount, the store's total is unchanged, and no other account changes |
| Settlement.SettleTotal | server/routes/trading.js:169-211 | with solvency passed and buyer separate, the store's total is unchanged |
| Settlement.SettleNeverOverdraws | server/routes/trading.js:179-207 | no seller-side account is pushed below 0 or below what it loaded with minus its draw; non-positive balances are untouched |
| Settlement.SettleDrawsInOrder | server/routes/trading.js:179-207 | the employer is emptied before any employee is drawn, and employees are drawn in list order |
| Settlement.SelfAcceptTeam | server/routes/trading.js:148-211 | when buyer and seller are one account it ends with its old balance plus the amount while its team still pays the remainder |
| Settlement.SelfAcceptMints | server/routes/trading.js:148-211 | when buyer and seller are one account the store's total grows by the employer's own share |
| Settlement.SelfAcceptExample | server/routes/trading.js:148-211 | an employer with 10 credits accepting its own offer of 5 ends with 15 |
| Settlement.SettleExample | server/routes/trading.js:179-211 | employer 10 and employees 5 and 3, offer of 15: 0, 0 and 3 remain, and the buyer gains 15 |
| TradingRoutes.TradeIndex | server/routes/trading.js:130-136 | `Trading.findById`: the found offer has the id, None iff none does |
| TradingRoutes.OfferDecision | server/routes/trading.js:9-91 | each outcome iff its condition in route order: a missing or non-positive amount; a non-employer caller; a missing employer; a team total below the amount, reported with the employer, employee and available credits and the amount requested; a failed save iff the employer has no companyName; otherwise the offer is available, for that amount, under the seller's company name |
| TradingRoutes.CreateOffer | server/routes/trading.js:9-91 | the route's outcome is OfferDecision; a success adds only that offer, and no balance changes either way |
| TradingRoutes.AvailableOffers | server/routes/trading.js:94-111 | exactly the available offers of other employers, newest first |
| TradingRoutes.PlanAccept | server/routes/trading.js:114-176 | each refusal iff its condition in route order: a non-employer; a missing or non-available offer; a missing seller; a missing buyer; a seller team total below the amount, reported as that total and the amount; and Ok iff every check passes, locating offer, seller and buyer |
| TradingRoutes.AcceptedTrade | server/routes/trading.js:214-217 | the offer becomes accepted by the buyer at now, with amount and seller kept, and stays within its lifecycle |
| TradingRoutes.DrawTeam | server/routes/trading.js:193-207 | the in-place employee loop leaves the balances DrawEmployees computes |
| TradingRoutes.SettleAccounts | server/routes/trading.js:179-211 | the balance writes of an accept leave exactly Settle's balances; the seller document ends at its balance less its share, and the buyer document at its loaded balance plus the amount |
| TradingRoutes.AcceptOutcome | server/routes/trading.js:114-231 | a refused plan gives its error; otherwise the accounts are Settle's, only the offer changes and it is accepted by the caller at now, the reply's seller figure is the seller document's balance after its own share, its team figure adds the employees' loaded balances, and its buyer figure is the stored buyer balance |
| TradingRoutes.AcceptOutcomeOk | server/routes/trading.js:179-230 | the writes of SettleOffer, and the reply read from the seller and buyer documents, are AcceptOutcome's state and reply |
| TradingRoutes.Accept | server/routes/trading.js:114-240 | on a refused plan nothing changes; otherwise balances and offers become AcceptOutcome's, and the store stays valid |
| TradingRoutes.SettleOffer | server/routes/trading.js:179-230 | once the checks pass, the writes yield AcceptOutcome's state, and the reply is read from the in-memory seller and buyer documents |
| TradingRoutes.AcceptKeepsValid | server/routes/trading.js:179-217 | settling and marking the offer accepted keep every record valid |
| TradingRoutes.SecondAcceptFails | server/routes/trading.js:130-136 | after a successful accept, accepting the same offer again fails |
| TradingRoutes.AcceptedNotAvailable | server/routes/trading.js:97-101 | an accepted offer is in no caller's available list |
| TradingRoutes.AcceptConserves | server/routes/trading.js:169-230 | a successful accept moves exactly the amount from the seller's team to the buyer and keeps the store's total |
| TradingRoutes.ReceiptTeamFigure | server/routes/trading.js:220-230 | with buyer and seller side apart, the reply's team figure exceeds the real team total by exactly what the employees paid |
| TradingRoutes.ReceiptMatchesStore | server/routes/trading.js:220-230 | with buyer and seller side apart, the reply's seller and buyer balances are the stored ones |
| TradingRoutes.SelfAcceptReply | server/routes/trading.js:138-230 | when an employer accepts its own offer, the reply shows its balance less its share while the store holds its balance plus the amount, which the buyer figure shows; for a positive amount the reply's seller figure is below the stored balance |
| TradingRoutes.SelfAcceptReplyExample | server/routes/trading.js:138-230 | an employer with 10 credits and no team accepting its own offer of 5: the reply says 5, 5 and 15, and 15 is stored |
| TradingRoutes.InvolvedTrades | server/routes/trading.js:298-303 | the offers the employer sold or bought, each as often as it is stored and no other, newest first |
| TradingRoutes.AcceptorCompany | server/routes/trading.js:329-348 | the partner is "Pending" or the company of the account that accepted |
| TradingRoutes.Entry | server/routes/trading.js:329-348 | a sale always has a line; a purchase has one iff its seller exists |
| TradingRoutes.CompanyHistory | server/routes/trading.js:275-359 | only the employer itself may view it; a missing employer is refused; the route fails iff an offer the employer bought was sold by an account that no longer exists, and succeeds otherwise; the total is employer plus employees; one line per involved offer |
| TradingRoutes.EntriesFail | server/routes/trading.js:298-347 | mapping the listed offers fails iff an offer the employer bought was sold by an account that no longer exists, whose populated seller is then null |
| TradingRoutes.HistoryClassifies | server/routes/trading.js:329-348 | a line is out iff the employer sold it; in lines were bought by it; an unaccepted sale names "Pending" |
| CommuteRoutes.CommuteIndex | server/routes/commutes.js:102-110 | `Commute.findById`: the found commute has the id, None iff none does |
| CommuteRoutes.PostDecision | server/routes/commutes.js:26-76 | refused iff a field is missing or falsy (carbonSaved 0 included); an unknown method is refused; otherwise a valid pending commute copying the request |
| CommuteRoutes.PostCommute | server/routes/commutes.js:26-90 | the outcome is PostDecision; a success appends the commute and credits carbonSaved to the employee if that account exists; a refusal changes nothing |
| CommuteRoutes.CreditEmployee | server/routes/commutes.js:79-83 | the employee's balance moves by delta if the account exists |
| CommuteRoutes.PostKeepsValid | server/routes/commutes.js:65-83 | saving and crediting keep the store valid |
| CommuteRoutes.Multiplier | server/routes/commutes.js:189-198 | every multiplier is positive; an unknown method counts 1 |
| CommuteRoutes.CalculateCredits | server/routes/commutes.js:187-200 | the result rounds distance × 0.1 × multiplier as `Math.round` does, and is non-negative for non-negative distance |
| CommuteRoutes.CalculateCreditsMonotone | server/routes/commutes.js:187-200 | a longer commute never earns fewer credits |
| CommuteRoutes.CalculateCreditsExamples | server/routes/commutes.js:187-200 | 25 km walking earns 8, 5 km carpool 1, an unknown method 3 for 25 km, and -25 km rounds to -2 |
| CommuteRoutes.TransitionBalance | server/routes/commutes.js:113-134 | only approval from pending or rejected raises a balance, by the credits; only rejection of an approved commute lowers it; a non-negative balance stays non-negative |
| CommuteRoutes.RejectionLiftsDebt | server/routes/commutes.js:116-122 | rejecting an approved commute lifts a negative balance to 0 |
| CommuteRoutes.TransitionSameStatus | server/routes/commutes.js:116-134 | setting the current status again changes no balance |
| CommuteRoutes.ApproveThenReject | server/routes/commutes.js:116-134 | approving then rejecting restores a non-negative balance |
| CommuteRoutes.RejectThenReapprove | server/routes/commutes.js:116-134 | rejecting then re-approving leaves max(balance, credits) |
| CommuteRoutes.ApprovalRepeats | server/routes/commutes.js:116-134 | approve, back to pending, approve again credits the commute twice |
| CommuteRoutes.SetCommuteStatus | server/routes/commutes.js:93-148 | an unknown status, a missing commute or a missing employee is refused with nothing changed, and the route succeeds iff none of these holds; then the employee's balance becomes the transition's, the commute takes the new status, and the reply carries both |
| CommuteRoutes.ApplyTransition | server/routes/commutes.js:113-137 | the writes once commute and employee are found: credits, new balance and new status |
| CommuteRoutes.StatusKeepsValid | server/routes/commutes.js:135-137 | a balance write and a status write keep the store valid |
| CommuteRoutes.ReplaceFirst | server/routes/commutes.js:174 | only the first occurrence of the character is replaced |
| CommuteRoutes.ReplaceFirstAt | server/routes/commutes.js:174 | at the first occurrence the string is split and the replacement inserted |
| CommuteRoutes.Line | server/routes/commutes.js:171-177 | an entry copies date, distance and status, its credits are floor(carbonSaved × 10), and its method name keeps its length |
| CommuteRoutes.Lines | server/routes/commutes.js:171-177 | one entry per commute, in order |
| CommuteRoutes.CreditHistory | server/routes/commutes.js:151-184 | newest first, one entry per selected commute: as many entries as selected commutes and the same entries as often each; every entry comes from a selected commute, and every selected commute has its entry |
| CommuteRoutes.HistorySound | server/routes/commutes.js:156-177 | every entry comes from a commute of that employee within the window |
| CommuteRoutes.HistoryComplete | server/routes/commutes.js:156-177 | every commute of that employee within the window has its entry |
| CommuteRoutes.LinesMultiset | server/routes/commutes.js:167-177 | reordering the commutes reorders their entries: the same entries, as often each |
| CommuteRoutes.LinesDropOne | server/routes/commutes.js:171-177 | removing one commute removes exactly its entry |
| CommuteRoutes.DeleteCommute | server/routes/commutes.js:203-225 | a missing commute is refused with nothing changed; otherwise the employee is debited carbonSaved with no floor, and the commute is removed |
| CommuteRoutes.RemoveCommute | server/routes/commutes.js:213-219 | the debit and the removal, keeping the store valid |
| CommuteRoutes.DeleteKeepsValid | server/routes/commutes.js:213-219 | debiting and removing keep the store valid |
| CommuteRoutes.PostThenDeleteRestores | server/routes/commutes.js:26-90 | deleting a commute right after posting it restores both the commute list and every balance |
| AuthRoutes.EmailPatternExamples | server/routes/auth.js:30-35 | the pattern accepts ann@acme.io and a@b.c.d and rejects addresses missing a part, with two @ or with a space |
| AuthRoutes.EmailPattern | server/routes/auth.js:30-35 | a matching address has at least five characters, contains an @, and neither starts nor ends with white space |
| AuthRoutes.PendingData | server/routes/auth.js:100-108 | the pending record copies username, email and role, carries the hash and status pending, and has companyName only for an employer and employerId only for an employee |
| AuthRoutes.AdminGate | server/routes/auth.js:62-82 | passes iff the header carries a valid token of an existing admin; otherwise the matching error |
| AuthRoutes.RegisterDecision | server/routes/auth.js:18-150 | the guards in route order: missing fields, email pattern or short password, an address taken once normalised as the email path's setters do, then the rest; a success is a pending, valid registration with the trimmed username, the email and role as given, and the hashed password |
| AuthRoutes.RegisterAccepts | server/routes/auth.js:18-150 | a well-formed employer or employee request for an unclaimed email, with its role's field, is accepted |
| AuthRoutes.BlankUsernameSaveFails | server/routes/auth.js:24-112 | a username of white space only passes the route's `!username` test, and the trimmed record then fails the save |
| AuthRoutes.BlankUsernameExample | server/routes/auth.js:24-112 | an employer signing up with username "   " gets the save error |
| AuthRoutes.AdminSignUpNeverSaved | server/routes/auth.js:57-111 | an admin sign-up is never stored |
| AuthRoutes.AdminSignUpGate | server/routes/auth.js:62-82 | an admin sign-up reaches the admin gate and fails with its error or at the save |
| AuthRoutes.Register | server/routes/auth.js:18-150 | the outcome is RegisterDecision; a success appends the pending record and nothing else changes |
| AuthRoutes.RegisterTwiceRefused | server/routes/auth.js:49-54 | the same request after a success is refused as already pending |
| AuthRoutes.Login | server/routes/auth.js:152-205 | a token for the account iff both fields are given, the account exists, the password matches and the account is approved or admin; otherwise invalid credentials or pending approval |
| AuthRoutes.DefaultAccountsWait | server/routes/auth.js:175-177 | an account saved with the default isApproved logs in iff it is admin |
| AuthRoutes.LogCredits | server/routes/auth.js:556 | floor(carbonSaved / 5): positive iff carbonSaved is at least 5 |
| AuthRoutes.CreditOnLog | server/routes/auth.js:557-561 | no balance falls, and the total grows by the credits only when positive and the account exists |
| AuthRoutes.LogCommute | server/routes/auth.js:538-572 | always refused: missing fields iff a field is missing, otherwise the save fails |
| AuthRoutes.LogCreditsExamples | server/routes/auth.js:556-561 | 4.99 earns 0, 5 earns 1, 14.5 earns 2, and -0.5 rounds down to -1, which leaves every balance as it was |
| AuthRoutes.PendingIndex | server/routes/auth.js:293-301 | the found registration has the id, None iff none does |
| AuthRoutes.EmployerApproval | server/routes/auth.js:270-342 | no approver or a non-admin caller is refused; on success an approved account with 0 credits copying the registration, its username trimmed and its email normalised, for an unclaimed email |
| AuthRoutes.EmployerApprovalAccepts | server/routes/auth.js:270-342 | an admin approving an employer registration for an unclaimed email succeeds |
| AuthRoutes.EmployeeNotApprovedByAdmin | server/routes/auth.js:314-327 | the admin route cannot approve an employee registration |
| AuthRoutes.EmployeeApproval | server/routes/auth.js:710-780 | refused unless the caller is an employer and the approver; a registration for another employer is refused; on success an approved employee account in the caller's team, its username trimmed and its email normalised |
| AuthRoutes.EmployeeApprovalAccepts | server/routes/auth.js:710-780 | the registration's own employer approving it succeeds |
| AuthRoutes.ApprovedCanLogin | server/routes/auth.js:175-183 | an approved account logs in with the right password |
| AuthRoutes.Admit | server/routes/auth.js:327-342 | adds the account, removes the registration, keeps the store valid |
| AuthRoutes.AdmitKeepsValid | server/routes/auth.js:327-342 | adding the new account and removing the registration keep the store valid |
| AuthRoutes.AdmitMintsNothing | server/routes/auth.js:314-327 | an approval adds no credits to the store's total |
| AuthRoutes.RemovedNotFound | server/routes/auth.js:333-342 | once removed, the registration is not found again |
| AuthRoutes.ApproveRegistration | server/routes/auth.js:270-380 | the outcome is EmployerApproval; a success adds the account and removes the registration; a refusal changes nothing |
| AuthRoutes.ApproveEmployee | server/routes/auth.js:710-817 | the outcome is EmployeeApproval; a success adds the account and removes the registration |
| AuthRoutes.Discard | server/routes/auth.js:417-426 | removes one registration, which is then not found |
| AuthRoutes.RejectRegistration | server/routes/auth.js:394-450 | no rejecter or a non-admin caller is refused; a success removes exactly the named registration; a refusal changes nothing |
| AuthRoutes.RejectEmployee | server/routes/auth.js:821-846 | any caller removes a registration that exists; otherwise not found and nothing changes |
| AuthRoutes.DeleteScope | server/routes/auth.js:1071-1078 | the delete check MayDelete: a non-admin may delete exactly its own employees |
| AuthRoutes.RemoveAtTotal | server/routes/auth.js:1083 | deleting an account removes its balance from the store's total |
| AuthRoutes.DeleteAccount | server/routes/auth.js:1055-1105 | a missing account is refused; it is deleted iff the caller is an admin or its employer; a refusal changes nothing |
| AuthRoutes.RemoveUserKeepsValid | server/routes/auth.js:636-650 | deleting an account keeps the accounts valid, and the id is gone |
| StatsRoutes.Groups | server/routes/stats.js:9-17 | a group for each role that has accounts and for no other, no role grouped twice, each with that role's count and balance sum |
| StatsRoutes.SystemFigures | server/routes/stats.js:7-32 | totalUsers counts every account, totalCredits sums every balance, the employer and employee counts are their roles' counts, and transactions count approved commutes |
| StatsRoutes.RolesPartition | server/routes/stats.js:19-25 | the role counts add up to the accounts and the role sums add up to the total |
| StatsRoutes.GroupSums | server/routes/stats.js:19-25 | the groups' counts and sums add up to the role counts and sums |
| StatsRoutes.GroupFinds | server/routes/stats.js:20-22 | reading the employer and employee group gives their counts, 0 when absent |
| StatsRoutes.NoCreditsWithoutAccounts | server/routes/stats.js:9-17 | a role with no accounts has no balances |
| StatsRoutes.EmployerFigures | server/routes/stats.js:35-73 | the team's count and balances, excluding the employer, and the team's approved commutes |
| StatsRoutes.ApprovedOf | server/routes/stats.js:44-47 | the query returns only approved commutes of the listed employees, and no more than the store holds |
| StatsRoutes.ApprovedOfMultiset | server/routes/stats.js:44-47 | the query returns every approved commute of the listed employees, as often as it is stored, and nothing else |
| StatsRoutes.EmployerStatsTeamOnly | server/routes/stats.js:40-55 | a balance outside the team does not change the employer's figures |
| StatsRoutes.EmployerMonthly | server/routes/stats.js:58-61 | the monthly figure is the approved team commutes' saving minus the part dated outside the current month |
| StatsRoutes.InMonth | server/routes/stats.js:59-60 | the filter keeps only commutes of the current month |
| StatsRoutes.InMonthMultiset | server/routes/stats.js:59-60 | the filter keeps every commute of the current month, as often as it occurs, and nothing else |
| StatsRoutes.MonthPartition | server/routes/stats.js:58-61 | the current month and the other months partition the commutes and their savings |
| StatsRoutes.EmployeeFigures | server/routes/stats.js:76-110 | the figures range only over the employee's approved commutes |
| StatsRoutes.EmployeeStatsIgnore | server/routes/stats.js:81-92 | a commute not approved or of another employee changes nothing |
| StatsRoutes.EmployeeStatsCount | server/routes/stats.js:81-92 | an approved commute of the employee adds one commute, its distance and its saving |
| StatsRoutes.EmployeeMonthly | server/routes/stats.js:95-98 | the monthly figure is the total saving minus the part dated outside the current month |
| CarbonCalculator.Factor | client/src/Pages/EmployeeDashboard.jsx:34-41 | every factor is between 0 and the car's; only car has the car's factor and only walking has 0 |
| CarbonCalculator.CarbonSaved | client/src/Pages/EmployeeDashboard.jsx:175-179 | the saving is within half a hundredth of the car's factor minus the method's, times the distance, and is a whole number of hundredths |
| CarbonCalculator.CarbonSavedExtremes | client/src/Pages/EmployeeDashboard.jsx:175-179 | driving saves nothing; walking saves the whole car emission |
| CarbonCalculator.CarbonSavedSign | client/src/Pages/EmployeeDashboard.jsx:34-41 | no trip of non-negative length saves a negative amount; a trip saves a positive amount iff its exact saving reaches half a hundredth |
| CarbonCalculator.CarbonSavedMonotone | client/src/Pages/EmployeeDashboard.jsx:175-179 | a longer trip saves at least as much |
| CarbonCalculator.ClientCredits | client/src/Pages/EmployeeDashboard.jsx:181-183 | 0 for a non-positive saving; otherwise the saving rounded to hundredths |
| CarbonCalculator.ClientCreditsOfSaving | client/src/Pages/EmployeeDashboard.jsx:175-183 | the credits shown for a trip are exactly its saving |
| CarbonCalculator.ShortBikeTripSavesNothing | client/src/Pages/EmployeeDashboard.jsx:175-179 | a 0.2 km bike trip saves 0.004 exactly, which rounds to 0 |
| CarbonCalculator.DashboardRequest | client/src/Pages/EmployeeDashboard.jsx:185-206 | the posted body carries the computed saving, the method and the distance |
| CarbonCalculator.CarTripsRejected | client/src/Pages/EmployeeDashboard.jsx:185-206 | the commute route refuses every dashboard car trip |
| CarbonCalculator.OtherTripsAccepted | client/src/Pages/EmployeeDashboard.jsx:185-206 | any other trip whose exact saving reaches half a hundredth, with both locations, is stored with its rounded saving, which is at least 0.01 |
| CarbonCalculator.TinyTripsRejected | client/src/Pages/EmployeeDashboard.jsx:175-206 | a trip whose exact saving is below half a hundredth rounds to 0 and is refused, whatever the method |

## Left out

- Notifications: creating them, and the `Notification` schema, are side effects on the ledger.
- bcrypt: hashing and comparison are inputs (`hashed`, `passwordMatches`).
- JWT: signing and verifying tokens are inputs (`AdminAuth`, the caller).
- The login lookup (`User.findOne` by email) is an input (`found`).
- Sessions and transactions: every route is one indivisible step. There is no concurrency between requests.
- AuthRoutes.DeleteAccount: removes only the account. The delete routes' cascades (server/routes/auth.js:637-647, 1083-1094) also delete the account's notifications, commutes and offers. Notifications are not modelled. The commute cascade filters on a `userId` path that the commute schema does not declare, so what it removes depends on Mongoose's query options.
- Routes outside the ledger: the GET lists of commutes, users and pending registrations, `/trading/all`, admin seeding, credential verification, `/employers/:id/approve` and `/employers/:id/reject`, and delete-all-employees.
- The `/available` route in `server/routes/auth.js`: it refers to an undefined identifier and can only fail.
- The request format: ObjectId format checks, numbers sent as strings, and prototype keys looked up in the multiplier table. Ids are numbers and amounts are exact reals.
- UserModel.NewUser: the `lowercase` setter is modelled on the letters A to Z only. JavaScript's `toLowerCase` also maps other letters.
- Dates: they are integers. The month of a date is a function parameter (`month`), not `getMonth`.
- Floating point: balances, amounts and savings are exact reals. `toFixed(2)` is exact rounding to hundredths (`Basics.Fixed2`); the error of binary floating point is not modelled. String lengths count characters, not UTF-16 code units.
- CarbonCalculator.OtherTripsAccepted: holds for exact reals. A float saving that lies next to 0.005 may round the other way.
- The order of the aggregation groups: `StatsRoutes.Groups` fixes admin, employer, employee.
- The unique email index: it is checked only where a route relies on it (the save in approve-employee). It is not part of the store invariant.
- AuthRoutes.EmployerApproval: the pre-save hook is not applied; the approved account stores the pending password as is.
- AuthRoutes.EmployeeApproval: likewise, the pre-save hook is not applied and the account stores the pending password as is.
- A missing balance: the schema default makes every balance present, so the `|| 0` fallbacks and the aggregation's treatment of a missing balance are not modelled separately.
- React rendering, fetch, local storage and the client dashboards other than the carbon calculator are not part of this model.
- server/middleware/auth.js is not part of this model; its result is the caller input.
