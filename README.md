# Payment gateway ledger, in Dafny

This project models the core of a small payment gateway. Users hold a balance. A user (the originator) charges another registered user (the recipient) by CPF. The charge is then paid from the payer's balance or by card, or it is cancelled. A cancellation refunds a balance payment. Deposits by card credit a user's balance. Everything is recorded in three tables: users, charges, transactions.

The model has three layers:

- `Ledger` (`ledger.dfy`) holds the tables as one value `Db`, and each function of `app/crud/crud.py` as a function from the store before to a `Step`. A `Step` pairs the result with the store after. A raise is an `Err`, and it leaves the store as it was. `LedgerFacts` (`ledger_facts.dfy`) proves what those functions do:
  - the refusals, in the order the code checks them;
  - where the money moves, and that the total balance is conserved;
  - that a second payment is refused;
  - that paying and then cancelling restores every balance;
  - the invariants every route keeps.
- `Crud.Store` (`store.dfy`) is the database session: a class whose three table fields each method updates in place. Each method's contract is the matching `Ledger` function on the old state, so every fact in `LedgerFacts` carries over.
- `Routers` (`routers.dfy`) holds the HTTP routes of `app/routers/`: request validation, the access rules checked before the crud call, and the login lookup. Every route keeps the store `Consistent`.

Two more modules sit beside these:

- `Schemas` (`schemas.dfy`) holds the CPF normaliser and check-digit validator of `app/schemas/schemas.py` and the field validators built on them. It proves that the validator is exactly the published Receita Federal check-digit rule.
- `Types` (`types.dfy`) holds the records and status vocabularies.

Three behaviours of the code worth knowing:

- `create_charge` in the crud layer does not check the value. Only the `POST /charges/` route refuses a value of 0 or less.
- A charge's recipient is the user who is credited, and the recipient may not pay it: `POST /payments/by-balance` refuses that with `SelfPayment`.
- The user tests register the CPFs `12345678900` and `11111111111` and expect success. The validator refuses both, as `CpfFixture12345678900` and `CpfFixture11111111111` show.

Conventions:

- Money is an integer number of cents.
- Ids are assigned in insertion order from 1. Rows are never deleted, so row i has id i + 1 (`IdsArePositions`).
- A lookup is "the first row that matches" (`FirstIndex`), as `.first()` returns it, with no uniqueness assumed.

## Model

| member | source | states |
|---|---|---|
| Types.StatusName | app/models/models.py:26 | each charge status is stored under a non-empty name |
| Types.StatusNameInjective | app/models/models.py:26 | no two charge statuses share a stored name, so the status filter picks out one status |
| Types.HttpStatus | app/crud/crud.py:76-188 | validation failures answer 422 and lookups that find nothing 404; bad credentials answer 401 and a non-originator 403; the unhandled attribute error, the store's unique-constraint error and the float-plus-decimal type error answer 500; every code lies between 400 and 500; the routes use it to state that a consistent store never answers 500 |
| Schemas.DigitValue | app/schemas/schemas.py:15 | `int(x)` of an ASCII digit is a value from 0 to 9 |
| Schemas.OnlyDigits | app/schemas/schemas.py:8-9 | the result holds only digits and is no longer than the input |
| Schemas.OnlyDigitsOfDigits | app/schemas/schemas.py:8-9 | a string of digits is its own normal form |
| Schemas.OnlyDigitsIdempotent | app/schemas/schemas.py:8-9 | normalising twice is normalising once |
| Schemas.OnlyDigitsConcat | app/schemas/schemas.py:8-9 | normalising a concatenation concatenates the normal forms, so digit order is kept |
| Schemas.OnlyDigitsIgnoresSeparator | app/schemas/schemas.py:8-9 | a non-digit anywhere in the input does not change the normal form |
| Schemas.OnlyDigitsKeepsEveryDigit | app/schemas/schemas.py:8-9 | every digit of the input survives, as often as it occurs |
| Schemas.CheckDigit | app/schemas/schemas.py:14-17 | the inner check digit is a single digit |
| Schemas.WeightedSum | app/schemas/schemas.py:15 | the `zip` sum of digits against falling weights is zero exactly when every digit is 0; `FirstPrefixSum` and `SecondPrefixSum` give its explicit form |
| Schemas.AllSame | app/schemas/schemas.py:12 | `len(set(digits)) == 1`: the string is not empty and any two of its characters are equal |
| Schemas.ValidateCpf | app/schemas/schemas.py:11-18 | `_validate_cpf` accepts only 11-digit strings that are not one repeated digit, rejecting the others before any check digit is computed |
| Schemas.CheckDigitRule | app/schemas/schemas.py:16-17 | "ten times the sum modulo 11, with 10 read as 0" equals the published "remainder below 2 gives 0, else 11 minus the remainder" |
| Schemas.FirstPrefixSum | app/schemas/schemas.py:15 | the zip of the first nine digits with weights 10 down to 2 is the published first sum |
| Schemas.SecondPrefixSum | app/schemas/schemas.py:15 | the zip of the first ten digits with weights 11 down to 2 is the published second sum |
| Schemas.ValidateCpfIsReceitaCheck | app/schemas/schemas.py:11-18 | `_validate_cpf` accepts exactly the 11-digit strings that are not one repeated digit and whose last two digits are the Receita Federal check digits |
| Schemas.CpfFixture12345678909 | app/tests/test_charges.py:36 | the CPF registered by the charge tests is valid |
| Schemas.CpfFixture39053344705 | app/tests/test_charges.py:35 | the other CPF registered by the charge tests is valid |
| Schemas.CpfFixture98765432100 | app/tests/test_transactions.py:37 | the recipient CPF of the transaction tests is valid |
| Schemas.CpfFixture11111111111 | app/tests/test_users.py:56 | the login test's CPF, one digit repeated, is rejected |
| Schemas.CpfFixture12345678900 | app/tests/test_users.py:39 | the registration test's CPF has a wrong last check digit and is rejected |
| Schemas.NormalizeAndCheckCpf | app/schemas/schemas.py:27-33 | a field validator succeeds exactly when the digits-only form passes the check; it then returns that 11-digit form, and otherwise its own error |
| Schemas.UserCreateCpf | app/schemas/schemas.py:27-33 | the `UserCreate.cpf` validator succeeds exactly when the digits-only form is a valid CPF, returns that form, and otherwise refuses with the invalid-CPF error |
| Schemas.ChargeRecipientCpf | app/schemas/schemas.py:51-57 | the `ChargeBase.recipient_cpf` validator succeeds exactly when the digits-only form is a valid CPF, returns that form, and otherwise refuses with the invalid-recipient error |
| Schemas.NormalFormIsStable | app/schemas/schemas.py:51-57 | a validated CPF is all digits and validates again to itself |
| Schemas.UserLoginCpf | app/schemas/schemas.py:109-117 | an absent CPF passes untouched; a present one passes exactly when registration would accept it, and comes back normalised |
| Schemas.ValidateUserLogin | app/schemas/schemas.py:119-123 | a login form is accepted exactly when its CPF validates and it carries a CPF or a non-empty email; an accepted CPF is a valid one |
| Ledger.FirstIndex | app/crud/crud.py:17 | `.first()` returns a matching row, in range |
| Ledger.FirstIndexFinds | app/crud/crud.py:17 | no row before the one found matches, and nothing is found only when no row matches |
| Ledger.Where | app/crud/crud.py:60-64 | `.all()` returns a row exactly when the table holds it and it passes the filter, and never more rows than the table has |
| Ledger.WhereCounts | app/crud/crud.py:60-64 | each row passing the filter comes back as often as the table holds it; no other row comes back |
| Ledger.WhereConcat | app/crud/crud.py:60-64 | filtering a table split in two is filtering each part, in order, so matches come back in table order |
| Ledger.UserIndex | app/crud/crud.py:83 | the row found has the id asked for |
| Ledger.ChargeIndex | app/crud/crud.py:76 | the row found has the id asked for |
| Ledger.SettlingIndex | app/crud/crud.py:166-169 | the row found is an approved transaction against the charge |
| Ledger.UserIndexFinds | app/crud/crud.py:83-85 | no user is found only when no row has the id |
| Ledger.ChargeIndexFinds | app/crud/crud.py:76-78 | no charge is found only when no row has the id |
| Ledger.SettlingIndexFinds | app/crud/crud.py:166-169 | the transaction found is the first approved one against the charge, and none is found only when there is none |
| Ledger.GetUserById | app/crud/crud.py:16-17 | a user with that id is returned, and none exactly when no user has it |
| Ledger.GetUserByEmail | app/crud/crud.py:22-23 | the first user with that email is returned, and none exactly when no user has it |
| Ledger.GetUserByCpf | app/crud/crud.py:25-26 | the first user with that CPF is returned, and none exactly when no user has it |
| Ledger.GetChargeById | app/crud/crud.py:151-152 | a charge with that id is returned, and none exactly when no charge has it |
| Ledger.ChargesSentByUser | app/crud/crud.py:60-64 | exactly the charges the user originated, filtered by status only when a non-empty status is given |
| Ledger.ChargesReceivedByUser | app/crud/crud.py:66-70 | exactly the charges addressed to the user, filtered by status only when a non-empty status is given |
| Ledger.CreateUser | app/crud/crud.py:28-39 | a refused insert leaves the store as it was |
| Ledger.CreateCharge | app/crud/crud.py:44-58 | a refusal leaves the store as it was |
| Ledger.PayByBalance | app/crud/crud.py:75-109 | a refusal leaves the store as it was |
| Ledger.Transfer | app/crud/crud.py:90-102 | a missing recipient row leaves the store as it was |
| Ledger.DepositByCard | app/crud/crud.py:111-127 | a refusal leaves the store as it was |
| Ledger.PayByCard | app/crud/crud.py:129-146 | a refusal leaves the store as it was |
| Ledger.CancelCharge | app/crud/crud.py:154-188 | a refusal leaves the store as it was |
| Ledger.RefundBalancePayment | app/crud/crud.py:165-186 | a refusal leaves the store as it was |
| LedgerFacts.UserAt | app/crud/crud.py:83 | with ids as positions, the user with id n is at position n - 1, and an id outside 1..n finds nothing |
| LedgerFacts.ChargeAt | app/crud/crud.py:76 | with ids as positions, the charge with id n is at position n - 1, and an id outside 1..n finds nothing |
| LedgerFacts.CreditKeepsIds | app/crud/crud.py:116 | changing one balance keeps the table's length and every id |
| LedgerFacts.PrefixBalanceCredit | app/crud/crud.py:116 | adding to one balance adds the same amount to every prefix sum that includes it |
| LedgerFacts.TotalBalanceCredit | app/crud/crud.py:116 | adding to one balance adds the same amount to the total |
| LedgerFacts.MoveFacts | app/crud/crud.py:92-93 | the debit and credit land on payer and recipient, no one else changes, and payer = recipient changes nothing |
| LedgerFacts.MoveConservesTotal | app/crud/crud.py:92-93 | moving a value between users keeps the sum of all balances |
| LedgerFacts.MoveUndone | app/crud/crud.py:176-177 | the refund's moves undo the payment's moves exactly |
| LedgerFacts.CreateUserKeepsValid | app/models/models.py:11-12 | registration keeps ids positional and CPFs and emails unique |
| LedgerFacts.MoveChangesOnlyBalances | app/crud/crud.py:92-93 | a transfer changes balances and nothing else about any user |
| LedgerFacts.BalanceChangeKeepsValid | app/crud/crud.py:92-93 | changing only balances keeps the store valid |
| LedgerFacts.StatusChangeKeepsValid | app/crud/crud.py:94 | changing a charge's status keeps the store valid |
| LedgerFacts.AppendTransactionKeepsValid | app/crud/crud.py:96-103 | logging a transaction under the next id keeps the store valid |
| LedgerFacts.PayByBalanceKeepsIds | app/crud/crud.py:75-109 | a balance payment keeps ids positional |
| LedgerFacts.PayByBalanceKeepsValid | app/crud/crud.py:75-109 | a balance payment keeps the store valid |
| LedgerFacts.PaymentWritesKeepValid | app/crud/crud.py:92-103 | the three writes of a balance payment keep the store valid |
| LedgerFacts.CancelChargeKeepsIds | app/crud/crud.py:154-188 | a cancellation keeps ids positional |
| LedgerFacts.CancelChargeKeepsValid | app/crud/crud.py:154-188 | a cancellation keeps the store valid |
| LedgerFacts.RefundKeepsValid | app/crud/crud.py:165-184 | a completed refund keeps the store valid |
| LedgerFacts.RefundWritesKeepValid | app/crud/crud.py:176-178 | the writes of a refund keep the store valid |
| LedgerFacts.CreateUserOutcome | app/crud/crud.py:28-39 | registration is refused exactly when the CPF or the email is taken; otherwise the user is appended with the next id and balance 0 |
| LedgerFacts.CreateChargeOutcome | app/crud/crud.py:44-58 | the charge is refused exactly when no user has the CPF; otherwise a pending charge to the first such user is appended under the next id |
| LedgerFacts.PayByBalanceRefusals | app/crud/crud.py:76-90 | each refusal in the code's order leaves the store as it was; the payment succeeds exactly when the charge exists and is pending, the payer exists and can cover it, and the recipient exists |
| LedgerFacts.PayStep | app/crud/crud.py:90-102 | a successful balance payment moves the value, marks the charge paid and appends one approved balance-payment record |
| LedgerFacts.PayByBalanceMovesValue | app/crud/crud.py:92-93 | the payer loses the value, the recipient gains it, no other user changes, and paying oneself changes nothing |
| LedgerFacts.PayByBalanceConservesTotal | app/crud/crud.py:75-109 | a balance payment, refused or not, keeps the sum of all balances |
| LedgerFacts.PayByBalanceKeepsPayerSolvent | app/crud/crud.py:87-88 | a payer with a non-negative balance never ends below zero |
| LedgerFacts.PayByBalanceRecords | app/crud/crud.py:94-103 | the charge becomes paid and the returned record, appended to the log, names the value, payer and charge |
| LedgerFacts.SecondBalancePaymentFails | app/crud/crud.py:80-81 | once paid by balance, a charge refuses any further balance payment, with no change |
| LedgerFacts.DepositOutcome | app/crud/crud.py:111-127 | a deposit succeeds exactly when the user exists; it adds the amount, whatever its sign, to that user and to the total, and logs one deposit with no charge |
| LedgerFacts.PayByCardOutcome | app/crud/crud.py:129-146 | a card payment succeeds exactly when the charge exists; no balance moves, the charge is marked paid and one card-payment record is logged |
| LedgerFacts.CardPaymentReopensCancelledCharge | app/crud/crud.py:134 | a cancelled charge paid by card becomes paid again |
| LedgerFacts.CancelPendingCharge | app/crud/crud.py:159-163 | a pending charge is cancelled with no change to any balance or transaction |
| LedgerFacts.CancelRefusals | app/crud/crud.py:155-188 | a missing charge, a cancelled charge, a paid charge with no approved transaction or with a non-balance first one are refused, and a missing party refuses the refund, all with no change |
| LedgerFacts.RefundStep | app/crud/crud.py:165-184 | the refund moves the value back from the recipient to the user of the first approved transaction and cancels the charge |
| LedgerFacts.CancelRefundsBalancePayment | app/crud/crud.py:171-184 | the refund credits the payer and debits the recipient by the charge's value with no funds check, changes no other user and logs nothing |
| LedgerFacts.CancelChargeConservesTotal | app/crud/crud.py:154-188 | a cancellation keeps the sum of all balances |
| LedgerFacts.RefundCanOverdrawRecipient | app/crud/crud.py:177 | a recipient who already spent the money is left with a negative balance by the refund |
| LedgerFacts.SettlingIndexIs | app/crud/crud.py:166-169 | the first approved transaction against a charge is the one the query finds |
| LedgerFacts.SettlingIndexOfExtension | app/crud/crud.py:166-169 | appending transactions does not change which is found first |
| LedgerFacts.PendingChargeIsUnsettled | app/crud/crud.py:80-81 | on a consistent store a pending charge has no approved transaction |
| LedgerFacts.PaymentIsFirstSettlement | app/crud/crud.py:96-103 | the record a balance payment appends becomes the charge's first approved transaction |
| LedgerFacts.PayThenCancelRestoresBalances | app/crud/crud.py:154-188 | paying by balance and then cancelling gives every user back the balance held before; the charge ends cancelled and the record stays |
| LedgerFacts.CancelAfterCardPayment | app/crud/crud.py:134-141 | after a card payment on a charge whose first approved transaction is a balance payment, the next cancellation refunds that balance payment once more |
| LedgerFacts.CardRepaymentThenCancelRefundsTwice | app/crud/crud.py:129-188 | pay by balance, cancel, pay by card and cancel again: the payer ends one value up and the recipient one value down |
| LedgerFacts.CreateUserKeepsConsistent | app/crud/crud.py:28-39 | registration keeps the store consistent |
| LedgerFacts.CreateChargeKeepsConsistent | app/routers/charges.py:35-45 | a charge from an existing user to a different one keeps the store consistent |
| LedgerFacts.PayByBalanceKeepsConsistent | app/crud/crud.py:75-109 | a balance payment keeps the store consistent |
| LedgerFacts.PayByCardKeepsConsistent | app/crud/crud.py:129-146 | a card payment by an existing user keeps the store consistent |
| LedgerFacts.DepositKeepsConsistent | app/crud/crud.py:111-127 | a deposit keeps the store consistent |
| LedgerFacts.CancelChargeKeepsConsistent | app/crud/crud.py:154-188 | a cancellation keeps the store consistent |
| LedgerFacts.RefundKeepsConsistent | app/crud/crud.py:165-184 | a completed refund keeps the store consistent |
| LedgerFacts.CancelWritesKeepConsistent | app/crud/crud.py:176-178 | cancelling a charge while changing only balances keeps the store consistent |
| LedgerFacts.ConsistentStoreResolvesParties | app/crud/crud.py:90-93 | on a consistent store a balance payment always finds its recipient and a refund always finds both users |
| Crud.Store.constructor | app/models/models.py:6-46 | a new database has three empty tables and is consistent |
| Crud.Store.CreateUser | app/crud/crud.py:28-39 | the result and the new tables are those of `Ledger.CreateUser` on the old tables |
| Crud.Store.CreateCharge | app/crud/crud.py:44-58 | the result and the new tables are those of `Ledger.CreateCharge` on the old tables |
| Crud.Store.MakePaymentByBalance | app/crud/crud.py:75-109 | the result and the new tables are those of `Ledger.PayByBalance` on the old tables |
| Crud.Store.MakeDepositByCard | app/crud/crud.py:111-127 | the result and the new tables are those of `Ledger.DepositByCard` on the old tables |
| Crud.Store.MakePaymentByCard | app/crud/crud.py:129-146 | the result and the new tables are those of `Ledger.PayByCard` on the old tables |
| Crud.Store.CancelCharge | app/crud/crud.py:154-188 | the result and the new tables are those of `Ledger.CancelCharge` on the old tables |
| Routers.CreateCharge | app/routers/charges.py:15-45 | an invalid recipient CPF, a non-positive value, an unknown recipient and a self-charge are refused in that order with no change; otherwise the crud call runs; a created charge is positive, from the caller and to someone else; the store stays consistent; no refusal is a 500 |
| Routers.CancelCharge | app/routers/charges.py:47-65 | an unknown charge and a caller who is not the originator are refused with no change; otherwise the crud cancellation runs; the store stays consistent; no refusal is a 500 |
| Routers.PaymentByBalance | app/routers/payments.py:17-33 | an unknown charge and a payment by the charge's own recipient are refused with no change; otherwise the caller pays through the crud call; the store stays consistent; no refusal is a 500 |
| Routers.PaymentByCard | app/routers/payments.py:35-48 | a declined authorization is refused with no change; otherwise the caller pays through the crud call; the store stays consistent; no refusal is a 500 |
| Routers.Deposit | app/routers/payments.py:50-63 | the intended deposit: a declined authorization is refused with no change; otherwise the caller's balance is credited through the crud call; no refusal is a 500; the store stays consistent |
| Routers.DepositAsWritten | app/crud/crud.py:111-116 | the deposit as the code runs it never succeeds and never changes the store; it is refused as not authorized exactly when the authorizer declines |
| Routers.DepositAsWrittenCreditsNothing | app/routers/payments.py:59-63 | for an authenticated caller and any amount, an authorized deposit as written answers 500 with the store unchanged, where the intended deposit succeeds and credits the caller with the amount |
| Routers.CreateUser | app/routers/users.py:17-25 | an invalid CPF, then a taken CPF, then a taken email are refused with no change; otherwise the user is appended with the normalised CPF, the next id and balance 0; the store stays consistent; no refusal is a 500 |
| Routers.LoginUser | app/routers/users.py:34 | the username is matched against emails first and CPFs only when no email matches; nothing is found exactly when it is neither |
| Routers.LoginForAccessToken | app/routers/users.py:34-44 | login succeeds exactly when a user is found and the password checks; the token subject is the email when it is non-empty, else the CPF; any refusal is bad credentials |
| Routers.LoginByEmail | app/routers/users.py:34-44 | with unique emails, a user logging in with their own email gets it back as the subject |
| Routers.LoginByCpf | app/routers/users.py:34-44 | with unique CPFs, a user logging in with their CPF is found, provided no email equals it, and gets their email as the subject when it is non-empty |
| Routers.LoginRefusesWrongPassword | app/routers/users.py:36-41 | a password that matches no user's hash is refused whatever the username |

## Left out

- The external card authorizer (`app/api/external.py`) is not part of this model. Its answer becomes the boolean `authorized` input of `Routers.PaymentByCard` and `Routers.Deposit`. `authorized = false` stands both for the "not authorized" answer and for the cases where `authorize_payment` raises: an HTTP error status, a connection failure or timeout, and a body that is not JSON. Each of these refuses the request before any ledger write, so the store is unchanged either way; only the status code differs.
- Password hashing (bcrypt) is a string input. The password check is the function parameter `verifyPassword`. The JWT token, its expiry and `get_current_user` are not modelled.
- Routes take the authenticated caller as a user id. `Routers.CreateCharge` and `Routers.PaymentByCard` require that it names an existing user, as token resolution guarantees.
- Balances and values are floating point in the store and decimals in the requests. The model uses integer cents, so it models neither rounding nor the mix of the two number types, except where that mix makes the code fail: the deposit type error under "## Findings".
- Timestamps (`created_at`) are not modelled. Of the column defaults, the charge status `Pendente` (written by `Ledger.CreateCharge`) and the user balance 0 (written by `Ledger.CreateUser`) are modelled. The transaction status default is not, because every operation writes `aprovada` explicitly.
- Sessions, commits, refreshes and concurrency are not modelled. Each operation is one atomic step, and a raise leaves the store unchanged because nothing was committed.
- The store's unique constraints appear only as the `Conflict` refusal of `Ledger.CreateUser`. The race between the route's duplicate check and the insert is not modelled.
- `EmailStr` validation of emails is not modelled; an email is any string.
- Only ASCII digits count as digits. `re.sub(r"\D", ...)` would also keep other Unicode decimal digits.
- `_only_digits(None)` (the `s or ""` case) is not modelled; inputs are strings.
- Schemas.ValidateCpf requires an all-digit argument. Called with anything else, `_validate_cpf` would raise in `int()`, but every caller passes the output of `_only_digits`.
- Response shapes, detail texts and the listing routes' ordering beyond table order are not modelled.
- The charge listings and `get_password_hash` are used by no route in this model. The listings live only in `Ledger`.

## Findings

| source | as written | input that shows it | evidently intended | confidence | as-written member | corrected member |
|---|---|---|---|---|---|---|
| app/crud/crud.py:116 | `make_deposit_by_card` adds the route's `Decimal` amount (app/schemas/schemas.py:90, passed at app/routers/payments.py:63) to `user.balance`, which the `Float` column (app/models/models.py:14) reads back as a Python float; `float += Decimal` raises `TypeError`, the session is never committed, and the route answers 500 | any authorized deposit by an existing user, such as the amount 200 of app/tests/test_payments.py:57 | the caller's balance goes up by the amount and a `deposito` transaction is recorded, as app/tests/test_payments.py:51-63 expects | high, not executed | Routers.DepositAsWrittenCreditsNothing | Routers.Deposit |
