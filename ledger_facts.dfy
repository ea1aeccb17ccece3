/** What the crud operations of `Ledger` guarantee: which calls fail and
    leave the store alone, how balances, statuses and the transaction log
    move on success, which invariants survive, and how operations compose. */
module LedgerFacts {
  import opened Types
  import opened Ledger

  // ---------------------------------------------------------------------------
  // Lookups on a well-formed store
  // ---------------------------------------------------------------------------

  /** With autoincrement ids, the user with id `id` is at position id - 1. */
  lemma UserAt(users: seq<User>, id: int)
    requires forall i :: 0 <= i < |users| ==> users[i].id == i + 1
    ensures UserIndex(users, id) == if 1 <= id <= |users| then Some(id - 1) else None
  {
    UserIndexFinds(users, id);
    if 1 <= id <= |users| {
      assert users[id - 1].id == id;
    }
  }

  lemma ChargeAt(charges: seq<Charge>, id: int)
    requires forall i :: 0 <= i < |charges| ==> charges[i].id == i + 1
    ensures ChargeIndex(charges, id) == if 1 <= id <= |charges| then Some(id - 1) else None
  {
    ChargeIndexFinds(charges, id);
    if 1 <= id <= |charges| {
      assert charges[id - 1].id == id;
    }
  }

  /** A balance change touches no id. */
  lemma CreditKeepsIds(users: seq<User>, i: nat, delta: int)
    requires i < |users|
    ensures |Credit(users, i, delta)| == |users|
    ensures forall j :: 0 <= j < |users| ==> Credit(users, i, delta)[j].id == users[j].id
  {
  }

  /** Crediting user `i` moves the sum of a prefix by the amount exactly
      when the prefix contains that user. */
  lemma {:induction false} PrefixBalanceCredit(users: seq<User>, i: nat, delta: int, n: nat)
    requires i < |users| && n <= |users|
    ensures PrefixBalance(Credit(users, i, delta), n) == PrefixBalance(users, n) + (if i < n then delta else 0)
  {
    if n > 0 {
      PrefixBalanceCredit(users, i, delta, n - 1);
    }
  }

  /** Crediting one user moves the total by exactly that amount. */
  lemma TotalBalanceCredit(users: seq<User>, i: nat, delta: int)
    requires i < |users|
    ensures TotalBalance(Credit(users, i, delta)) == TotalBalance(users) + delta
  {
    PrefixBalanceCredit(users, i, delta, |users|);
  }

  /** A move takes the value from one user and gives it to the other, touches
      no third user, and changes nothing when the two are the same. */
  lemma MoveFacts(users: seq<User>, from: nat, to: nat, value: int)
    requires from < |users| && to < |users|
    ensures var users' := Move(users, from, to, value);
      && |users'| == |users|
      && (from != to ==>
            && users'[from] == users[from].(balance := users[from].balance - value)
            && users'[to] == users[to].(balance := users[to].balance + value))
      && (from == to ==> users' == users)
      && (forall i :: 0 <= i < |users| && i != from && i != to ==> users'[i] == users[i])
  {
    if from == to {
      assert Move(users, from, to, value)[from] == users[from];
    }
  }

  /** A move neither creates nor destroys money. */
  lemma MoveConservesTotal(users: seq<User>, from: nat, to: nat, value: int)
    requires from < |users| && to < |users|
    ensures TotalBalance(Move(users, from, to, value)) == TotalBalance(users)
  {
    var debited := Credit(users, from, -value);
    TotalBalanceCredit(users, from, -value);
    TotalBalanceCredit(debited, to, value);
  }

  /** Moving a value and then its negative between the same two users, in the
      same order, restores every row. */
  lemma MoveUndone(users: seq<User>, from: nat, to: nat, value: int)
    requires from < |users| && to < |users|
    ensures Move(Move(users, from, to, value), from, to, -value) == users
  {
    MoveFacts(users, from, to, value);
    MoveFacts(Move(users, from, to, value), from, to, -value);
    var back := Move(Move(users, from, to, value), from, to, -value);
    assert forall i :: 0 <= i < |users| ==> back[i] == users[i];
  }

  /** The balance of the user with id `id` in a well-formed store. */
  function BalanceOf(db: Db, id: int): int
    requires IsUser(db, id)
  {
    db.users[id - 1].balance
  }

  // ---------------------------------------------------------------------------
  // The store's own guarantees survive every operation
  // ---------------------------------------------------------------------------

  lemma CreateUserKeepsValid(db: Db, name: string, cpf: string, email: string, hashedPassword: string)
    requires Valid(db)
    ensures Valid(CreateUser(db, name, cpf, email, hashedPassword).after)
  {
    var s := CreateUser(db, name, cpf, email, hashedPassword);
    if s.out.Ok? {
      var users' := s.after.users;
      forall i, j | 0 <= i < j < |users'|
        ensures users'[i].cpf != users'[j].cpf && users'[i].email != users'[j].email
      {
        if j == |db.users| {
          assert users'[i] in db.users;
        }
      }
    }
  }

  /** `b` is `a` with at most the balances changed. */
  predicate OnlyBalancesDiffer(a: seq<User>, b: seq<User>) {
    |a| == |b| && forall i :: 0 <= i < |a| ==> b[i] == a[i].(balance := b[i].balance)
  }

  lemma MoveChangesOnlyBalances(users: seq<User>, from: nat, to: nat, value: int)
    requires from < |users| && to < |users|
    ensures OnlyBalancesDiffer(users, Move(users, from, to, value))
  {
    MoveFacts(users, from, to, value);
  }

  /** Balances carry no identity, so changing them keeps a store valid. */
  lemma BalanceChangeKeepsValid(db: Db, users: seq<User>)
    requires Valid(db) && OnlyBalancesDiffer(db.users, users)
    ensures Valid(db.(users := users))
  {
    assert forall i :: 0 <= i < |users| ==>
      users[i].id == db.users[i].id && users[i].cpf == db.users[i].cpf && users[i].email == db.users[i].email;
  }

  /** So does changing a charge's status. */
  lemma StatusChangeKeepsValid(db: Db, ci: nat, status: ChargeStatus)
    requires Valid(db) && ci < |db.charges|
    ensures Valid(db.(charges := db.charges[ci := db.charges[ci].(status := status)]))
  {
  }

  /** So does logging a transaction under the next id. */
  lemma AppendTransactionKeepsValid(db: Db, t: Transaction)
    requires Valid(db) && t.id == |db.transactions| + 1
    ensures Valid(db.(transactions := db.transactions + [t]))
  {
  }

  lemma PayByBalanceKeepsIds(db: Db, chargeId: int, userId: int)
    requires IdsArePositions(db)
    ensures IdsArePositions(PayByBalance(db, chargeId, userId).after)
  {
  }

  lemma PayByBalanceKeepsValid(db: Db, chargeId: int, userId: int)
    requires Valid(db)
    ensures Valid(PayByBalance(db, chargeId, userId).after)
  {
    if PayByBalance(db, chargeId, userId).out.Ok? {
      PayStep(db, chargeId, userId);
      var c := db.charges[chargeId - 1];
      var t := Transaction(|db.transactions| + 1, PagamentoSaldo, c.value, Aprovada, userId, Some(chargeId));
      PaymentWritesKeepValid(db, chargeId - 1, userId - 1, c.recipientId - 1, t);
    }
  }

  /** The three writes of a balance payment keep a store valid. */
  lemma PaymentWritesKeepValid(db: Db, ci: nat, pi: nat, ri: nat, t: Transaction)
    requires Valid(db) && ci < |db.charges| && pi < |db.users| && ri < |db.users|
    requires t.id == |db.transactions| + 1
    ensures var c := db.charges[ci];
      Valid(Db(Move(db.users, pi, ri, c.value), db.charges[ci := c.(status := Paga)], db.transactions + [t]))
  {
    var c := db.charges[ci];
    var paid := db.(charges := db.charges[ci := c.(status := Paga)]);
    StatusChangeKeepsValid(db, ci, Paga);
    AppendTransactionKeepsValid(paid, t);
    var logged := paid.(transactions := paid.transactions + [t]);
    MoveChangesOnlyBalances(db.users, pi, ri, c.value);
    BalanceChangeKeepsValid(logged, Move(db.users, pi, ri, c.value));
  }

  lemma CancelChargeKeepsIds(db: Db, chargeId: int)
    requires IdsArePositions(db)
    ensures IdsArePositions(CancelCharge(db, chargeId).after)
  {
  }

  lemma CancelChargeKeepsValid(db: Db, chargeId: int)
    requires Valid(db)
    ensures Valid(CancelCharge(db, chargeId).after)
  {
    if CancelCharge(db, chargeId).out.Ok? {
      var ci := ChargeIndex(db.charges, chargeId).value;
      if db.charges[ci].status == Pendente {
        StatusChangeKeepsValid(db, ci, Cancelada);
      } else {
        RefundKeepsValid(db, ci);
      }
    }
  }

  lemma RefundKeepsValid(db: Db, ci: nat)
    requires Valid(db) && ci < |db.charges|
    requires RefundBalancePayment(db, ci).out.Ok?
    ensures Valid(RefundBalancePayment(db, ci).after)
  {
    var c := db.charges[ci];
    var k := SettlingIndex(db.transactions, c.id).value;
    var pi := UserIndex(db.users, db.transactions[k].userId).value;
    var ri := UserIndex(db.users, c.recipientId).value;
    assert RefundBalancePayment(db, ci).after ==
      db.(users := Move(db.users, pi, ri, -c.value), charges := db.charges[ci := c.(status := Cancelada)]);
    RefundWritesKeepValid(db, ci, pi, ri);
  }

  /** The two writes of a refund keep a store valid. */
  lemma RefundWritesKeepValid(db: Db, ci: nat, pi: nat, ri: nat)
    requires Valid(db) && ci < |db.charges| && pi < |db.users| && ri < |db.users|
    ensures var c := db.charges[ci];
      Valid(db.(users := Move(db.users, pi, ri, -c.value), charges := db.charges[ci := c.(status := Cancelada)]))
  {
    var c := db.charges[ci];
    var cancelled := db.(charges := db.charges[ci := c.(status := Cancelada)]);
    StatusChangeKeepsValid(db, ci, Cancelada);
    MoveChangesOnlyBalances(db.users, pi, ri, -c.value);
    BalanceChangeKeepsValid(cancelled, Move(db.users, pi, ri, -c.value));
  }

  // ---------------------------------------------------------------------------
  // create_user
  // ---------------------------------------------------------------------------

  /** Registration is refused exactly when the CPF or the email is taken;
      otherwise the new user is appended with the next id and balance 0. */
  lemma CreateUserOutcome(db: Db, name: string, cpf: string, email: string, hashedPassword: string)
    requires Valid(db)
    ensures var s := CreateUser(db, name, cpf, email, hashedPassword);
      && (s.out.Err? <==> exists u :: u in db.users && (u.cpf == cpf || u.email == email))
      && (s.out.Err? ==> s.out.error == Conflict)
      && (s.out.Ok? ==>
            && s.out.value == User(|db.users| + 1, name, cpf, email, hashedPassword, 0)
            && s.after == db.(users := db.users + [s.out.value]))
  {
  }

  // ---------------------------------------------------------------------------
  // create_charge
  // ---------------------------------------------------------------------------

  /** A charge is created exactly when some user has the recipient CPF; it
      is pending, carries the given value and originator, and names the first
      such user as recipient. Nothing else changes. */
  lemma CreateChargeOutcome(db: Db, value: int, description: Option<string>, recipientCpf: string, originatorId: int)
    ensures var s := CreateCharge(db, value, description, recipientCpf, originatorId);
      && (s.out.Err? <==> forall u :: u in db.users ==> u.cpf != recipientCpf)
      && (s.out.Err? ==> s.out.error == RecipientNotFound)
      && (s.out.Ok? ==>
            var c := s.out.value;
            && c == Charge(|db.charges| + 1, value, description, Pendente, originatorId,
                           GetUserByCpf(db.users, recipientCpf).value.id)
            && GetUserByCpf(db.users, recipientCpf).value.cpf == recipientCpf
            && s.after == db.(charges := db.charges + [c]))
  {
  }

  // ---------------------------------------------------------------------------
  // make_payment_by_balance
  // ---------------------------------------------------------------------------

  /** The refusals, in the order they are checked. Each leaves the store as
      it was. */
  lemma PayByBalanceRefusals(db: Db, chargeId: int, userId: int)
    requires IdsArePositions(db)
    ensures var s := PayByBalance(db, chargeId, userId);
      && (!IsCharge(db, chargeId) ==> s == Step(Err(ChargeNotFound), db))
      && (IsCharge(db, chargeId) && db.charges[chargeId - 1].status != Pendente ==>
            s == Step(Err(NotPending), db))
      && (IsCharge(db, chargeId) && db.charges[chargeId - 1].status == Pendente && !IsUser(db, userId) ==>
            s == Step(Err(PayerNotFound), db))
      && (IsCharge(db, chargeId) && db.charges[chargeId - 1].status == Pendente && IsUser(db, userId)
          && BalanceOf(db, userId) < db.charges[chargeId - 1].value ==>
            s == Step(Err(InsufficientFunds), db))
      && (s.out.Ok? <==>
            && IsCharge(db, chargeId)
            && db.charges[chargeId - 1].status == Pendente
            && IsUser(db, userId)
            && BalanceOf(db, userId) >= db.charges[chargeId - 1].value
            && IsUser(db, db.charges[chargeId - 1].recipientId))
  {
    ChargeAt(db.charges, chargeId);
    UserAt(db.users, userId);
    if IsCharge(db, chargeId) {
      UserAt(db.users, db.charges[chargeId - 1].recipientId);
    }
  }

  /** The store a successful balance payment leaves: the charge's value
      moved from the payer to the recipient, the charge paid, and one
      approved balance-payment record appended. */
  lemma PayStep(db: Db, chargeId: int, userId: int)
    requires IdsArePositions(db)
    requires PayByBalance(db, chargeId, userId).out.Ok?
    ensures IsCharge(db, chargeId) && IsUser(db, userId) && IsUser(db, db.charges[chargeId - 1].recipientId)
    ensures var c := db.charges[chargeId - 1];
      var t := Transaction(|db.transactions| + 1, PagamentoSaldo, c.value, Aprovada, userId, Some(chargeId));
      PayByBalance(db, chargeId, userId) ==
        Step(Ok(t), Db(Move(db.users, userId - 1, c.recipientId - 1, c.value),
                       db.charges[chargeId - 1 := c.(status := Paga)],
                       db.transactions + [t]))
  {
    PayByBalanceRefusals(db, chargeId, userId);
    ChargeAt(db.charges, chargeId);
    UserAt(db.users, userId);
    UserAt(db.users, db.charges[chargeId - 1].recipientId);
  }

  /** A successful balance payment moves the charge's value from the payer to
      the recipient and touches no other user; when payer and recipient are
      the same user its balance is unchanged. */
  lemma PayByBalanceMovesValue(db: Db, chargeId: int, userId: int)
    requires Valid(db)
    requires PayByBalance(db, chargeId, userId).out.Ok?
    ensures IsCharge(db, chargeId) && IsUser(db, userId)
    ensures var s := PayByBalance(db, chargeId, userId);
      var c := db.charges[chargeId - 1];
      && IsUser(db, c.recipientId)
      && |s.after.users| == |db.users|
      && (userId != c.recipientId ==>
            && s.after.users[userId - 1] == db.users[userId - 1].(balance := BalanceOf(db, userId) - c.value)
            && s.after.users[c.recipientId - 1] == db.users[c.recipientId - 1].(balance := BalanceOf(db, c.recipientId) + c.value))
      && (userId == c.recipientId ==> s.after.users == db.users)
      && (forall i :: 0 <= i < |db.users| && i + 1 != userId && i + 1 != c.recipientId ==>
            s.after.users[i] == db.users[i])
  {
    PayStep(db, chargeId, userId);
    MoveFacts(db.users, userId - 1, db.charges[chargeId - 1].recipientId - 1, db.charges[chargeId - 1].value);
  }

  /** A balance payment neither creates nor destroys money. */
  lemma PayByBalanceConservesTotal(db: Db, chargeId: int, userId: int)
    requires Valid(db)
    ensures TotalBalance(PayByBalance(db, chargeId, userId).after.users) == TotalBalance(db.users)
  {
    if PayByBalance(db, chargeId, userId).out.Ok? {
      PayStep(db, chargeId, userId);
      MoveConservesTotal(db.users, userId - 1, db.charges[chargeId - 1].recipientId - 1, db.charges[chargeId - 1].value);
    }
  }

  /** A payer that was solvent stays solvent: the funds check guarantees it. */
  lemma PayByBalanceKeepsPayerSolvent(db: Db, chargeId: int, userId: int)
    requires Valid(db)
    requires IsUser(db, userId) && BalanceOf(db, userId) >= 0
    ensures BalanceOf(PayByBalance(db, chargeId, userId).after, userId) >= 0
  {
    if PayByBalance(db, chargeId, userId).out.Ok? {
      PayByBalanceMovesValue(db, chargeId, userId);
    }
  }

  /** A successful balance payment marks the charge paid and appends exactly
      one approved balance-payment record for the payer and the charge. */
  lemma PayByBalanceRecords(db: Db, chargeId: int, userId: int)
    requires IdsArePositions(db)
    requires PayByBalance(db, chargeId, userId).out.Ok?
    ensures IsCharge(db, chargeId)
    ensures var s := PayByBalance(db, chargeId, userId);
      var c := db.charges[chargeId - 1];
      && s.after.charges == db.charges[chargeId - 1 := c.(status := Paga)]
      && s.out.value == Transaction(|db.transactions| + 1, PagamentoSaldo, c.value, Aprovada, userId, Some(chargeId))
      && s.after.transactions == db.transactions + [s.out.value]
  {
    ChargeAt(db.charges, chargeId);
  }

  /** A charge can be paid by balance only once. */
  lemma SecondBalancePaymentFails(db: Db, chargeId: int, payer: int, other: int)
    requires Valid(db)
    requires PayByBalance(db, chargeId, payer).out.Ok?
    ensures var after := PayByBalance(db, chargeId, payer).after;
      PayByBalance(after, chargeId, other) == Step(Err(NotPending), after)
  {
    PayByBalanceRecords(db, chargeId, payer);
    PayByBalanceKeepsValid(db, chargeId, payer);
    var after := PayByBalance(db, chargeId, payer).after;
    ChargeAt(after.charges, chargeId);
  }

  // ---------------------------------------------------------------------------
  // make_deposit_by_card
  // ---------------------------------------------------------------------------

  /** A deposit succeeds exactly for an existing user, adds the amount (of
      any sign) to that user's balance alone, and appends one approved deposit
      record with no charge. */
  lemma DepositOutcome(db: Db, userId: int, amount: int)
    requires Valid(db)
    ensures var s := DepositByCard(db, userId, amount);
      && (s.out.Ok? <==> IsUser(db, userId))
      && (s.out.Err? ==> s == Step(Err(UserNotFound), db))
      && (s.out.Ok? ==>
            && s.after.users == db.users[userId - 1 := db.users[userId - 1].(balance := BalanceOf(db, userId) + amount)]
            && TotalBalance(s.after.users) == TotalBalance(db.users) + amount
            && s.after.charges == db.charges
            && s.out.value == Transaction(|db.transactions| + 1, Deposito, amount, Aprovada, userId, None)
            && s.after.transactions == db.transactions + [s.out.value])
  {
    UserAt(db.users, userId);
    if IsUser(db, userId) {
      TotalBalanceCredit(db.users, userId - 1, amount);
    }
  }

  // ---------------------------------------------------------------------------
  // make_payment_by_card
  // ---------------------------------------------------------------------------

  /** A card payment succeeds exactly for an existing charge, whatever its
      status; it marks the charge paid, moves no balance, and appends one
      approved card-payment record for the charge's value. */
  lemma PayByCardOutcome(db: Db, chargeId: int, userId: int)
    requires IdsArePositions(db)
    ensures var s := PayByCard(db, chargeId, userId);
      && (s.out.Ok? <==> IsCharge(db, chargeId))
      && (s.out.Err? ==> s == Step(Err(ChargeNotFound), db))
      && (s.out.Ok? ==>
            var c := db.charges[chargeId - 1];
            && s.after.users == db.users
            && s.after.charges == db.charges[chargeId - 1 := c.(status := Paga)]
            && s.out.value == Transaction(|db.transactions| + 1, PagamentoCartao, c.value, Aprovada, userId, Some(chargeId))
            && s.after.transactions == db.transactions + [s.out.value])
  {
    ChargeAt(db.charges, chargeId);
  }

  /** Even a cancelled charge is marked paid again by a card payment. */
  lemma CardPaymentReopensCancelledCharge(db: Db, chargeId: int, userId: int)
    requires Valid(db)
    requires IsCharge(db, chargeId) && db.charges[chargeId - 1].status == Cancelada
    ensures PayByCard(db, chargeId, userId).out.Ok?
    ensures PayByCard(db, chargeId, userId).after.charges[chargeId - 1].status == Paga
  {
    PayByCardOutcome(db, chargeId, userId);
  }

  // ---------------------------------------------------------------------------
  // cancel_charge
  // ---------------------------------------------------------------------------

  /** A pending charge is cancelled with no movement of money. */
  lemma CancelPendingCharge(db: Db, chargeId: int)
    requires Valid(db)
    requires IsCharge(db, chargeId) && db.charges[chargeId - 1].status == Pendente
    ensures var s := CancelCharge(db, chargeId);
      && s.out == Ok(PendingCancelled)
      && s.after == db.(charges := db.charges[chargeId - 1 := db.charges[chargeId - 1].(status := Cancelada)])
  {
    ChargeAt(db.charges, chargeId);
  }

  /** The refusals of `cancel_charge`. Each leaves the store as it was. */
  lemma CancelRefusals(db: Db, chargeId: int)
    requires IdsArePositions(db)
    ensures var s := CancelCharge(db, chargeId);
      && (!IsCharge(db, chargeId) ==> s == Step(Err(ChargeNotFound), db))
      && (IsCharge(db, chargeId) && db.charges[chargeId - 1].status == Cancelada ==>
            s == Step(Err(CannotCancel), db))
      && (IsCharge(db, chargeId) && db.charges[chargeId - 1].status == Paga ==>
            var k := SettlingIndex(db.transactions, chargeId);
            && (k.None? ==> s == Step(Err(CannotCancel), db))
            && (k.Some? && db.transactions[k.value].kind != PagamentoSaldo ==> s == Step(Err(CannotCancel), db))
            && (k.Some? && db.transactions[k.value].kind == PagamentoSaldo ==>
                  (s.out.Err? <==> !IsUser(db, db.transactions[k.value].userId)
                                   || !IsUser(db, db.charges[chargeId - 1].recipientId))
                  && (s.out.Err? ==> s == Step(Err(RefundPartyMissing), db))))
  {
    ChargeAt(db.charges, chargeId);
    if IsCharge(db, chargeId) {
      var k := SettlingIndex(db.transactions, chargeId);
      if k.Some? {
        UserAt(db.users, db.transactions[k.value].userId);
      }
      UserAt(db.users, db.charges[chargeId - 1].recipientId);
    }
  }

  /** The store `cancel_charge` leaves for a charge paid by balance: the
      value moved back from the recipient to the user of the charge's first
      approved transaction, and the charge cancelled. */
  lemma RefundStep(db: Db, chargeId: int)
    requires IdsArePositions(db)
    requires IsCharge(db, chargeId) && db.charges[chargeId - 1].status == Paga
    requires SettlingIndex(db.transactions, chargeId).Some?
    requires db.transactions[SettlingIndex(db.transactions, chargeId).value].kind == PagamentoSaldo
    requires IsUser(db, db.transactions[SettlingIndex(db.transactions, chargeId).value].userId)
    requires IsUser(db, db.charges[chargeId - 1].recipientId)
    ensures var c := db.charges[chargeId - 1];
      var payer := db.transactions[SettlingIndex(db.transactions, chargeId).value].userId;
      CancelCharge(db, chargeId) ==
        Step(Ok(BalanceRefunded), db.(users := Move(db.users, payer - 1, c.recipientId - 1, -c.value),
                                      charges := db.charges[chargeId - 1 := c.(status := Cancelada)]))
  {
    ChargeAt(db.charges, chargeId);
    UserAt(db.users, db.transactions[SettlingIndex(db.transactions, chargeId).value].userId);
    UserAt(db.users, db.charges[chargeId - 1].recipientId);
  }

  /** Cancelling a charge paid by balance gives the value back to the user of
      its first approved transaction and takes it from the recipient, with no
      check of the recipient's funds, and cancels the charge. */
  lemma CancelRefundsBalancePayment(db: Db, chargeId: int)
    requires IdsArePositions(db)
    requires IsCharge(db, chargeId) && db.charges[chargeId - 1].status == Paga
    requires SettlingIndex(db.transactions, chargeId).Some?
    requires db.transactions[SettlingIndex(db.transactions, chargeId).value].kind == PagamentoSaldo
    requires IsUser(db, db.transactions[SettlingIndex(db.transactions, chargeId).value].userId)
    requires IsUser(db, db.charges[chargeId - 1].recipientId)
    ensures var s := CancelCharge(db, chargeId);
      var c := db.charges[chargeId - 1];
      var payer := db.transactions[SettlingIndex(db.transactions, chargeId).value].userId;
      && s.out == Ok(BalanceRefunded)
      && s.after.charges == db.charges[chargeId - 1 := c.(status := Cancelada)]
      && s.after.transactions == db.transactions
      && |s.after.users| == |db.users|
      && (payer != c.recipientId ==>
            && s.after.users[payer - 1] == db.users[payer - 1].(balance := BalanceOf(db, payer) + c.value)
            && s.after.users[c.recipientId - 1] == db.users[c.recipientId - 1].(balance := BalanceOf(db, c.recipientId) - c.value))
      && (payer == c.recipientId ==> s.after.users == db.users)
      && (forall i :: 0 <= i < |db.users| && i + 1 != payer && i + 1 != c.recipientId ==>
            s.after.users[i] == db.users[i])
  {
    RefundStep(db, chargeId);
    var c := db.charges[chargeId - 1];
    var payer := db.transactions[SettlingIndex(db.transactions, chargeId).value].userId;
    MoveFacts(db.users, payer - 1, c.recipientId - 1, -c.value);
  }

  /** A refund neither creates nor destroys money. */
  lemma CancelChargeConservesTotal(db: Db, chargeId: int)
    requires Valid(db)
    ensures TotalBalance(CancelCharge(db, chargeId).after.users) == TotalBalance(db.users)
  {
    CancelRefusals(db, chargeId);
    var s := CancelCharge(db, chargeId);
    if s.out == Ok(BalanceRefunded) {
      ChargeAt(db.charges, chargeId);
      var c := db.charges[chargeId - 1];
      var payer := db.transactions[SettlingIndex(db.transactions, chargeId).value].userId;
      RefundStep(db, chargeId);
      MoveConservesTotal(db.users, payer - 1, c.recipientId - 1, -c.value);
    }
  }

  /** The refund takes the value from the recipient even when the recipient
      no longer holds it, leaving a negative balance. */
  lemma RefundCanOverdrawRecipient(db: Db, chargeId: int)
    requires Valid(db)
    requires IsCharge(db, chargeId) && db.charges[chargeId - 1].status == Paga
    requires SettlingIndex(db.transactions, chargeId).Some?
    requires db.transactions[SettlingIndex(db.transactions, chargeId).value].kind == PagamentoSaldo
    requires IsUser(db, db.transactions[SettlingIndex(db.transactions, chargeId).value].userId)
    requires db.transactions[SettlingIndex(db.transactions, chargeId).value].userId
             != db.charges[chargeId - 1].recipientId
    requires IsUser(db, db.charges[chargeId - 1].recipientId)
    requires 0 <= BalanceOf(db, db.charges[chargeId - 1].recipientId) < db.charges[chargeId - 1].value
    ensures CancelCharge(db, chargeId).out.Ok?
    ensures BalanceOf(CancelCharge(db, chargeId).after, db.charges[chargeId - 1].recipientId) < 0
  {
    CancelRefundsBalancePayment(db, chargeId);
  }

  // ---------------------------------------------------------------------------
  // Composition
  // ---------------------------------------------------------------------------

  /** The first approved transaction of a charge is the one `SettlingIndex`
      finds. */
  lemma SettlingIndexIs(txs: seq<Transaction>, chargeId: int, k: nat)
    requires k < |txs| && Settles(txs[k], chargeId)
    requires forall j :: 0 <= j < k ==> !Settles(txs[j], chargeId)
    ensures SettlingIndex(txs, chargeId) == Some(k)
  {
    SettlingIndexFinds(txs, chargeId);
  }

  /** Appending rows does not change which row a lookup finds first. */
  lemma SettlingIndexOfExtension(a: seq<Transaction>, b: seq<Transaction>, chargeId: int)
    requires SettlingIndex(a, chargeId).Some?
    ensures SettlingIndex(a + b, chargeId) == SettlingIndex(a, chargeId)
  {
    var k := SettlingIndex(a, chargeId).value;
    SettlingIndexFinds(a, chargeId);
    assert (a + b)[k] == a[k];
    forall j | 0 <= j < k ensures !Settles((a + b)[j], chargeId) {
      assert (a + b)[j] == a[j];
    }
    SettlingIndexIs(a + b, chargeId, k);
  }

  /** On a consistent store a pending charge has no approved transaction. */
  lemma PendingChargeIsUnsettled(db: Db, chargeId: int)
    requires Consistent(db)
    requires IsCharge(db, chargeId) && db.charges[chargeId - 1].status == Pendente
    ensures SettlingIndex(db.transactions, chargeId).None?
  {
  }

  /** When a charge has no approved transaction yet, the one a balance
      payment appends becomes its first. */
  lemma PaymentIsFirstSettlement(db: Db, chargeId: int, userId: int)
    requires IdsArePositions(db) && SettlingIndex(db.transactions, chargeId).None?
    requires PayByBalance(db, chargeId, userId).out.Ok?
    ensures SettlingIndex(PayByBalance(db, chargeId, userId).after.transactions, chargeId) == Some(|db.transactions|)
  {
    PayByBalanceRecords(db, chargeId, userId);
    SettlingIndexFinds(db.transactions, chargeId);
    var txs := PayByBalance(db, chargeId, userId).after.transactions;
    forall j | 0 <= j < |db.transactions| ensures !Settles(txs[j], chargeId) {
      assert txs[j] == db.transactions[j];
    }
    SettlingIndexIs(txs, chargeId, |db.transactions|);
  }

  /** Paying a charge by balance and then cancelling it gives every user back
      the balance held before the payment. The charge ends cancelled and the
      payment record stays in the log. */
  lemma PayThenCancelRestoresBalances(db: Db, chargeId: int, userId: int)
    requires Consistent(db)
    requires PayByBalance(db, chargeId, userId).out.Ok?
    ensures var paid := PayByBalance(db, chargeId, userId).after;
      var s := CancelCharge(paid, chargeId);
      && s.out == Ok(BalanceRefunded)
      && s.after.users == db.users
      && s.after.charges == db.charges[chargeId - 1 := db.charges[chargeId - 1].(status := Cancelada)]
      && s.after.transactions == paid.transactions
  {
    PayByBalanceRefusals(db, chargeId, userId);
    PendingChargeIsUnsettled(db, chargeId);
    var paid := PayByBalance(db, chargeId, userId).after;
    RefundOfPayment(db, chargeId, userId, paid, CancelCharge(paid, chargeId).after);
    RefundAfterPayment(db, chargeId, userId, paid, CancelCharge(paid, chargeId).after);
  }

  /** Helper of `PayThenCancelRestoresBalances`: its users, for a charge with no
      approved transaction, with `paid` and `refunded` the stores after each
      step. */
  lemma RefundAfterPayment(db: Db, chargeId: int, userId: int, paid: Db, refunded: Db)
    requires IdsArePositions(db) && SettlingIndex(db.transactions, chargeId).None?
    requires PayByBalance(db, chargeId, userId) == Step(PayByBalance(db, chargeId, userId).out, paid)
    requires PayByBalance(db, chargeId, userId).out.Ok?
    requires CancelCharge(paid, chargeId).after == refunded
    ensures refunded.users == db.users
  {
    RefundOfPayment(db, chargeId, userId, paid, refunded);
    RefundRestoresUsers(db, chargeId, userId, paid, refunded);
  }

  /** Helper of `RefundAfterPayment`, stated on values only: the users of a
      refund that moved back what a payment on the same charge moved are the
      users before the payment. */
  lemma RefundRestoresUsers(db: Db, chargeId: int, userId: int, paid: Db, refunded: Db)
    requires IsCharge(db, chargeId) && IsUser(db, userId) && IsUser(db, db.charges[chargeId - 1].recipientId)
    requires |paid.users| == |db.users|
    requires var c := db.charges[chargeId - 1];
      && paid.users == Move(db.users, userId - 1, c.recipientId - 1, c.value)
      && refunded.users == Move(paid.users, userId - 1, c.recipientId - 1, -c.value)
    ensures refunded.users == db.users
  {
    var c := db.charges[chargeId - 1];
    MoveBack(refunded.users, paid.users, db.users, userId - 1, c.recipientId - 1, c.value);
  }

  /** Helper of `RefundRestoresUsers`: `MoveUndone` with the two intermediate
      user tables named. */
  lemma MoveBack(back: seq<User>, moved: seq<User>, users: seq<User>, from: nat, to: nat, value: int)
    requires from < |users| && to < |users|
    requires moved == Move(users, from, to, value)
    requires back == Move(moved, from, to, -value)
    ensures back == users
  {
    MoveUndone(users, from, to, value);
  }

  /** Helper of `PayThenCancelRestoresBalances` and `PaidThenRefunded`: the
      cancellation right after a balance payment refunds that payment. */
  lemma RefundOfPayment(db: Db, chargeId: int, userId: int, paid: Db, refunded: Db)
    requires IdsArePositions(db) && SettlingIndex(db.transactions, chargeId).None?
    requires PayByBalance(db, chargeId, userId) == Step(PayByBalance(db, chargeId, userId).out, paid)
    requires PayByBalance(db, chargeId, userId).out.Ok?
    requires CancelCharge(paid, chargeId).after == refunded
    ensures IsCharge(db, chargeId) && IsUser(db, userId) && IsUser(db, db.charges[chargeId - 1].recipientId)
    ensures |paid.users| == |db.users|
    ensures var c := db.charges[chargeId - 1];
      && paid.users == Move(db.users, userId - 1, c.recipientId - 1, c.value)
      && CancelCharge(paid, chargeId).out == Ok(BalanceRefunded)
      && refunded.users == Move(paid.users, userId - 1, c.recipientId - 1, -c.value)
      && refunded.charges == db.charges[chargeId - 1 := c.(status := Cancelada)]
      && refunded.transactions == paid.transactions
  {
    PaidStore(db, chargeId, userId, paid);
    RefundOfPaidCharge(db, chargeId, userId, paid, refunded);
  }

  /** Helper of `RefundOfPayment`: the cancellation of the store `paid` a
      balance payment on a charge of `db` left. The value goes back from the
      recipient to the payer and the charge ends cancelled. */
  lemma RefundOfPaidCharge(db: Db, chargeId: int, userId: int, paid: Db, refunded: Db)
    requires IsCharge(db, chargeId) && IsUser(db, userId) && IsUser(db, db.charges[chargeId - 1].recipientId)
    requires IdsArePositions(paid)
    requires |paid.users| == |db.users| && |paid.transactions| == |db.transactions| + 1
    requires var c := db.charges[chargeId - 1];
      && paid.charges == db.charges[chargeId - 1 := c.(status := Paga)]
      && SettlingIndex(paid.transactions, chargeId) == Some(|db.transactions|)
      && paid.transactions[|db.transactions|].kind == PagamentoSaldo
      && paid.transactions[|db.transactions|].userId == userId
    requires CancelCharge(paid, chargeId).after == refunded
    ensures var c := db.charges[chargeId - 1];
      && CancelCharge(paid, chargeId).out == Ok(BalanceRefunded)
      && refunded.users == Move(paid.users, userId - 1, c.recipientId - 1, -c.value)
      && refunded.charges == db.charges[chargeId - 1 := c.(status := Cancelada)]
      && refunded.transactions == paid.transactions
  {
    RefundStep(paid, chargeId);
  }

  /** Helper of `RefundOfPayment`: the store a balance payment on a charge with
      no approved transaction leaves. The value has moved, the charge is paid,
      and the payment is the charge's first approved transaction. */
  lemma PaidStore(db: Db, chargeId: int, userId: int, paid: Db)
    requires IdsArePositions(db) && SettlingIndex(db.transactions, chargeId).None?
    requires PayByBalance(db, chargeId, userId) == Step(PayByBalance(db, chargeId, userId).out, paid)
    requires PayByBalance(db, chargeId, userId).out.Ok?
    ensures IsCharge(db, chargeId) && IsUser(db, userId) && IsUser(db, db.charges[chargeId - 1].recipientId)
    ensures IdsArePositions(paid)
    ensures |paid.users| == |db.users| && |paid.transactions| == |db.transactions| + 1
    ensures var c := db.charges[chargeId - 1];
      && paid.users == Move(db.users, userId - 1, c.recipientId - 1, c.value)
      && paid.charges == db.charges[chargeId - 1 := c.(status := Paga)]
      && SettlingIndex(paid.transactions, chargeId) == Some(|db.transactions|)
      && paid.transactions[|db.transactions|].kind == PagamentoSaldo
      && paid.transactions[|db.transactions|].userId == userId
  {
    PayStep(db, chargeId, userId);
    PayByBalanceKeepsIds(db, chargeId, userId);
    PaymentIsFirstSettlement(db, chargeId, userId);
  }

  /** A card payment on a charge whose first approved transaction is a
      balance payment by `payer` keeps that transaction first, so the next
      cancellation refunds it once more: against the balances of `before`,
      which `db` shares, the payer ends one value up and the recipient one
      value down. */
  lemma CancelAfterCardPayment(db: Db, chargeId: int, cardPayer: int, repaid: Db,
                                before: Db, payer: int, recipient: int, value: int)
    requires IdsArePositions(db) && db.users == before.users
    requires PayByCard(db, chargeId, cardPayer).after == repaid
    requires IsCharge(db, chargeId)
    requires db.charges[chargeId - 1].recipientId == recipient && db.charges[chargeId - 1].value == value
    requires SettlingIndex(db.transactions, chargeId).Some?
    requires db.transactions[SettlingIndex(db.transactions, chargeId).value].kind == PagamentoSaldo
    requires db.transactions[SettlingIndex(db.transactions, chargeId).value].userId == payer
    requires IsUser(db, payer) && IsUser(db, recipient) && payer != recipient
    ensures CancelCharge(repaid, chargeId).out == Ok(BalanceRefunded)
    ensures |CancelCharge(repaid, chargeId).after.users| == |before.users|
    ensures BalanceOf(CancelCharge(repaid, chargeId).after, payer) == BalanceOf(before, payer) + value
    ensures BalanceOf(CancelCharge(repaid, chargeId).after, recipient) == BalanceOf(before, recipient) - value
  {
    CardPaymentKeepsRefund(db, chargeId, cardPayer, repaid, payer, recipient, value);
    RefundedBalances(CancelCharge(repaid, chargeId).after.users, before.users, payer - 1, recipient - 1, value);
  }

  /** Helper of `CancelAfterCardPayment`: the two balances a refund of `value`
      from `to` back to `from` changes. */
  lemma RefundedBalances(refunded: seq<User>, users: seq<User>, from: nat, to: nat, value: int)
    requires from < |users| && to < |users| && from != to
    requires refunded == Move(users, from, to, -value)
    ensures |refunded| == |users|
    ensures refunded[from].balance == users[from].balance + value
    ensures refunded[to].balance == users[to].balance - value
  {
    MoveFacts(users, from, to, -value);
  }

  /** Helper of `CancelAfterCardPayment`: the store the cancellation after a
      card payment leaves, on the users. */
  lemma CardPaymentKeepsRefund(db: Db, chargeId: int, cardPayer: int, repaid: Db,
                               payer: int, recipient: int, value: int)
    requires IdsArePositions(db)
    requires PayByCard(db, chargeId, cardPayer).after == repaid
    requires IsCharge(db, chargeId)
    requires db.charges[chargeId - 1].recipientId == recipient && db.charges[chargeId - 1].value == value
    requires SettlingIndex(db.transactions, chargeId).Some?
    requires db.transactions[SettlingIndex(db.transactions, chargeId).value].kind == PagamentoSaldo
    requires db.transactions[SettlingIndex(db.transactions, chargeId).value].userId == payer
    requires IsUser(db, payer) && IsUser(db, recipient)
    ensures CancelCharge(repaid, chargeId).out == Ok(BalanceRefunded)
    ensures CancelCharge(repaid, chargeId).after.users == Move(db.users, payer - 1, recipient - 1, -value)
  {
    PayByCardOutcome(db, chargeId, cardPayer);
    var card := PayByCard(db, chargeId, cardPayer);
    SettlingIndexOfExtension(db.transactions, [card.out.value], chargeId);
    RefundStep(card.after, chargeId);
  }

  /** Helper of `CardRepaymentThenCancelRefundsTwice`: what paying by balance
      and then cancelling leaves for a later cancellation to find. The users
      and charge rows are as before, and the payment is the charge's first
      approved transaction. */
  lemma PaidThenRefunded(db: Db, chargeId: int, userId: int, paid: Db, refunded: Db)
    requires IdsArePositions(db) && SettlingIndex(db.transactions, chargeId).None?
    requires PayByBalance(db, chargeId, userId) == Step(PayByBalance(db, chargeId, userId).out, paid)
    requires PayByBalance(db, chargeId, userId).out.Ok?
    requires CancelCharge(paid, chargeId).after == refunded
    ensures IsCharge(db, chargeId) && IsUser(db, userId) && IsUser(db, db.charges[chargeId - 1].recipientId)
    ensures && IdsArePositions(refunded)
            && refunded.users == db.users
            && refunded.charges == db.charges[chargeId - 1 := db.charges[chargeId - 1].(status := Cancelada)]
            && SettlingIndex(refunded.transactions, chargeId) == Some(|db.transactions|)
            && refunded.transactions[|db.transactions|].kind == PagamentoSaldo
            && refunded.transactions[|db.transactions|].userId == userId
  {
    RefundOfPayment(db, chargeId, userId, paid, refunded);
    RefundAfterPayment(db, chargeId, userId, paid, refunded);
    PayStep(db, chargeId, userId);
    PaymentIsFirstSettlement(db, chargeId, userId);
    PayByBalanceKeepsIds(db, chargeId, userId);
    CancelChargeKeepsIds(paid, chargeId);
  }

  /** After a refund, a card payment marks the charge paid again, and a
      second cancellation finds the old balance payment first and refunds it
      once more: the payer ends one value up, the recipient one value down.
      `paid`, `refunded` and `repaid` are the stores after each step. */
  lemma CardRepaymentThenCancelRefundsTwice(db: Db, chargeId: int, userId: int, cardPayer: int,
                                            paid: Db, refunded: Db, repaid: Db)
    requires Consistent(db)
    requires PayByBalance(db, chargeId, userId) == Step(PayByBalance(db, chargeId, userId).out, paid)
    requires PayByBalance(db, chargeId, userId).out.Ok?
    requires CancelCharge(paid, chargeId).after == refunded
    requires PayByCard(refunded, chargeId, cardPayer).after == repaid
    requires IsCharge(db, chargeId) && userId != db.charges[chargeId - 1].recipientId
    ensures IsUser(db, userId) && IsUser(db, db.charges[chargeId - 1].recipientId)
    ensures CancelCharge(repaid, chargeId).out == Ok(BalanceRefunded)
    ensures |CancelCharge(repaid, chargeId).after.users| == |db.users|
    ensures BalanceOf(CancelCharge(repaid, chargeId).after, userId) == BalanceOf(db, userId) + db.charges[chargeId - 1].value
    ensures BalanceOf(CancelCharge(repaid, chargeId).after, db.charges[chargeId - 1].recipientId)
            == BalanceOf(db, db.charges[chargeId - 1].recipientId) - db.charges[chargeId - 1].value
  {
    PayByBalanceRefusals(db, chargeId, userId);
    PendingChargeIsUnsettled(db, chargeId);
    PaidThenRefunded(db, chargeId, userId, paid, refunded);
    var c := db.charges[chargeId - 1];
    CancelAfterCardPayment(refunded, chargeId, cardPayer, repaid, db, userId, c.recipientId, c.value);
  }

  // ---------------------------------------------------------------------------
  // The routes' invariant
  // ---------------------------------------------------------------------------

  lemma CreateUserKeepsConsistent(db: Db, name: string, cpf: string, email: string, hashedPassword: string)
    requires Consistent(db)
    ensures Consistent(CreateUser(db, name, cpf, email, hashedPassword).after)
  {
    CreateUserKeepsValid(db, name, cpf, email, hashedPassword);
  }

  /** A charge whose originator exists and differs from the recipient keeps
      the store consistent. */
  lemma CreateChargeKeepsConsistent(db: Db, value: int, description: Option<string>, recipientCpf: string, originatorId: int)
    requires Consistent(db) && IsUser(db, originatorId)
    requires GetUserByCpf(db.users, recipientCpf).Some? ==>
               GetUserByCpf(db.users, recipientCpf).value.id != originatorId
    ensures Consistent(CreateCharge(db, value, description, recipientCpf, originatorId).after)
  {
    var s := CreateCharge(db, value, description, recipientCpf, originatorId);
    if s.out.Ok? {
      var u := GetUserByCpf(db.users, recipientCpf).value;
      var i :| 0 <= i < |db.users| && db.users[i] == u;
      assert IsUser(db, u.id);
      assert forall k :: 0 <= k < |s.after.charges| - 1 ==> s.after.charges[k] == db.charges[k];
    }
  }

  lemma PayByBalanceKeepsConsistent(db: Db, chargeId: int, userId: int)
    requires Consistent(db)
    ensures Consistent(PayByBalance(db, chargeId, userId).after)
  {
    PayByBalanceKeepsValid(db, chargeId, userId);
    if PayByBalance(db, chargeId, userId).out.Ok? {
      PayByBalanceMovesValue(db, chargeId, userId);
      PayByBalanceRecords(db, chargeId, userId);
    }
  }

  lemma PayByCardKeepsConsistent(db: Db, chargeId: int, userId: int)
    requires Consistent(db) && IsUser(db, userId)
    ensures Consistent(PayByCard(db, chargeId, userId).after)
  {
    PayByCardOutcome(db, chargeId, userId);
  }

  lemma DepositKeepsConsistent(db: Db, userId: int, amount: int)
    requires Consistent(db)
    ensures Consistent(DepositByCard(db, userId, amount).after)
  {
    DepositOutcome(db, userId, amount);
  }

  lemma CancelChargeKeepsConsistent(db: Db, chargeId: int)
    requires Consistent(db)
    ensures Consistent(CancelCharge(db, chargeId).after)
  {
    if CancelCharge(db, chargeId).out.Ok? {
      var ci := ChargeIndex(db.charges, chargeId).value;
      if db.charges[ci].status == Pendente {
        CancelWritesKeepConsistent(db, ci, db.users);
      } else {
        RefundKeepsConsistent(db, ci);
      }
    }
  }

  lemma RefundKeepsConsistent(db: Db, ci: nat)
    requires Consistent(db) && ci < |db.charges|
    requires RefundBalancePayment(db, ci).out.Ok?
    ensures Consistent(RefundBalancePayment(db, ci).after)
  {
    var c := db.charges[ci];
    var k := SettlingIndex(db.transactions, c.id).value;
    var pi := UserIndex(db.users, db.transactions[k].userId).value;
    var ri := UserIndex(db.users, c.recipientId).value;
    assert RefundBalancePayment(db, ci).after ==
      db.(users := Move(db.users, pi, ri, -c.value), charges := db.charges[ci := c.(status := Cancelada)]);
    MoveChangesOnlyBalances(db.users, pi, ri, -c.value);
    CancelWritesKeepConsistent(db, ci, Move(db.users, pi, ri, -c.value));
  }

  /** Cancelling the charge at `ci`, with at most the balances changed, keeps
      a store consistent: no key moves and one fewer charge is pending. */
  lemma CancelWritesKeepConsistent(db: Db, ci: nat, users: seq<User>)
    requires Consistent(db) && ci < |db.charges| && OnlyBalancesDiffer(db.users, users)
    ensures Consistent(db.(users := users, charges := db.charges[ci := db.charges[ci].(status := Cancelada)]))
  {
    var cancelled := db.(charges := db.charges[ci := db.charges[ci].(status := Cancelada)]);
    StatusChangeKeepsValid(db, ci, Cancelada);
    BalanceChangeKeepsValid(cancelled, users);
  }

  /** On a consistent store the refund path always finds its two users, and
      a balance payment always finds its recipient. */
  lemma ConsistentStoreResolvesParties(db: Db, chargeId: int, userId: int)
    requires Consistent(db)
    ensures CancelCharge(db, chargeId).out != Err(RefundPartyMissing)
    ensures PayByBalance(db, chargeId, userId).out != Err(RecipientMissing)
  {
    CancelRefusals(db, chargeId);
    PayByBalanceRefusals(db, chargeId, userId);
  }
}
