/** The database session the crud functions of `app/crud/crud.py` work on:
    three tables updated in place. Each method runs one crud function: it
    reads the rows it needs, raises (returns `Err`) before any write, or
    updates balances and statuses and appends rows, and then commits. Its
    contract is the matching `Ledger` function on the tables as they were, so
    every fact proved in `LedgerFacts` holds of the method too. */
module Crud {
  import opened Types
  import opened Ledger

  class Store {
    var users: seq<User>
    var charges: seq<Charge>
    var transactions: seq<Transaction>

    /** The tables as one value. */
    function State(): Db
      reads this
    {
      Db(users, charges, transactions)
    }

    /** A fresh database: three empty tables. */
    constructor()
      ensures State() == Db([], [], [])
      ensures Consistent(State())
    {
      users := [];
      charges := [];
      transactions := [];
    }

    /** `create_user`. The CPF and email columns are unique, so the insert is
        refused when either is taken. */
    method CreateUser(name: string, cpf: string, email: string, hashedPassword: string) returns (r: Result<User>)
      modifies this
      ensures Step(r, State()) == Ledger.CreateUser(old(State()), name, cpf, email, hashedPassword)
    {
      if GetUserByCpf(users, cpf).Some? || GetUserByEmail(users, email).Some? {
        return Err(Conflict);
      }
      var user := User(|users| + 1, name, cpf, email, hashedPassword, 0);
      users := users + [user];
      r := Ok(user);
    }

    /** `create_charge` */
    method CreateCharge(value: int, description: Option<string>, recipientCpf: string, originatorId: int)
      returns (r: Result<Charge>)
      modifies this
      ensures Step(r, State()) == Ledger.CreateCharge(old(State()), value, description, recipientCpf, originatorId)
    {
      var recipient := GetUserByCpf(users, recipientCpf);
      if recipient.None? {
        return Err(RecipientNotFound);
      }
      var charge := Charge(|charges| + 1, value, description, Pendente, originatorId, recipient.value.id);
      charges := charges + [charge];
      r := Ok(charge);
    }

    /** `make_payment_by_balance` */
    method MakePaymentByBalance(chargeId: int, userId: int) returns (r: Result<Transaction>)
      modifies this
      ensures Step(r, State()) == PayByBalance(old(State()), chargeId, userId)
    {
      var ci := ChargeIndex(charges, chargeId);
      if ci.None? {
        return Err(ChargeNotFound);
      }
      var charge := charges[ci.value];
      if charge.status != Pendente {
        return Err(NotPending);
      }
      var pi := UserIndex(users, userId);
      if pi.None? {
        return Err(PayerNotFound);
      }
      if users[pi.value].balance < charge.value {
        return Err(InsufficientFunds);
      }
      var ri := UserIndex(users, charge.recipientId);
      if ri.None? {
        return Err(RecipientMissing);
      }
      users := Credit(users, pi.value, -charge.value);
      users := Credit(users, ri.value, charge.value);
      charges := charges[ci.value := charge.(status := Paga)];
      var t := Transaction(|transactions| + 1, PagamentoSaldo, charge.value, Aprovada, userId, Some(chargeId));
      transactions := transactions + [t];
      r := Ok(t);
    }

    /** `make_deposit_by_card` */
    method MakeDepositByCard(userId: int, amount: int) returns (r: Result<Transaction>)
      modifies this
      ensures Step(r, State()) == DepositByCard(old(State()), userId, amount)
    {
      var i := UserIndex(users, userId);
      if i.None? {
        return Err(UserNotFound);
      }
      users := Credit(users, i.value, amount);
      var t := Transaction(|transactions| + 1, Deposito, amount, Aprovada, userId, None);
      transactions := transactions + [t];
      r := Ok(t);
    }

    /** `make_payment_by_card` */
    method MakePaymentByCard(chargeId: int, userId: int) returns (r: Result<Transaction>)
      modifies this
      ensures Step(r, State()) == PayByCard(old(State()), chargeId, userId)
    {
      var ci := ChargeIndex(charges, chargeId);
      if ci.None? {
        return Err(ChargeNotFound);
      }
      var charge := charges[ci.value];
      charges := charges[ci.value := charge.(status := Paga)];
      var t := Transaction(|transactions| + 1, PagamentoCartao, charge.value, Aprovada, userId, Some(chargeId));
      transactions := transactions + [t];
      r := Ok(t);
    }

    /** `cancel_charge` */
    method CancelCharge(chargeId: int) returns (r: Result<CancelReply>)
      modifies this
      ensures Step(r, State()) == Ledger.CancelCharge(old(State()), chargeId)
    {
      var ci := ChargeIndex(charges, chargeId);
      if ci.None? {
        return Err(ChargeNotFound);
      }
      var charge := charges[ci.value];
      if charge.status == Pendente {
        charges := charges[ci.value := charge.(status := Cancelada)];
        return Ok(PendingCancelled);
      }
      if charge.status == Paga {
        var k := SettlingIndex(transactions, chargeId);
        if k.Some? && transactions[k.value].kind == PagamentoSaldo {
          var pi := UserIndex(users, transactions[k.value].userId);
          var ri := UserIndex(users, charge.recipientId);
          if pi.Some? && ri.Some? {
            users := Credit(users, pi.value, charge.value);
            users := Credit(users, ri.value, -charge.value);
            charges := charges[ci.value := charge.(status := Cancelada)];
            return Ok(BalanceRefunded);
          }
          return Err(RefundPartyMissing);
        }
      }
      r := Err(CannotCancel);
    }
  }
}
