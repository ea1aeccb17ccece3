/** The HTTP routes in front of the crud layer (`app/routers/charges.py`,
    `app/routers/payments.py`, `app/routers/users.py`): request validation,
    the access rules checked before any write, and then one crud call. The
    authenticated caller is an existing user, given by id; the external
    authorizer's answer is a boolean input, and the password check an
    abstract predicate. Every route keeps the store `Consistent`. */
module Routers {
  import opened Types
  import opened Ledger
  import opened LedgerFacts
  import opened Schemas
  import opened Crud

  /** `POST /charges/`: the recipient CPF is normalised and checked by the
      request schema; then the value must be positive, the recipient must
      exist, and nobody may charge themselves. */
  method CreateCharge(store: Store, caller: int, value: int, description: Option<string>, recipientCpf: string)
    returns (r: Result<Charge>)
    requires Consistent(store.State()) && IsUser(store.State(), caller)
    modifies store
    ensures Consistent(store.State())
    ensures ChargeRecipientCpf(recipientCpf).Err? ==>
              r == Err(InvalidRecipientCpf) && store.State() == old(store.State())
    ensures ChargeRecipientCpf(recipientCpf).Ok? ==>
              var cpf := ChargeRecipientCpf(recipientCpf).value;
              var recipient := GetUserByCpf(old(store.users), cpf);
              && (value <= 0 ==> r == Err(NonPositiveValue) && store.State() == old(store.State()))
              && (value > 0 && recipient.None? ==> r == Err(RecipientNotFound) && store.State() == old(store.State()))
              && (value > 0 && recipient.Some? && recipient.value.id == caller ==>
                    r == Err(SelfCharge) && store.State() == old(store.State()))
              && (value > 0 && recipient.Some? && recipient.value.id != caller ==>
                    Step(r, store.State()) == Ledger.CreateCharge(old(store.State()), value, description, cpf, caller))
    ensures r.Ok? ==> r.value.value > 0 && r.value.originatorId == caller && r.value.recipientId != caller
    ensures r.Err? ==> HttpStatus(r.error) != 500
  {
    var cpf := ChargeRecipientCpf(recipientCpf);
    if cpf.Err? {
      return Err(cpf.error);
    }
    if value <= 0 {
      return Err(NonPositiveValue);
    }
    var recipient := GetUserByCpf(store.users, cpf.value);
    if recipient.None? {
      return Err(RecipientNotFound);
    }
    if recipient.value.id == caller {
      return Err(SelfCharge);
    }
    CreateChargeKeepsConsistent(store.State(), value, description, cpf.value, caller);
    CreateChargeOutcome(store.State(), value, description, cpf.value, caller);
    r := store.CreateCharge(value, description, cpf.value, caller);
  }

  /** `POST /charges/{charge_id}/cancel`: only the charge's originator may
      cancel it. */
  method CancelCharge(store: Store, caller: int, chargeId: int) returns (r: Result<CancelReply>)
    requires Consistent(store.State())
    modifies store
    ensures Consistent(store.State())
    ensures GetChargeById(old(store.charges), chargeId).None? ==>
              r == Err(ChargeNotFound) && store.State() == old(store.State())
    ensures GetChargeById(old(store.charges), chargeId).Some? ==>
              var c := GetChargeById(old(store.charges), chargeId).value;
              && (c.originatorId != caller ==> r == Err(NotOriginator) && store.State() == old(store.State()))
              && (c.originatorId == caller ==>
                    Step(r, store.State()) == Ledger.CancelCharge(old(store.State()), chargeId))
    ensures r.Ok? ==> IsCharge(old(store.State()), chargeId) && old(store.charges)[chargeId - 1].originatorId == caller
    ensures r.Err? ==> HttpStatus(r.error) != 500
  {
    var charge := GetChargeById(store.charges, chargeId);
    if charge.None? {
      return Err(ChargeNotFound);
    }
    if charge.value.originatorId != caller {
      return Err(NotOriginator);
    }
    CancelChargeKeepsConsistent(store.State(), chargeId);
    ChargeAt(store.charges, chargeId);
    r := store.CancelCharge(chargeId);
  }

  /** `POST /payments/by-balance`: the charge must exist, and its recipient
      may not pay it; the caller is the payer. */
  method PaymentByBalance(store: Store, caller: int, chargeId: int) returns (r: Result<Transaction>)
    requires Consistent(store.State())
    modifies store
    ensures Consistent(store.State())
    ensures GetChargeById(old(store.charges), chargeId).None? ==>
              r == Err(ChargeNotFound) && store.State() == old(store.State())
    ensures GetChargeById(old(store.charges), chargeId).Some? ==>
              var c := GetChargeById(old(store.charges), chargeId).value;
              && (c.recipientId == caller ==> r == Err(SelfPayment) && store.State() == old(store.State()))
              && (c.recipientId != caller ==>
                    Step(r, store.State()) == PayByBalance(old(store.State()), chargeId, caller))
    ensures r.Ok? ==> IsCharge(old(store.State()), chargeId) && old(store.charges)[chargeId - 1].recipientId != caller
    ensures r.Err? ==> HttpStatus(r.error) != 500
  {
    var charge := GetChargeById(store.charges, chargeId);
    if charge.None? {
      return Err(ChargeNotFound);
    }
    if caller == charge.value.recipientId {
      return Err(SelfPayment);
    }
    PayByBalanceKeepsConsistent(store.State(), chargeId, caller);
    ConsistentStoreResolvesParties(store.State(), chargeId, caller);
    ChargeAt(store.charges, chargeId);
    r := store.MakePaymentByBalance(chargeId, caller);
  }

  /** `POST /payments/by-card`: refused unless the external authorizer
      approves; the caller is the payer. */
  method PaymentByCard(store: Store, caller: int, chargeId: int, authorized: bool) returns (r: Result<Transaction>)
    requires Consistent(store.State()) && IsUser(store.State(), caller)
    modifies store
    ensures Consistent(store.State())
    ensures !authorized ==> r == Err(PaymentNotAuthorized) && store.State() == old(store.State())
    ensures authorized ==> Step(r, store.State()) == PayByCard(old(store.State()), chargeId, caller)
    ensures r.Err? ==> HttpStatus(r.error) != 500
  {
    if !authorized {
      return Err(PaymentNotAuthorized);
    }
    PayByCardKeepsConsistent(store.State(), chargeId, caller);
    r := store.MakePaymentByCard(chargeId, caller);
  }

  /** `POST /payments/deposit`: refused unless the external authorizer
      approves; the caller's own balance is credited. This is the intended
      behaviour; `DepositAsWritten` is what the code does. */
  method Deposit(store: Store, caller: int, amount: int, authorized: bool) returns (r: Result<Transaction>)
    requires Consistent(store.State())
    modifies store
    ensures Consistent(store.State())
    ensures !authorized ==> r == Err(DepositNotAuthorized) && store.State() == old(store.State())
    ensures authorized ==> Step(r, store.State()) == DepositByCard(old(store.State()), caller, amount)
    ensures r.Err? ==> HttpStatus(r.error) != 500
  {
    if !authorized {
      return Err(DepositNotAuthorized);
    }
    DepositKeepsConsistent(store.State(), caller, amount);
    r := store.MakeDepositByCard(caller, amount);
  }

  /** `POST /payments/deposit` as the code runs it. The request's amount is a
      decimal, and the balance the float column reads back is a float; adding
      the one to the other is a type error. So once the user lookup succeeds,
      every authorized deposit fails with a 500 before the commit, and nothing
      changes. */
  function DepositAsWritten(db: Db, caller: int, amount: int, authorized: bool): (s: Step<Transaction>)
    ensures s.out.Err? && s.after == db
    ensures s.out == Err(DepositNotAuthorized) <==> !authorized
  {
    if !authorized then Step(Err(DepositNotAuthorized), db)
    else match UserIndex(db.users, caller)
      case None => Step(Err(UserNotFound), db)
      case Some(_) => Step(Err(BalanceTypeError), db)
  }

  /** For every authenticated caller and every amount, the deposit as written
      answers 500 and credits nothing, where the intended deposit succeeds and
      credits the caller with the amount. */
  lemma DepositAsWrittenCreditsNothing(db: Db, caller: int, amount: int)
    requires Consistent(db) && IsUser(db, caller)
    ensures DepositAsWritten(db, caller, amount, true) == Step(Err(BalanceTypeError), db)
    ensures HttpStatus(DepositAsWritten(db, caller, amount, true).out.error) == 500
    ensures DepositByCard(db, caller, amount).out.Ok?
    ensures |DepositByCard(db, caller, amount).after.users| == |db.users|
    ensures BalanceOf(DepositByCard(db, caller, amount).after, caller) == BalanceOf(db, caller) + amount
  {
    UserAt(db.users, caller);
    DepositOutcome(db, caller, amount);
  }

  /** `POST /users/`: the CPF is normalised and checked by the request
      schema; a CPF already registered is refused first, then an email
      already registered. `hashedPassword` stands for the bcrypt hash. */
  method CreateUser(store: Store, name: string, cpf: string, email: string, hashedPassword: string)
    returns (r: Result<User>)
    requires Consistent(store.State())
    modifies store
    ensures Consistent(store.State())
    ensures UserCreateCpf(cpf).Err? ==> r == Err(InvalidCpf) && store.State() == old(store.State())
    ensures UserCreateCpf(cpf).Ok? ==>
              var d := UserCreateCpf(cpf).value;
              && (GetUserByCpf(old(store.users), d).Some? ==> r == Err(CpfTaken) && store.State() == old(store.State()))
              && (GetUserByCpf(old(store.users), d).None? && GetUserByEmail(old(store.users), email).Some? ==>
                    r == Err(EmailTaken) && store.State() == old(store.State()))
              && (GetUserByCpf(old(store.users), d).None? && GetUserByEmail(old(store.users), email).None? ==>
                    && r == Ok(User(|old(store.users)| + 1, name, d, email, hashedPassword, 0))
                    && store.State() == old(store.State()).(users := old(store.users) + [r.value]))
    ensures r.Err? ==> HttpStatus(r.error) != 500
  {
    var d := UserCreateCpf(cpf);
    if d.Err? {
      return Err(d.error);
    }
    if GetUserByCpf(store.users, d.value).Some? {
      return Err(CpfTaken);
    }
    if GetUserByEmail(store.users, email).Some? {
      return Err(EmailTaken);
    }
    CreateUserKeepsConsistent(store.State(), name, d.value, email, hashedPassword);
    r := store.CreateUser(name, d.value, email, hashedPassword);
  }

  /** The user `login_for_access_token` authenticates: the username is tried
      as an email first and only then as a CPF. */
  function LoginUser(users: seq<User>, username: string): (r: Option<User>)
    ensures r.Some? ==> r.value in users && (r.value.email == username || r.value.cpf == username)
    ensures (exists u :: u in users && u.email == username) ==> r.Some? && r.value.email == username
    ensures r.None? <==> forall u :: u in users ==> u.email != username && u.cpf != username
  {
    match GetUserByEmail(users, username)
    case Some(u) => Some(u)
    case None => GetUserByCpf(users, username)
  }

  /** `POST /users/token`: the token subject for a user found by
      `LoginUser` whose password checks, which is the user's email when it
      is not empty and the CPF otherwise. */
  function LoginForAccessToken(users: seq<User>, username: string, password: string,
                               verifyPassword: (string, string) -> bool): (r: Result<string>)
    ensures r.Err? ==> r.error == BadCredentials
    ensures r.Ok? <==> LoginUser(users, username).Some? &&
                       verifyPassword(password, LoginUser(users, username).value.hashedPassword)
    ensures r.Ok? ==>
              var u := LoginUser(users, username).value;
              r.value == (if u.email != "" then u.email else u.cpf)
  {
    match LoginUser(users, username)
    case None => Err(BadCredentials)
    case Some(u) =>
      if !verifyPassword(password, u.hashedPassword) then Err(BadCredentials)
      else if u.email != "" then Ok(u.email)
      else Ok(u.cpf)
  }

  /** With unique emails, a registered user logs in with their own email and
      gets it back as the token subject. */
  lemma LoginByEmail(users: seq<User>, i: nat, password: string, verifyPassword: (string, string) -> bool)
    requires UniqueIdentities(users) && i < |users|
    requires users[i].email != "" && verifyPassword(password, users[i].hashedPassword)
    ensures LoginForAccessToken(users, users[i].email, password, verifyPassword) == Ok(users[i].email)
  {
    var u := LoginUser(users, users[i].email).value;
    var j :| 0 <= j < |users| && users[j] == u;
    assert j == i;
  }

  /** With unique CPFs, a registered user logs in with their CPF as long as
      no user's email is that CPF, and the subject is the user's email when
      it is not empty. */
  lemma LoginByCpf(users: seq<User>, i: nat, password: string, verifyPassword: (string, string) -> bool)
    requires UniqueIdentities(users) && i < |users|
    requires forall u :: u in users ==> u.email != users[i].cpf
    requires verifyPassword(password, users[i].hashedPassword)
    ensures LoginForAccessToken(users, users[i].cpf, password, verifyPassword) ==
              Ok(if users[i].email != "" then users[i].email else users[i].cpf)
  {
    var u := LoginUser(users, users[i].cpf).value;
    var j :| 0 <= j < |users| && users[j] == u;
    assert j == i;
  }

  /** A wrong password is refused whichever identifier is given. */
  lemma LoginRefusesWrongPassword(users: seq<User>, username: string, password: string,
                                  verifyPassword: (string, string) -> bool)
    requires forall u :: u in users ==> !verifyPassword(password, u.hashedPassword)
    ensures LoginForAccessToken(users, username, password, verifyPassword) == Err(BadCredentials)
  {
  }
}
