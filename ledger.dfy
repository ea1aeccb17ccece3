/** The ledger store as a value: the users, charges and transactions tables,
    the lookups `app/crud/crud.py` runs against them, and each crud operation
    as a function from the store before to its result and the store after.
    An operation that raises leaves the store as it was (its session is never
    committed). Ids are assigned by the tables in insertion order, from 1. */
module Ledger {
  import opened Types

  datatype Db = Db(users: seq<User>, charges: seq<Charge>, transactions: seq<Transaction>)

  /** What one operation returns, and the store it leaves behind. */
  datatype Step<T> = Step(out: Result<T>, after: Db)

  /** The two messages `cancel_charge` answers with on success. */
  datatype CancelReply = PendingCancelled | BalanceRefunded

  // ---------------------------------------------------------------------------
  // Queries
  // ---------------------------------------------------------------------------

  /** Position of the first row satisfying `p`: what `.first()` on a filtered
      query returns. `FirstIndexFinds` states that no earlier row matches and
      that only a table without a match gives `None`. */
  function FirstIndex<T>(rows: seq<T>, p: T -> bool): (r: Option<nat>)
    ensures r.Some? ==> r.value < |rows| && p(rows[r.value])
  {
    if |rows| == 0 then None
    else if p(rows[0]) then Some(0)
    else match FirstIndex(rows[1..], p)
      case None => None
      case Some(i) => Some(i + 1)
  }

  /** No row before the one `FirstIndex` finds matches, and it finds nothing
      only when no row matches. */
  lemma {:induction false} FirstIndexFinds<T>(rows: seq<T>, p: T -> bool)
    ensures var r := FirstIndex(rows, p);
      && (r.Some? ==> forall j :: 0 <= j < r.value ==> !p(rows[j]))
      && (r.None? ==> forall j :: 0 <= j < |rows| ==> !p(rows[j]))
  {
    if |rows| > 0 && !p(rows[0]) {
      FirstIndexFinds(rows[1..], p);
      assert forall j :: 0 < j < |rows| ==> rows[j] == rows[1..][j - 1];
    }
  }

  /** The rows satisfying `p`, in table order: what `.all()` on a filtered
      query returns. `WhereCounts` states that each matching row comes back
      as often as the table holds it, and `WhereConcat` fixes the order. */
  function Where(rows: seq<Charge>, p: Charge -> bool): (r: seq<Charge>)
    ensures forall x :: x in r <==> x in rows && p(x)
    ensures |r| <= |rows|
  {
    if |rows| == 0 then []
    else (if p(rows[0]) then [rows[0]] else []) + Where(rows[1..], p)
  }

  /** Each row passing the filter is returned once for each time the table
      holds it, and no other row is returned. */
  lemma {:induction false} WhereCounts(rows: seq<Charge>, p: Charge -> bool)
    ensures forall x :: multiset(Where(rows, p))[x] == if p(x) then multiset(rows)[x] else 0
  {
    if |rows| > 0 {
      WhereCounts(rows[1..], p);
      assert rows == [rows[0]] + rows[1..];
    }
  }

  /** Filtering a table split in two filters each part and keeps the parts in
      order, so the result lists the matching rows in table order. */
  lemma {:induction false} WhereConcat(a: seq<Charge>, b: seq<Charge>, p: Charge -> bool)
    ensures Where(a + b, p) == Where(a, p) + Where(b, p)
  {
    if |a| > 0 {
      assert (a + b)[1..] == a[1..] + b;
      WhereConcat(a[1..], b, p);
    } else {
      assert a + b == b;
    }
  }

  /** The filters of the lookups, one per column compared. */
  function UserHasId(id: int): User -> bool {
    (u: User) => u.id == id
  }

  function UserHasEmail(email: string): User -> bool {
    (u: User) => u.email == email
  }

  function UserHasCpf(cpf: string): User -> bool {
    (u: User) => u.cpf == cpf
  }

  function ChargeHasId(id: int): Charge -> bool {
    (c: Charge) => c.id == id
  }

  /** An approved transaction recorded against the charge. */
  predicate Settles(t: Transaction, chargeId: int) {
    t.chargeId == Some(chargeId) && t.status == Aprovada
  }

  function SettlesCharge(chargeId: int): Transaction -> bool {
    (t: Transaction) => Settles(t, chargeId)
  }

  function UserIndex(users: seq<User>, id: int): (r: Option<nat>)
    ensures r.Some? ==> r.value < |users| && users[r.value].id == id
  {
    FirstIndex(users, UserHasId(id))
  }

  function ChargeIndex(charges: seq<Charge>, id: int): (r: Option<nat>)
    ensures r.Some? ==> r.value < |charges| && charges[r.value].id == id
  {
    FirstIndex(charges, ChargeHasId(id))
  }

  /** The first approved transaction recorded against the charge. */
  function SettlingIndex(transactions: seq<Transaction>, chargeId: int): (r: Option<nat>)
    ensures r.Some? ==> r.value < |transactions| && Settles(transactions[r.value], chargeId)
  {
    FirstIndex(transactions, SettlesCharge(chargeId))
  }

  lemma UserIndexFinds(users: seq<User>, id: int)
    ensures UserIndex(users, id).None? ==> forall j :: 0 <= j < |users| ==> users[j].id != id
  {
    FirstIndexFinds(users, UserHasId(id));
  }

  lemma ChargeIndexFinds(charges: seq<Charge>, id: int)
    ensures ChargeIndex(charges, id).None? ==> forall j :: 0 <= j < |charges| ==> charges[j].id != id
  {
    FirstIndexFinds(charges, ChargeHasId(id));
  }

  lemma SettlingIndexFinds(transactions: seq<Transaction>, chargeId: int)
    ensures var r := SettlingIndex(transactions, chargeId);
      && (r.Some? ==> forall j :: 0 <= j < r.value ==> !Settles(transactions[j], chargeId))
      && (r.None? ==> forall j :: 0 <= j < |transactions| ==> !Settles(transactions[j], chargeId))
  {
    FirstIndexFinds(transactions, SettlesCharge(chargeId));
  }

  /** `get_user_by_id` */
  function GetUserById(users: seq<User>, id: int): (r: Option<User>)
    ensures r.Some? ==> r.value in users && r.value.id == id
    ensures r.None? <==> forall u :: u in users ==> u.id != id
  {
    UserIndexFinds(users, id);
    match UserIndex(users, id)
    case Some(i) => Some(users[i])
    case None => None
  }

  /** `get_user_by_email`: the first user registered with that email. */
  function GetUserByEmail(users: seq<User>, email: string): (r: Option<User>)
    ensures r.Some? ==> r.value.email == email
    ensures r.Some? ==>
              exists i :: 0 <= i < |users| && users[i] == r.value &&
                          forall j :: 0 <= j < i ==> users[j].email != email
    ensures r.None? <==> forall u :: u in users ==> u.email != email
  {
    FirstIndexFinds(users, UserHasEmail(email));
    match FirstIndex(users, UserHasEmail(email))
    case Some(i) => Some(users[i])
    case None => None
  }

  /** `get_user_by_cpf`: the first user registered with that CPF. */
  function GetUserByCpf(users: seq<User>, cpf: string): (r: Option<User>)
    ensures r.Some? ==> r.value.cpf == cpf
    ensures r.Some? ==>
              exists i :: 0 <= i < |users| && users[i] == r.value &&
                          forall j :: 0 <= j < i ==> users[j].cpf != cpf
    ensures r.None? <==> forall u :: u in users ==> u.cpf != cpf
  {
    FirstIndexFinds(users, UserHasCpf(cpf));
    match FirstIndex(users, UserHasCpf(cpf))
    case Some(i) => Some(users[i])
    case None => None
  }

  /** `get_charge_by_id` */
  function GetChargeById(charges: seq<Charge>, id: int): (r: Option<Charge>)
    ensures r.Some? ==> r.value in charges && r.value.id == id
    ensures r.None? <==> forall c :: c in charges ==> c.id != id
  {
    ChargeIndexFinds(charges, id);
    match ChargeIndex(charges, id)
    case Some(i) => Some(charges[i])
    case None => None
  }

  /** The optional status filter of the charge listings: an absent or empty
      status filters nothing (`if status:`), any other text must equal the
      stored status name. */
  predicate StatusMatches(c: Charge, status: Option<string>) {
    status.None? || status.value == "" || StatusName(c.status) == status.value
  }

  /** `get_charges_sent_by_user` */
  function ChargesSentByUser(charges: seq<Charge>, userId: int, status: Option<string>): (r: seq<Charge>)
    ensures forall c :: c in r <==> c in charges && c.originatorId == userId && StatusMatches(c, status)
  {
    Where(charges, (c: Charge) => c.originatorId == userId && StatusMatches(c, status))
  }

  /** `get_charges_received_by_user` */
  function ChargesReceivedByUser(charges: seq<Charge>, userId: int, status: Option<string>): (r: seq<Charge>)
    ensures forall c :: c in r <==> c in charges && c.recipientId == userId && StatusMatches(c, status)
  {
    Where(charges, (c: Charge) => c.recipientId == userId && StatusMatches(c, status))
  }

  // ---------------------------------------------------------------------------
  // Store invariants
  // ---------------------------------------------------------------------------

  /** Autoincrement ids with no deletions: row i has id i + 1. */
  predicate IdsArePositions(db: Db) {
    && (forall i :: 0 <= i < |db.users| ==> db.users[i].id == i + 1)
    && (forall i :: 0 <= i < |db.charges| ==> db.charges[i].id == i + 1)
    && (forall i :: 0 <= i < |db.transactions| ==> db.transactions[i].id == i + 1)
  }

  /** The unique constraints on `users.cpf` and `users.email`. */
  predicate UniqueIdentities(users: seq<User>) {
    forall i, j :: 0 <= i < j < |users| ==> users[i].cpf != users[j].cpf && users[i].email != users[j].email
  }

  /** What the store itself guarantees, whichever operations ran. */
  predicate Valid(db: Db) {
    IdsArePositions(db) && UniqueIdentities(db.users)
  }

  predicate IsUser(db: Db, id: int) {
    1 <= id <= |db.users|
  }

  predicate IsCharge(db: Db, id: int) {
    1 <= id <= |db.charges|
  }

  /** Every foreign key resolves, and no charge names the same user twice. */
  predicate Linked(db: Db) {
    && (forall i :: 0 <= i < |db.charges| ==>
          IsUser(db, db.charges[i].originatorId) && IsUser(db, db.charges[i].recipientId)
          && db.charges[i].originatorId != db.charges[i].recipientId)
    && (forall k :: 0 <= k < |db.transactions| ==>
          IsUser(db, db.transactions[k].userId)
          && (db.transactions[k].chargeId.Some? ==> IsCharge(db, db.transactions[k].chargeId.value)))
  }

  /** A charge that is still pending has no transaction recorded against it. */
  predicate PendingUnsettled(db: Db)
    requires Linked(db)
  {
    forall k :: 0 <= k < |db.transactions| && db.transactions[k].chargeId.Some? ==>
      db.charges[db.transactions[k].chargeId.value - 1].status != Pendente
  }

  /** The invariant the routes keep: the store's own guarantees, resolving
      foreign keys, no self-charge, and no settled pending charge. */
  predicate Consistent(db: Db) {
    Valid(db) && Linked(db) && PendingUnsettled(db)
  }

  // ---------------------------------------------------------------------------
  // Balances
  // ---------------------------------------------------------------------------

  /** The user at position i with `delta` added to the balance. */
  function Credit(users: seq<User>, i: nat, delta: int): seq<User>
    requires i < |users|
  {
    users[i := users[i].(balance := users[i].balance + delta)]
  }

  /** Take `value` from the user at `from`, then give it to the user at `to`,
      the second update applying to the row the first produced (so `from ==
      to` changes nothing, as with the one ORM object the code updates twice). */
  function Move(users: seq<User>, from: nat, to: nat, value: int): seq<User>
    requires from < |users| && to < |users|
  {
    Credit(Credit(users, from, -value), to, value)
  }

  /** Sum of the balances of the first `n` users. */
  function PrefixBalance(users: seq<User>, n: nat): int
    requires n <= |users|
  {
    if n == 0 then 0 else PrefixBalance(users, n - 1) + users[n - 1].balance
  }

  /** Sum of all balances. */
  function TotalBalance(users: seq<User>): int {
    PrefixBalance(users, |users|)
  }

  // ---------------------------------------------------------------------------
  // Operations
  // ---------------------------------------------------------------------------

  /** `create_user`: a new user with balance 0; the unique constraints refuse
      a CPF or email already registered. */
  function CreateUser(db: Db, name: string, cpf: string, email: string, hashedPassword: string): (s: Step<User>)
    ensures s.out.Err? ==> s.after == db
  {
    if GetUserByCpf(db.users, cpf).Some? || GetUserByEmail(db.users, email).Some? then
      Step(Err(Conflict), db)
    else
      var u := User(|db.users| + 1, name, cpf, email, hashedPassword, 0);
      Step(Ok(u), db.(users := db.users + [u]))
  }

  /** `create_charge`: a pending charge from `originatorId` to the user
      registered with `recipientCpf`. */
  function CreateCharge(db: Db, value: int, description: Option<string>, recipientCpf: string, originatorId: int)
    : (s: Step<Charge>)
    ensures s.out.Err? ==> s.after == db
  {
    match GetUserByCpf(db.users, recipientCpf)
    case None => Step(Err(RecipientNotFound), db)
    case Some(recipient) =>
      var c := Charge(|db.charges| + 1, value, description, Pendente, originatorId, recipient.id);
      Step(Ok(c), db.(charges := db.charges + [c]))
  }

  /** `make_payment_by_balance`: the payer's balance goes to the charge's
      recipient. The recipient is credited on the already debited rows, as the
      session's single object per row has it when payer and recipient coincide.
      A missing recipient row fails on attribute access, before any commit. */
  function PayByBalance(db: Db, chargeId: int, userId: int): (s: Step<Transaction>)
    ensures s.out.Err? ==> s.after == db
  {
    match ChargeIndex(db.charges, chargeId)
    case None => Step(Err(ChargeNotFound), db)
    case Some(ci) =>
      if db.charges[ci].status != Pendente then Step(Err(NotPending), db)
      else match UserIndex(db.users, userId)
        case None => Step(Err(PayerNotFound), db)
        case Some(pi) =>
          if db.users[pi].balance < db.charges[ci].value then Step(Err(InsufficientFunds), db)
          else Transfer(db, ci, pi, userId)
  }

  /** The funded branch of `make_payment_by_balance`, for the charge at
      position `ci` and the payer at position `pi`. */
  function Transfer(db: Db, ci: nat, pi: nat, userId: int): (s: Step<Transaction>)
    requires ci < |db.charges| && pi < |db.users|
    ensures s.out.Err? ==> s.after == db
  {
    var c := db.charges[ci];
    match UserIndex(db.users, c.recipientId)
    case None => Step(Err(RecipientMissing), db)
    case Some(ri) =>
      var t := Transaction(|db.transactions| + 1, PagamentoSaldo, c.value, Aprovada, userId, Some(c.id));
      Step(Ok(t), Db(Move(db.users, pi, ri, c.value), db.charges[ci := c.(status := Paga)], db.transactions + [t]))
  }

  /** `make_deposit_by_card`: the amount is added as given, with no sign check. */
  function DepositByCard(db: Db, userId: int, amount: int): (s: Step<Transaction>)
    ensures s.out.Err? ==> s.after == db
  {
    match UserIndex(db.users, userId)
    case None => Step(Err(UserNotFound), db)
    case Some(i) =>
      var t := Transaction(|db.transactions| + 1, Deposito, amount, Aprovada, userId, None);
      Step(Ok(t), db.(users := Credit(db.users, i, amount), transactions := db.transactions + [t]))
  }

  /** `make_payment_by_card`: the charge is marked paid whatever its status,
      and no balance moves. */
  function PayByCard(db: Db, chargeId: int, userId: int): (s: Step<Transaction>)
    ensures s.out.Err? ==> s.after == db
  {
    match ChargeIndex(db.charges, chargeId)
    case None => Step(Err(ChargeNotFound), db)
    case Some(ci) =>
      var c := db.charges[ci];
      var t := Transaction(|db.transactions| + 1, PagamentoCartao, c.value, Aprovada, userId, Some(chargeId));
      Step(Ok(t), db.(charges := db.charges[ci := c.(status := Paga)], transactions := db.transactions + [t]))
  }

  /** `cancel_charge`: a pending charge is cancelled outright; a paid charge
      whose first approved transaction is a balance payment is refunded to that
      transaction's user, debited from the recipient, and cancelled; anything
      else is refused. */
  function CancelCharge(db: Db, chargeId: int): (s: Step<CancelReply>)
    ensures s.out.Err? ==> s.after == db
  {
    match ChargeIndex(db.charges, chargeId)
    case None => Step(Err(ChargeNotFound), db)
    case Some(ci) =>
      var c := db.charges[ci];
      if c.status == Pendente then
        Step(Ok(PendingCancelled), db.(charges := db.charges[ci := c.(status := Cancelada)]))
      else if c.status != Paga then
        Step(Err(CannotCancel), db)
      else
        RefundBalancePayment(db, ci)
  }

  /** The paid branch of `cancel_charge`, for the charge at position `ci`. */
  function RefundBalancePayment(db: Db, ci: nat): (s: Step<CancelReply>)
    requires ci < |db.charges|
    ensures s.out.Err? ==> s.after == db
  {
    var c := db.charges[ci];
    match SettlingIndex(db.transactions, c.id)
    case None => Step(Err(CannotCancel), db)
    case Some(k) =>
      var t := db.transactions[k];
      if t.kind != PagamentoSaldo then Step(Err(CannotCancel), db)
      else match (UserIndex(db.users, t.userId), UserIndex(db.users, c.recipientId))
        case (Some(pi), Some(ri)) =>
          Step(Ok(BalanceRefunded), db.(users := Move(db.users, pi, ri, -c.value), charges := db.charges[ci := c.(status := Cancelada)]))
        case _ => Step(Err(RefundPartyMissing), db)
  }
}
