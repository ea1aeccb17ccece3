/** Record shapes of the payment ledger (users, charges, transactions), the
    status vocabularies stored in them, and the failures the operations raise.
    Money is an integer number of cents. */
module Types {

  datatype Option<+T> = None | Some(value: T)

  /** A charge's life cycle: created `Pendente`, settled `Paga`, or `Cancelada`. */
  datatype ChargeStatus = Pendente | Paga | Cancelada

  /** Kinds of ledger event recorded in the transactions table. */
  datatype TransactionType = PagamentoSaldo | PagamentoCartao | Deposito

  /** Status column of a transaction; every operation writes `Aprovada`,
      `Pendente` is the column default and `Rejeitada` is never written. */
  datatype TransactionStatus = Aprovada | Rejeitada | TransacaoPendente

  /** The text a charge status is stored as, which the status filter compares. */
  function StatusName(s: ChargeStatus): (name: string)
    ensures name != ""
  {
    match s
    case Pendente => "Pendente"
    case Paga => "Paga"
    case Cancelada => "Cancelada"
  }

  /** No two charge statuses are stored under the same name, so the status
      filter selects exactly one status. */
  lemma StatusNameInjective(s: ChargeStatus, t: ChargeStatus)
    ensures StatusName(s) == StatusName(t) ==> s == t
  {
  }

  datatype User = User(
    id: int,
    name: string,
    cpf: string,
    email: string,
    hashedPassword: string,
    balance: int)

  datatype Charge = Charge(
    id: int,
    value: int,
    description: Option<string>,
    status: ChargeStatus,
    originatorId: int,
    recipientId: int)

  datatype Transaction = Transaction(
    id: int,
    kind: TransactionType,
    amount: int,
    status: TransactionStatus,
    userId: int,
    chargeId: Option<int>)

  /** Every failure an operation can raise, before it writes anything. */
  datatype Failure =
    // request body validation (pydantic)
    | InvalidCpf
    | InvalidRecipientCpf
    | MissingLoginIdentifier
    // store lookups and guards
    | ChargeNotFound
    | RecipientNotFound
    | PayerNotFound
    | UserNotFound
    | NotPending
    | InsufficientFunds
    | RecipientMissing
    | RefundPartyMissing
    | CannotCancel
    | Conflict
    | BalanceTypeError
    // access rules
    | NonPositiveValue
    | SelfCharge
    | SelfPayment
    | NotOriginator
    | PaymentNotAuthorized
    | DepositNotAuthorized
    | CpfTaken
    | EmailTaken
    | BadCredentials

  /** The HTTP status each failure is answered with. `RecipientMissing` is the
      unhandled attribute error on a missing recipient row, `Conflict` the
      store's unique-constraint error on insert, and `BalanceTypeError` the
      type error of adding a decimal amount to a float balance: all three
      surface as 500. */
  function HttpStatus(f: Failure): (code: int)
    ensures 400 <= code <= 500
    ensures code == 422 <==> f == InvalidCpf || f == InvalidRecipientCpf || f == MissingLoginIdentifier
    ensures code == 404 <==> f in {ChargeNotFound, RecipientNotFound, PayerNotFound, UserNotFound}
    ensures code == 401 <==> f == BadCredentials
    ensures code == 403 <==> f == NotOriginator
    ensures code == 500 <==> f == RecipientMissing || f == Conflict || f == BalanceTypeError
  {
    match f
    case InvalidCpf => 422
    case InvalidRecipientCpf => 422
    case MissingLoginIdentifier => 422
    case ChargeNotFound => 404
    case RecipientNotFound => 404
    case PayerNotFound => 404
    case UserNotFound => 404
    case NotPending => 400
    case InsufficientFunds => 400
    case RecipientMissing => 500
    case RefundPartyMissing => 400
    case CannotCancel => 400
    case Conflict => 500
    case BalanceTypeError => 500
    case NonPositiveValue => 400
    case SelfCharge => 400
    case SelfPayment => 400
    case NotOriginator => 403
    case PaymentNotAuthorized => 400
    case DepositNotAuthorized => 400
    case CpfTaken => 400
    case EmailTaken => 400
    case BadCredentials => 401
  }

  datatype Result<+T> = Ok(value: T) | Err(error: Failure)
}
