/**
 * The client's account records: the full `Account` and the two views sent over
 * the wire, one for logging in (card number and PIN) and one for showing an
 * account (card number and balance).
 */
module Models {

  /** The balance, an `f64` the client only ever copies; nothing here does arithmetic on it. */
  type Balance(==)

  datatype Account = Account(cardNumber: string, pin: string, balance: Balance)

  datatype AccountAuthView = AccountAuthView(cardNumber: string, pin: string)

  datatype AccountDetailView = AccountDetailView(cardNumber: string, balance: Balance)

  /** `Account::new`. */
  function NewAccount(cardNumber: string, pin: string, balance: Balance): (a: Account)
    ensures a.cardNumber == cardNumber && a.pin == pin && a.balance == balance
  {
    Account(cardNumber, pin, balance)
  }

  /** `From<Account> for AccountDetailView`: keeps the card number and the balance. */
  function ToDetailView(a: Account): (v: AccountDetailView)
    ensures v.cardNumber == a.cardNumber && v.balance == a.balance
  {
    AccountDetailView(a.cardNumber, a.balance)
  }

  /** `From<Account> for AccountAuthView`: keeps the card number and the PIN. */
  function ToAuthView(a: Account): (v: AccountAuthView)
    ensures v.cardNumber == a.cardNumber && v.pin == a.pin
  {
    AccountAuthView(a.cardNumber, a.pin)
  }

  /** Every account is the one `Account::new` builds from its own fields. */
  lemma NewAccountFromFields(a: Account)
    ensures NewAccount(a.cardNumber, a.pin, a.balance) == a
  {
  }

  /** `Account::new` loses nothing: different arguments give different accounts. */
  lemma NewAccountInjective(c1: string, p1: string, b1: Balance, c2: string, p2: string, b2: Balance)
    requires NewAccount(c1, p1, b1) == NewAccount(c2, p2, b2)
    ensures c1 == c2 && p1 == p2 && b1 == b2
  {
  }

  /** The detail view does not depend on the PIN: it carries none. */
  lemma DetailViewDropsPin(a: Account, pin: string)
    ensures ToDetailView(a.(pin := pin)) == ToDetailView(a)
  {
  }

  /** The auth view does not depend on the balance: it carries none. */
  lemma AuthViewDropsBalance(a: Account, balance: Balance)
    ensures ToAuthView(a.(balance := balance)) == ToAuthView(a)
  {
  }

  /**
   * Each view drops exactly one field: two accounts have the same detail view
   * exactly when they differ at most in the PIN, and the same auth view exactly
   * when they differ at most in the balance.
   */
  lemma ViewsDropExactlyOneField(a: Account, b: Account)
    ensures ToDetailView(a) == ToDetailView(b) <==> a.(pin := b.pin) == b
    ensures ToAuthView(a) == ToAuthView(b) <==> a.(balance := b.balance) == b
  {
  }

  /** Together the two views determine the account. */
  lemma ViewsTogetherDetermineAccount(a: Account, b: Account)
    requires ToDetailView(a) == ToDetailView(b) && ToAuthView(a) == ToAuthView(b)
    ensures a == b
  {
  }
}
