/** The domain objects of packages bank.user and bank.account: a user whose
    details and account list change in place (User.java, UserDetails.java)
    and a bank account whose balance and transaction history change in
    place (Account.java). Balances and amounts are integer cents; `now`
    parameters stand for `new Date()`. */
module Domain {
  import opened Options
  import opened Ids
  import opened Roles

  class UserDetails {
    var username: string
    var password: string
    var email: string
    var name: string
    var age: int
    var tel: string

    constructor (username: string, password: string, email: string, name: string, age: int, tel: string)
      ensures this.username == username && this.password == password && this.email == email
      ensures this.name == name && this.age == age && this.tel == tel
    {
      this.username := username;
      this.password := password;
      this.email := email;
      this.name := name;
      this.age := age;
      this.tel := tel;
    }
  }

  /** The accounts of `s` whose number differs from `number`, in order:
      what `removeIf(a -> a.getAccountNumber().equals(number))` keeps. */
  function WithoutNumber(s: seq<Account>, number: string): (r: seq<Account>)
    reads s
    ensures |r| <= |s|
    ensures forall i :: 0 <= i < |r| ==> r[i] in s && r[i].accountNumber != number
    ensures forall i :: 0 <= i < |s| && s[i].accountNumber != number ==> s[i] in r
  {
    if s == [] then []
    else if s[0].accountNumber == number then WithoutNumber(s[1..], number)
    else [s[0]] + WithoutNumber(s[1..], number)
  }

  /** Filtering keeps the relative order: it distributes over concatenation. */
  lemma {:induction false} WithoutNumberAppend(s: seq<Account>, t: seq<Account>, number: string)
    ensures WithoutNumber(s + t, number) == WithoutNumber(s, number) + WithoutNumber(t, number)
  {
    if s != [] {
      assert (s + t)[1..] == s[1..] + t;
      WithoutNumberAppend(s[1..], t, number);
    } else {
      assert s + t == t;
    }
  }

  /** bank.user.User. The Java class is abstract; Customer, Teller and
      Administrator add nothing the core relies on. */
  class User {
    var id: int
    var role: Role
    var createdDate: int
    var details: UserDetails
    var accounts: seq<Account>

    /** User(id, details, role, createdDate, accounts): a stored user
        restored as is, with a copy of its account list, empty for null. */
    constructor Restore(id: int, details: UserDetails, role: Role, createdDate: int, accounts: Option<seq<Account>>)
      ensures this.id == id && this.details == details && this.role == role && this.createdDate == createdDate
      ensures accounts.Some? ==> this.accounts == accounts.value
      ensures accounts.None? ==> this.accounts == []
    {
      this.id := id;
      this.details := details;
      this.role := role;
      this.createdDate := createdDate;
      this.accounts := if accounts.Some? then accounts.value else [];
    }

    /** User(details, role): a new user numbered by the class-wide counter
        (generateId), with no accounts. */
    constructor (details: UserDetails, role: Role, ids: IdCounter, now: int)
      requires ids.Valid()
      modifies ids
      ensures ids.Valid() && id == ids.last
      ensures old(ids.last) < ids.max ==> id == old(ids.last) + 1
      ensures this.details == details && this.role == role && createdDate == now && accounts == []
    {
      var next := ids.Next();
      this.id := next;
      this.details := details;
      this.role := role;
      this.createdDate := now;
      this.accounts := [];
    }

    /** setDetails: a null argument throws IllegalArgumentException and
        keeps the old details (ok is false). */
    method SetDetails(details: UserDetails?) returns (ok: bool)
      modifies this`details
      ensures ok <==> details != null
      ensures ok ==> this.details == details
      ensures !ok ==> this.details == old(this.details)
    {
      if details == null {
        return false;
      }
      this.details := details;
      return true;
    }

    /** updateDetails: username, password, email and name are copied from
        the argument into the user's own details object; age and telephone
        stay. */
    method UpdateDetails(newDetails: UserDetails)
      modifies details
      ensures details.username == old(newDetails.username) && details.password == old(newDetails.password)
      ensures details.email == old(newDetails.email) && details.name == old(newDetails.name)
      ensures details.age == old(details.age) && details.tel == old(details.tel)
    {
      var username, password, email, name := newDetails.username, newDetails.password, newDetails.email, newDetails.name;
      details.username := username;
      details.password := password;
      details.email := email;
      details.name := name;
    }

    /** addAccount: appended at the end of the list. */
    method AddAccount(account: Account)
      modifies this`accounts
      ensures accounts == old(accounts) + [account]
    {
      accounts := accounts + [account];
    }

    /** removeAccount: every account with that number goes, the rest keep
        their order. */
    method RemoveAccount(number: string)
      modifies this`accounts
      ensures accounts == WithoutNumber(old(accounts), number)
    {
      accounts := WithoutNumber(accounts, number);
    }
  }

  /** A bank.transaction.Transaction as the account methods build it. */
  datatype Entry = Entry(kind: string, status: string, amount: int, recipient: string)

  /** How deposit and withdraw end. Java throws IllegalArgumentException for
      the first two and a NullPointerException, from the log line, when the
      account has no customer. */
  datatype Movement = Applied | NonPositiveAmount | InsufficientFunds | NoCustomer

  /** bank.account.Account (abstract in Java; Card, Check and Saving add
      nothing modelled here). */
  class Account {
    var id: int
    var accountNumber: string
    var accountType: string
    var balance: int
    var status: string
    var customer: User?
    var transactions: seq<Entry>

    /** The five-argument constructor; the four-argument one is this with
        a null customer. Either draws the next id from the class-wide counter
        and starts with no transactions. */
    constructor (accountNumber: string, accountType: string, balance: int, status: string, customer: User?, ids: IdCounter)
      requires ids.Valid()
      modifies ids
      ensures ids.Valid() && id == ids.last
      ensures old(ids.last) < ids.max ==> id == old(ids.last) + 1
      ensures this.accountNumber == accountNumber && this.accountType == accountType
      ensures this.balance == balance && this.status == status && this.customer == customer
      ensures transactions == []
    {
      var next := ids.Next();
      this.id := next;
      this.accountNumber := accountNumber;
      this.accountType := accountType;
      this.balance := balance;
      this.status := status;
      this.customer := customer;
      this.transactions := [];
    }

    /** addTransaction: appended at the end, earlier entries kept. */
    method AddTransaction(transaction: Entry)
      modifies this`transactions
      ensures transactions == old(transactions) + [transaction]
    {
      transactions := transactions + [transaction];
    }

    /** deposit: a positive amount is added and one "Deposit" entry naming
        the customer is appended; otherwise nothing changes. */
    method Deposit(amount: int) returns (r: Movement)
      modifies this`balance, this`transactions
      ensures r != InsufficientFunds
      ensures r == NonPositiveAmount <==> amount <= 0
      ensures r == NoCustomer <==> amount > 0 && customer == null
      ensures r != Applied ==> balance == old(balance) && transactions == old(transactions)
      ensures r == Applied ==> balance == old(balance) + amount
      ensures r == Applied ==> transactions == old(transactions) + [Entry("Deposit", "Completed", amount, customer.details.name)]
    {
      if amount <= 0 {
        return NonPositiveAmount;
      }
      if customer == null {
        return NoCustomer;
      }
      balance := balance + amount;
      var transaction := Entry("Deposit", "Completed", amount, customer.details.name);
      AddTransaction(transaction);
      return Applied;
    }

    /** withdraw: a positive amount not above the balance is subtracted and
        one "Withdrawal" entry naming the customer is appended; otherwise
        nothing changes. A balance that was not negative stays so. */
    method Withdraw(amount: int) returns (r: Movement)
      modifies this`balance, this`transactions
      ensures r == NonPositiveAmount <==> amount <= 0
      ensures r == InsufficientFunds <==> 0 < amount && old(balance) < amount
      ensures r == NoCustomer <==> 0 < amount <= old(balance) && customer == null
      ensures r != Applied ==> balance == old(balance) && transactions == old(transactions)
      ensures r == Applied ==> balance == old(balance) - amount
      ensures r == Applied ==> transactions == old(transactions) + [Entry("Withdrawal", "Completed", amount, customer.details.name)]
      ensures old(balance) >= 0 ==> balance >= 0
    {
      if amount <= 0 {
        return NonPositiveAmount;
      }
      if amount > balance {
        return InsufficientFunds;
      }
      if customer == null {
        return NoCustomer;
      }
      balance := balance - amount;
      var transaction := Entry("Withdrawal", "Completed", amount, customer.details.name);
      AddTransaction(transaction);
      return Applied;
    }
  }
}
