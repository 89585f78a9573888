/** The in-memory ledger of bank/user/Users.java: the process-wide USERS
    list and USER_MAP index of immutable user records, and the three money
    movements (transfer, withdrawal, deposit). A movement builds a new
    account record and writes it back, with indexOf and set, into the
    account list its owner's record refers to. Amounts and balances are
    integer cents. */
module Users {
  import opened Options
  import opened Lists

  /** One ledger entry; `date` is the YYYYMMDD number of the day. */
  datatype Transaction = Transaction(
    date: int,
    amount: int,
    details: string,
    toAccount: string,
    fromAccount: string,
    recipientId: int,
    recipientName: string)

  /** An account record; `kind` is the record's `type` component. */
  datatype Account = Account(
    number: string,
    kind: string,
    balance: int,
    transactions: seq<Transaction>)

  /** The java.util.List<Account> a user record holds. Records compare and
      copy by value, but the list inside them is one mutable object: two
      records built with the same list share it. */
  class AccountList {
    var items: seq<Account>

    constructor (items: seq<Account>)
      ensures this.items == items
    {
      this.items := items;
    }
  }

  datatype User = User(
    id: int,
    username: string,
    name: string,
    role: string,
    password: string,
    email: string,
    accounts: AccountList)

  /** The branch a money movement leaves by. The Java methods return
      nothing and only log which guard stopped them. */
  datatype Outcome = Done | NonPositiveAmount | UnknownUser | UnknownAccount | InsufficientFunds

  /** The position of the first account numbered `number`, |s| when none. */
  function NumberIndex(s: seq<Account>, number: string): (k: nat)
    ensures k <= |s|
    ensures k < |s| ==> s[k].number == number
    ensures forall i :: 0 <= i < k ==> s[i].number != number
  {
    if s == [] then 0
    else if s[0].number == number then 0
    else 1 + NumberIndex(s[1..], number)
  }

  /** The first account numbered `number`, if any. */
  function FirstNumbered(s: seq<Account>, number: string): Option<Account>
  {
    var k := NumberIndex(s, number);
    if k < |s| then Some(s[k]) else None
  }

  /** Sum of the balances of a list of accounts. */
  function Total(s: seq<Account>): int
  {
    if s == [] then 0 else s[0].balance + Total(s[1..])
  }

  /** An account record rebuilt with `delta` added to its balance and one
      entry appended to a copy of its history. */
  function Posted(a: Account, delta: int, entry: Transaction): (r: Account)
    ensures r.number == a.number && r.kind == a.kind
    ensures r.balance == a.balance + delta
    ensures |r.transactions| == |a.transactions| + 1
    ensures r.transactions[..|a.transactions|] == a.transactions
    ensures r.transactions[|a.transactions|] == entry
    ensures r != a
  {
    Account(a.number, a.kind, a.balance + delta, a.transactions + [entry])
  }

  /** The signed amounts of a history added up: debits are negative,
      credits positive. */
  function Sum(ts: seq<Transaction>): int
  {
    if ts == [] then 0 else Sum(ts[..|ts| - 1]) + ts[|ts| - 1].amount
  }

  /** The part of the balance the history does not explain: the balance the
      account was opened with, when every movement booked its own amount. */
  function Opening(a: Account): int
  {
    a.balance - Sum(a.transactions)
  }

  /** Posting an entry whose signed amount is the balance change keeps the
      opening balance, so balance == opening + Sum(history) survives it. */
  lemma PostedKeepsOpening(a: Account, delta: int, entry: Transaction)
    requires entry.amount == delta
    ensures Opening(Posted(a, delta, entry)) == Opening(a)
    ensures Posted(a, delta, entry).balance == Opening(a) + Sum(a.transactions + [entry])
  {
    var r := Posted(a, delta, entry);
    assert r.transactions[..|r.transactions| - 1] == a.transactions;
  }

  /** An account after a run of postings, each with its own amount. */
  function PostAll(a: Account, es: seq<Transaction>): Account
  {
    if es == [] then a
    else
      var last := es[|es| - 1];
      Posted(PostAll(a, es[..|es| - 1]), last.amount, last)
  }

  /** However many movements are posted, the history grows by exactly those
      entries and the balance moves by their sum. */
  lemma {:induction false} PostAllReconciles(a: Account, es: seq<Transaction>)
    ensures PostAll(a, es).number == a.number && PostAll(a, es).kind == a.kind
    ensures PostAll(a, es).transactions == a.transactions + es
    ensures PostAll(a, es).balance == a.balance + Sum(es)
    ensures Opening(PostAll(a, es)) == Opening(a)
  {
    if es != [] {
      var init, last := es[..|es| - 1], es[|es| - 1];
      PostAllReconciles(a, init);
      PostedKeepsOpening(PostAll(a, init), last.amount, last);
      assert a.transactions + init + [last] == a.transactions + es by {
        assert init + [last] == es;
      }
    }
  }

  /** T1 of a transfer: the debit entry booked on the source account. */
  function DebitEntry(date: int, amount: int, details: string, source: Account, target: Account, receiver: User): Transaction
  {
    Transaction(date, -amount, details, target.number, source.number, receiver.id, receiver.name)
  }

  /** T2 of a transfer: the credit entry booked on the destination account. */
  function CreditEntry(date: int, amount: int, details: string, source: Account, target: Account, sender: User): Transaction
  {
    Transaction(date, amount, details, target.number, source.number, sender.id, sender.name)
  }

  /** The two legs of one transfer cancel out and describe the same
      movement: same day, same text, same pair of accounts; the debit
      names the receiver and the credit names the sender. */
  lemma TransferLegs(date: int, amount: int, details: string, source: Account, target: Account, sender: User, receiver: User)
    ensures var t1, t2 := DebitEntry(date, amount, details, source, target, receiver),
                          CreditEntry(date, amount, details, source, target, sender);
      && t1.amount + t2.amount == 0
      && t1.date == t2.date == date && t1.details == t2.details == details
      && t1.toAccount == t2.toAccount == target.number
      && t1.fromAccount == t2.fromAccount == source.number
      && t1.recipientId == receiver.id && t1.recipientName == receiver.name
      && t2.recipientId == sender.id && t2.recipientName == sender.name
  {
  }

  /** The entry a withdrawal books: money leaves to an outside recipient. */
  function WithdrawalEntry(date: int, amount: int, details: string, number: string, recipientName: string): (t: Transaction)
    ensures t.amount == -amount && t.toAccount == "0" && t.fromAccount == number && t.recipientId == 0
  {
    Transaction(date, -amount, details, "0", number, 0, recipientName)
  }

  /** The entry a deposit books: money arrives from an outside sender. */
  function DepositEntry(date: int, amount: int, details: string, number: string, senderName: string): (t: Transaction)
    ensures t.amount == amount && t.toAccount == number && t.fromAccount == "0" && t.recipientId == 0
  {
    Transaction(date, amount, details, number, "0", 0, senderName)
  }

  /** Overwriting one position changes the total by the difference of the
      two balances. */
  lemma {:induction false} TotalUpdate(s: seq<Account>, k: nat, x: Account)
    requires k < |s|
    ensures Total(s[k := x]) == Total(s) - s[k].balance + x.balance
  {
    if k == 0 {
      assert s[k := x][1..] == s[1..];
    } else {
      assert s[k := x][1..] == s[1..][k - 1 := x];
      TotalUpdate(s[1..], k - 1, x);
    }
  }

  /** Overwriting an account with one of the same number moves no account
      number, so every number is found where it was before. */
  lemma {:induction false} NumberIndexUpdate(s: seq<Account>, k: nat, x: Account, number: string)
    requires k < |s| && x.number == s[k].number
    ensures NumberIndex(s[k := x], number) == NumberIndex(s, number)
  {
    if s[0].number != number && k > 0 {
      assert s[k := x][1..] == s[1..][k - 1 := x];
      NumberIndexUpdate(s[1..], k - 1, x, number);
    }
  }

  /** indexOf finds the first account with a given number exactly where the
      number search found it, so replaceAccount writes to that position. */
  lemma ReplaceFirstNumbered(s: seq<Account>, number: string, x: Account)
    requires NumberIndex(s, number) < |s|
    ensures ReplaceFirst(s, s[NumberIndex(s, number)], x) == s[NumberIndex(s, number) := x]
  {
    var k := NumberIndex(s, number);
    IndexOfAtMost(s, k);
    assert s[IndexOf(s, s[k])].number == number;
  }

  /** A transfer between two differently numbered accounts of the same list
      writes the debited record at the source's position and the credited
      record at the destination's, and leaves the list's total unchanged. */
  lemma TransferWithinList(s: seq<Account>, n1: string, n2: string, x1: Account, x2: Account, amount: int)
    requires n1 != n2
    requires NumberIndex(s, n1) < |s| && NumberIndex(s, n2) < |s|
    requires x1.number == n1 && x1.balance == s[NumberIndex(s, n1)].balance - amount
    requires x2.balance == s[NumberIndex(s, n2)].balance + amount
    ensures var k1, k2 := NumberIndex(s, n1), NumberIndex(s, n2);
      && ReplaceFirst(ReplaceFirst(s, s[k1], x1), s[k2], x2) == s[k1 := x1][k2 := x2]
      && Total(s[k1 := x1][k2 := x2]) == Total(s)
  {
    var k1, k2 := NumberIndex(s, n1), NumberIndex(s, n2);
    ReplaceFirstNumbered(s, n1, x1);
    var s1 := s[k1 := x1];
    NumberIndexUpdate(s, k1, x1, n2);
    assert s1[k2] == s[k2];
    ReplaceFirstNumbered(s1, n2, x2);
    TotalUpdate(s, k1, x1);
    TotalUpdate(s1, k2, x2);
  }

  /** A transfer between the account lists of two different records takes
      from one list exactly what it adds to the other. */
  lemma {:induction false} TransferAcrossLists(s1: seq<Account>, k1: nat, x1: Account, s2: seq<Account>, k2: nat, x2: Account, amount: int)
    requires k1 < |s1| && k2 < |s2|
    requires x1.balance == s1[k1].balance - amount && x2.balance == s2[k2].balance + amount
    ensures Total(s1[k1 := x1]) + Total(s2[k2 := x2]) == Total(s1) + Total(s2)
    ensures Total(s1[k1 := x1]) == Total(s1) - amount
  {
    TotalUpdate(s1, k1, x1);
    TotalUpdate(s2, k2, x2);
  }

  /** A transfer from an account to itself (same user, same number): the
      debit record replaces the account, after which indexOf no longer finds
      the original record, so unless an identical record follows later in
      the list the credit is never written and the balance simply drops by
      the amount. */
  lemma SelfTransferDropsCredit(s: seq<Account>, number: string, x1: Account, x2: Account, amount: int)
    requires NumberIndex(s, number) < |s|
    requires x1.number == number && x1 != s[NumberIndex(s, number)]
    requires x1.balance == s[NumberIndex(s, number)].balance - amount
    requires s[NumberIndex(s, number)] !in s[NumberIndex(s, number) + 1..]
    ensures var k := NumberIndex(s, number);
      && ReplaceFirst(ReplaceFirst(s, s[k], x1), s[k], x2) == s[k := x1]
      && Total(ReplaceFirst(ReplaceFirst(s, s[k], x1), s[k], x2)) == Total(s) - amount
  {
    var k := NumberIndex(s, number);
    ReplaceFirstNumbered(s, number, x1);
    var s1 := s[k := x1];
    forall i | 0 <= i < |s1|
      ensures s1[i] != s[k]
    {
      if i > k {
        assert s1[i] == s[k + 1..][i - k - 1];
      }
    }
    TotalUpdate(s, k, x1);
  }

  /** Users.findAccount: the first account of the user's list with that
      number. */
  method FindAccount(user: User, number: string) returns (r: Option<Account>)
    ensures r == FirstNumbered(user.accounts.items, number)
    ensures r.Some? ==> r.value in user.accounts.items && r.value.number == number
    ensures r.None? <==> forall i :: 0 <= i < |user.accounts.items| ==> user.accounts.items[i].number != number
  {
    var items := user.accounts.items;
    var i := 0;
    while i < |items|
      invariant i <= |items|
      invariant forall j :: 0 <= j < i ==> items[j].number != number
    {
      if items[i].number == number {
        return Some(items[i]);
      }
      i := i + 1;
    }
    return None;
  }

  /** Users.replaceAccount: overwrite the first element equal to the old
      record, in the list the user record refers to. */
  method ReplaceAccount(user: User, oldAccount: Account, newAccount: Account)
    modifies user.accounts
    ensures user.accounts.items == ReplaceFirst(old(user.accounts.items), oldAccount, newAccount)
  {
    var index := IndexOf(user.accounts.items, oldAccount);
    if index >= 0 {
      user.accounts.items := user.accounts.items[index := newAccount];
    }
  }

  /** The writing half of Users.transaction: the debited source record and
      the credited destination record, built from the records findAccount
      returned, are written back with replaceAccount, one after the other. */
  method PostTransfer(U1: User, A1: Account, U2: User, A2: Account, amount: int, details: string, date: int)
    requires FirstNumbered(U1.accounts.items, A1.number) == Some(A1)
    requires FirstNumbered(U2.accounts.items, A2.number) == Some(A2)
    modifies U1.accounts, U2.accounts
    ensures var l1, l2 := U1.accounts, U2.accounts;
      var k1, k2 := NumberIndex(old(l1.items), A1.number), NumberIndex(old(l2.items), A2.number);
      var A1b := Posted(A1, -amount, DebitEntry(date, amount, details, A1, A2, U2));
      var A2b := Posted(A2, amount, CreditEntry(date, amount, details, A1, A2, U1));
      && (l1 != l2 ==> l1.items == old(l1.items)[k1 := A1b] && l2.items == old(l2.items)[k2 := A2b])
      && (l1 == l2 && A1.number != A2.number ==> l1.items == old(l1.items)[k1 := A1b][k2 := A2b])
      && (l1 == l2 && A1.number == A2.number ==> l1.items == ReplaceFirst(old(l1.items)[k1 := A1b], A1, A2b))
      && Opening(A1b) == Opening(A1) && Opening(A2b) == Opening(A2)
  {
    var t1 := DebitEntry(date, amount, details, A1, A2, U2);
    var t2 := CreditEntry(date, amount, details, A1, A2, U1);
    var A1b := Posted(A1, -amount, t1);
    var A2b := Posted(A2, amount, t2);
    PostedKeepsOpening(A1, -amount, t1);
    PostedKeepsOpening(A2, amount, t2);
    ghost var before1, before2 := U1.accounts.items, U2.accounts.items;
    ReplaceAccount(U1, A1, A1b);
    ReplaceAccount(U2, A2, A2b);
    ReplaceFirstNumbered(before1, A1.number, A1b);
    if U1.accounts != U2.accounts {
      ReplaceFirstNumbered(before2, A2.number, A2b);
    } else if A1.number != A2.number {
      TransferWithinList(before1, A1.number, A2.number, A1b, A2b, amount);
    }
  }

  /** The static state of Users: USERS, USER_MAP, and how many times the
      list has been written to the JSON file. */
  class Store {
    var users: seq<User>
    var byId: map<int, User>
    ghost var saves: nat

    /** The account lists reachable from USER_MAP, which the money
        movements may write to. */
    ghost function Footprint(): set<AccountList>
      reads this
    {
      set id | id in byId :: byId[id].accounts
    }

    /** Users.get(id) followed by findAccount. */
    ghost function AccountOf(id: int, number: string): Option<Account>
      reads this, Footprint()
    {
      if id in byId then FirstNumbered(byId[id].accounts.items, number) else None
    }

    constructor ()
      ensures users == [] && byId == map[] && saves == 0
    {
      users := [];
      byId := map[];
      saves := 0;
    }

    /** Users.save: serialises USERS; only the event is kept. */
    method Save()
      modifies this
      ensures users == old(users) && byId == old(byId) && saves == old(saves) + 1
    {
      saves := saves + 1;
    }

    /** Users.add: appended to USERS and indexed under its id, replacing an
        earlier record with that id in the index only. */
    method Add(user: User)
      modifies this
      ensures users == old(users) + [user]
      ensures byId == old(byId)[user.id := user]
      ensures Get(user.id) == Some(user)
      ensures forall id :: id != user.id ==> Get(id) == old(Get(id))
      ensures saves == old(saves)
    {
      users := users + [user];
      byId := byId[user.id := user];
    }

    /** Users.get(id): the record USER_MAP holds for the id, None for null. */
    function Get(id: int): (r: Option<User>)
      reads this
      ensures r.Some? <==> id in byId
      ensures r.Some? ==> r.value == byId[id]
    {
      if id in byId then Some(byId[id]) else None
    }

    /** Users.get(): the live USERS list. */
    function GetAll(): (r: seq<User>)
      reads this
      ensures r == users
    {
      users
    }

    /** Users.reset: both collections emptied; nothing is saved. */
    method Reset()
      modifies this
      ensures users == [] && byId == map[] && saves == old(saves)
    {
      users := [];
      byId := map[];
    }

    /** Users.transaction, with `today` standing for the converted clock date.
        Fails, changing nothing and saving nothing, on a non-positive amount,
        an unknown user, an unknown account number or a source balance below
        the amount. Otherwise the debited source record and the credited
        destination record are written back with replaceAccount, one after
        the other, and the store is saved once. */
    method Transfer(u1: int, a1: string, u2: int, a2: string, amount: int, details: string, today: int)
      returns (outcome: Outcome)
      modifies this, Footprint()
      ensures users == old(users) && byId == old(byId)
      ensures outcome == NonPositiveAmount <==> amount <= 0
      ensures outcome == UnknownUser <==> amount > 0 && (u1 !in byId || u2 !in byId)
      ensures outcome == UnknownAccount <==>
        amount > 0 && u1 in byId && u2 in byId && (old(AccountOf(u1, a1)).None? || old(AccountOf(u2, a2)).None?)
      ensures outcome == InsufficientFunds <==>
        amount > 0 && old(AccountOf(u1, a1)).Some? && old(AccountOf(u2, a2)).Some?
        && old(AccountOf(u1, a1)).value.balance < amount
      ensures outcome != Done ==> unchanged(Footprint()) && saves == old(saves)
      ensures outcome == Done ==> saves == old(saves) + 1
      ensures outcome == Done ==>
        var l1, l2 := byId[u1].accounts, byId[u2].accounts;
        var k1, k2 := NumberIndex(old(l1.items), a1), NumberIndex(old(l2.items), a2);
        var A1, A2 := old(l1.items)[k1], old(l2.items)[k2];
        var A1b := Posted(A1, -amount, DebitEntry(today, amount, details, A1, A2, byId[u2]));
        var A2b := Posted(A2, amount, CreditEntry(today, amount, details, A1, A2, byId[u1]));
        && unchanged(Footprint() - {l1, l2})
        && (l1 != l2 ==> l1.items == old(l1.items)[k1 := A1b] && l2.items == old(l2.items)[k2 := A2b])
        && (l1 == l2 && a1 != a2 ==> l1.items == old(l1.items)[k1 := A1b][k2 := A2b])
        && (l1 == l2 && a1 == a2 ==> l1.items == ReplaceFirst(old(l1.items)[k1 := A1b], A1, A2b))
        && Opening(A1b) == Opening(A1) && Opening(A2b) == Opening(A2)
    {
      if amount <= 0 {
        return NonPositiveAmount;
      }
      var date := today;
      if u1 !in byId || u2 !in byId {
        return UnknownUser;
      }
      var U1, U2 := byId[u1], byId[u2];
      var found1 := FindAccount(U1, a1);
      var found2 := FindAccount(U2, a2);
      if found1.None? || found2.None? {
        return UnknownAccount;
      }
      var A1, A2 := found1.value, found2.value;
      if A1.balance < amount {
        return InsufficientFunds;
      }
      PostTransfer(U1, A1, U2, A2, amount, details, date);
      Save();
      return Done;
    }

    /** Users.withdraw: money leaves one account to an outside recipient.
        Fails without change on a non-positive amount, an unknown user or
        account, or a balance below the amount; otherwise the account's
        record is replaced by one with the amount subtracted and one
        withdrawal entry appended, and the store is saved once. */
    method Withdraw(userId: int, number: string, amount: int, recipientName: string, details: string, today: int)
      returns (outcome: Outcome)
      modifies this, Footprint()
      ensures users == old(users) && byId == old(byId)
      ensures outcome == NonPositiveAmount <==> amount <= 0
      ensures outcome == UnknownUser <==> amount > 0 && userId !in byId
      ensures outcome == UnknownAccount <==> amount > 0 && userId in byId && old(AccountOf(userId, number)).None?
      ensures outcome == InsufficientFunds <==>
        amount > 0 && old(AccountOf(userId, number)).Some? && old(AccountOf(userId, number)).value.balance < amount
      ensures outcome != Done ==> unchanged(Footprint()) && saves == old(saves)
      ensures outcome == Done ==> saves == old(saves) + 1
      ensures outcome == Done ==>
        var l := byId[userId].accounts;
        var k := NumberIndex(old(l.items), number);
        var A := old(l.items)[k];
        && unchanged(Footprint() - {l})
        && l.items == old(l.items)[k := Posted(A, -amount, WithdrawalEntry(today, amount, details, number, recipientName))]
        && 0 <= l.items[k].balance == A.balance - amount
        && Total(l.items) == old(Total(l.items)) - amount
        && Opening(l.items[k]) == Opening(A)
    {
      if amount <= 0 {
        return NonPositiveAmount;
      }
      var date := today;
      if userId !in byId {
        return UnknownUser;
      }
      var user := byId[userId];
      var found := FindAccount(user, number);
      if found.None? {
        return UnknownAccount;
      }
      var account := found.value;
      if account.balance < amount {
        return InsufficientFunds;
      }
      var withdrawal := WithdrawalEntry(date, amount, details, number, recipientName);
      var updated := Posted(account, -amount, withdrawal);
      PostedKeepsOpening(account, -amount, withdrawal);
      ghost var before := user.accounts.items;
      ReplaceAccount(user, account, updated);
      Save();
      ReplaceFirstNumbered(before, number, updated);
      TotalUpdate(before, NumberIndex(before, number), updated);
      return Done;
    }

    /** Users.deposit: money arrives in one account from an outside sender.
        Fails without change on a non-positive amount or an unknown user or
        account; there is no funds check. Otherwise the account's record is
        replaced by one with the amount added and one deposit entry
        appended, and the store is saved once. */
    method Deposit(userId: int, number: string, amount: int, senderName: string, details: string, today: int)
      returns (outcome: Outcome)
      modifies this, Footprint()
      ensures users == old(users) && byId == old(byId)
      ensures outcome != InsufficientFunds
      ensures outcome == NonPositiveAmount <==> amount <= 0
      ensures outcome == UnknownUser <==> amount > 0 && userId !in byId
      ensures outcome == UnknownAccount <==> amount > 0 && userId in byId && old(AccountOf(userId, number)).None?
      ensures outcome != Done ==> unchanged(Footprint()) && saves == old(saves)
      ensures outcome == Done ==> saves == old(saves) + 1
      ensures outcome == Done ==>
        var l := byId[userId].accounts;
        var k := NumberIndex(old(l.items), number);
        var A := old(l.items)[k];
        && unchanged(Footprint() - {l})
        && l.items == old(l.items)[k := Posted(A, amount, DepositEntry(today, amount, details, number, senderName))]
        && Total(l.items) == old(Total(l.items)) + amount
        && Opening(l.items[k]) == Opening(A)
    {
      if amount <= 0 {
        return NonPositiveAmount;
      }
      var date := today;
      if userId !in byId {
        return UnknownUser;
      }
      var user := byId[userId];
      var found := FindAccount(user, number);
      if found.None? {
        return UnknownAccount;
      }
      var account := found.value;
      var deposit := DepositEntry(date, amount, details, number, senderName);
      var updated := Posted(account, amount, deposit);
      PostedKeepsOpening(account, amount, deposit);
      ghost var before := user.accounts.items;
      ReplaceAccount(user, account, updated);
      Save();
      ReplaceFirstNumbered(before, number, updated);
      TotalUpdate(before, NumberIndex(before, number), updated);
      return Done;
    }
  }
}
