/** bank/Search.java: a filtered walk over the records of the older store
    bank/Users.java, whose users hold accounts and whose accounts hold
    transactions. A query names the kind of record, a field, a comparison
    and an operand; the matching records come back in traversal order. */
module Search {

  /** The records of bank/Users.java; all numbers there are Java longs. */
  datatype Transaction = Transaction(
    date: int,
    amount: int,
    details: string,
    toAccount: int,
    fromAccount: int,
    recipientId: int,
    recipientName: string)

  datatype Account = Account(number: int, kind: string, balance: int, transactions: seq<Transaction>)

  datatype User = User(id: int, name: string, role: string, password: string, accounts: seq<Account>)

  /** One element of a result list, which Java types as Object. */
  datatype Item = UserItem(user: User) | AccountItem(account: Account) | TransactionItem(transaction: Transaction)

  /** A field value or query operand as `match` sees it: null, a number,
      or a string. */
  datatype Value = Null | Num(n: int) | Str(s: string)

  /** The field names get_field answers for each kind of record. */
  predicate Known(o: Item, f: string)
  {
    match o
    case UserItem(_) => f == "id" || f == "name" || f == "role" || f == "password"
    case AccountItem(_) => f == "type" || f == "number" || f == "balance"
    case TransactionItem(_) =>
      f == "date" || f == "amount" || f == "details" || f == "to_account"
      || f == "from_account" || f == "recipient_id" || f == "recipient_name"
  }

  /** get_field: the named component of the record, null for a name the
      record's kind does not have. */
  function GetField(o: Item, f: string): (v: Value)
    ensures v.Null? <==> !Known(o, f)
    ensures o.UserItem? && f == "id" ==> v == Num(o.user.id)
    ensures o.UserItem? && f == "name" ==> v == Str(o.user.name)
    ensures o.UserItem? && f == "role" ==> v == Str(o.user.role)
    ensures o.UserItem? && f == "password" ==> v == Str(o.user.password)
    ensures o.AccountItem? && f == "type" ==> v == Str(o.account.kind)
    ensures o.AccountItem? && f == "number" ==> v == Num(o.account.number)
    ensures o.AccountItem? && f == "balance" ==> v == Num(o.account.balance)
    ensures o.TransactionItem? && f == "date" ==> v == Num(o.transaction.date)
    ensures o.TransactionItem? && f == "amount" ==> v == Num(o.transaction.amount)
    ensures o.TransactionItem? && f == "details" ==> v == Str(o.transaction.details)
    ensures o.TransactionItem? && f == "to_account" ==> v == Num(o.transaction.toAccount)
    ensures o.TransactionItem? && f == "from_account" ==> v == Num(o.transaction.fromAccount)
    ensures o.TransactionItem? && f == "recipient_id" ==> v == Num(o.transaction.recipientId)
    ensures o.TransactionItem? && f == "recipient_name" ==> v == Str(o.transaction.recipientName)
  {
    match o
    case UserItem(u) =>
      if f == "id" then Num(u.id)
      else if f == "name" then Str(u.name)
      else if f == "role" then Str(u.role)
      else if f == "password" then Str(u.password)
      else Null
    case AccountItem(a) =>
      if f == "type" then Str(a.kind)
      else if f == "number" then Num(a.number)
      else if f == "balance" then Num(a.balance)
      else Null
    case TransactionItem(t) =>
      if f == "date" then Num(t.date)
      else if f == "amount" then Num(t.amount)
      else if f == "details" then Str(t.details)
      else if f == "to_account" then Num(t.toAccount)
      else if f == "from_account" then Num(t.fromAccount)
      else if f == "recipient_id" then Num(t.recipientId)
      else if f == "recipient_name" then Str(t.recipientName)
      else Null
  }

  /** match: two numbers compare with "<", "=" or ">", two strings only
      with "="; any other operator, a null, or a number against a string
      never matches. */
  function Match(a: Value, c: string, b: Value): (r: bool)
    ensures r ==> c == "<" || c == "=" || c == ">"
    ensures r ==> a.Null? == false && b.Null? == false && a.Num? == b.Num?
    ensures a.Num? && b.Num? ==> (r <==> (c == "<" && a.n < b.n) || (c == "=" && a.n == b.n) || (c == ">" && a.n > b.n))
    ensures a.Str? && b.Str? ==> (r <==> c == "=" && a.s == b.s)
  {
    if a.Num? && b.Num? then
      if c == "<" then a.n < b.n
      else if c == "=" then a.n == b.n
      else if c == ">" then a.n > b.n
      else false
    else if a.Str? && b.Str? then
      if c == "=" then a.s == b.s else false
    else false
  }

  /** The users, in list order. */
  function UserItems(us: seq<User>): seq<Item>
  {
    if us == [] then [] else UserItems(us[..|us| - 1]) + [UserItem(us[|us| - 1])]
  }

  /** The accounts of a list of accounts, in order. */
  function AccountItemsOf(accounts: seq<Account>): seq<Item>
  {
    if accounts == [] then []
    else AccountItemsOf(accounts[..|accounts| - 1]) + [AccountItem(accounts[|accounts| - 1])]
  }

  /** Every user's accounts, user by user. */
  function AccountItems(us: seq<User>): seq<Item>
  {
    if us == [] then [] else AccountItems(us[..|us| - 1]) + AccountItemsOf(us[|us| - 1].accounts)
  }

  /** The transactions of one account's history, in order. */
  function TransactionItemsOf(ts: seq<Transaction>): seq<Item>
  {
    if ts == [] then [] else TransactionItemsOf(ts[..|ts| - 1]) + [TransactionItem(ts[|ts| - 1])]
  }

  /** The transactions of a list of accounts, account by account. */
  function TransactionItemsOfAccounts(accounts: seq<Account>): seq<Item>
  {
    if accounts == [] then []
    else TransactionItemsOfAccounts(accounts[..|accounts| - 1]) + TransactionItemsOf(accounts[|accounts| - 1].transactions)
  }

  /** Every transaction of every account of every user. */
  function TransactionItems(us: seq<User>): seq<Item>
  {
    if us == [] then [] else TransactionItems(us[..|us| - 1]) + TransactionItemsOfAccounts(us[|us| - 1].accounts)
  }

  /** The records a category names; an unknown category names none. */
  function Items(us: seq<User>, things: string): seq<Item>
  {
    if things == "users" then UserItems(us)
    else if things == "accounts" then AccountItems(us)
    else if things == "transactions" then TransactionItems(us)
    else []
  }

  /** The records whose field matches, in their original order. */
  function Selected(items: seq<Item>, f: string, c: string, v: Value): (r: seq<Item>)
    ensures |r| <= |items|
    ensures forall i :: 0 <= i < |r| ==> Match(GetField(r[i], f), c, v)
  {
    if items == [] then []
    else
      var rest := Selected(items[..|items| - 1], f, c, v);
      var last := items[|items| - 1];
      if Match(GetField(last, f), c, v) then rest + [last] else rest
  }

  /** Selection commutes with concatenation, so it keeps relative order. */
  lemma {:induction false} SelectedAppend(a: seq<Item>, b: seq<Item>, f: string, c: string, v: Value)
    ensures Selected(a + b, f, c, v) == Selected(a, f, c, v) + Selected(b, f, c, v)
  {
    if b == [] {
      assert a + b == a;
    } else {
      var b' := b[..|b| - 1];
      assert (a + b)[..|a + b| - 1] == a + b';
      assert (a + b)[|a + b| - 1] == b[|b| - 1];
      SelectedAppend(a, b', f, c, v);
    }
  }

  /** Every record is selected whose field matches. */
  lemma {:induction false} SelectedComplete(items: seq<Item>, f: string, c: string, v: Value, i: nat)
    requires i < |items| && Match(GetField(items[i], f), c, v)
    ensures items[i] in Selected(items, f, c, v)
  {
    if i < |items| - 1 {
      assert items[..|items| - 1][i] == items[i];
      SelectedComplete(items[..|items| - 1], f, c, v, i);
    }
  }

  /** A field name none of the records has selects nothing. */
  lemma {:induction false} UnknownFieldSelectsNothing(items: seq<Item>, f: string, c: string, v: Value)
    requires forall i :: 0 <= i < |items| ==> !Known(items[i], f)
    ensures Selected(items, f, c, v) == []
  {
    if items != [] {
      UnknownFieldSelectsNothing(items[..|items| - 1], f, c, v);
    }
  }

  /** Search.all over the store's user list `users`: the records of the
      named kind whose field matches, in traversal order. */
  method All(users: seq<User>, things: string, field: string, condition: string, value: Value) returns (out: seq<Item>)
    ensures out == Selected(Items(users, things), field, condition, value)
  {
    out := [];
    if things == "users" {
      out := CollectUsers(out, users, field, condition, value);
    } else if things == "accounts" {
      out := CollectUserAccounts(users, field, condition, value);
    } else if things == "transactions" {
      out := CollectUserTransactions(users, field, condition, value);
    }
  }

  /** The outer loop of the accounts walk, over the users. */
  method CollectUserAccounts(users: seq<User>, field: string, condition: string, value: Value) returns (out: seq<Item>)
    ensures out == Selected(AccountItems(users), field, condition, value)
  {
    out := [];
    var i := 0;
    while i < |users|
      invariant i <= |users|
      invariant out == Selected(AccountItems(users[..i]), field, condition, value)
    {
      ghost var prev := out;
      out := CollectAccounts(out, users[i].accounts, field, condition, value);
      AccountsStep(prev, out, users, i, field, condition, value);
      i := i + 1;
    }
    assert users[..i] == users;
  }

  /** The outer loop of the transactions walk, over the users. */
  method CollectUserTransactions(users: seq<User>, field: string, condition: string, value: Value) returns (out: seq<Item>)
    ensures out == Selected(TransactionItems(users), field, condition, value)
  {
    out := [];
    var i := 0;
    while i < |users|
      invariant i <= |users|
      invariant out == Selected(TransactionItems(users[..i]), field, condition, value)
    {
      ghost var prev := out;
      out := CollectAccountTransactions(out, users[i].accounts, field, condition, value);
      TransactionsStep(prev, out, users, i, field, condition, value);
      i := i + 1;
    }
    assert users[..i] == users;
  }

  /** One more user in the accounts walk. */
  lemma AccountsStep(prev: seq<Item>, out: seq<Item>, users: seq<User>, i: nat, f: string, c: string, v: Value)
    requires i < |users|
    requires prev == Selected(AccountItems(users[..i]), f, c, v)
    requires out == prev + Selected(AccountItemsOf(users[i].accounts), f, c, v)
    ensures out == Selected(AccountItems(users[..i + 1]), f, c, v)
  {
    assert users[..i + 1][..i] == users[..i];
    SelectedAppend(AccountItems(users[..i]), AccountItemsOf(users[i].accounts), f, c, v);
  }

  /** One more user in the transactions walk. */
  lemma TransactionsStep(prev: seq<Item>, out: seq<Item>, users: seq<User>, i: nat, f: string, c: string, v: Value)
    requires i < |users|
    requires prev == Selected(TransactionItems(users[..i]), f, c, v)
    requires out == prev + Selected(TransactionItemsOfAccounts(users[i].accounts), f, c, v)
    ensures out == Selected(TransactionItems(users[..i + 1]), f, c, v)
  {
    assert users[..i + 1][..i] == users[..i];
    SelectedAppend(TransactionItems(users[..i]), TransactionItemsOfAccounts(users[i].accounts), f, c, v);
  }

  /** One more account in the transactions walk. */
  lemma AccountTransactionsStep(out0: seq<Item>, prev: seq<Item>, out: seq<Item>, accounts: seq<Account>, j: nat, f: string, c: string, v: Value)
    requires j < |accounts|
    requires prev == out0 + Selected(TransactionItemsOfAccounts(accounts[..j]), f, c, v)
    requires out == prev + Selected(TransactionItemsOf(accounts[j].transactions), f, c, v)
    ensures out == out0 + Selected(TransactionItemsOfAccounts(accounts[..j + 1]), f, c, v)
  {
    var before := TransactionItemsOfAccounts(accounts[..j]);
    var next := TransactionItemsOf(accounts[j].transactions);
    assert TransactionItemsOfAccounts(accounts[..j + 1]) == before + next by {
      assert accounts[..j + 1][..j] == accounts[..j];
    }
    var sb, sn := Selected(before, f, c, v), Selected(next, f, c, v);
    assert Selected(before + next, f, c, v) == sb + sn by {
      SelectedAppend(before, next, f, c, v);
    }
    assert out0 + sb + sn == out0 + (sb + sn);
  }

  /** The middle loop of the transactions walk, over one user's accounts. */
  method CollectAccountTransactions(out0: seq<Item>, accounts: seq<Account>, field: string, condition: string, value: Value)
    returns (out: seq<Item>)
    ensures out == out0 + Selected(TransactionItemsOfAccounts(accounts), field, condition, value)
  {
    out := out0;
    var j := 0;
    while j < |accounts|
      invariant j <= |accounts|
      invariant out == out0 + Selected(TransactionItemsOfAccounts(accounts[..j]), field, condition, value)
    {
      ghost var prev := out;
      out := CollectTransactions(out, accounts[j].transactions, field, condition, value);
      AccountTransactionsStep(out0, prev, out, accounts, j, field, condition, value);
      j := j + 1;
    }
    assert accounts[..j] == accounts;
  }

  /** One more element in CollectUsers. */
  lemma UserStep(out0: seq<Item>, prev: seq<Item>, out: seq<Item>, users: seq<User>, i: nat, f: string, c: string, v: Value)
    requires i < |users|
    requires prev == out0 + Selected(UserItems(users[..i]), f, c, v)
    requires out == if Match(GetField(UserItem(users[i]), f), c, v) then prev + [UserItem(users[i])] else prev
    ensures out == out0 + Selected(UserItems(users[..i + 1]), f, c, v)
  {
    assert users[..i + 1][..i] == users[..i];
  }

  /** One more element in CollectAccounts. */
  lemma AccountStep(out0: seq<Item>, prev: seq<Item>, out: seq<Item>, accounts: seq<Account>, j: nat, f: string, c: string, v: Value)
    requires j < |accounts|
    requires prev == out0 + Selected(AccountItemsOf(accounts[..j]), f, c, v)
    requires out == if Match(GetField(AccountItem(accounts[j]), f), c, v) then prev + [AccountItem(accounts[j])] else prev
    ensures out == out0 + Selected(AccountItemsOf(accounts[..j + 1]), f, c, v)
  {
    assert accounts[..j + 1][..j] == accounts[..j];
  }

  /** One more element in CollectTransactions. */
  lemma TransactionStep(out0: seq<Item>, prev: seq<Item>, out: seq<Item>, ts: seq<Transaction>, k: nat, f: string, c: string, v: Value)
    requires k < |ts|
    requires prev == out0 + Selected(TransactionItemsOf(ts[..k]), f, c, v)
    requires out == if Match(GetField(TransactionItem(ts[k]), f), c, v) then prev + [TransactionItem(ts[k])] else prev
    ensures out == out0 + Selected(TransactionItemsOf(ts[..k + 1]), f, c, v)
  {
    assert ts[..k + 1][..k] == ts[..k];
  }

  /** The users loop of `all`: each matching user is added to `out`. */
  method CollectUsers(out0: seq<Item>, users: seq<User>, field: string, condition: string, value: Value) returns (out: seq<Item>)
    ensures out == out0 + Selected(UserItems(users), field, condition, value)
  {
    out := out0;
    var i := 0;
    while i < |users|
      invariant i <= |users|
      invariant out == out0 + Selected(UserItems(users[..i]), field, condition, value)
    {
      var u := users[i];
      ghost var prev := out;
      if Match(GetField(UserItem(u), field), condition, value) {
        out := out + [UserItem(u)];
      }
      UserStep(out0, prev, out, users, i, field, condition, value);
      i := i + 1;
    }
    assert users[..i] == users;
  }

  /** The innermost loop over one user's accounts: each matching account is
      added to `out`. */
  method CollectAccounts(out0: seq<Item>, accounts: seq<Account>, field: string, condition: string, value: Value) returns (out: seq<Item>)
    ensures out == out0 + Selected(AccountItemsOf(accounts), field, condition, value)
  {
    out := out0;
    var j := 0;
    while j < |accounts|
      invariant j <= |accounts|
      invariant out == out0 + Selected(AccountItemsOf(accounts[..j]), field, condition, value)
    {
      var a := accounts[j];
      ghost var prev := out;
      if Match(GetField(AccountItem(a), field), condition, value) {
        out := out + [AccountItem(a)];
      }
      AccountStep(out0, prev, out, accounts, j, field, condition, value);
      j := j + 1;
    }
    assert accounts[..j] == accounts;
  }

  /** The innermost loop over one account's history: each matching
      transaction is added to `out`. */
  method CollectTransactions(out0: seq<Item>, ts: seq<Transaction>, field: string, condition: string, value: Value) returns (out: seq<Item>)
    ensures out == out0 + Selected(TransactionItemsOf(ts), field, condition, value)
  {
    out := out0;
    var k := 0;
    while k < |ts|
      invariant k <= |ts|
      invariant out == out0 + Selected(TransactionItemsOf(ts[..k]), field, condition, value)
    {
      var t := ts[k];
      ghost var prev := out;
      if Match(GetField(TransactionItem(t), field), condition, value) {
        out := out + [TransactionItem(t)];
      }
      TransactionStep(out0, prev, out, ts, k, field, condition, value);
      k := k + 1;
    }
    assert ts[..k] == ts;
  }
}
