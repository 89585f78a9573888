# MyBankUml ledger core in Dafny

This project models the non-UI core of the MyBankUml banking application. It covers six parts:

- **The in-memory ledger** (`Users.java`): a list of immutable user records, an id index over them, and the three money movements (transfer, withdrawal, deposit).
- **The user manager, repository and authentication** that work on that ledger.
- **The mutable domain objects**: the `User` with its account list, and the `Account` with its balance and history.
- **The date, balance and initials conversions** (`Convert.java`).
- **The filtered search** over the older store (`bank/Search.java`).
- **The bank branch directory.**

## Files

| file | module | models |
|---|---|---|
| `options.dfy` | `Options` | `Option`, which stands for a Java null and for an exception where a call can throw |
| `lists.dfy` | `Lists` | `List.indexOf`, `indexOf`+`set`, and `List.remove(Object)` on sequences |
| `ids.dfy` | `Ids` | the static `++idCounter` id generators, as a counter object that wraps at its Java type's maximum |
| `roles.dfy` | `Roles` | the `Role` enum, `name()` and `valueOf` |
| `convert.dfy` | `Convert` | `bank.Convert`, with Java long arithmetic, `split`, `parseLong` and `%0Nd` written out |
| `users.dfy` | `Users` | the ledger of `bank.user.Users` |
| `repository.dfy` | `Repository` | `JsonUserRepository` over the ledger |
| `authentication.dfy` | `Authentication` | `Authentication` |
| `user_manager.dfy` | `UserManager` | `UserManager` |
| `domain.dfy` | `Domain` | `bank.user.User`, `UserDetails` and `bank.account.Account` |
| `search.dfy` | `Search` | `bank.Search` over the record types of `bank/Users.java` |
| `branches.dfy` | `Branches` | `Bank`, `Branch` and `BranchManager` |

## Design

### Ledger state

- `Users.Store` is a class that holds the static state of `Users.java`:
  - `users` is the `USERS` list;
  - `byId` is the `USER_MAP` index;
  - a ghost `saves` counter stands for each call to `save()`.
- User, account and transaction records are datatypes.

### Aliasing of account lists

- The `List<Account>` inside a user record is one mutable object. The model makes it a class, `AccountList`.
- Because of this, the aliasing of the Java code is kept:
  - `replaceAccount` writes into the list that both `USERS` and `USER_MAP` reach;
  - `changePassword`'s new record shares its account list with the old one;
  - `JsonUserRepository.update` replaces the record in `USERS` only, so `USER_MAP` keeps the old record.

### Outcomes

- The money movements return an `Outcome`, which names the guard that stopped them. In Java these methods return `void` and only log.
- Exceptions become `Result`/`Option` values. Each error path is stated with an if-and-only-if.

### Behaviour of the source that the model keeps as written

- **Self-transfer loses the credit.** When source and destination are the same account of the same user, the credit is silently dropped:
  - the debited record replaces the account;
  - the second `indexOf` then no longer finds the old record.

  `Users.SelfTransferDropsCredit` states the result: the list loses `amount` in total.
- **`UserManager.removeAccount` keeps the wrong accounts.** Its stream filter keeps exactly the accounts *with* the given number. `Domain.User.RemoveAccount` (from `User.java`) removes them, as intended.
- **`UserManager` calls constructors that do not exist.** It uses a four-argument `UserDetails` constructor and one-argument `Teller`/`Administrator` constructors, none of which are declared. The model builds each domain user through `User(details, role)`, with age 0 and an empty telephone.

### Number types

- Amounts and balances are integer cents.
- Dates are `YYYYMMDD` integers, and the current date is a parameter.
- The `idCounter` of `Account` and of `User` is a Java `long`; that of `Bank` and of `Branch` is an `int`. Both wrap around.
- An account reconciles with its history when its balance is its opening balance plus the sum of its entries' signed amounts. `Users.Opening` is that opening balance. Transfer, withdrawal and deposit keep it (`Users.PostedKeepsOpening`, `Users.PostAllReconciles`). `UserManager.addTransaction` does not: it appends an entry without moving the balance (`UserManager.AppendNumberedShiftsOpening`). `bank.account.Account`'s own history (`Domain.Entry`) records a withdrawal with a positive amount and the kind "Withdrawal", so it has no signed sum to reconcile.

### The Role enum

- The enum `bank.user.Role` is not part of this model; no source of it is at hand. Its four constants are taken from the `switch` statements of `UserManager.java` (lines 81-90 and 110-115), which name `CUSTOMER`, `TELLER`, `MANAGER` and `ADMIN`. The class `bank/bank/Role.java` is a different, unused class.

## Model

| member | source | states |
|---|---|---|
| Lists.IndexOf | src/main/java/bank/user/Users.java:392 | the index is the first position holding the element, and -1 exactly when it is absent |
| Lists.ReplaceFirst | src/main/java/bank/user/Users.java:392-395 | the length is kept; an absent element leaves the list as it is; otherwise only its first position is overwritten |
| Lists.RemoveFirst | src/main/java/bank/branch/Bank.java:33-35 | an absent element leaves the list as it is; otherwise exactly its first occurrence is cut out and the rest keep their order |
| Lists.RemoveFirstFromUnique | src/main/java/bank/branch/Bank.java:33-35 | in a duplicate-free list, removal leaves the element absent, keeps the list duplicate-free, and keeps every other element's membership |
| Ids.IdCounter.Next | src/main/java/bank/account/Account.java:47-49 | `++idCounter`: the new value is the old plus one and so strictly larger, except at the type's maximum, where it wraps to the minimum |
| Roles.Name | src/main/java/bank/user/UserManager.java:72 | `valueOf(name())` gives back the constant |
| Convert.QuotRem | src/main/java/bank/Convert.java:14-35 | Java's truncating `/` and `%` recompose the dividend; the remainder has the dividend's sign and is below the divisor in magnitude |
| Convert.Split | src/main/java/bank/Convert.java:7 | text without the separator splits into itself |
| Convert.ParseLong | src/main/java/bank/Convert.java:8-10 | a parsed value is a long, and the text starts with a sign or a digit |
| Convert.FormatParses | src/main/java/bank/Convert.java:17-19 | whatever `%0Nd` prints for a long, `parseLong` reads back as that long |
| Convert.DateOfDigits | src/main/java/bank/Convert.java:5-12 | `date("Y-M-D")` for digit strings is `Y*10000 + M*100 + D` when that fits in a long |
| Convert.DateTextPieces | src/main/java/bank/Convert.java:14-20 | for n >= 0, `date(n)` is `n/10000`, `(n/100)%100` and `n%100` zero-padded to widths 4, 2 and 2 and joined by '-' |
| Convert.DateRoundTrip | src/main/java/bank/Convert.java:5-20 | for every long n >= 0, `date(date(n)) == n` |
| Convert.BalanceOfDigits | src/main/java/bank/Convert.java:22-28 | `balance("D.C")` for digit strings is `100*D + C`, with C read as a whole number |
| Convert.BalanceOneFive | src/main/java/bank/Convert.java:22-28 | `balance("1.5")` is 105, not 150 |
| Convert.BalanceTextCents | src/main/java/bank/Convert.java:30-35 | for n >= 0, `balance(n)` ends in '.' followed by exactly two digits denoting `n % 100` |
| Convert.BalanceRoundTrip | src/main/java/bank/Convert.java:22-35 | for every long n, negative ones included, `balance(balance(n)) == n` |
| Convert.Initials | src/main/java/bank/Convert.java:37-40 | defined exactly when the name is non-empty and does not end in a space (otherwise `charAt` throws); two characters, the first being the name's first |
| Convert.InitialsWithoutSpace | src/main/java/bank/Convert.java:37-40 | a name without a space gives its first character twice |
| Convert.InitialsOfLastWord | src/main/java/bank/Convert.java:37-40 | for a name ending in a word without spaces, the first initial is the name's first character (a space when the first part is empty) and the second is the first letter of that last word |
| Users.NumberIndex | src/main/java/bank/user/Users.java:373-377 | the first position whose account has the number, or the list length when there is none |
| Users.Posted | src/main/java/bank/user/Users.java:181-220 | the rebuilt account keeps number and type, moves the balance by the delta, keeps the old history as a prefix and appends exactly the one entry |
| Users.PostedKeepsOpening | src/main/java/bank/user/Users.java:181-220 | posting an entry whose amount is the balance change keeps the opening balance: the new balance is that opening balance plus the sum of the longer history |
| Users.PostAllReconciles | src/main/java/bank/user/Users.java:181-220 | after any run of postings the history is the old one followed by exactly those entries, the balance has moved by their sum, and the opening balance is the same |
| Users.TransferLegs | src/main/java/bank/user/Users.java:181-205 | the debit and credit entries have the same date, details and account pair, their amounts sum to zero, the debit names the receiver and the credit names the sender |
| Users.WithdrawalEntry | src/main/java/bank/user/Users.java:270-278 | a withdrawal entry has amount `-amount`, to-account "0", the account as from-account and recipient id 0 |
| Users.DepositEntry | src/main/java/bank/user/Users.java:333-341 | a deposit entry has amount `+amount`, the account as to-account, from-account "0" and recipient id 0 |
| Users.TotalUpdate | src/main/java/bank/user/Users.java:388-396 | overwriting one account changes the list's total balance by the difference of the two balances |
| Users.ReplaceFirstNumbered | src/main/java/bank/user/Users.java:388-396 | `replaceAccount` with the account `findAccount` returned writes at exactly the position where that number first occurs |
| Users.TransferWithinList | src/main/java/bank/user/Users.java:208-224 | a transfer between two differently numbered accounts of one list writes both records at their positions and keeps the list's total |
| Users.TransferAcrossLists | src/main/java/bank/user/Users.java:208-224 | a transfer between two lists keeps their combined total; the source list loses exactly the amount |
| Users.SelfTransferDropsCredit | src/main/java/bank/user/Users.java:208-224 | a transfer from an account to itself leaves only the debited record, so the list loses the amount |
| Users.PostTransfer | src/main/java/bank/user/Users.java:181-224 | with two distinct lists, each list gets its rebuilt record at the account's position; within one list, two different numbers get both records; for the same number, the credit goes through a second indexOf that no longer finds the original record; both rebuilt records keep their opening balance |
| Users.FindAccount | src/main/java/bank/user/Users.java:369-379 | the first account of the user's list with that number; None exactly when no account has it |
| Users.ReplaceAccount | src/main/java/bank/user/Users.java:388-396 | the user's shared list becomes the list with the first element equal to the old account overwritten; nothing changes when it is absent |
| Users.Store.Add | src/main/java/bank/user/Users.java:116-120 | appended to `USERS`, and `get(id)` returns it while every other id's lookup is unchanged; no save |
| Users.Store.Get | src/main/java/bank/user/Users.java:126-128 | the record `USER_MAP` holds for the id, and None exactly when there is none |
| Users.Store.GetAll | src/main/java/bank/user/Users.java:122-124 | the live `USERS` list |
| Users.Store.Reset | src/main/java/bank/user/Users.java:130-134 | both collections are emptied and nothing is saved |
| Users.Store.Transfer | src/main/java/bank/user/Users.java:148-228 | each failing guard (non-positive amount, unknown user, unknown account, insufficient funds) holds exactly when its condition does, and then no account changes and nothing is saved; on success the debited and credited records are written at the accounts' positions, or the credit is lost for a self-transfer; both rebuilt records keep their opening balance; no other list changes and the store is saved once |
| Users.Store.Withdraw | src/main/java/bank/user/Users.java:240-297 | the failing guards hold exactly when their conditions do, and then nothing changes or is saved; on success one account's record is replaced with the amount subtracted and one withdrawal entry appended; the balance stays non-negative, the list's total drops by the amount, the account keeps its opening balance, and the store is saved once |
| Users.Store.Deposit | src/main/java/bank/user/Users.java:309-360 | there is no funds check; on success one account's record is replaced with the amount added and one deposit entry appended, the list's total rises by the amount, the account keeps its opening balance, and the store is saved once |
| Repository.IdIndex | src/main/java/bank/user/repository/JsonUserRepository.java:42-43 | the first listed record with the id, or the list length when there is none |
| Repository.JsonUserRepository.GetById | src/main/java/bank/user/repository/JsonUserRepository.java:29-31 | looked up in `USER_MAP`: Some exactly when the id is indexed |
| Repository.JsonUserRepository.Add | src/main/java/bank/user/repository/JsonUserRepository.java:34-37 | appended last and then found by its id; saved exactly once |
| Repository.JsonUserRepository.Update | src/main/java/bank/user/repository/JsonUserRepository.java:40-50 | succeeds exactly when a listed record has the id; then the first such record is overwritten in place and the store is saved once; on failure nothing changes and nothing is saved; the number of records never changes and `USER_MAP` is untouched |
| Authentication.UsernameIndex | src/main/java/bank/user/Authentication.java:40-43 | the first listed record with the username, or the list length when there is none |
| Authentication.Authentication.AuthenticateByUsername | src/main/java/bank/user/Authentication.java:25-62 | None for a null or blank username or a null password; otherwise the first record with that username, returned exactly when its password equals the given one |
| Authentication.Authentication.AuthenticateById | src/main/java/bank/user/Authentication.java:71-87 | Some exactly when a password is given, the id is indexed, and the indexed record's password equals it; the result is that record |
| Authentication.Authentication.UserExists | src/main/java/bank/user/Authentication.java:128-135 | true exactly when the username is given, not blank, and held by some listed record |
| Authentication.Authentication.ChangePassword | src/main/java/bank/user/Authentication.java:97-120 | rejected exactly when the current password does not authenticate, and then nothing changes; on success the listed record becomes the same record with only the password replaced, and the store is saved twice |
| Authentication.ShadowedUsername | src/main/java/bank/user/Authentication.java:40-61 | a later record whose username is shadowed by an earlier one with another password never authenticates, not even with its own password |
| Authentication.AuthenticatedExists | src/main/java/bank/user/Authentication.java:25-62 | whoever authenticates by username has a username that `userExists` confirms |
| UserManager.CreationRights | src/main/java/bank/user/UserManager.java:110-116 | creation is allowed exactly for an administrator creating a non-manager or a teller creating a customer; nobody may create a manager |
| UserManager.UserManager.ValidateUserCreationRights | src/main/java/bank/user/UserManager.java:110-116 | true exactly for an administrator and a target other than MANAGER, or a teller and a CUSTOMER target |
| UserManager.UserManager.ConvertToPersistence | src/main/java/bank/user/UserManager.java:67-77 | the record carries the user's id, credentials and role name, and a new empty account list |
| UserManager.UserManager.ConvertFromPersistence | src/main/java/bank/user/UserManager.java:80-93 | an unknown role name throws; otherwise a new domain user with the record's id, role and credentials and no accounts |
| UserManager.UserManager.CreateUser | src/main/java/bank/user/UserManager.java:119-144 | refused exactly when the rights check fails, and then nothing is stored or saved and no id is drawn; otherwise the new user's record is appended and indexed, and the store is saved twice |
| UserManager.UserManager.UpdateUser | src/main/java/bank/user/UserManager.java:151-176 | throws exactly for an id unknown to the index, changing nothing; otherwise the listed record keeps id and role, takes the new username, name, password and email, and keeps the old accounts when none are supplied |
| UserManager.UserManager.ConvertAccountsToPersistence | src/main/java/bank/user/UserManager.java:95-107 | one record per domain account, in order, with its number, type and balance and an empty history |
| UserManager.UserManager.AssignRole | src/main/java/bank/user/UserManager.java:179-207 | throws exactly when the performer is not an administrator or the id is unknown, changing nothing; otherwise only the role of the listed record changes |
| UserManager.KeepNumbered | src/main/java/bank/user/UserManager.java:236-249 | the kept accounts all have the given number, every account with it is kept, and nothing else is added |
| UserManager.KeepNumberedAppend | src/main/java/bank/user/UserManager.java:236-249 | the filter distributes over concatenation, so the kept accounts stay in their order and keep their multiplicity |
| UserManager.ReplaceNumbered | src/main/java/bank/user/UserManager.java:252-266 | same length; every account with the updated account's number is replaced by it; all others stay in place |
| UserManager.AppendNumbered | src/main/java/bank/user/UserManager.java:268-290 | same length; the accounts with the number gain the entry at the end of their history and keep number, type and balance; all others stay; the total balance is unchanged |
| UserManager.AppendNumberedShiftsOpening | src/main/java/bank/user/UserManager.java:268-290 | a matched account keeps its balance, so its opening balance shifts by minus the entry's amount: the account no longer reconciles with its history unless the amount is zero |
| UserManager.UserManager.AddAccount | src/main/java/bank/user/UserManager.java:221-234 | a copy of the record, equal in every other component, whose new account list is the old one followed by the account |
| UserManager.UserManager.RemoveAccount | src/main/java/bank/user/UserManager.java:236-249 | a copy of the record, equal in every other component, whose new list keeps only the accounts with the given number |
| UserManager.UserManager.UpdateAccount | src/main/java/bank/user/UserManager.java:252-266 | a copy of the record whose new list is the old one with each account of that number replaced |
| UserManager.UserManager.AddTransaction | src/main/java/bank/user/UserManager.java:268-290 | a copy of the record whose new list appends the entry to each account with that number |
| UserManager.RemoveAccountKeepsOnlyMatches | src/main/java/bank/user/UserManager.java:236-249 | after removeAccount, a lookup of any other number finds nothing |
| UserManager.AtMostOneNumbered | src/main/java/bank/user/UserManager.java:236-249 | with distinct account numbers, removeAccount leaves at most one account |
| UserManager.NoneNumbered | src/main/java/bank/user/UserManager.java:236-249 | removing a number no account has leaves an empty list |
| Domain.WithoutNumber | src/main/java/bank/user/User.java:118-120 | the kept accounts are from the list and none has the number; every account without it is kept |
| Domain.WithoutNumberAppend | src/main/java/bank/user/User.java:118-120 | the filter keeps relative order: it distributes over concatenation |
| Domain.User.Restore | src/main/java/bank/user/User.java:17-23 | fields as given; the account list is a copy, or empty for null |
| Domain.User.constructor | src/main/java/bank/user/User.java:25-31 | the next id of the user counter, strictly larger than the last one unless it wraps; no accounts |
| Domain.User.SetDetails | src/main/java/bank/user/User.java:33-36 | fails exactly for null, and then keeps the old details |
| Domain.User.UpdateDetails | src/main/java/bank/user/User.java:38-43 | username, password, email and name take the new values; age and telephone stay |
| Domain.User.AddAccount | src/main/java/bank/user/User.java:114-116 | appended at the end |
| Domain.User.RemoveAccount | src/main/java/bank/user/User.java:118-120 | every account with the number goes and the others keep their order |
| Domain.Account.constructor | src/main/java/bank/account/Account.java:24-41 | the next id of the account counter; fields as given; empty history |
| Domain.Account.AddTransaction | src/main/java/bank/account/Account.java:104-106 | appended at the end, and the earlier entries are kept |
| Domain.Account.Deposit | src/main/java/bank/account/Account.java:112-123 | a non-positive amount throws, and nothing changes; otherwise the balance rises by the amount and exactly one "Deposit" entry is appended |
| Domain.Account.Withdraw | src/main/java/bank/account/Account.java:125-138 | a non-positive amount or one above the balance throws, and nothing changes; otherwise the amount is subtracted and exactly one "Withdrawal" entry is appended; a non-negative balance stays non-negative |
| Search.GetField | src/main/java/bank/Search.java:41-66 | null exactly for a field name the record's kind does not have; otherwise, for each of the fourteen field names, the record's component of that name, as a number or a string |
| Search.Match | src/main/java/bank/Search.java:68-84 | numbers compare with `<`, `=` or `>` only, strings with `=` only, and anything else never matches |
| Search.Selected | src/main/java/bank/Search.java:12-36 | never longer than its input, and every selected record matches |
| Search.SelectedAppend | src/main/java/bank/Search.java:12-36 | selection distributes over concatenation, so traversal order is kept |
| Search.SelectedComplete | src/main/java/bank/Search.java:12-36 | every record whose field matches is selected |
| Search.UnknownFieldSelectsNothing | src/main/java/bank/Search.java:65 | a field name that no record has selects nothing |
| Search.All | src/main/java/bank/Search.java:8-39 | the matching records of the named kind (users, then each user's accounts, then each account's transactions), in traversal order; an unknown kind gives the empty list |
| Branches.Bank.constructor | src/main/java/bank/branch/Bank.java:12-20 | the next bank id, the name, and an empty duplicate-free branch list |
| Branches.Bank.AddBranch | src/main/java/bank/branch/Bank.java:23-29 | appended exactly when absent, so the list stays duplicate-free |
| Branches.Bank.RemoveBranch | src/main/java/bank/branch/Bank.java:33-35 | true exactly when the branch was present; afterwards it is absent and every other branch's membership is unchanged |
| Branches.Bank.GetBranch | src/main/java/bank/branch/Bank.java:37-39 | the element at the index, and None (the exception) exactly when the index is out of range |
| Branches.Branch.constructor | src/main/java/bank/branch/Branch.java:12-21 | fields as given and the next branch id; the bank's list is untouched |
| Branches.AddBranch | src/main/java/bank/branch/BranchManager.java:11-16 | a fresh branch of the bank that becomes the last element of its list |
| Branches.RemoveBranch | src/main/java/bank/branch/BranchManager.java:19-21 | removed from the branch's own bank; true exactly when it was listed there |
| Branches.RemoveTwice | src/main/java/bank/branch/BranchManager.java:19-21 | a second removal of the same branch returns false |
| Branches.GetBranchInfo | src/main/java/bank/branch/BranchManager.java:23-25 | the very branch passed in |
| Branches.UpdateBranch | src/main/java/bank/branch/BranchManager.java:27-30 | the new name and address; the id and bank are constants |

## Left out

- File input and output, JSON serialisation and `load`: the store is in memory. `save()` is a ghost counter, so that "saved once" and "not saved on failure" can be stated.
- The clock: `LocalDate.now()` and `new Date()` are the parameters `today` and `now`.
- Logging and console output (`LOGGER`, `InternalLogger`, `System.out`): these are output only.
- Floating point: amounts and balances are `double` in Java. The model uses integer cents, with no IEEE rounding. Search's numeric operands are whole numbers, so `longValue()` truncation of a fractional operand is not modelled.
- Null arguments, except where the source tests for null:
  - the username and password of `Authentication`;
  - `setDetails(null)`;
  - an `Account` without a customer;
  - a null account list for `User`.

  A null `things` in `Search.all`, or a null record, would throw a NullPointerException. This is not modelled.
- The `UserManager` methods that only delegate: `login`, `loginById`, `changePassword`, `usernameExists`, `getUsers`, `findUserById`, and the two-argument `updateUser`. Each is the repository or authentication call that is modelled.
- The `Customer` subclass's own `age` and `telNo` fields, set by `convertFromPersistence` and `createUser` to 21 and a fixed number: the model keeps no subclass state. The `Account(Customer)` constructor and the `pay`/`receipt` methods of the account subclasses are left out as well.
- `bank.transaction.Transaction`: its own id counter, date and getters are left out. An account's history holds `Domain.Entry` values with kind, status, amount and recipient.
- Text is sequences of Dafny `char`: `charAt`, `lastIndexOf` and `length` on UTF-16 code units are not modelled, so a name with characters outside the Basic Multilingual Plane is not treated as Java treats it.
- Convert.ParseLong: accepts only the ASCII digits `0`-`9`. `Long.parseLong` also accepts other Unicode decimal digits (for example Arabic-Indic digits), and that is not modelled.
- Convert.Format: prints ASCII digits. `String.format` uses the default locale, whose digits may differ, and that is not modelled.
- The null tests of `Users.findAccount` (`Users.java` line 370) and `Users.replaceAccount` (line 389): a user found in `USER_MAP` is never null here, and account numbers are strings, so the null branch cannot be reached in the model. In Java a null account number would end in the "account not found" branch, which is `UnknownAccount`.
- UserManager.UserManager.UpdateUser: states only the length of the converted account list, not its elements. `ConvertAccountsToPersistence` states those.
- The JavaFX screens and controllers, and the stale copies of classes outside `src/main/java`: these are not part of this model.
- The `UserRepository` interface and `InMemoryUserRepository`: their methods do not match what `UserManager` and `Authentication` call. The repository is `JsonUserRepository` over the ledger.
