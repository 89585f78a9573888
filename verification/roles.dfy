/** The Role enum of package bank.user, as UserManager uses it: its four
    constants, name() and valueOf(String). */
module Roles {
  import opened Options

  datatype Role = CUSTOMER | TELLER | MANAGER | ADMIN

  /** Role.name(): the constant's own identifier. */
  function Name(r: Role): (s: string)
    ensures ValueOf(s) == Some(r)
  {
    match r
    case CUSTOMER => "CUSTOMER"
    case TELLER => "TELLER"
    case MANAGER => "MANAGER"
    case ADMIN => "ADMIN"
  }

  /** Role.valueOf(String): the constant with exactly that name; any other
      text makes Java throw IllegalArgumentException, here None. */
  function ValueOf(s: string): Option<Role>
  {
    if s == "CUSTOMER" then Some(CUSTOMER)
    else if s == "TELLER" then Some(TELLER)
    else if s == "MANAGER" then Some(MANAGER)
    else if s == "ADMIN" then Some(ADMIN)
    else None
  }
}
