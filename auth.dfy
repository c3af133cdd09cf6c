/** The client-side authentication context (src/contexts/AuthContext.tsx): the
    built-in accounts, login and logout over the current user and token, and the
    role and department checks the screens use. The clock is a parameter; the
    browser storage that mirrors the session is not modelled. */
module Auth {
  import opened Domain
  import Text

  datatype Role = AdminRole | UserRole | SalesRole {
    /** The role as the application spells it. */
    function Name(): string {
      match this
      case AdminRole => "admin"
      case UserRole => "user"
      case SalesRole => "sales"
    }
  }

  /** A signed-in user: the account without its password. */
  datatype User = User(
    id: string,
    username: string,
    email: string,
    fullName: string,
    role: Role,
    department: string,
    isActive: bool,
    createdAt: int,
    lastLogin: Option<int>)

  datatype Account = Account(user: User, password: string)

  /** DEFAULT_USERS: three active accounts, created when the application loads. */
  function DefaultAccounts(loadedAt: int): (r: seq<Account>)
    ensures |r| == 3
    ensures forall i :: 0 <= i < 3 ==> r[i].user.isActive && r[i].user.createdAt == loadedAt
    ensures forall i, j :: 0 <= i < j < 3 ==> r[i].user.username != r[j].user.username
  {
    [ Account(User("1", "admin", "admin@mec-doors.com", "مدير النظام", AdminRole, "الإدارة", true, loadedAt, None), "admin123"),
      Account(User("2", "user", "user@mec-doors.com", "مستخدم عادي", UserRole, "العمليات", true, loadedAt, None), "user123"),
      Account(User("3", "sales", "sales@mec-doors.com", "موظف مبيعات", SalesRole, "المبيعات", true, loadedAt, None), "sales123") ]
  }

  predicate Matches(a: Account, username: string, password: string) {
    a.user.username == username && a.password == password
  }

  /** The first account whose username and password both match. */
  function FirstMatch(accounts: seq<Account>, username: string, password: string): (r: Option<Account>)
    ensures r.None? <==> forall i :: 0 <= i < |accounts| ==> !Matches(accounts[i], username, password)
    ensures r.Some? ==> exists i :: 
      (0 <= i < |accounts| && accounts[i] == r.value && Matches(r.value, username, password)
       && forall j :: 0 <= j < i ==> !Matches(accounts[j], username, password))
  {
    if |accounts| == 0 then None
    else if Matches(accounts[0], username, password) then Some(accounts[0])
    else
      var r := FirstMatch(accounts[1..], username, password);
      assert forall i :: 1 <= i < |accounts| ==> accounts[i] == accounts[1..][i - 1];
      if r.Some? then
        var k :| 0 <= k < |accounts[1..]| && accounts[1..][k] == r.value && Matches(r.value, username, password)
          && forall j :: 0 <= j < k ==> !Matches(accounts[1..][j], username, password);
        assert accounts[k + 1] == r.value;
        r
      else r
  }

  /** `token_<id>_<timestamp>` */
  function Token(id: string, timestamp: nat): (t: string)
    ensures |t| > |"token_" + id + "_"| && t[..|"token_" + id + "_"|] == "token_" + id + "_"
    ensures forall i :: |"token_" + id + "_"| <= i < |t| ==> '0' <= t[i] <= '9'
    ensures Text.ParseNat(t[|"token_" + id + "_"|..]) == timestamp
  {
    var t := "token_" + id + "_" + Text.NatToString(timestamp);
    assert t[|"token_" + id + "_"|..] == Text.NatToString(timestamp);
    Text.ParseNatToString(timestamp);
    t
  }

  /** Tokens issued to the same user at different times differ. */
  lemma TokensDistinct(id: string, t1: nat, t2: nat)
    requires t1 != t2
    ensures Token(id, t1) != Token(id, t2)
  {
  }

  datatype LoginError = BadCredentials | InactiveUser

  /** The outcome of login: the first matching account must exist and be active. */
  function LoginOutcome(accounts: seq<Account>, username: string, password: string): (r: Result<User, LoginError>)
    ensures r == Err(BadCredentials) <==> FirstMatch(accounts, username, password).None?
    ensures r.Ok? <==> FirstMatch(accounts, username, password).Some? && FirstMatch(accounts, username, password).value.user.isActive
    ensures r.Ok? ==> r.value == FirstMatch(accounts, username, password).value.user
  {
    match FirstMatch(accounts, username, password)
    case None => Err(BadCredentials)
    case Some(a) => if a.user.isActive then Ok(a.user) else Err(InactiveUser)
  }

  /** With unique usernames, login succeeds exactly when some account matches both
      username and password and is active. */
  lemma LoginSucceedsIff(accounts: seq<Account>, username: string, password: string)
    requires forall i, j :: 0 <= i < j < |accounts| ==> accounts[i].user.username != accounts[j].user.username
    ensures LoginOutcome(accounts, username, password).Ok?
      <==> exists i :: 0 <= i < |accounts| && Matches(accounts[i], username, password) && accounts[i].user.isActive
  {
    var m := FirstMatch(accounts, username, password);
    if m.Some? {
      var k :| 0 <= k < |accounts| && accounts[k] == m.value && Matches(m.value, username, password)
        && forall j :: 0 <= j < k ==> !Matches(accounts[j], username, password);
    }
  }

  /** Each built-in account signs in with its own password. */
  lemma DefaultAccountsSignIn(loadedAt: int)
    ensures LoginOutcome(DefaultAccounts(loadedAt), "admin", "admin123").Ok?
    ensures LoginOutcome(DefaultAccounts(loadedAt), "sales", "sales123").Ok?
    ensures LoginOutcome(DefaultAccounts(loadedAt), "admin", "user123") == Err(BadCredentials)
  {
    var accounts := DefaultAccounts(loadedAt);
    assert Matches(accounts[0], "admin", "admin123");
    assert Matches(accounts[2], "sales", "sales123");
    LoginSucceedsIff(accounts, "admin", "admin123");
    LoginSucceedsIff(accounts, "sales", "sales123");
    assert !Matches(accounts[0], "admin", "user123");
  }

  /** The session: the signed-in user and their token. */
  class AuthState {
    var user: Option<User>
    var token: Option<string>

    constructor()
      ensures user.None? && token.None?
    {
      user := None;
      token := None;
    }

    /** login: on success the user (without password) and a fresh token are stored;
        on failure the error is returned and the session is left as it was. */
    method Login(accounts: seq<Account>, username: string, password: string, now: nat)
      returns (r: Result<User, LoginError>)
      modifies this
      ensures r == LoginOutcome(accounts, username, password)
      ensures r.Ok? ==> user == Some(r.value) && token == Some(Token(r.value.id, now))
      ensures r.Err? ==> user == old(user) && token == old(token)
    {
      r := LoginOutcome(accounts, username, password);
      if r.Ok? {
        token := Some(Token(r.value.id, now));
        user := Some(r.value);
      }
    }

    /** logout */
    method Logout()
      modifies this
      ensures user.None? && token.None?
    {
      user := None;
      token := None;
    }

    /** hasRole: nobody signed in has no role, an administrator has every role,
        anyone else only their own. */
    predicate HasRole(role: string)
      reads this
      ensures HasRole(role) ==> user.Some?
      ensures user.Some? && user.value.role == AdminRole ==> HasRole(role)
    {
      if user.None? then false
      else if user.value.role == AdminRole then true
      else user.value.role.Name() == role
    }

    /** hasDepartment: the same pattern over the department. */
    predicate HasDepartment(department: string)
      reads this
      ensures HasDepartment(department) ==> user.Some?
      ensures user.Some? && user.value.role == AdminRole ==> HasDepartment(department)
    {
      if user.None? then false
      else if user.value.role == AdminRole then true
      else user.value.department == department
    }
  }

  /** Signed out, every check fails; an administrator passes every role and
      department check; anyone else passes exactly the check of their own role
      among the three and of their own department. */
  lemma AccessChecks(s: AuthState, r: Role, department: string)
    ensures s.user.None? ==> !s.HasRole(r.Name()) && !s.HasDepartment(department)
    ensures s.user.Some? && s.user.value.role == AdminRole ==> s.HasRole(r.Name()) && s.HasDepartment(department)
    ensures s.user.Some? && s.user.value.role != AdminRole ==>
      (s.HasRole(r.Name()) <==> r == s.user.value.role)
      && (s.HasDepartment(department) <==> department == s.user.value.department)
  {
  }
}
