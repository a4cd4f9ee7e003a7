/** Passwords and the session: the strength policy new passwords must meet,
    the random temporary password, the bcrypt hasher the rest of the program
    calls, and the object that holds who is logged in and what they may do. */
module Security {
  import opened Util
  import opened Values
  import opened Query

  /** Python's False as it is stored in a row or a dict. */
  const False := Int(0)

  /** bcrypt as the program uses it: `hashpw` with a salt drawn by
      `gensalt()`, and `checkpw`. The salt is a parameter, the library's
      behaviour is left abstract. */
  datatype Hasher = Hasher(hash: (string, nat) -> string, verify: (string, string) -> bool)

  /** `checkpw` accepts a password against any hash made from it. */
  ghost predicate Sound(h: Hasher)
  {
    forall password, salt :: h.verify(password, h.hash(password, salt))
  }

  // ---------------------------------------------------------------------
  // validate_password_strength

  const MinLength := 8

  const TooShort := "Пароль должен содержать минимум 8 символов"
  const NoUpper := "Пароль должен содержать хотя бы одну заглавную букву"
  const NoLower := "Пароль должен содержать хотя бы одну строчную букву"
  const NoDigit := "Пароль должен содержать хотя бы одну цифру"
  const Accepted := "OK"

  datatype CharClass = Upper | Lower | Digit

  /** `str.isupper`, `str.islower` and `str.isdigit` of one character, for
      the Latin and Russian alphabets and the ASCII digits. */
  predicate InClass(c: char, k: CharClass)
  {
    match k
    case Upper => 'A' <= c <= 'Z' || '\U{0410}' <= c <= '\U{042F}' || c == '\U{0401}'
    case Lower => 'a' <= c <= 'z' || '\U{0430}' <= c <= '\U{044F}' || c == '\U{0451}'
    case Digit => '0' <= c <= '9'
  }

  /** `any(test(c) for c in password)`, scanning from the left. */
  function Any(p: string, k: CharClass): (b: bool)
    ensures b <==> exists i :: 0 <= i < |p| && InClass(p[i], k)
  {
    if |p| == 0 then false
    else
      var rest := Any(p[1..], k);
      assert forall i :: 1 <= i < |p| ==> p[i] == p[1..][i - 1];
      assert rest ==> exists i :: 1 <= i < |p| && InClass(p[i], k) by {
        if rest {
          var j :| 0 <= j < |p[1..]| && InClass(p[1..][j], k);
          assert InClass(p[j + 1], k);
        }
      }
      InClass(p[0], k) || rest
  }

  /** One requirement of the policy. */
  datatype Rule = MinimumLength | Contains(k: CharClass)

  /** The requirements in the order they are checked. */
  const Rules: seq<Rule> := [MinimumLength, Contains(Upper), Contains(Lower), Contains(Digit)]

  /** Whether a password meets a requirement: a length counted in
      characters, or at least one character of the class anywhere. */
  predicate Meets(p: string, rule: Rule)
  {
    match rule
    case MinimumLength => |p| >= MinLength
    case Contains(k) => exists i :: 0 <= i < |p| && InClass(p[i], k)
  }

  /** The message that reports a requirement as unmet. */
  function Message(rule: Rule): string
  {
    match rule
    case MinimumLength => TooShort
    case Contains(Upper) => NoUpper
    case Contains(Lower) => NoLower
    case Contains(Digit) => NoDigit
  }

  /** `validate_password_strength`: a password is accepted, with "OK",
      exactly when it meets every requirement; a rejection always carries
      a message other than "OK". */
  function ValidatePasswordStrength(p: string): (r: (bool, string))
    ensures r.0 <==> forall n :: 0 <= n < |Rules| ==> Meets(p, Rules[n])
    ensures r.0 <==> r.1 == Accepted
  {
    assert Rules[0] == MinimumLength && Rules[1] == Contains(Upper);
    assert Rules[2] == Contains(Lower) && Rules[3] == Contains(Digit);
    assert TooShort[0] != 'O' && NoUpper[0] != 'O' && NoLower[0] != 'O' && NoDigit[0] != 'O';
    if |p| < MinLength then (false, TooShort)
    else if !Any(p, Upper) then (false, NoUpper)
    else if !Any(p, Lower) then (false, NoLower)
    else if !Any(p, Digit) then (false, NoDigit)
    else (true, Accepted)
  }

  /** A rejected password is reported by the first requirement, in the order
      length, uppercase, lowercase, digit, that it does not meet. */
  lemma RejectionNamesFirstUnmet(p: string, n: nat)
    requires n < |Rules| && !Meets(p, Rules[n])
    requires forall m :: 0 <= m < n ==> Meets(p, Rules[m])
    ensures ValidatePasswordStrength(p) == (false, Message(Rules[n]))
  {
    assert Rules[0] == MinimumLength && Rules[1] == Contains(Upper);
    assert Rules[2] == Contains(Lower) && Rules[3] == Contains(Digit);
    if n > 0 {
      assert Meets(p, Rules[0]);
    }
    if n > 1 {
      assert Meets(p, Rules[1]);
    }
    if n > 2 {
      assert Meets(p, Rules[2]);
    }
  }

  /** The password of the administrator the initial data seeds, `admin`,
      would be refused by the policy as too short. */
  lemma SeededAdminPasswordWeak()
    ensures ValidatePasswordStrength("admin") == (false, TooShort)
    ensures !Meets("admin", Rules[0])
  {
    assert |"admin"| == 5;
  }

  // ---------------------------------------------------------------------
  // generate_password

  const AsciiLowercase := "abcdefghijklmnopqrstuvwxyz"
  const AsciiUppercase := "ABCDEFGHIJKLMNOPQRSTUVWXYZ"
  const AsciiDigits := "0123456789"

  /** `string.ascii_letters + string.digits + "!@#$%^&*"`. */
  const Alphabet := AsciiLowercase + AsciiUppercase + AsciiDigits + "!@#$%^&*"

  /** The default length of a generated password. */
  const DefaultLength := 12

  /** `generate_password`: `length` characters, each picked from the
      alphabet by `secrets.choice`; a negative length gives the empty
      string, as `range` does. */
  method GeneratePassword(length: int) returns (p: string)
    ensures |p| == if length < 0 then 0 else length
    ensures forall i :: 0 <= i < |p| ==> p[i] in Alphabet
  {
    p := "";
    var n := 0;
    while n < length
      invariant 0 <= n <= (if length < 0 then 0 else length) && |p| == n
      invariant forall i :: 0 <= i < |p| ==> p[i] in Alphabet
    {
      assert Alphabet[0] in Alphabet;
      var c :| c in Alphabet;
      p := p + [c];
      n := n + 1;
    }
  }

  /** A generated password need not meet the policy: every character may
      come out lowercase. */
  lemma GeneratedMayBeWeak()
    ensures var p := "aaaaaaaaaaaa";
      |p| == DefaultLength && (forall i :: 0 <= i < |p| ==> p[i] in Alphabet) &&
      ValidatePasswordStrength(p) == (false, NoUpper)
  {
    var p := "aaaaaaaaaaaa";
    assert AsciiLowercase[0] == 'a' && Alphabet[0] == AsciiLowercase[0];
    assert !Meets(p, Rules[1]);
    RejectionNamesFirstUnmet(p, 1);
  }

  // ---------------------------------------------------------------------
  // Session

  /** The defaulted copies `set_user` and `get_permissions` make of the
      five capability flags of a row. */
  function Permissions(data: Record): (p: Record)
    ensures KeysOf(p) == FlagNames && IsDict(p)
    ensures forall k :: Get(p, k) == if k in FlagNames then Some(GetOr(data, k, False)) else None
  {
    assert FlagNames[0][4] == 'r' && FlagNames[1][4] == 'w' && FlagNames[2][4] == 'd';
    assert FlagNames[3][4] == 'a' && FlagNames[4][4] == 'a' && FlagNames[3][5] != FlagNames[4][5];
    FlagsFrom(data, FlagNames)
  }

  /** The named entries of a row, each defaulting to False, in the order
      given. */
  function FlagsFrom(data: Record, names: seq<string>): (p: Record)
    requires forall i, j :: 0 <= i < j < |names| ==> names[i] != names[j]
    ensures KeysOf(p) == names && IsDict(p)
    ensures forall k :: Get(p, k) == if k in names then Some(GetOr(data, k, False)) else None
  {
    if |names| == 0 then []
    else
      var rest := FlagsFrom(data, names[1..]);
      var p := [(names[0], GetOr(data, names[0], False))] + rest;
      assert p[1..] == rest;
      assert forall k :: k in names <==> k == names[0] || k in names[1..];
      assert names[0] !in names[1..];
      p
  }

  /** The user id, user name, role id and role name of a login row, as
      `dict.get` reads them: None for a missing column. */
  function Identity(data: Record): (Value, Value, Value, Value)
  {
    (GetOr(data, IdColumn, Null), GetOr(data, UsernameColumn, Null),
     GetOr(data, RoleIdColumn, Null), GetOr(data, RoleNameColumn, Null))
  }

  /** The logged-in user: the columns of the login row the application
      keeps, the user's capabilities, and when the login happened. */
  class Session {
    var userId: Value
    var username: Value
    var roleId: Value
    var roleName: Value
    var permissions: Record
    var loginTime: Value

    /** A session before anyone logs in. */
    constructor ()
      ensures !IsAuthenticated() && permissions == []
      ensures username == Null && roleId == Null && roleName == Null && loginTime == Null
    {
      userId := Null;
      username := Null;
      roleId := Null;
      roleName := Null;
      permissions := [];
      loginTime := Null;
    }

    /** `set_user`: the four identity columns are copied with `dict.get`,
        so a missing one becomes None; exactly the five flags are kept, each
        False when missing; `now` is the clock reading of the login. */
    method SetUser(userData: Record, now: int)
      modifies this
      ensures (userId, username, roleId, roleName) == Identity(userData)
      ensures permissions == Permissions(userData) && loginTime == Stamp(now)
      ensures IsAuthenticated() <==> Has(userData, IdColumn) && Get(userData, IdColumn) != Some(Null)
      ensures forall p :: HasPermission(p) == if p in FlagNames then GetOr(userData, p, False) else False
    {
      var (id, name, role, roleTitle) := Identity(userData);
      userId := id;
      username := name;
      roleId := role;
      roleName := roleTitle;
      permissions := Permissions(userData);
      loginTime := Stamp(now);
    }

    /** `clear`: back to the state of a new session. */
    method Clear()
      modifies this
      ensures !IsAuthenticated() && permissions == []
      ensures username == Null && roleId == Null && roleName == Null && loginTime == Null
      ensures forall p :: HasPermission(p) == False
    {
      userId := Null;
      username := Null;
      roleId := Null;
      roleName := Null;
      permissions := [];
      loginTime := Null;
    }

    /** `has_permission`: the stored flag, or False for a name that is not
        stored. */
    function HasPermission(name: string): (v: Value)
      reads this
      ensures !Has(permissions, name) ==> v == False
      ensures Has(permissions, name) ==> Get(permissions, name) == Some(v)
    {
      GetOr(permissions, name, False)
    }

    /** `is_authenticated`: a user id is held. */
    predicate IsAuthenticated()
      reads this
    {
      userId != Null
    }
  }
}
