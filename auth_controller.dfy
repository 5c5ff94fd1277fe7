/** Registration, login and the caller's own profile
    (backend/src/controllers/authController.ts). */
module AuthController {
  import opened Common
  import opened Sequences
  import opened Store
  import opened Credentials

  /** validator's `isEmail` with its default options: at most 254 UTF-16
      units; the text after the last '@' is a domain name of at most 254 bytes
      and the text before it a local part of at most 64 bytes, both in UTF-8. */
  predicate IsEmail(s: string) {
    Utf16Length(s) <= 254 &&
    match LastIndexOf(s, '@')
    case None => false
    case Some(i) =>
      Utf8Length(s[..i]) <= 64 && Utf8Length(s[i + 1..]) <= 254 && IsDomainName(s[i + 1..]) && IsLocalPart(s[..i])
  }

  /** `String.prototype.split` on a one-character separator. */
  function Split(s: string, sep: char): (parts: seq<string>)
    ensures |parts| >= 1
    ensures forall j :: 0 <= j < |parts| ==> forall k :: 0 <= k < |parts[j]| ==> parts[j][k] != sep
  {
    if s == [] then [""]
    else
      var rest := Split(s[1..], sep);
      if s[0] == sep then [""] + rest
      else [[s[0]] + rest[0]] + rest[1..]
  }

  /** Joining the parts with the separator gives the string back. */
  lemma {:induction false} SplitJoin(s: string, sep: char)
    ensures Join(Split(s, sep), [sep]) == s
  {
    if s != [] {
      var rest := Split(s[1..], sep);
      SplitJoin(s[1..], sep);
      if s[0] == sep {
        assert ([""] + rest)[1..] == rest;
      } else if |rest| > 1 {
        var parts := [[s[0]] + rest[0]] + rest[1..];
        assert parts[1..] == rest[1..];
        ConcatAssoc([s[0]], rest[0], [sep] + Join(rest[1..], [sep]));
        ConcatAssoc(rest[0], [sep], Join(rest[1..], [sep]));
        ConcatAssoc([s[0]] + rest[0], [sep], Join(rest[1..], [sep]));
      }
      assert s == [s[0]] + s[1..];
    }
  }

  /** A character of the local-part pattern (`allow_utf8_local_part`): an
      ASCII letter, digit or symbol, or a character of
      the three ranges of the Basic Multilingual Plane the pattern lists. */
  predicate IsLocalChar(c: char) {
    ('a' <= c <= 'z') || ('A' <= c <= 'Z') || ('0' <= c <= '9') || IsLocalSymbol(c) ||
    ('\U{00A1}' <= c <= '\U{D7FF}') || ('\U{F900}' <= c <= '\U{FDCF}') || ('\U{FDF0}' <= c <= '\U{FFEF}')
  }

  /** One of the symbols ``!#$%&'*+-/=?^_`{|}~``. */
  predicate IsLocalSymbol(c: char) {
    c == '!' || c == '#' || c == '$' || c == '%' || c == '&' || c == '\'' || c == '*' || c == '+' || c == '-' ||
    c == '/' || c == '=' || c == '?' || c == '^' || c == '_' || c == '`' || c == '{' || c == '|' || c == '}' || c == '~'
  }

  /** Every dot-separated part of the local part is a non-empty run of local-part characters. */
  predicate IsLocalPart(u: string) {
    var parts := Split(u, '.');
    forall j :: 0 <= j < |parts| ==> |parts[j]| >= 1 && forall k :: 0 <= k < |parts[j]| ==> IsLocalChar(parts[j][k])
  }

  /** `isFQDN` with its defaults: at least two labels, a top-level label of
      letters or an `xn--` form, and every label acceptable. */
  predicate IsDomainName(d: string) {
    var labels := Split(d, '.');
    |labels| >= 2 && IsTopLabel(labels[|labels| - 1]) &&
    forall j :: 0 <= j < |labels| ==> IsLabel(labels[j])
  }

  /** A character of `[a-z\u00A1-\u00A8\u00AA-\uD7FF\uF900-\uFDCF\uFDF0-\uFFEF]`, case-insensitively. */
  predicate IsTopChar(c: char) {
    ('a' <= c <= 'z') || ('A' <= c <= 'Z') || ('\U{00A1}' <= c <= '\U{00A8}') || ('\U{00AA}' <= c <= '\U{D7FF}') ||
    ('\U{F900}' <= c <= '\U{FDCF}') || ('\U{FDF0}' <= c <= '\U{FFEF}')
  }

  /** The white space of the JavaScript class `\s` that the top-level pattern admits. */
  predicate IsWideSpace(c: char) {
    c == '\U{1680}' || ('\U{2000}' <= c <= '\U{200A}') || c == '\U{2028}' || c == '\U{2029}' || c == '\U{202F}' ||
    c == '\U{205F}' || c == '\U{3000}' || c == '\U{FEFF}'
  }

  predicate IsPunycodeChar(c: char) {
    ('a' <= c <= 'z') || ('A' <= c <= 'Z') || ('0' <= c <= '9') || c == '-'
  }

  /** The top-level label: two or more letters, or `xn` and two or more of
      `[a-z0-9-]`, and no white space. */
  predicate IsTopLabel(t: string) {
    ((|t| >= 2 && forall k :: 0 <= k < |t| ==> IsTopChar(t[k])) ||
     (|t| >= 4 && (t[0] == 'x' || t[0] == 'X') && (t[1] == 'n' || t[1] == 'N') && forall k :: 2 <= k < |t| ==> IsPunycodeChar(t[k]))) &&
    forall k :: 0 <= k < |t| ==> !IsWideSpace(t[k])
  }

  /** A label: 1 to 63 UTF-16 units of letters, digits, '-' or characters from
      U+00A1 on, no full-width form U+FF01 to U+FF5E, no '_', and no '-' at
      either end. */
  predicate IsLabel(p: string) {
    1 <= |p| && Utf16Length(p) <= 63 && p[0] != '-' && p[|p| - 1] != '-' &&
    forall k :: 0 <= k < |p| ==>
      (('a' <= p[k] <= 'z') || ('A' <= p[k] <= 'Z') || ('0' <= p[k] <= '9') || p[k] == '-' || p[k] >= '\U{00A1}') &&
      !('\U{FF01}' <= p[k] <= '\U{FF5E}')
  }

  /** A one-letter top-level label is refused. */
  lemma ShortTopLabelRefused()
    ensures !IsEmail("a@b.c")
  {
    var s := "a@b.c";
    assert s[..4] == "a@b." && "a@b."[..3] == "a@b" && "a@b"[..2] == "a@";
    assert LastIndexOf("a@b", '@') == Some(1);
    assert LastIndexOf(s, '@') == Some(1);
    assert s[2..] == "b.c" && "b.c"[1..] == ".c";
    var labels := Split("b.c", '.');
    assert "c"[1..] == "" && ['c'] + "" == "c";
    assert Split("c", '.') == ["c"];
    assert Split(".c", '.') == ["", "c"];
    assert labels[1] == "c";
    assert !IsTopLabel(labels[|labels| - 1]);
  }

  /** An empty part between two dots of the local part is refused. */
  lemma EmptyAtomRefused()
    ensures !IsEmail("a..b@x.com")
  {
    var s := "a..b@x.com";
    SampleLastAt();
    assert s[..4] == "a..b" && "a..b"[1..] == "..b";
    var parts := Split("a..b", '.');
    assert parts[1] == Split("..b", '.')[0] == "";
  }

  lemma SampleLastAt()
    ensures LastIndexOf("a..b@x.com", '@') == Some(4)
    ensures LastIndexOf("j.d@x.io", '@') == Some(3)
  {
    assert "a..b@x.com"[..9] == "a..b@x.co" && "a..b@x.co"[..8] == "a..b@x.c" && "a..b@x.c"[..7] == "a..b@x.";
    assert "a..b@x."[..6] == "a..b@x" && "a..b@x"[..5] == "a..b@";
    assert LastIndexOf("a..b@x.c", '@') == Some(4);
    assert "j.d@x.io"[..7] == "j.d@x.i" && "j.d@x.i"[..6] == "j.d@x." && "j.d@x."[..5] == "j.d@x" && "j.d@x"[..4] == "j.d@";
    assert LastIndexOf("j.d@x.i", '@') == Some(3);
  }

  /** A plain address passes. */
  lemma PlainAddressAccepted()
    ensures IsEmail("j.d@x.io")
  {
    var s := "j.d@x.io";
    SampleLastAt();
    assert s[..3] == "j.d" && s[4..] == "x.io";
    SampleDomain();
    SampleLocalPart();
  }

  lemma SampleDomain()
    ensures IsDomainName("x.io")
  {
    assert "x.io"[1..] == ".io" && ".io"[1..] == "io" && "io"[1..] == "o" && "o"[1..] == [];
    assert ['o'] + "" == "o" && ['i'] + "o" == "io" && ['x'] + "" == "x";
    assert Split("io", '.') == ["io"];
    assert Split(".io", '.') == ["", "io"];
    var labels := Split("x.io", '.');
    assert labels == ["x", "io"];
    SampleLabels();
    assert IsLabel(labels[0]) && IsLabel(labels[1]) && IsTopLabel(labels[1]);
  }

  lemma SampleLabels()
    ensures IsLabel("x") && IsLabel("io") && IsTopLabel("io")
  {
    assert Utf16Length("io") == 2;
  }

  lemma SampleLocalPart()
    ensures IsLocalPart("j.d")
  {
    assert "j.d"[1..] == ".d" && ".d"[1..] == "d" && "d"[1..] == [];
    assert ['d'] + "" == "d" && ['j'] + "" == "j";
    assert Split("j.d", '.') == ["j", "d"];
  }

  /** `/^[a-zA-Z0-9_]+$/`. */
  predicate IsUsernameText(s: string) {
    |s| >= 1 && forall k :: 0 <= k < |s| ==> IsWordChar(s[k])
  }

  /** `registerValidation`: the messages of every failing check, in the order
      the checks are declared. */
  function RegisterErrors(email: Option<string>, username: Option<string>, password: Option<string>): (errs: seq<string>)
    ensures errs == [] <==>
      IsEmail(Text(email)) && 3 <= ValidatorLength(Text(username)) <= 30 && IsUsernameText(Text(username)) &&
      ValidatorLength(Text(password)) >= 6
    ensures !IsEmail(Text(email)) ==> errs[0] == "Invalid email address"
  {
    var e, u, p := Text(email), Text(username), Text(password);
    Check(IsEmail(e), "Invalid email address") +
    Check(3 <= ValidatorLength(u) <= 30, "Username must be between 3 and 30 characters") +
    Check(IsUsernameText(u), "Username can only contain letters, numbers, and underscores") +
    Check(ValidatorLength(p) >= 6, "Password must be at least 6 characters")
  }


  /** `loginValidation`. */
  function LoginErrors(email: Option<string>, password: Option<string>): (errs: seq<string>)
    ensures errs == [] <==> IsEmail(Text(email)) && Text(password) != ""
  {
    Check(IsEmail(Text(email)), "Invalid email address") + Check(Text(password) != "", "Password is required")
  }

  /** The optional name fields after the validator's `trim()` and `|| null`. */
  function ProfileName(o: Option<string>): (r: Option<string>)
    ensures r.Some? <==> o.Some? && Trim(o.value) != ""
    ensures r.Some? ==> r.value == Trim(o.value)
  {
    if o.Some? then OrNull(Some(Trim(o.value))) else None
  }

  datatype Session = Session(token: string, user: User)

  /** `findFirst` over `OR: [{ email }, { username }]`: the first user, in
      table order, holding the e-mail or the user name. */
  function Clash(users: seq<User>, e: string, n: string): (r: Option<User>)
    ensures r.None? <==> !HasKey(users, UserEmail, e) && !HasKey(users, UserName, n)
    ensures r.Some? ==> r.value in users && (r.value.email == e || r.value.username == n)
  {
    if users == [] then None
    else if users[0].email == e || users[0].username == n then Some(users[0])
    else Clash(users[1..], e, n)
  }

  /** The answer to a clash: the e-mail is blamed when the clashing user has
      it, the user name otherwise. */
  function ClashMessage(u: User, e: string): (m: string)
    ensures u.email == e <==> m == "Email already registered"
    ensures u.email != e <==> m == "Username already taken"
  {
    if u.email == e then "Email already registered" else "Username already taken"
  }

  /** `register`. `newId` and `now` are the id and the creation time the
      store assigns. */
  method Register(db: Db, email: Option<string>, username: Option<string>, password: Option<string>,
                  firstName: Option<string>, lastName: Option<string>, newId: Id, now: Time)
    returns (r: Response<Session>)
    requires db.Valid()
    modifies db
    ensures db.Valid()
    ensures RegisterErrors(email, username, password) != [] ==>
      r == Invalid(RegisterErrors(email, username, password)) && db.Snapshot() == old(db.Snapshot())
    ensures RegisterErrors(email, username, password) == [] && Clash(old(db.users), Text(email), Text(username)).Some? ==>
      r == Err(400, ClashMessage(Clash(old(db.users), Text(email), Text(username)).value, Text(email))) &&
      db.Snapshot() == old(db.Snapshot())
    ensures RegisterErrors(email, username, password) == [] && Clash(old(db.users), Text(email), Text(username)).None? ==>
      (r.Ok? <==> !old(db.HasUser(newId)))
    ensures r.Err? && r.status == 500 ==> r.message == "Registration failed" && db.Snapshot() == old(db.Snapshot())
    ensures r.Ok? ==>
      r.status == 201 &&
      r.value.user == User(newId, Text(email), Text(username), Some(HashPassword(Text(password))),
                           ProfileName(firstName), ProfileName(lastName), None, None, Offline, None, now) &&
      r.value.token == GenerateToken(newId) &&
      db.Snapshot() == old(db.Snapshot()).(users := old(db.users) + [r.value.user])
    ensures r.Ok? || r.Invalid? || (r.Err? && r.status in {400, 500})
  {
    var errs := RegisterErrors(email, username, password);
    if errs != [] {
      return Invalid(errs);
    }
    r := CreateAccount(db, Text(email), Text(username), Text(password), firstName, lastName, newId, now);
  }

  /** The part of `register` after validation: an e-mail or user name in use
      is refused, otherwise the user is stored with the hashed password. */
  method CreateAccount(db: Db, e: string, n: string, password: string,
                       firstName: Option<string>, lastName: Option<string>, newId: Id, now: Time)
    returns (r: Response<Session>)
    requires db.Valid()
    modifies db
    ensures db.Valid()
    ensures Clash(old(db.users), e, n).Some? ==>
      r == Err(400, ClashMessage(Clash(old(db.users), e, n).value, e)) && db.Snapshot() == old(db.Snapshot())
    ensures Clash(old(db.users), e, n).None? ==> (r.Ok? <==> !old(db.HasUser(newId)))
    ensures r.Err? && r.status == 500 ==> r.message == "Registration failed" && db.Snapshot() == old(db.Snapshot())
    ensures r.Ok? ==>
      r.status == 201 &&
      r.value.user == User(newId, e, n, Some(HashPassword(password)),
                           ProfileName(firstName), ProfileName(lastName), None, None, Offline, None, now) &&
      r.value.token == GenerateToken(newId) &&
      db.Snapshot() == old(db.Snapshot()).(users := old(db.users) + [r.value.user])
    ensures r.Ok? || (r.Err? && r.status in {400, 500})
  {
    var clash := Clash(db.users, e, n);
    if clash.Some? {
      return Err(400, ClashMessage(clash.value, e));
    }
    if db.HasUser(newId) {
      return Err(500, "Registration failed");
    }
    var user := User(newId, e, n, Some(HashPassword(password)),
                     ProfileName(firstName), ProfileName(lastName), None, None, Offline, None, now);
    db.AddUser(user);
    r := Ok(201, Session(GenerateToken(newId), user));
  }

  /** `login`: every way of failing to authenticate gives the same answer. */
  method Login(db: Db, email: Option<string>, password: Option<string>, now: Time)
    returns (r: Response<Session>)
    requires db.Valid()
    modifies db
    ensures db.Valid()
    ensures LoginErrors(email, password) != [] ==>
      r == Invalid(LoginErrors(email, password)) && db.Snapshot() == old(db.Snapshot())
    ensures LoginErrors(email, password) == [] ==>
      match Find(old(db.users), UserEmail, Text(email))
      case None => r == Err(401, "Invalid credentials") && db.Snapshot() == old(db.Snapshot())
      case Some(u) =>
        if u.password.None? || !ComparePassword(Text(password), u.password.value) then
          r == Err(401, "Invalid credentials") && db.Snapshot() == old(db.Snapshot())
        else
          r == Ok(200, Session(GenerateToken(u.id), u)) &&
          db.Snapshot() == old(db.Snapshot()).(users := SetPresence(old(db.users), u.id, Online, now))
  {
    var errs := LoginErrors(email, password);
    if errs != [] {
      return Invalid(errs);
    }
    r := Authenticate(db, Text(email), Text(password), now);
  }

  /** The part of `login` after validation: the user with that e-mail, if
      any, is checked against the stored hash and set online. */
  method Authenticate(db: Db, email: string, password: string, now: Time) returns (r: Response<Session>)
    requires db.Valid()
    modifies db
    ensures db.Valid()
    ensures match Find(old(db.users), UserEmail, email)
      case None => r == Err(401, "Invalid credentials") && db.Snapshot() == old(db.Snapshot())
      case Some(u) =>
        if u.password.None? || !ComparePassword(password, u.password.value) then
          r == Err(401, "Invalid credentials") && db.Snapshot() == old(db.Snapshot())
        else
          r == Ok(200, Session(GenerateToken(u.id), u)) &&
          db.Snapshot() == old(db.Snapshot()).(users := SetPresence(old(db.users), u.id, Online, now))
  {
    var found := Find(db.users, UserEmail, email);
    if found.None? || found.value.password.None? {
      return Err(401, "Invalid credentials");
    }
    var u := found.value;
    if !ComparePassword(password, u.password.value) {
      return Err(401, "Invalid credentials");
    }
    SetPresenceValid(db.users, u.id, Online, now);
    db.users := SetPresence(db.users, u.id, Online, now);
    r := Ok(200, Session(GenerateToken(u.id), u));
  }

  /** `getMe`. */
  method GetMe(db: Db, caller: Id) returns (r: Response<User>)
    ensures r.Err? <==> !db.HasUser(caller)
    ensures r.Err? ==> r == Err(404, "User not found")
    ensures r.Ok? ==> r.status == 200 && r.value in db.users && r.value.id == caller
  {
    var found := Find(db.users, UserKey, caller);
    if found.None? {
      return Err(404, "User not found");
    }
    r := Ok(200, found.value);
  }

  /** `updateProfile`: only the four profile fields can change, and a field
      left out of the body keeps its value. */
  method UpdateProfile(db: Db, caller: Id, firstName: Field<Option<string>>, lastName: Field<Option<string>>,
                       avatar: Field<Option<string>>, customStatus: Field<Option<string>>)
    returns (r: Response<User>)
    requires db.Valid()
    modifies db
    ensures db.Valid()
    ensures !old(db.HasUser(caller)) ==> r == Err(500, "Failed to update profile") && db.Snapshot() == old(db.Snapshot())
    ensures old(db.HasUser(caller)) ==>
      var u := Find(old(db.users), UserKey, caller).value;
      r == Ok(200, Patched(u, firstName, lastName, avatar, customStatus)) &&
      db.Snapshot() == old(db.Snapshot()).(users := ProfileUpdated(old(db.users), caller, firstName, lastName, avatar, customStatus))
  {
    var found := Find(db.users, UserKey, caller);
    if found.None? {
      return Err(500, "Failed to update profile");
    }
    ProfileUpdatedValid(db.users, caller, firstName, lastName, avatar, customStatus);
    db.users := ProfileUpdated(db.users, caller, firstName, lastName, avatar, customStatus);
    r := Ok(200, Patched(found.value, firstName, lastName, avatar, customStatus));
  }

  /** The users table after `updateProfile`: the caller's row is patched, every other row kept. */
  function ProfileUpdated(users: seq<User>, caller: Id, firstName: Field<Option<string>>, lastName: Field<Option<string>>,
                          avatar: Field<Option<string>>, customStatus: Field<Option<string>>): (r: seq<User>)
    ensures |r| == |users|
    ensures forall i :: 0 <= i < |users| ==>
      r[i] == if users[i].id == caller then Patched(users[i], firstName, lastName, avatar, customStatus) else users[i]
  {
    MapWhere(users, (x: User) => x.id == caller, (x: User) => Patched(x, firstName, lastName, avatar, customStatus))
  }

  /** A profile update touches neither the id nor the unique columns. */
  lemma ProfileUpdatedValid(users: seq<User>, caller: Id, firstName: Field<Option<string>>, lastName: Field<Option<string>>,
                            avatar: Field<Option<string>>, customStatus: Field<Option<string>>)
    requires KeysDistinct(users, UserKey) && KeysDistinct(users, UserEmail) && KeysDistinct(users, UserName)
    ensures var r := ProfileUpdated(users, caller, firstName, lastName, avatar, customStatus);
      KeysDistinct(r, UserKey) && KeysDistinct(r, UserEmail) && KeysDistinct(r, UserName)
    ensures forall k :: HasKey(ProfileUpdated(users, caller, firstName, lastName, avatar, customStatus), UserKey, k) <==>
      HasKey(users, UserKey, k)
  {
    var sel := (x: User) => x.id == caller;
    var f := (x: User) => Patched(x, firstName, lastName, avatar, customStatus);
    MapWhereKeepsHasKey(users, sel, f, UserKey);
    MapWhereKeepsKeys(users, sel, f, UserKey);
    MapWhereKeepsKeys(users, sel, f, UserEmail);
    MapWhereKeepsKeys(users, sel, f, UserName);
  }

  /** The row `updateProfile` writes. */
  function Patched(u: User, firstName: Field<Option<string>>, lastName: Field<Option<string>>,
                   avatar: Field<Option<string>>, customStatus: Field<Option<string>>): (v: User)
    ensures v.(firstName := u.firstName, lastName := u.lastName, avatar := u.avatar, customStatus := u.customStatus) == u
    ensures firstName.Absent? ==> v.firstName == u.firstName
    ensures lastName.Absent? ==> v.lastName == u.lastName
    ensures avatar.Absent? ==> v.avatar == u.avatar
    ensures customStatus.Absent? ==> v.customStatus == u.customStatus
    ensures firstName.Present? ==> v.firstName == firstName.value
    ensures lastName.Present? ==> v.lastName == lastName.value
    ensures avatar.Present? ==> v.avatar == avatar.value
    ensures customStatus.Present? ==> v.customStatus == customStatus.value
  {
    u.(firstName := Assign(u.firstName, firstName), lastName := Assign(u.lastName, lastName),
       avatar := Assign(u.avatar, avatar), customStatus := Assign(u.customStatus, customStatus))
  }
}
