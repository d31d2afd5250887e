/** The custom user manager and the permission hooks of the user model
    (core/models.py): the email guard of `create_user`, the defaults and the
    three `is True` checks of `create_superuser`, and `has_perm` /
    `has_module_perms`. Hashing and saving are left abstract: a created user is
    the record the manager would hand to the model constructor. */
module Accounts {
  import opened Wrappers

  /** The Python values a keyword argument may carry. */
  datatype PyValue = PyNone | PyBool(b: bool) | PyInt(i: int) | PyStr(s: string)

  /** `**extra_fields`. */
  type Fields = map<string, PyValue>

  const True: PyValue := PyBool(true)
  const False: PyValue := PyBool(false)

  const EmailRequired := "The Email must be set"
  const StaffRequired := "Superuser must have is_staff=True."
  const AdminRequired := "Superuser must have is_admin=True."
  const SuperuserRequired := "Superuser must have is_superuser=True."

  /** `ValueError(message)`. */
  datatype Error = ValueError(message: string)

  /** Python binds `email` and `password` to their own parameters, so neither
      name can reach `**extra_fields`. */
  predicate KeywordFields(extra: Fields) {
    "email" !in extra && "password" !in extra
  }

  /** What `create_user` passes on: the normalised email, the password given to
      `set_password`, and the remaining keyword arguments. */
  datatype NewUser = NewUser(email: string, password: Option<string>, extraFields: Fields)

  /** `not email` for `None` or a string. */
  predicate Falsy(email: Option<string>) {
    email.None? || email.value == ""
  }

  /** `CustomUserManager.create_user`, with `normalize_email` as a parameter. */
  function CreateUser(email: Option<string>, password: Option<string>, extraFields: Fields,
                      normalizeEmail: string -> string): (r: Result<NewUser, Error>)
    requires KeywordFields(extraFields)
    ensures r.Failure? <==> Falsy(email)
    ensures r.Failure? ==> r == Failure(ValueError(EmailRequired))
    ensures r.Success? ==>
      r.value.email == normalizeEmail(email.value) && r.value.password == password && r.value.extraFields == extraFields
  {
    if Falsy(email) then Failure(ValueError(EmailRequired))
    else Success(NewUser(normalizeEmail(email.value), password, extraFields))
  }

  /** `dict.setdefault(key, value)`, on the dictionary it changes. */
  function SetDefault(m: Fields, key: string, value: PyValue): (r: Fields)
    ensures key in r && r[key] == (if key in m then m[key] else value)
    ensures forall k :: k in m ==> k in r && r[k] == m[k]
    ensures forall k :: k in r ==> k in m || k == key
  {
    if key in m then m else m[key := value]
  }

  /** The keyword arguments after the four `setdefault` calls. */
  function SuperuserFields(extra: Fields): Fields {
    SetDefault(SetDefault(SetDefault(SetDefault(extra, "is_staff", True), "is_admin", True), "is_superuser", True), "is_active", True)
  }

  /** `extra_fields.get(key) is not True`, after the defaults are in place. */
  predicate NotTrue(extra: Fields, key: string) {
    key in extra && extra[key] != True
  }

  /** The three flags `create_superuser` insists on, in the order it checks them. */
  predicate FlagsRejected(extra: Fields) {
    NotTrue(extra, "is_staff") || NotTrue(extra, "is_admin") || NotTrue(extra, "is_superuser")
  }

  /** The defaults fill in each missing flag with `True`, keep every value the
      caller gave, and add no other key. */
  lemma SuperuserFieldsFacts(extra: Fields)
    ensures forall k :: k in ["is_staff", "is_admin", "is_superuser", "is_active"] ==>
      k in SuperuserFields(extra) && SuperuserFields(extra)[k] == (if k in extra then extra[k] else True)
    ensures forall k :: k in extra ==> k in SuperuserFields(extra) && SuperuserFields(extra)[k] == extra[k]
    ensures forall k :: k in SuperuserFields(extra) ==>
      k in extra || k in ["is_staff", "is_admin", "is_superuser", "is_active"]
  {
  }

  /** `CustomUserManager.create_superuser`. */
  method CreateSuperuser(email: Option<string>, password: Option<string>, extraFields: Fields,
                         normalizeEmail: string -> string) returns (r: Result<NewUser, Error>)
    requires KeywordFields(extraFields)
    ensures r.Failure? <==> FlagsRejected(extraFields) || Falsy(email)
    ensures !FlagsRejected(extraFields) && Falsy(email) ==> r == Failure(ValueError(EmailRequired))
    ensures NotTrue(extraFields, "is_staff") ==> r == Failure(ValueError(StaffRequired))
    ensures !NotTrue(extraFields, "is_staff") && NotTrue(extraFields, "is_admin") ==>
      r == Failure(ValueError(AdminRequired))
    ensures !NotTrue(extraFields, "is_staff") && !NotTrue(extraFields, "is_admin") && NotTrue(extraFields, "is_superuser") ==>
      r == Failure(ValueError(SuperuserRequired))
    ensures !FlagsRejected(extraFields) ==>
      r == CreateUser(email, password, SuperuserFields(extraFields), normalizeEmail)
  {
    var fields := extraFields;
    fields := SetDefault(fields, "is_staff", True);
    fields := SetDefault(fields, "is_admin", True);
    fields := SetDefault(fields, "is_superuser", True);
    fields := SetDefault(fields, "is_active", True);
    assert fields == SuperuserFields(extraFields);
    SuperuserFieldsFacts(extraFields);
    if fields["is_staff"] != True {
      return Failure(ValueError(StaffRequired));
    }
    if fields["is_admin"] != True {
      return Failure(ValueError(AdminRequired));
    }
    if fields["is_superuser"] != True {
      return Failure(ValueError(SuperuserRequired));
    }
    r := CreateUser(email, password, fields, normalizeEmail);
  }

  /** The flags of a `User` row. */
  datatype User = User(email: string, isActive: PyValue, isStaff: PyValue, isAdmin: PyValue, isSuperuser: PyValue)

  function FieldOr(m: Fields, key: string, default: PyValue): PyValue {
    if key in m then m[key] else default
  }

  /** The model constructor: each flag is the given keyword argument or the
      field's default (`is_active` True, the other three False). */
  function UserOf(n: NewUser): (u: User)
    ensures u.email == n.email
    ensures "is_active" !in n.extraFields ==> u.isActive == True
    ensures "is_admin" !in n.extraFields ==> u.isAdmin == False
    ensures "is_staff" !in n.extraFields ==> u.isStaff == False
    ensures "is_superuser" !in n.extraFields ==> u.isSuperuser == False
    ensures "is_active" in n.extraFields ==> u.isActive == n.extraFields["is_active"]
    ensures "is_admin" in n.extraFields ==> u.isAdmin == n.extraFields["is_admin"]
    ensures "is_staff" in n.extraFields ==> u.isStaff == n.extraFields["is_staff"]
    ensures "is_superuser" in n.extraFields ==> u.isSuperuser == n.extraFields["is_superuser"]
  {
    User(n.email,
         FieldOr(n.extraFields, "is_active", True),
         FieldOr(n.extraFields, "is_staff", False),
         FieldOr(n.extraFields, "is_admin", False),
         FieldOr(n.extraFields, "is_superuser", False))
  }

  /** `User.has_perm`: the answer is the user's `is_admin` flag, whatever the
      permission and the object. */
  function HasPerm(u: User, perm: string, obj: Option<PyValue>): PyValue {
    u.isAdmin
  }

  /** `User.has_module_perms`. */
  function HasModulePerms(u: User, appLabel: string): (r: bool)
    ensures r
  {
    true
  }

  /** `has_perm` depends on the user alone. */
  lemma HasPermIgnoresRequest(u: User, perm1: string, obj1: Option<PyValue>, perm2: string, obj2: Option<PyValue>)
    ensures HasPerm(u, perm1, obj1) == HasPerm(u, perm2, obj2)
    ensures HasPerm(u, perm1, obj1) == True <==> u.isAdmin == True
  {
  }

  /** A user that `create_user` makes without flags has no permission at all. */
  lemma PlainUserHasNoPerm(email: Option<string>, password: Option<string>, normalizeEmail: string -> string,
                           perm: string, obj: Option<PyValue>)
    requires !Falsy(email)
    ensures CreateUser(email, password, map[], normalizeEmail).Success?
    ensures HasPerm(UserOf(CreateUser(email, password, map[], normalizeEmail).value), perm, obj) == False
  {
  }

  /** Every user `create_superuser` creates is staff, admin and superuser, and so
      holds every permission. */
  lemma SuperuserHasEveryPerm(email: Option<string>, password: Option<string>, extraFields: Fields,
                              normalizeEmail: string -> string, perm: string, obj: Option<PyValue>)
    requires KeywordFields(extraFields) && !FlagsRejected(extraFields) && !Falsy(email)
    ensures KeywordFields(SuperuserFields(extraFields))
    ensures CreateUser(email, password, SuperuserFields(extraFields), normalizeEmail).Success?
    ensures var u := UserOf(CreateUser(email, password, SuperuserFields(extraFields), normalizeEmail).value);
      u.isStaff == True && u.isAdmin == True && u.isSuperuser == True && HasPerm(u, perm, obj) == True
  {
    SuperuserFieldsFacts(extraFields);
  }

  /** `is_active` is defaulted but never checked: a superuser may be created
      inactive. */
  lemma InactiveSuperuserAccepted(extraFields: Fields)
    requires !FlagsRejected(extraFields)
    ensures !FlagsRejected(extraFields["is_active" := False])
    ensures SuperuserFields(extraFields["is_active" := False])["is_active"] == False
  {
  }

  /** `is not True` is an identity test: a truthy value other than `True` is
      refused. */
  lemma TruthyIsNotTrue(extraFields: Fields)
    ensures FlagsRejected(extraFields["is_staff" := PyInt(1)])
    ensures FlagsRejected(extraFields["is_admin" := PyStr("True")])
  {
  }
}
